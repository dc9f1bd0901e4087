/** Least-recently-used eviction of unpinned rows: the windowed DELETE and its target. */
module Eviction {
  import opened Wrappers
  import opened Tables

  const EVICTION_HYSTERESIS_BYTES: int := 64 * 1024 * 1024

  function EvictionTarget(cap: int): int {
    if cap >= EVICTION_HYSTERESIS_BYTES * 2 then
      cap - if EVICTION_HYSTERESIS_BYTES < cap / 100 then EVICTION_HYSTERESIS_BYTES else cap / 100
    else
      cap
  }

  /** `ORDER BY last_access ASC, rowid ASC`. */
  predicate Before(a: Row, b: Row) {
    a.lastAccess < b.lastAccess || (a.lastAccess == b.lastAccess && a.rowid < b.rowid)
  }

  /** The unpinned rows the window sums before the row at `k`. */
  function Older(t: map<Key, Row>, k: Key): set<Key>
    requires k in t
  {
    set o | o in t && !t[o].pinned && Before(t[o], t[k])
  }

  /** The rows whose running prior is under the deficit. */
  ghost function Victims(t: map<Key, Row>, toFree: int): set<Key> {
    set k | k in t && !t[k].pinned && Sum(t, Older(t, k)) < toFree
  }

  /** `evict_unpinned_within`, with the deficit measured from the exact total. */
  ghost function Evicted(db: Db, target: int): Db {
    Without(db, Victims(db.tiles, TotalBytes(db) - target))
  }

  /** `evict_to`: nothing under the cap, otherwise down to the hysteresis target. */
  ghost function EvictTo(db: Db, cap: int): Db {
    if TotalBytes(db) <= cap then db else Evicted(db, EvictionTarget(cap))
  }

  // ----- the victims are the shortest sufficient prefix -----

  /** A set of unpinned rows that holds every unpinned row older than one of its own. */
  ghost predicate OldestFirst(t: map<Key, Row>, ks: set<Key>) {
    && ks <= UnpinnedKeys(t)
    && forall k, o :: k in ks && o in UnpinnedKeys(t) && Before(t[o], t[k]) ==> o in ks
  }

  lemma {:induction false} OldestExists(t: map<Key, Row>, ks: set<Key>) returns (oldest: Key)
    requires ks != {} && ks <= t.Keys
    ensures oldest in ks && forall k :: k in ks ==> !Before(t[k], t[oldest])
    decreases ks
  {
    oldest := Pick(ks);
    if ks == {oldest} {
    } else {
      var other := OldestExists(t, ks - {oldest});
      if Before(t[other], t[oldest]) {
        oldest := other;
      }
    }
  }

  lemma VictimsGoOldestFirst(db: Db, toFree: int)
    requires Sound(db)
    ensures OldestFirst(db.tiles, Victims(db.tiles, toFree))
  {
    var t := db.tiles;
    forall k, o | k in Victims(t, toFree) && o in UnpinnedKeys(t) && Before(t[o], t[k])
      ensures o in Victims(t, toFree)
    {
      assert Older(t, o) <= Older(t, k);
      SumSubset(t, Older(t, o), Older(t, k));
    }
  }

  lemma VictimsSuffice(db: Db, toFree: int)
    requires Sound(db)
    ensures Victims(db.tiles, toFree) == UnpinnedKeys(db.tiles)
         || Sum(db.tiles, Victims(db.tiles, toFree)) >= toFree
  {
    var t := db.tiles;
    var victims := Victims(t, toFree);
    var spared := UnpinnedKeys(t) - victims;
    if spared != {} {
      var oldest := OldestExists(t, spared);
      assert Sum(t, Older(t, oldest)) >= toFree;
      assert Older(t, oldest) <= victims;
      SumSubset(t, Older(t, oldest), victims);
    } else {
      assert UnpinnedKeys(t) == victims + spared;
    }
  }

  lemma VictimsAreNecessary(db: Db, toFree: int, ks: set<Key>)
    requires Sound(db)
    requires OldestFirst(db.tiles, ks) && Sum(db.tiles, ks) >= toFree
    ensures Victims(db.tiles, toFree) <= ks
  {
    var t := db.tiles;
    forall k | k in Victims(t, toFree)
      ensures k in ks
    {
      if ks <= Older(t, k) {
        SumSubset(t, ks, Older(t, k));
      } else {
        var o :| o in ks && o !in Older(t, k);
        assert t[o].rowid != t[k].rowid || o == k;
      }
    }
  }

  /** Eviction deletes the shortest prefix, oldest row first, that frees the deficit, and every
      unpinned row when no prefix does. */
  lemma VictimsAreShortestPrefix(db: Db, toFree: int)
    requires Sound(db)
    ensures OldestFirst(db.tiles, Victims(db.tiles, toFree))
    ensures Victims(db.tiles, toFree) == UnpinnedKeys(db.tiles)
         || Sum(db.tiles, Victims(db.tiles, toFree)) >= toFree
    ensures forall ks :: OldestFirst(db.tiles, ks) && Sum(db.tiles, ks) >= toFree
                     ==> Victims(db.tiles, toFree) <= ks
  {
    VictimsGoOldestFirst(db, toFree);
    VictimsSuffice(db, toFree);
    forall ks | OldestFirst(db.tiles, ks) && Sum(db.tiles, ks) >= toFree
      ensures Victims(db.tiles, toFree) <= ks
    {
      VictimsAreNecessary(db, toFree, ks);
    }
  }

  /** After an eviction the total is at the target, or only pinned rows are left. */
  lemma EvictionReachesTarget(db: Db, target: int)
    requires Sound(db)
    ensures var after := Evicted(db, target);
            && (TotalBytes(after) <= target || TotalBytes(after) == PinnedBytes(after))
            && PinnedBytes(after) == PinnedBytes(db)
  {
    var toFree := TotalBytes(db) - target;
    VictimsSuffice(db, toFree);
    DeleteUnpinned(db, Victims(db.tiles, toFree));
    PinnedWithinTotal(db);
  }

  /** Enforcing a cap brings the total within it exactly when the pinned bytes alone fit. */
  lemma CapHoldsIffPinsFit(db: Db, cap: int)
    requires Sound(db)
    ensures TotalBytes(EvictTo(db, cap)) <= cap <==> PinnedBytes(db) <= cap
  {
    PinnedWithinTotal(db);
    PinnedWithinTotal(EvictTo(db, cap));
    EvictionReachesTarget(db, EvictionTarget(cap));
  }

  lemma TargetIs(cap: int, stop: int)
    requires if cap < 134217728 then stop == cap
             else cap - 67108864 <= stop && cap - cap / 100 <= stop
                  && (stop == cap - 67108864 || stop == cap - cap / 100)
    ensures EvictionTarget(cap) == stop
  {
  }

  /** What an over-cap eviction deletes, in numbers: from 128 MiB of cap on it stops one percent of the cap below
      it, or 64 MiB when that is less, and a smaller cap it stops at. The total ends at or below `stop` or at the
      pins, and no row is deleted once it is there: before each deleted row went, the total was above `stop`. */
  lemma EvictToStopsInTime(db: Db, cap: int, stop: int)
    requires Sound(db) && TotalBytes(db) > cap
    requires if cap < 134217728 then stop == cap
             else cap - 67108864 <= stop && cap - cap / 100 <= stop
                  && (stop == cap - 67108864 || stop == cap - cap / 100)
    ensures TotalBytes(EvictTo(db, cap)) <= stop || TotalBytes(EvictTo(db, cap)) == PinnedBytes(db)
    ensures forall k :: k in db.tiles && k !in EvictTo(db, cap).tiles
              ==> !db.tiles[k].pinned && TotalBytes(db) - Sum(db.tiles, Older(db.tiles, k)) > stop
    ensures forall k, o :: k in db.tiles && k !in EvictTo(db, cap).tiles && o in db.tiles && !db.tiles[o].pinned
              && (db.tiles[o].lastAccess < db.tiles[k].lastAccess
                  || (db.tiles[o].lastAccess == db.tiles[k].lastAccess && db.tiles[o].rowid < db.tiles[k].rowid))
              ==> o !in EvictTo(db, cap).tiles
  {
    hide EvictTo, TotalBytes, PinnedBytes, Sound, Older, Sum;
    TargetIs(cap, stop);
    StopsAtTarget(db, cap, stop);
    forall k | k in db.tiles && k !in EvictTo(db, cap).tiles
      ensures !db.tiles[k].pinned && TotalBytes(db) - Sum(db.tiles, Older(db.tiles, k)) > stop
    {
      GoneIsAVictim(db, cap, stop, k);
    }
    forall k, o | k in db.tiles && k !in EvictTo(db, cap).tiles && o in db.tiles && !db.tiles[o].pinned
        && (db.tiles[o].lastAccess < db.tiles[k].lastAccess
            || (db.tiles[o].lastAccess == db.tiles[k].lastAccess && db.tiles[o].rowid < db.tiles[k].rowid))
      ensures o !in EvictTo(db, cap).tiles
    {
      OlderGoesToo(db, cap, stop, k, o);
    }
  }

  lemma StopsAtTarget(db: Db, cap: int, stop: int)
    requires Sound(db) && TotalBytes(db) > cap && EvictionTarget(cap) == stop
    ensures TotalBytes(EvictTo(db, cap)) <= stop || TotalBytes(EvictTo(db, cap)) == PinnedBytes(db)
  {
    EvictionReachesTarget(db, stop);
  }

  lemma GoneIsAVictim(db: Db, cap: int, stop: int, k: Key)
    requires TotalBytes(db) > cap && EvictionTarget(cap) == stop && k in db.tiles && k !in EvictTo(db, cap).tiles
    ensures k in Victims(db.tiles, TotalBytes(db) - stop)
    ensures !db.tiles[k].pinned && TotalBytes(db) - Sum(db.tiles, Older(db.tiles, k)) > stop
  {
    hide TotalBytes, EvictionTarget, Sum, Older;
  }

  lemma OlderGoesToo(db: Db, cap: int, stop: int, k: Key, o: Key)
    requires Sound(db) && TotalBytes(db) > cap && EvictionTarget(cap) == stop
    requires k in db.tiles && k !in EvictTo(db, cap).tiles && o in db.tiles && !db.tiles[o].pinned
    requires Before(db.tiles[o], db.tiles[k])
    ensures o !in EvictTo(db, cap).tiles
  {
    GoneIsAVictim(db, cap, stop, k);
    VictimsGoOldestFirst(db, TotalBytes(db) - stop);
    hide TotalBytes, EvictionTarget, Sum, Older, Sound, Victims;
  }

  /** The hysteresis gap: once an eviction has stopped at `stop`, a later state with more than the cap stored has
      gained more than the gap; anything less evicts nothing. */
  lemma NextEvictionNeedsTheGap(db: Db, later: Db, cap: int, stop: int)
    requires Sound(db) && PinnedBytes(db) <= stop && TotalBytes(db) > cap
    requires if cap < 134217728 then stop == cap
             else cap - 67108864 <= stop && cap - cap / 100 <= stop
                  && (stop == cap - 67108864 || stop == cap - cap / 100)
    ensures TotalBytes(EvictTo(db, cap)) <= stop <= cap
    ensures EvictTo(later, cap) != later ==> TotalBytes(later) - TotalBytes(EvictTo(db, cap)) > cap - stop
  {
    EvictToStopsInTime(db, cap, stop);
  }

  /** Eviction deletes a set of unpinned rows and nothing else. */
  lemma EvictToDeletesUnpinned(db: Db, cap: int) returns (gone: set<Key>)
    ensures gone <= UnpinnedKeys(db.tiles) && EvictTo(db, cap) == Without(db, gone)
  {
    if TotalBytes(db) <= cap {
      gone := {};
      assert db.tiles - gone == db.tiles;
    } else {
      gone := Victims(db.tiles, TotalBytes(db) - EvictionTarget(cap));
    }
  }

  /** So it keeps the tables sound and moves neither the pinned sum nor any category's. */
  lemma EvictionSparesRegions(db: Db, cap: int, region: Option<string>)
    requires Sound(db)
    ensures Sound(EvictTo(db, cap))
    ensures EvictTo(db, cap).joins == db.joins
    ensures PinnedKeys(EvictTo(db, cap).tiles) == PinnedKeys(db.tiles)
    ensures PinnedBytes(EvictTo(db, cap)) == PinnedBytes(db)
    ensures CategoryBytes(EvictTo(db, cap), region) == CategoryBytes(db, region)
  {
    var gone := EvictToDeletesUnpinned(db, cap);
    DeleteUnpinned(db, gone);
    DeleteUnpinnedSparesRegions(db, gone, region);
  }

  lemma EvictionKeepsSound(db: Db, cap: int)
    requires Sound(db)
    ensures Sound(EvictTo(db, cap))
  {
    var gone := EvictToDeletesUnpinned(db, cap);
    DeleteUnpinnedSparesRegions(db, gone, None);
  }

  lemma EvictionSparesStatistic(db: Db, cap: int, warmId: string)
    requires Sound(db)
    ensures PinnedBytes(EvictTo(db, cap)) == PinnedBytes(db)
    ensures RealRegionBytes(EvictTo(db, cap), warmId) == RealRegionBytes(db, warmId)
  {
    var gone := EvictToDeletesUnpinned(db, cap);
    DeleteUnpinned(db, gone);
    DeleteUnpinnedSparesStatistic(db, gone, warmId);
  }
}
