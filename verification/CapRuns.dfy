/** The cap over whole runs of the live proxy. A store is a put and, under another hold of the lock, an eviction;
    a fill's 304 puts back the copy read at its re-check and evicts nothing. */
module CapRuns {
  import opened Wrappers
  import opened Tables
  import opened Eviction
  import opened Sweeping
  import opened WarmBatch
  import opened Regions
  import opened Operations
  import opened CapPromise

  /** The tile a fill read at its re-check. */
  datatype Copy = Copy(key: Key, tile: Tile)

  datatype Cache = Cache(db: Db, copies: map<nat, Copy>)

  /** `Reread` is a fill's re-check, `Renew` the write after its 304, and `StorePut` the first half of a store.
      The second half is an eviction, one of the `Others`: any operation but a put. */
  datatype Step =
    | Reread(fill: nat, key: Key)
    | Renew(fill: nat, now: int, disk: Disk, write: Write)
    | StorePut(key: Key, tile: Tile, now: int, disk: Disk, write: Write)
    | Others(op: Op)

  function Renewal(copy: Copy, now: int, disk: Disk, write: Write): Op {
    Put(copy.key, copy.tile.(fetchedAt := now), false, now, disk, write)
  }

  ghost function Next(c: Cache, s: Step): Cache {
    match s
    case Reread(f, k) =>
      c.(copies := if k in c.db.tiles then c.copies[f := Copy(k, c.db.tiles[k].tile)] else c.copies - {f})
    case Renew(f, now, disk, write) =>
      if f in c.copies then c.(db := Operations.Next(c.db, Renewal(c.copies[f], now, disk, write))) else c
    case StorePut(k, tile, now, disk, write) =>
      c.(db := Operations.Next(c.db, Put(k, tile, false, now, disk, write)))
    case Others(op) => c.(db := Operations.Next(c.db, op))
  }

  ghost function Run(c: Cache, steps: seq<Step>): Cache {
    if steps == [] then c else Next(Run(c, steps[..|steps| - 1]), steps[|steps| - 1])
  }

  /** The state before step `i`. */
  ghost function At(c: Cache, steps: seq<Step>, i: nat): Cache
    requires i <= |steps|
  {
    Run(c, steps[..i])
  }

  lemma OneMore(c: Cache, steps: seq<Step>, i: nat)
    requires i < |steps|
    ensures At(c, steps, i + 1) == Next(At(c, steps, i), steps[i])
  {
    assert steps[..i + 1][..i] == steps[..i];
  }

  /** The other operations put nothing past the gates, and warms run under no larger cap. */
  predicate Respects(s: Step, cap: int) {
    s.Others? ==> !s.op.Put? && (s.op.PutManyPinned? ==> s.op.cap <= cap)
  }

  lemma {:induction false} RunKeepsSound(c: Cache, steps: seq<Step>)
    requires Sound(c.db)
    ensures Sound(Run(c, steps).db)
  {
    if steps == [] {
    } else {
      hide Sound, Operations.Next;
      var before, s := Run(c, steps[..|steps| - 1]), steps[|steps| - 1];
      RunKeepsSound(c, steps[..|steps| - 1]);
      StepKeepsSound(before, s);
    }
  }

  lemma StepKeepsSound(c: Cache, s: Step)
    requires Sound(c.db)
    ensures Sound(Next(c, s).db)
  {
    hide Sound, Operations.Next;
    match s
    case Reread(_, _) =>
    case Renew(f, now, disk, write) =>
      if f in c.copies {
        NextKeepsSound(c.db, Renewal(c.copies[f], now, disk, write));
      }
    case StorePut(k, tile, now, disk, write) => NextKeepsSound(c.db, Put(k, tile, false, now, disk, write));
    case Others(op) => NextKeepsSound(c.db, op);
  }

  // ----- which steps can exceed the cap -----

  /** A put with no eviction leaves the total within the cap if and only if the row's growth fits the room. */
  lemma RenewalKeepsCapIff(db: Db, k: Key, tile: Tile, now: int, cap: int)
    ensures TotalBytes(PutRow(db, k, tile, false, now)) <= cap
       <==> TotalBytes(db) + tile.bytes - Bytes(db.tiles, k) <= cap
  {
    PutRowSums(db, k, tile, false, now);
  }

  lemma EvictionShrinks(db: Db, cap: int)
    ensures TotalBytes(EvictTo(db, cap)) <= TotalBytes(db)
  {
    var gone := EvictToDeletesUnpinned(db, cap);
    DeleteUnpinned(db, gone);
  }

  lemma PromoteKeepsTotal(db: Db, rs: seq<Replacement>, realBudget: int, positionBudget: int, cap: int)
    requires Sound(db)
    ensures TotalBytes(Promote(db, rs, realBudget, positionBudget, cap)) == TotalBytes(db)
  {
    PromoteAllPins(db, rs);
    SameRowsSameTotal(db, PromoteAll(db, rs));
  }

  /** No other operation takes a total within the cap past it. */
  lemma OnlyPutsCross(db: Db, op: Op, cap: int)
    requires Sound(db) && TotalBytes(db) <= cap && !op.Put? && (op.PutManyPinned? ==> op.cap <= cap)
    ensures TotalBytes(Operations.Next(db, op)) <= cap
  {
    hide Sound, TotalBytes, PutMany, SweepChunk, Regions.DeleteRegion, CleanupStaging, Promote, EvictTo, PinRow;
    hide TouchRow;
    match op
    case Touch(k, now, _) => TouchRowSums(db, k, now, POSITION_WARM_REGION_ID);
    case Evict(limit, _) => EvictionShrinks(db, limit);
    case DeleteChunk(sweep, _) => SweepChunkSums(db, sweep, POSITION_WARM_REGION_ID);
    case PutManyPinned(rows, budget, limit, region, now, _, _) =>
      PinnedWithinTotal(db);
      BatchStaysInBounds(db, rows, budget, limit, region, now);
    case PinIfFresh(k, _, _, _, _, region, _) => if k in db.tiles { PinRowSums(db, k, region); }
    case PinForRegion(k, _, region, _) => if k in db.tiles { PinRowSums(db, k, region); }
    case RegionDelete(id, _) => DeleteRegionReleases(db, id);
    case PromoteStaged(rs, realBudget, positionBudget, limit, _) =>
      PromoteKeepsTotal(db, rs, realBudget, positionBudget, limit);
    case StagingCleanup(_) => CleanupReleasesStaging(db);
    case ReadRealRegionBytes(_) =>
    case Reopen(_) => CleanupReleasesStaging(db);
  }

  /** So a step takes it past the cap if and only if it is a committed put, a store's or a renewal's, whose
      growth exceeds the room. */
  lemma StepCrossesIff(c: Cache, s: Step, cap: int)
    requires Sound(c.db) && TotalBytes(c.db) <= cap && Respects(s, cap)
    ensures TotalBytes(Next(c, s).db) > cap <==> Outgrows(c, s, cap - TotalBytes(c.db))
  {
    hide Sound, TotalBytes, PutRow;
    match s
    case Reread(_, _) =>
    case Renew(f, now, _, _) =>
      if f in c.copies {
        RenewalKeepsCapIff(c.db, c.copies[f].key, c.copies[f].tile.(fetchedAt := now), now, cap);
      }
    case StorePut(k, tile, now, _, _) => RenewalKeepsCapIff(c.db, k, tile, now, cap);
    case Others(op) => OnlyPutsCross(c.db, op, cap);
  }

  predicate Commits(db: Db, k: Key, tile: Tile, disk: Disk, write: Write) {
    write.Written? && DiskHasHeadroom(disk, tile.bytes - Bytes(db.tiles, k))
  }

  predicate Outgrows(c: Cache, s: Step, room: int) {
    match s
    case Renew(f, now, disk, write) =>
      && f in c.copies
      && Commits(c.db, c.copies[f].key, c.copies[f].tile, disk, write)
      && c.copies[f].tile.bytes - Bytes(c.db.tiles, c.copies[f].key) > room
    case StorePut(k, tile, _, disk, write) =>
      Commits(c.db, k, tile, disk, write) && tile.bytes - Bytes(c.db.tiles, k) > room
    case _ => false
  }

  // ----- where a run went past the cap -----

  /** Step `i` of the run takes the total past the cap, and nothing has brought it back. */
  ghost predicate Crossing(c: Cache, steps: seq<Step>, cap: int, i: nat) {
    && i < |steps|
    && TotalBytes(At(c, steps, i).db) <= cap
    && forall m :: i < m <= |steps| ==> TotalBytes(At(c, steps, m).db) > cap
  }

  lemma {:induction false} CrossingExists(c: Cache, steps: seq<Step>, n: nat, cap: int) returns (i: nat)
    requires n <= |steps| && TotalBytes(c.db) <= cap && TotalBytes(At(c, steps, n).db) > cap
    ensures i < n && TotalBytes(At(c, steps, i).db) <= cap
    ensures forall m :: i < m <= n ==> TotalBytes(At(c, steps, m).db) > cap
  {
    hide TotalBytes, Next;
    if n == 0 {
    } else if TotalBytes(At(c, steps, n - 1).db) <= cap {
      i := n - 1;
    } else {
      i := CrossingExists(c, steps, n - 1, cap);
    }
  }

  /** A run from within the cap ends above it if and only if one of its steps crossed it for good. */
  lemma OverrunIff(c: Cache, steps: seq<Step>, cap: int)
    requires TotalBytes(c.db) <= cap
    ensures TotalBytes(Run(c, steps).db) > cap <==> exists i :: Crossing(c, steps, cap, i)
  {
    hide TotalBytes, Run;
    assert steps[..|steps|] == steps;
    assert At(c, steps, |steps|) == Run(c, steps);
    if TotalBytes(Run(c, steps).db) > cap {
      var i := CrossingExists(c, steps, |steps|, cap);
      assert Crossing(c, steps, cap, i);
    }
  }

  /** Where the copy a fill holds was read: at its latest re-check. */
  lemma {:induction false} CopyWasRead(c: Cache, steps: seq<Step>, n: nat, f: nat) returns (r: nat)
    requires c.copies == map[] && n <= |steps| && f in At(c, steps, n).copies
    ensures var copy := At(c, steps, n).copies[f];
            && r < n && steps[r] == Reread(f, copy.key)
            && copy.key in At(c, steps, r).db.tiles && At(c, steps, r).db.tiles[copy.key].tile == copy.tile
    ensures forall m :: r < m < n && steps[m].Reread? ==> steps[m].fill != f
  {
    if n == 0 {
    } else {
      hide Operations.Next;
      OneMore(c, steps, n - 1);
      if steps[n - 1].Reread? && steps[n - 1].fill == f {
        r := n - 1;
      } else {
        r := CopyWasRead(c, steps, n - 1, f);
      }
    }
  }

  /** A row that is lighter than it was, gone included, lost bytes at some step in between. */
  lemma {:induction false} RowLostBytes(c: Cache, steps: seq<Step>, r: nat, n: nat, k: Key) returns (m: nat)
    requires r <= n <= |steps| && Bytes(At(c, steps, n).db.tiles, k) < Bytes(At(c, steps, r).db.tiles, k)
    ensures r <= m < n && Bytes(At(c, steps, m + 1).db.tiles, k) < Bytes(At(c, steps, m).db.tiles, k)
    decreases n
  {
    hide Run;
    if Bytes(At(c, steps, n).db.tiles, k) < Bytes(At(c, steps, n - 1).db.tiles, k) {
      m := n - 1;
    } else {
      m := RowLostBytes(c, steps, r, n - 1, k);
    }
  }

  /** The step that crossed is a put that outgrew the room. When it is a renewal, its row was deleted or shrunk
      after the re-check that read the copy, at the returned step. */
  lemma CrossingIsAPut(c: Cache, steps: seq<Step>, cap: int, i: nat) returns (lost: nat)
    requires Sound(c.db) && c.copies == map[] && forall s :: s in steps ==> Respects(s, cap)
    requires Crossing(c, steps, cap, i)
    ensures var before := At(c, steps, i);
            && Outgrows(before, steps[i], cap - TotalBytes(before.db))
            && (steps[i].Renew? ==>
                  var k := before.copies[steps[i].fill].key;
                  && lost < i && Bytes(At(c, steps, lost + 1).db.tiles, k) < Bytes(At(c, steps, lost).db.tiles, k)
                  && forall m :: lost < m < i && steps[m].Reread? ==> steps[m].fill != steps[i].fill)
  {
    hide Sound, TotalBytes, Next, Run;
    var before := At(c, steps, i);
    RunKeepsSound(c, steps[..i]);
    OneMore(c, steps, i);
    StepCrossesIff(before, steps[i], cap);
    lost := 0;
    if steps[i].Renew? {
      var copy := before.copies[steps[i].fill];
      var r := CopyWasRead(c, steps, i, steps[i].fill);
      lost := RowLostBytes(c, steps, r, i, copy.key);
    }
  }

  /** Nothing brought the total back, so every eviction to the cap or below it that committed since the crossing
      found pins that did not fit. A store's own eviction is the first to follow its put. */
  lemma EvictionsSinceFoundPins(c: Cache, steps: seq<Step>, cap: int, i: nat, m: nat, limit: int)
    requires Sound(c.db) && Crossing(c, steps, cap, i)
    requires i < m < |steps| && steps[m] == Others(Evict(limit, Written)) && limit <= cap
    ensures PinnedBytes(At(c, steps, m).db) > limit
  {
    hide Sound, TotalBytes, PinnedBytes, Run, EvictTo;
    RunKeepsSound(c, steps[..m]);
    OneMore(c, steps, m);
    CapHoldsIffPinsFit(At(c, steps, m).db, limit);
  }

  // ----- a renewal that exceeds the cap -----

  const FIRST := Key("chart", 0, 0, 0)
  const OTHER := Key("chart", 0, 1, 0)

  function Unpinned(k: Key, bytes: nat, rowid: nat): map<Key, Row> {
    map[k := Row(ByteTile(bytes), 0, rowid, false)]
  }

  lemma OneRowSums(k: Key, bytes: nat, rowid: nat, nextRowid: nat)
    ensures var db := Db(Unpinned(k, bytes, rowid), {}, nextRowid);
            && TotalBytes(db) == bytes && PinnedBytes(db) == 0
            && (rowid < nextRowid ==> Sound(db))
            && SweepChunk(db, Clear) == Db(map[], {}, nextRowid)
  {
    var db := Db(Unpinned(k, bytes, rowid), {}, nextRowid);
    assert db.tiles.Keys == {k} && PinnedKeys(db.tiles) == {} && {k} - {k} == {};
    SumSplit(db.tiles, {k}, k);
    assert Selected(db.tiles, Clear) == {k};
    assert Earlier(db.tiles, Clear, {k}, k) == {};
    assert Chunk(db.tiles, Clear) == {k};
    assert db.tiles - {k} == map[];
  }

  /** A run goes through the given states when each step leads from one to the next. */
  lemma {:induction false} RunVisits(c: Cache, steps: seq<Step>, states: seq<Cache>)
    requires 0 < |states| <= |steps| + 1 && states[0] == c
    requires forall i :: 0 <= i < |states| - 1 ==> states[i + 1] == Next(states[i], steps[i])
    ensures At(c, steps, |states| - 1) == states[|states| - 1]
  {
    if |states| == 1 {
      assert steps[..0] == [];
    } else {
      hide Next;
      RunVisits(c, steps, states[..|states| - 1]);
      OneMore(c, steps, |states| - 2);
    }
  }

  function RenewalScript(n: nat, disk: Disk): seq<Step> {
    var tile, evict := ByteTile(n), Others(Evict(n, Written));
    [StorePut(FIRST, tile, 0, disk, Written), evict, Reread(0, FIRST), Others(DeleteChunk(Clear, Written)),
     StorePut(OTHER, tile, 0, disk, Written), evict, Renew(0, 0, disk, Written)]
  }

  function ScriptStates(n: nat): seq<Cache> {
    var one, other := Db(Unpinned(FIRST, n, 1), {}, 2), Db(Unpinned(OTHER, n, 2), {}, 3);
    var copies := map[0 := Copy(FIRST, ByteTile(n))];
    [Cache(EMPTY, map[]), Cache(one, map[]), Cache(one, map[]), Cache(one, copies), Cache(Db(map[], {}, 2), copies),
     Cache(other, copies), Cache(other, copies)]
  }

  lemma ScriptRuns(n: nat, disk: Disk, i: nat)
    requires i < 6 && DiskHasHeadroom(disk, n)
    ensures ScriptStates(n)[i + 1] == Next(ScriptStates(n)[i], RenewalScript(n, disk)[i])
  {
    hide TotalBytes, PinnedBytes, SweepChunk, DiskHasHeadroom, Sound;
    OneRowSums(FIRST, n, 1, 2);
    OneRowSums(OTHER, n, 2, 3);
  }

  /** Nothing is ever pinned, and a body of room is free at the last step. A tile is stored; while its
      revalidation is in flight the cache is cleared and another tile of the same size is stored; the 304 then
      puts the first one back, and no eviction follows. */
  lemma RenewalCanExceedTheCap(n: nat, disk: Disk) returns (steps: seq<Step>)
    requires n >= NEGATIVE_ROW_COST_BYTES && DiskHasHeadroom(disk, n)
    ensures steps != [] && steps[|steps| - 1].Renew? && forall s :: s in steps ==> Respects(s, n)
    ensures var c := Cache(EMPTY, map[]);
            var before := At(c, steps, |steps| - 1).db;
            && TotalBytes(before) <= n && PinnedBytes(before) + LargestFetch(n) <= n
            && (forall k :: StoreKeepsCap(before, k, n, n))
            && TotalBytes(Run(c, steps).db) == 2 * n > n && PinnedBytes(Run(c, steps).db) == 0
  {
    hide TotalBytes, PinnedBytes, DiskHasHeadroom, Sound, StoreKeepsCap, Unpinned;
    var c := Cache(EMPTY, map[]);
    steps := RenewalScript(n, disk);
    var states := ScriptStates(n);
    forall i | 0 <= i < |states| - 1 ensures states[i + 1] == Next(states[i], steps[i]) {
      ScriptRuns(n, disk, i);
    }
    RunVisits(c, steps, states);
    var other := states[6].db;
    OneRowSums(OTHER, n, 2, 3);
    OneBodyOfRoomIsEnough(other, n, n);
    OneMore(c, steps, 6);
    assert steps[..7] == steps;
    LastStep(n, disk);
  }

  lemma LastStep(n: nat, disk: Disk)
    requires DiskHasHeadroom(disk, n)
    ensures var after := Next(ScriptStates(n)[6], Renew(0, 0, disk, Written)).db;
            TotalBytes(after) == 2 * n && PinnedBytes(after) == 0
  {
    hide TotalBytes, PinnedBytes, DiskHasHeadroom, Sound;
    var other := ScriptStates(n)[6].db;
    OneRowSums(OTHER, n, 2, 3);
    PutRowSums(other, FIRST, ByteTile(n), false, 0);
  }

  // ----- from the eviction to the publication of a pushed cap -----

  /** The route publishes a pushed cap some steps after its eviction, and stores that run meanwhile evict to the
      cap before it. A cap that bounded the total at the eviction bounds it at the publication if and only if no
      step in between crossed it for good; with no put in between it does. */
  lemma PublishedCapHoldsIff(c: Cache, between: seq<Op>, cap: int, late: seq<Step>)
    requires Sound(c.db) && PinnedBytes(Operations.Run(c.db, between)) <= cap
    ensures var enforced := c.(db := Operations.Next(Operations.Run(c.db, between), Evict(cap, Written)));
            && TotalBytes(enforced.db) <= cap
            && (TotalBytes(Run(enforced, late).db) <= cap <==> !exists i :: Crossing(enforced, late, cap, i))
            && ((forall s :: s in late ==> Respects(s, cap) && !s.Renew? && !s.StorePut?)
                ==> TotalBytes(Run(enforced, late).db) <= cap)
  {
    hide Sound, TotalBytes, PinnedBytes, Run, Next, EvictTo;
    Operations.RunKeepsSound(c.db, between);
    CapHoldsIffPinsFit(Operations.Run(c.db, between), cap);
    var enforced := c.(db := Operations.Next(Operations.Run(c.db, between), Evict(cap, Written)));
    EvictionKeepsSound(Operations.Run(c.db, between), cap);
    OverrunIff(enforced, late, cap);
    forall i: nat | Crossing(enforced, late, cap, i) && Respects(late[i], cap)
      ensures late[i].Renew? || late[i].StorePut?
    {
      RunKeepsSound(enforced, late[..i]);
      OneMore(enforced, late, i);
      StepCrossesIff(At(enforced, late, i), late[i], cap);
    }
  }

  /** A store that evicts to the old cap, and has no need to, keeps the new one if and only if its growth fits
      what the new one leaves. */
  lemma StoreUnderOldCapIff(db: Db, k: Key, tile: Tile, now: int, cap: int, oldCap: int)
    requires TotalBytes(db) + tile.bytes - Bytes(db.tiles, k) <= oldCap
    ensures TotalBytes(EvictTo(PutRow(db, k, tile, false, now), oldCap)) <= cap
       <==> TotalBytes(db) + tile.bytes - Bytes(db.tiles, k) <= cap
  {
    PutRowSums(db, k, tile, false, now);
  }

  /** A lowered cap reported as applied with the total above it and nothing pinned: one store in between, which
      evicts to the old cap, is enough. */
  lemma LoweredCapCanBeExceeded(n: nat, disk: Disk) returns (db: Db, late: seq<Step>)
    requires n > 0 && DiskHasHeadroom(disk, n)
    ensures Sound(db) && PinnedBytes(db) == 0 && TotalBytes(db) <= n && (forall s :: s in late ==> Respects(s, n))
    ensures Operations.Next(db, Evict(n, Written)) == db
    ensures |late| == 2 && late[0].StorePut? && Fetched(late[0].tile, n) && late[1] == Others(Evict(2 * n, Written))
    ensures var published := Run(Cache(db, map[]), late).db;
            TotalBytes(published) == 2 * n > n && PinnedBytes(published) == 0
  {
    db := Db(Unpinned(FIRST, n, 1), {}, 2);
    late := [StorePut(OTHER, ByteTile(n), 0, disk, Written), Others(Evict(2 * n, Written))];
    hide TotalBytes, PinnedBytes, DiskHasHeadroom, Sound, PutRow;
    OneRowSums(FIRST, n, 1, 2);
    PutRowSums(db, OTHER, ByteTile(n), false, 0);
    var stored := Cache(PutRow(db, OTHER, ByteTile(n), false, 0), map[]);
    assert Next(Cache(db, map[]), late[0]) == stored;
    RunVisits(Cache(db, map[]), late, [Cache(db, map[]), stored, stored]);
    assert late[..2] == late;
  }
}
