/** The chunked deletes of unpinned rows: the age sweep and the explicit clear. */
module Sweeping {
  import opened Tables
  import opened Eviction
  import opened Sets

  const DELETE_CHUNK: nat := 4096

  datatype Sweep = Aged(cutoff: int) | Clear

  /** The rows the subquery's WHERE clause selects. */
  function Selected(t: map<Key, Row>, sweep: Sweep): set<Key> {
    set k | k in t && !t[k].pinned && (sweep.Aged? ==> t[k].lastAccess < sweep.cutoff)
  }

  /** The subquery's ORDER BY: `last_access, rowid` for the age sweep, `rowid` for the clear. */
  predicate Precedes(sweep: Sweep, a: Row, b: Row) {
    match sweep
    case Aged(_) => Before(a, b)
    case Clear => a.rowid < b.rowid
  }

  function Earlier(t: map<Key, Row>, sweep: Sweep, ks: set<Key>, k: Key): set<Key>
    requires ks <= t.Keys && k in t
  {
    set o | o in ks && Precedes(sweep, t[o], t[k])
  }

  /** `LIMIT`: the rows of `ks` with fewer than `limit` rows in front of them. */
  function FirstRows(t: map<Key, Row>, sweep: Sweep, ks: set<Key>, limit: nat): set<Key>
    requires ks <= t.Keys
  {
    set k | k in ks && |Earlier(t, sweep, ks, k)| < limit
  }

  function Chunk(t: map<Key, Row>, sweep: Sweep): set<Key> {
    FirstRows(t, sweep, Selected(t, sweep), DELETE_CHUNK)
  }

  function SweepChunk(db: Db, sweep: Sweep): Db {
    Without(db, Chunk(db.tiles, sweep))
  }

  /** What one unbounded DELETE would leave. */
  function SweepAll(db: Db, sweep: Sweep): Db {
    Without(db, Selected(db.tiles, sweep))
  }

  lemma {:induction false} LatestExists(t: map<Key, Row>, sweep: Sweep, ks: set<Key>) returns (latest: Key)
    requires ks != {} && ks <= t.Keys
    ensures latest in ks && forall k :: k in ks ==> !Precedes(sweep, t[latest], t[k])
    decreases ks
  {
    latest := Pick(ks);
    if ks == {latest} {
    } else {
      var other := LatestExists(t, sweep, ks - {latest});
      if Precedes(sweep, t[latest], t[other]) {
        latest := other;
      }
    }
  }

  /** Taking the latest row away moves no other row, and the latest row has all others in front. */
  lemma DropLatest(db: Db, sweep: Sweep, ks: set<Key>, latest: Key)
    requires Sound(db) && ks <= db.tiles.Keys && latest in ks
    requires forall k :: k in ks ==> !Precedes(sweep, db.tiles[latest], db.tiles[k])
    ensures Earlier(db.tiles, sweep, ks, latest) == ks - {latest}
    ensures forall k :: k in ks - {latest}
              ==> Earlier(db.tiles, sweep, ks, k) == Earlier(db.tiles, sweep, ks - {latest}, k)
  {
    var t := db.tiles;
    forall o | o in ks - {latest} ensures Precedes(sweep, t[o], t[latest]) {
      assert t[o].rowid != t[latest].rowid;
    }
  }

  /** A total order makes LIMIT exact: the chunk holds `limit` rows, or every row when fewer remain. */
  lemma {:induction false} FirstRowsCount(db: Db, sweep: Sweep, ks: set<Key>, limit: nat)
    requires Sound(db) && ks <= db.tiles.Keys
    ensures |FirstRows(db.tiles, sweep, ks, limit)| == if |ks| < limit then |ks| else limit
    decreases ks
  {
    var t := db.tiles;
    if ks == {} {
      assert FirstRows(t, sweep, ks, limit) == {};
    } else {
      var latest := LatestExists(t, sweep, ks);
      var rest := ks - {latest};
      FirstRowsCount(db, sweep, rest, limit);
      DropLatest(db, sweep, ks, latest);
      assert latest in FirstRows(t, sweep, ks, limit) <==> |rest| < limit;
      assert FirstRows(t, sweep, ks, limit) - {latest} == FirstRows(t, sweep, rest, limit);
    }
  }

  /** A chunk takes the first rows of the sweep's order: the least recently accessed for the age sweep, oldest
      write first among equals, and the oldest written for the clear. */
  lemma ChunkTakesTheFirst(db: Db, sweep: Sweep, k: Key, o: Key)
    requires Sound(db) && k in Chunk(db.tiles, sweep) && o in Selected(db.tiles, sweep)
    requires var a, b := db.tiles[o], db.tiles[k];
             if sweep.Clear? then a.rowid < b.rowid
             else a.lastAccess < b.lastAccess || (a.lastAccess == b.lastAccess && a.rowid < b.rowid)
    ensures o in Chunk(db.tiles, sweep)
  {
    var t, ks := db.tiles, Selected(db.tiles, sweep);
    assert Earlier(t, sweep, ks, o) <= Earlier(t, sweep, ks, k);
    SubsetSize(Earlier(t, sweep, ks, o), Earlier(t, sweep, ks, k));
  }

  lemma SameSizeSubset(a: set<Key>, b: set<Key>)
    requires a <= b && |a| == |b|
    ensures a == b
  {
    if a != b {
      var k :| k in b && k !in a;
      assert |b - {k}| == |b| - 1;
      assert a <= b - {k};
      SubsetSize(a, b - {k});
    }
  }

  /** A chunk that comes back short was the last one. */
  lemma ShortChunkIsLast(db: Db, sweep: Sweep)
    requires Sound(db)
    ensures Chunk(db.tiles, sweep) <= Selected(db.tiles, sweep)
    ensures |Chunk(db.tiles, sweep)| <= DELETE_CHUNK
    ensures |Chunk(db.tiles, sweep)| < DELETE_CHUNK <==> |Selected(db.tiles, sweep)| < DELETE_CHUNK
    ensures |Chunk(db.tiles, sweep)| < DELETE_CHUNK ==> SweepChunk(db, sweep) == SweepAll(db, sweep)
  {
    var t := db.tiles;
    FirstRowsCount(db, sweep, Selected(t, sweep), DELETE_CHUNK);
    if |Chunk(t, sweep)| < DELETE_CHUNK {
      SameSizeSubset(Chunk(t, sweep), Selected(t, sweep));
    }
  }

  /** One chunk takes its own bytes off the total and moves neither the pinned sum nor the statistic. */
  lemma SweepChunkSums(db: Db, sweep: Sweep, warmId: string)
    requires Sound(db)
    ensures var after := SweepChunk(db, sweep);
            && Sound(after)
            && TotalBytes(after) == TotalBytes(db) - Sum(db.tiles, Chunk(db.tiles, sweep))
            && PinnedBytes(after) == PinnedBytes(db)
            && RealRegionBytes(after, warmId) == RealRegionBytes(db, warmId)
  {
    DeleteUnpinned(db, Chunk(db.tiles, sweep));
    DeleteUnpinnedSparesStatistic(db, Chunk(db.tiles, sweep), warmId);
  }

  /** Chunks compose: the rows a chunk leaves selected are the others, and sweeping them all is sweeping
      the whole selection. */
  lemma ChunkThenRest(db: Db, sweep: Sweep)
    ensures Chunk(db.tiles, sweep) <= Selected(db.tiles, sweep)
    ensures Selected(SweepChunk(db, sweep).tiles, sweep)
         == Selected(db.tiles, sweep) - Chunk(db.tiles, sweep)
    ensures SweepAll(SweepChunk(db, sweep), sweep) == SweepAll(db, sweep)
  {
    assert SweepAll(SweepChunk(db, sweep), sweep).tiles == SweepAll(db, sweep).tiles;
  }

  /** So the freed bytes and rows add up. */
  lemma ChunkSums(db: Db, sweep: Sweep)
    ensures var chunk, after := Chunk(db.tiles, sweep), SweepChunk(db, sweep);
            && Sum(db.tiles, Selected(db.tiles, sweep))
               == Sum(db.tiles, chunk) + Sum(after.tiles, Selected(after.tiles, sweep))
            && |Selected(db.tiles, sweep)| == |chunk| + |Selected(after.tiles, sweep)|
  {
    hide Chunk, Selected;
    var all, chunk := Selected(db.tiles, sweep), Chunk(db.tiles, sweep);
    ChunkThenRest(db, sweep);
    SumSubset(db.tiles, chunk, all);
    SumDelete(db.tiles, chunk, all - chunk);
    assert all == chunk + (all - chunk);
  }

  /** A short chunk ends the sweep, and a full one brings it nearer the end. */
  lemma ChunkProgress(db: Db, sweep: Sweep)
    requires Sound(db)
    ensures |Chunk(db.tiles, sweep)| < DELETE_CHUNK ==> Selected(SweepChunk(db, sweep).tiles, sweep) == {}
    ensures |Chunk(db.tiles, sweep)| >= DELETE_CHUNK
            ==> |Selected(SweepChunk(db, sweep).tiles, sweep)| < |Selected(db.tiles, sweep)|
  {
    ShortChunkIsLast(db, sweep);
    ChunkThenRest(db, sweep);
    ChunkSums(db, sweep);
  }

  /** A clear that no other operation interrupts leaves exactly the pinned rows. */
  lemma ClearLeavesThePins(db: Db)
    ensures var after := SweepAll(db, Clear);
            && after.tiles.Keys == PinnedKeys(db.tiles)
            && TotalBytes(after) == PinnedBytes(after) == PinnedBytes(db)
  {
    var after := SweepAll(db, Clear);
    DeleteUnpinned(db, Selected(db.tiles, Clear));
    assert after.tiles.Keys == PinnedKeys(db.tiles);
  }

  lemma SweepAllCounts(db: Db, sweep: Sweep)
    ensures TotalBytes(SweepAll(db, sweep)) == TotalBytes(db) - Sum(db.tiles, Selected(db.tiles, sweep))
    ensures |SweepAll(db, sweep).tiles| == |db.tiles| - |Selected(db.tiles, sweep)|
  {
    var after := SweepAll(db, sweep);
    DeleteUnpinned(db, Selected(db.tiles, sweep));
    assert after.tiles.Keys + Selected(db.tiles, sweep) == db.tiles.Keys;
    assert |after.tiles.Keys| + |Selected(db.tiles, sweep)| == |db.tiles.Keys|;
  }
}
