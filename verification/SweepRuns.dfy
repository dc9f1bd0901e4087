/** A chunked sweep among other callers: the lock is given up after every chunk, other operations run in the
    gaps, and the engine may refuse a delete. */
module SweepRuns {
  import opened Wrappers
  import opened Tables
  import opened Sweeping
  import opened Operations

  /** How the engine ends one chunk's delete, and what other callers do before the next chunk. */
  datatype Turn = Turn(write: Write, gap: seq<Op>)

  /** A sweep's tables, whether it has come to its end, and the bytes and rows it has freed. */
  datatype Progress = Progress(db: Db, completed: bool, bytes: nat, rows: nat)

  ghost function Begun(db: Db): Progress {
    Progress(db, false, 0, 0)
  }

  /** One chunk more. A short one is the last. */
  ghost function ChunkTaken(p: Progress, sweep: Sweep): Progress {
    var chunk := Chunk(p.db.tiles, sweep);
    Progress(SweepChunk(p.db, sweep), |chunk| < DELETE_CHUNK, p.bytes + Sum(p.db.tiles, chunk), p.rows + |chunk|)
  }

  /** Everything selected, in one delete. */
  ghost function RestTaken(p: Progress, sweep: Sweep): Progress {
    var all := Selected(p.db.tiles, sweep);
    Progress(SweepAll(p.db, sweep), true, p.bytes + Sum(p.db.tiles, all), p.rows + |all|)
  }

  ghost function Meanwhile(p: Progress, gap: seq<Op>): Progress {
    p.(db := Run(p.db, gap))
  }

  /** The sweep chunk by chunk. It is undisturbed once `turns` are used up. */
  ghost function Swept(p: Progress, sweep: Sweep, turns: seq<Turn>): Progress
    decreases |turns|
  {
    if turns == [] then RestTaken(p, sweep)
    else if !turns[0].write.Written? then p
    else
      var next := ChunkTaken(p, sweep);
      if next.completed then next else Swept(Meanwhile(next, turns[0].gap), sweep, turns[1..])
  }

  // ----- one chunk -----

  /** A chunk's bytes leave the total; a chunk and then the rest is the whole sweep; and a chunk is the last
      one or brings the end nearer. */
  lemma ChunkTakenIs(p: Progress, sweep: Sweep)
    requires Sound(p.db)
    ensures var next := ChunkTaken(p, sweep);
            && Sound(next.db)
            && TotalBytes(next.db) == TotalBytes(p.db) - (next.bytes - p.bytes)
            && RestTaken(next, sweep) == RestTaken(p, sweep)
            && (next.completed ==> next == RestTaken(p, sweep) && Selected(next.db.tiles, sweep) == {})
            && (!next.completed ==> |Selected(next.db.tiles, sweep)| < |Selected(p.db.tiles, sweep)|)
  {
    hide Chunk, Selected, TotalBytes;
    SweepChunkSums(p.db, sweep, POSITION_WARM_REGION_ID);
    ChunkThenRest(p.db, sweep);
    ChunkSums(p.db, sweep);
    ShortChunkIsLast(p.db, sweep);
    ChunkProgress(p.db, sweep);
  }

  lemma NoneSelected(db: Db, sweep: Sweep)
    ensures Selected(SweepAll(db, sweep).tiles, sweep) == {}
  {
  }

  lemma NothingToTake(p: Progress, sweep: Sweep)
    requires p.completed && Selected(p.db.tiles, sweep) == {}
    ensures RestTaken(p, sweep) == p
  {
    assert p.db.tiles - {} == p.db.tiles;
  }

  lemma RestTakenIs(p: Progress, sweep: Sweep)
    requires Sound(p.db)
    ensures var rest := RestTaken(p, sweep);
            && Sound(rest.db) && Selected(rest.db.tiles, sweep) == {} && RestTaken(rest, sweep) == rest
            && TotalBytes(rest.db) == TotalBytes(p.db) - (rest.bytes - p.bytes)
  {
    var rest := RestTaken(p, sweep);
    assert Selected(p.db.tiles, sweep) <= UnpinnedKeys(p.db.tiles);
    hide Sound, TotalBytes, RealRegionBytes, Selected, Sum;
    DeleteUnpinnedSparesRegions(p.db, Selected(p.db.tiles, sweep), None);
    SweepAllCounts(p.db, sweep);
    NoneSelected(p.db, sweep);
    NothingToTake(rest, sweep);
  }

  // ----- what every sweep achieves -----

  /** Whatever runs in the gaps, a sweep that comes to its end leaves nothing it selects: the last chunk is
      short, and it is taken under one hold of the lock. */
  lemma {:induction false} CompletedMeansNoneLeft(p: Progress, sweep: Sweep, turns: seq<Turn>)
    requires Sound(p.db) && !p.completed
    ensures var end := Swept(p, sweep, turns);
            Sound(end.db) && (end.completed ==> Selected(end.db.tiles, sweep) == {})
    decreases |turns|
  {
    hide Sound, Selected, ChunkTaken, RestTaken, Run;
    if turns == [] {
      RestTakenIs(p, sweep);
    } else {
      var next := ChunkTaken(p, sweep);
      ChunkTakenIs(p, sweep);
      if turns[0].write.Written? && !next.completed {
        RunKeepsSound(next.db, turns[0].gap);
        CompletedMeansNoneLeft(Meanwhile(next, turns[0].gap), sweep, turns[1..]);
      }
    }
  }

  /** So a clear that comes to its end leaves the total equal to the pinned bytes at that moment. */
  lemma CompletedClear(db: Db, turns: seq<Turn>)
    requires Sound(db) && Swept(Begun(db), Clear, turns).completed
    ensures var after := Swept(Begun(db), Clear, turns).db;
            after.tiles.Keys == PinnedKeys(after.tiles) && TotalBytes(after) == PinnedBytes(after)
  {
    var after := Swept(Begun(db), Clear, turns).db;
    hide Swept;
    CompletedMeansNoneLeft(Begun(db), Clear, turns);
    forall k | k in after.tiles ensures after.tiles[k].pinned {
      assert k !in Selected(after.tiles, Clear);
    }
    assert UnpinnedKeys(after.tiles) == {};
    PinnedWithinTotal(after);
  }

  /** What the other callers added, net, while the sweep was under way. */
  ghost function GapBytes(p: Progress, sweep: Sweep, turns: seq<Turn>): int
    decreases |turns|
  {
    var next := ChunkTaken(p, sweep);
    if turns == [] || !turns[0].write.Written? || next.completed then 0
    else
      var gap := turns[0].gap;
      TotalBytes(Run(next.db, gap)) - TotalBytes(next.db) + GapBytes(Meanwhile(next, gap), sweep, turns[1..])
  }

  /** The freed bytes are exact: bytes before, plus what the others added, are bytes freed plus bytes after. */
  lemma {:induction false} FreedBytesAreExact(p: Progress, sweep: Sweep, turns: seq<Turn>)
    requires Sound(p.db)
    ensures var end := Swept(p, sweep, turns);
            TotalBytes(p.db) + GapBytes(p, sweep, turns) == TotalBytes(end.db) + (end.bytes - p.bytes)
    decreases |turns|
  {
    hide Sound, TotalBytes, ChunkTaken, RestTaken, Run;
    if turns == [] {
      RestTakenIs(p, sweep);
    } else {
      var next := ChunkTaken(p, sweep);
      ChunkTakenIs(p, sweep);
      if turns[0].write.Written? && !next.completed {
        RunKeepsSound(next.db, turns[0].gap);
        FreedBytesAreExact(Meanwhile(next, turns[0].gap), sweep, turns[1..]);
      }
    }
  }

  predicate Undisturbed(turns: seq<Turn>) {
    forall t :: t in turns ==> t.gap == []
  }

  /** With nothing in the gaps, a sweep the engine stops is finished by the next one, and a sweep it does not
      stop is one delete of everything selected. */
  lemma {:induction false} FailedSweepIsResumed(p: Progress, sweep: Sweep, turns: seq<Turn>)
    requires Sound(p.db) && !p.completed && Undisturbed(turns)
    ensures var end := Swept(p, sweep, turns);
            && RestTaken(end, sweep) == RestTaken(p, sweep)
            && (end.completed ==> end == RestTaken(p, sweep))
    decreases |turns|
  {
    hide Sound, ChunkTaken, RestTaken;
    if turns == [] {
      RestTakenIs(p, sweep);
    } else {
      var next := ChunkTaken(p, sweep);
      ChunkTakenIs(p, sweep);
      if turns[0].write.Written? && !next.completed {
        assert turns[0].gap == [];
        assert Meanwhile(next, []) == next;
        FailedSweepIsResumed(next, sweep, turns[1..]);
      }
    }
  }

  // ----- a sweep is part of a run -----

  lemma {:induction false} RunSplits(db: Db, front: seq<Op>, rest: seq<Op>)
    ensures Run(db, front + rest) == Run(Run(db, front), rest)
  {
    if rest == [] {
      assert front + rest == front;
    } else {
      hide Next;
      var n := |rest| - 1;
      RunSplits(db, front, rest[..n]);
      assert (front + rest)[..|front + rest| - 1] == front + rest[..n];
    }
  }

  lemma ChunkIsAStep(p: Progress, sweep: Sweep)
    ensures Run(p.db, [DeleteChunk(sweep, Written)]) == ChunkTaken(p, sweep).db
  {
    assert [DeleteChunk(sweep, Written)][..0] == [];
  }

  /** A sweep among others is a run: its chunks are `DeleteChunk` steps between theirs. */
  lemma {:induction false} SweptIsARun(p: Progress, sweep: Sweep, turns: seq<Turn>) returns (ops: seq<Op>)
    requires Sound(p.db)
    ensures Swept(p, sweep, turns).db == Run(p.db, ops)
    ensures forall op :: op in ops ==> op == DeleteChunk(sweep, Written) || exists t :: t in turns && op in t.gap
    decreases |turns|, |Selected(p.db.tiles, sweep)|
  {
    hide Sound, Selected, ChunkTaken, RestTaken, Next;
    var next, step := ChunkTaken(p, sweep), [DeleteChunk(sweep, Written)];
    ChunkTakenIs(p, sweep);
    ChunkIsAStep(p, sweep);
    if turns != [] && !turns[0].write.Written? {
      ops := [];
    } else if next.completed {
      ops := step;
    } else if turns == [] {
      var rest := SweptIsARun(next, sweep, []);
      ops := step + rest;
      RunSplits(p.db, step, rest);
    } else {
      var gap := turns[0].gap;
      RunKeepsSound(next.db, gap);
      var rest := SweptIsARun(Meanwhile(next, gap), sweep, turns[1..]);
      ops := step + (gap + rest);
      RunSplits(next.db, gap, rest);
      RunSplits(p.db, step, gap + rest);
    }
  }

  /** So no sweep takes a region's tile away, whatever else runs, short of what releases that region. */
  lemma SweepKeepsRegions(db: Db, sweep: Sweep, turns: seq<Turn>, j: Join)
    requires Sound(db) && j in db.joins
    requires forall t, op :: t in turns && op in t.gap ==> !Releases(op, j.region)
    ensures var after := Swept(Begun(db), sweep, turns).db;
            j in after.joins && j.key in after.tiles && after.tiles[j.key].pinned
  {
    hide Sound, Run, Releases;
    var ops := SweptIsARun(Begun(db), sweep, turns);
    forall i | 0 <= i < |ops| ensures !Releases(ops[i], j.region) {
      assert ops[i] in ops;
      ChunkReleasesNothing(sweep, j.region);
    }
    OfflineGuarantee(db, ops, j);
  }

  lemma ChunkReleasesNothing(sweep: Sweep, region: string)
    ensures !Releases(DeleteChunk(sweep, Written), region)
  {
  }
}
