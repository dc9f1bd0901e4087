/** The tile cache itself: the tables beside three running values that no hot path rescans. */
module TileCache {
  import opened Wrappers
  import opened Tables
  import opened Eviction
  import opened Sweeping
  import opened SweepRuns
  import opened WarmBatch
  import opened Regions
  import opened Operations

  datatype PutOutcome = Stored | Degraded

  datatype PutManyOutcome = PutManyOutcome(stored: nat, bytesAdded: nat, capped: bool)

  /** The outcome of a batch declined for disk space. */
  const DISK_PRESSURE := PutManyOutcome(0, 0, true)

  /** What a stored batch reports: the accepted rows, their growth, and whether a gate stopped it. */
  ghost function BatchOutcome(
      db: Db, rows: seq<WarmRow>, budget: int, cap: int, region: Option<string>, now: int): PutManyOutcome {
    var n := Accepted(db, rows, budget, cap, region, now);
    PutManyOutcome(n, Growth(db, rows, n), n < |rows|)
  }

  datatype FreshPinOutcome = NowPinned | MissingOrStale | Capped

  // ----- queries and transactions shared by the methods -----

  /** The window scan: the unpinned rows whose running prior is under the deficit. */
  method SelectVictims(t: map<Key, Row>, toFree: int) returns (victims: set<Key>)
    ensures victims == Victims(t, toFree)
  {
    victims := {};
    var rest := UnpinnedKeys(t);
    while rest != {}
      invariant rest <= UnpinnedKeys(t)
      invariant forall k :: k in victims <==> k in Victims(t, toFree) && k !in rest
      decreases rest
    {
      var k :| k in rest;
      var prior := SumBytes(t, Older(t, k));
      if prior < toFree {
        victims := victims + {k};
      }
      rest := rest - {k};
    }
  }

  /** `evict_unpinned_within`: the deletion and the freed bytes it returns. */
  method EvictUnpinnedWithin(tx: Db, currentTotal: int, target: int) returns (after: Db, freed: nat)
    requires currentTotal == TotalBytes(tx)
    ensures after == if currentTotal <= target then tx else Evicted(tx, target)
    ensures TotalBytes(after) == currentTotal - freed
  {
    if currentTotal <= target {
      return tx, 0;
    }
    var victims := SelectVictims(tx.tiles, currentTotal - target);
    freed := SumBytes(tx.tiles, victims);
    after := Without(tx, victims);
    DeleteUnpinned(tx, victims);
  }

  /** The growth estimate with an overlay for keys the batch repeats. */
  method BatchPhysicalGrowth(db: Db, rows: seq<WarmRow>) returns (growth: nat)
    ensures growth == Growth(db, rows, |rows|)
  {
    var current: map<Key, nat> := map[];
    growth := 0;
    for i := 0 to |rows|
      invariant growth == Growth(db, rows, i)
      invariant forall k :: Bytes(StoreFirst(db, rows, i, None, 0).tiles, k)
                         == if k in current then current[k] else Bytes(db.tiles, k)
    {
      var row := rows[i];
      var oldBytes := if row.key in current then current[row.key] else Bytes(db.tiles, row.key);
      growth := growth + if row.tile.bytes > oldBytes then row.tile.bytes - oldBytes else 0;
      current := current[row.key := row.tile.bytes];
    }
  }

  /** The statements of a promotion, replacement by replacement. */
  method ApplyReplacements(db: Db, replacements: seq<Replacement>) returns (tx: Db)
    ensures tx == PromoteAll(db, replacements)
  {
    tx := db;
    for i := 0 to |replacements|
      invariant tx == PromoteAll(db, replacements[..i])
    {
      assert replacements[..i + 1][..i] == replacements[..i];
      var target := replacements[i].target;
      tx := DemoteSole(tx, target);
      tx := DropRegion(tx, target);
      tx := Rename(tx, replacements[i].staging, target);
      tx := Repin(tx, target);
    }
    assert replacements[..|replacements|] == replacements;
  }

  /** A promotion's transaction: every replacement, then the three limits on what they left. */
  method TryPromote(db: Db, replacements: seq<Replacement>, realBudget: int, positionBudget: int, cap: int)
    returns (tx: Db, fits: bool, pinned: nat)
    requires Sound(db)
    ensures tx == PromoteAll(db, replacements) && Sound(tx) && TotalBytes(tx) == TotalBytes(db)
    ensures fits <==> WithinLimits(tx, realBudget, positionBudget, cap)
    ensures pinned == PinnedBytes(tx)
  {
    tx := ApplyReplacements(db, replacements);
    pinned := SumBytes(tx.tiles, PinnedKeys(tx.tiles));
    var realBytes := SumBytes(tx.tiles, CategoryKeys(tx, Some(BASEMAP_ASSETS_REGION_ID)));
    var positionBytes := SumBytes(tx.tiles, CategoryKeys(tx, Some(POSITION_WARM_REGION_ID)));
    fits := !(pinned > cap || realBytes > realBudget || positionBytes > positionBudget);
    PromoteAllPins(db, replacements);
    SameRowsSameTotal(db, tx);
  }

  /** The inserts of a batch on its open transaction: each row is gated with the running deltas, and the
      first refusal ends the batch. */
  method InsertGated(db: Db, rows: seq<WarmRow>, budget: int, cap: int, region: Option<string>, now: int,
                     pinnedBase: int, categoryBase: int)
    returns (tx: Db, stored: nat, capped: bool, added: int, reportedAdded: nat, pinnedAdded: int, categoryAdded: int)
    requires pinnedBase == PinnedBytes(db) && categoryBase == CategoryBytes(db, region)
    ensures stored == Accepted(db, rows, budget, cap, region, now) && (capped <==> stored < |rows|)
    ensures Inserted(db, rows, stored, budget, cap, region, now, tx, added, reportedAdded, pinnedAdded, categoryAdded)
  {
    hide StoreFirst, AcceptedOf, Growth, StoreRow, TotalBytes, PinnedBytes, CategoryBytes;
    InsertNone(db, rows, budget, cap, region, now);
    added, reportedAdded, pinnedAdded, categoryAdded := 0, 0, 0, 0;
    tx, stored, capped := db, 0, false;
    while stored < |rows|
      invariant !capped && stored <= |rows|
      invariant Inserted(db, rows, stored, budget, cap, region, now,
                         tx, added, reportedAdded, pinnedAdded, categoryAdded)
    {
      var row := rows[stored];
      var delta := row.tile.bytes - Bytes(tx.tiles, row.key);
      var pinDelta := PinDelta(tx, row);
      var categoryDelta := CategoryDelta(tx, row, region);
      capped := pinDelta > 0 && pinnedBase + pinnedAdded + pinDelta > cap;
      if !capped {
        capped := categoryDelta > 0 && categoryBase + categoryAdded + categoryDelta > budget;
      }
      if capped {
        RefusalStops(db, rows, stored, |rows|, budget, cap, region, now);
        break;
      }
      InsertOneMore(db, rows, stored, budget, cap, region, now, tx, added, reportedAdded, pinnedAdded, categoryAdded);
      added := added + delta;
      reportedAdded := reportedAdded + Growth1(tx, row);
      pinnedAdded := pinnedAdded + pinDelta;
      categoryAdded := categoryAdded + categoryDelta;
      tx := StoreRow(tx, row, region, now);
      stored := stored + 1;
    }
  }

  /** The transaction of a batch: the inserts first, then the make-room pass down to the target. */
  method ApplyBatch(db: Db, rows: seq<WarmRow>, budget: int, cap: int, region: Option<string>, now: int,
                    base: int, pinnedBase: int, categoryBase: int)
    returns (tx: Db, outcome: PutManyOutcome, total: int, pinned: int)
    requires Sound(db) && base == TotalBytes(db) && pinnedBase == PinnedBytes(db)
    requires categoryBase == CategoryBytes(db, region)
    ensures tx == PutMany(db, rows, budget, cap, region, now) && Sound(tx)
    ensures outcome == BatchOutcome(db, rows, budget, cap, region, now)
    ensures total == TotalBytes(tx) && pinned == PinnedBytes(tx)
  {
    var stored, capped, added, reportedAdded, pinnedAdded, categoryAdded;
    tx, stored, capped, added, reportedAdded, pinnedAdded, categoryAdded :=
      InsertGated(db, rows, budget, cap, region, now, pinnedBase, categoryBase);
    StoreFirstKeepsSound(db, rows, stored, region, now);
    EvictionKeepsSound(tx, cap);
    EvictionSparesStatistic(tx, cap, POSITION_WARM_REGION_ID);
    var newTotal, freed := base + added, 0;
    if newTotal > cap {
      tx, freed := EvictUnpinnedWithin(tx, newTotal, EvictionTarget(cap));
    }
    outcome := PutManyOutcome(stored, reportedAdded, capped);
    total, pinned := newTotal - freed, pinnedBase + pinnedAdded;
  }

  /** The row is pinned and the region's join recorded, and nothing else differs. */
  ghost predicate RecordsPin(before: Db, after: Db, k: Key, region: Option<string>) {
    && k in before.tiles && after.tiles == before.tiles[k := before.tiles[k].(pinned := true)]
    && (forall j :: j in after.joins <==> j in before.joins || (region == Some(j.region) && j.key == k))
  }

  /** If the operation reads the statistic, it is the one that leaves `warmId` out. */
  predicate Reads(op: Op, warmId: string) {
    op.ReadRealRegionBytes? ==> op.warmId == warmId
  }

  class TileCache {
    var conn: Db
    var totalBytes: int
    var pinnedBytes: int
    var realRegionCache: int
    var regionsDirty: bool
    var diskPressureEvents: nat
    /** The region the memo leaves out: the code does not keep it. */
    ghost var memoOf: string

    /** The running values are what a rescan would find. */
    ghost predicate Exact()
      reads this
    {
      && Sound(conn)
      && totalBytes == TotalBytes(conn)
      && pinnedBytes == PinnedBytes(conn)
      && (!regionsDirty ==> realRegionCache == RealRegionBytes(conn, memoOf))
    }

    /** The memo, if clean, is the one that leaves `warmId` out. */
    ghost predicate MemoizesFor(warmId: string)
      reads this
    {
      regionsDirty || memoOf == warmId
    }

    /** `open` over the tables an earlier process left behind. */
    constructor Open(db: Db, vacuumReady: bool)
      requires Sound(db)
      ensures Exact() && regionsDirty && conn == Next(db, Reopen(vacuumReady))
    {
      NextKeepsSound(db, Reopen(vacuumReady));
      var left := if vacuumReady then CleanupStaging(db) else db;
      var total := SumBytes(left.tiles, left.tiles.Keys);
      var pinned := SumBytes(left.tiles, PinnedKeys(left.tiles));
      conn, totalBytes, pinnedBytes := left, total, pinned;
      realRegionCache, regionsDirty, diskPressureEvents := 0, true, 0;
      memoOf := "";
    }

    /** A restart of the process over the same file. */
    method Restart(vacuumReady: bool)
      requires Exact()
      modifies this
      ensures Exact() && regionsDirty && conn == Next(old(conn), Reopen(vacuumReady))
    {
      NextKeepsSound(conn, Reopen(vacuumReady));
      if vacuumReady {
        conn := CleanupStaging(conn);
      }
      totalBytes := SumBytes(conn.tiles, conn.tiles.Keys);
      pinnedBytes := SumBytes(conn.tiles, PinnedKeys(conn.tiles));
      realRegionCache, regionsDirty, diskPressureEvents := 0, true, 0;
    }

    method Put(key: Key, tile: Tile, pin: bool, now: int, disk: Disk, write: Write) returns (r: Result<PutOutcome>)
      requires Exact()
      modifies this
      ensures Exact()
      ensures var room := DiskHasHeadroom(disk, tile.bytes - Bytes(old(conn).tiles, key));
              && conn == (if room && write.Written? then PutRow(old(conn), key, tile, pin, now) else old(conn))
              && (r == Ok(Stored) <==> room && write.Written?)
              && (r == Ok(Stored) ==>
                    && key in conn.tiles && conn.tiles[key].tile == tile && conn.tiles[key].lastAccess == now
                    && (conn.tiles[key].pinned <==> pin || IsPinned(old(conn), key)))
              && (r == Ok(Degraded) <==> !room || write.DiskFull?)
              && diskPressureEvents == old(diskPressureEvents) + if r == Ok(Degraded) then 1 else 0
      ensures memoOf == old(memoOf) && (old(regionsDirty) ==> regionsDirty)
    {
      var oldBytes := Bytes(conn.tiles, key);
      var wasPinned := IsPinned(conn, key);
      if !DiskHasHeadroom(disk, tile.bytes - oldBytes) {
        diskPressureEvents := diskPressureEvents + 1;
        return Ok(Degraded);
      }
      match write
      case DiskFull =>
        diskPressureEvents := diskPressureEvents + 1;
        return Ok(Degraded);
      case Failed =>
        return Err;
      case Written =>
        PutRowSums(conn, key, tile, pin, now);
        PutRowKeepsSound(conn, key, tile, pin, now);
        if !pin && !wasPinned {
          UnpinnedPutSparesStatistic(conn, key, tile, now, memoOf);
        }
        var effectivePinned := pin || wasPinned;
        conn := PutRow(conn, key, tile, pin, now);
        totalBytes := totalBytes + tile.bytes - oldBytes;
        if effectivePinned {
          pinnedBytes := pinnedBytes + tile.bytes - if wasPinned then oldBytes else 0;
          regionsDirty := true;
        }
        return Ok(Stored);
    }

    method Touch(key: Key, now: int, write: Write) returns (r: Result<()>)
      requires Exact()
      modifies this`conn
      ensures Exact() && conn == if write.Written? then TouchRow(old(conn), key, now) else old(conn)
      ensures r.Ok? && key in old(conn).tiles ==>
                key in conn.tiles && conn.tiles[key].lastAccess == Max(old(conn).tiles[key].lastAccess, now)
      ensures r == Err <==> !write.Written?
    {
      if !write.Written? {
        return Err;
      }
      TouchRowSums(conn, key, now, memoOf);
      conn := TouchRow(conn, key, now);
      return Ok(());
    }

    method EvictToCap(cap: int, write: Write) returns (r: Result<()>)
      requires Exact()
      modifies this`conn, this`totalBytes
      ensures Exact() && conn == if write.Written? then EvictTo(old(conn), cap) else old(conn)
      ensures r == Err <==> old(totalBytes) > cap && !write.Written?
      ensures r.Ok? ==> (totalBytes <= cap <==> pinnedBytes <= cap)
    {
      hide Sound, RealRegionBytes, TotalBytes, PinnedBytes;
      PinnedWithinTotal(conn);
      CapHoldsIffPinsFit(conn, cap);
      if totalBytes <= cap {
        return Ok(());
      }
      var after, freed := EvictUnpinnedWithin(conn, totalBytes, EvictionTarget(cap));
      if !write.Written? {
        return Err;
      }
      EvictionKeepsSound(conn, cap);
      EvictionSparesStatistic(conn, cap, memoOf);
      conn := after;
      totalBytes := totalBytes - freed;
      return Ok(());
    }

    /** The cap enforcement of a configuration push: the pinned bytes are compared under one hold of the lock
        and the eviction runs under another, with `between` what other callers do meanwhile. */
    method EnforceCap(cap: int, between: seq<Op>, write: Write) returns (r: Result<bool>)
      requires Exact()
      modifies this
      ensures Exact()
      ensures r == Ok(false) <==> old(pinnedBytes) > cap
      ensures conn == if r == Ok(false) then old(conn) else Next(Run(old(conn), between), Evict(cap, write))
      ensures r == Err <==>
                old(pinnedBytes) <= cap < TotalBytes(Run(old(conn), between)) && !write.Written?
      ensures r == Ok(true) ==> (totalBytes <= cap <==> PinnedBytes(Run(old(conn), between)) <= cap)
      ensures r == Ok(true) && between == [] ==> totalBytes <= cap
    {
      hide Sound, TotalBytes, RealRegionBytes, PinnedBytes, Eviction.EvictTo;
      if pinnedBytes > cap {
        return Ok(false);
      }
      PerformAll(between);
      RunKeepsSound(old(conn), between);
      EvictionSparesStatistic(conn, cap, memoOf);
      var evicted := EvictToCap(cap, write);
      return if evicted.Ok? then Ok(true) else Err;
    }

    /** One chunk of a sweep, under one hold of the lock. */
    method DeleteUnpinnedChunk(sweep: Sweep, write: Write) returns (r: Result<(nat, nat)>)
      requires Exact()
      modifies this`conn, this`totalBytes
      ensures Exact() && conn == if write.Written? then SweepChunk(old(conn), sweep) else old(conn)
      ensures write.Written? ==>
                r == Ok((Sum(old(conn).tiles, Chunk(old(conn).tiles, sweep)), |Chunk(old(conn).tiles, sweep)|))
      ensures r == Err <==> !write.Written?
    {
      var chunk := Chunk(conn.tiles, sweep);
      var chunkBytes := SumBytes(conn.tiles, chunk);
      if !write.Written? {
        return Err;
      }
      SweepChunkSums(conn, sweep, memoOf);
      conn := SweepChunk(conn, sweep);
      totalBytes := totalBytes - chunkBytes;
      return Ok((chunkBytes, |chunk|));
    }

    /** The chunked delete. The lock is free between chunks: `turns` says what other callers do there and how
        each delete ends, until they are used up and the rest goes on alone. A delete that fails is the error
        the code returns in place of the two counts. */
    method DeleteUnpinnedChunks(sweep: Sweep, turns: seq<Turn>)
      returns (completed: bool, freedBytes: nat, freedRows: nat)
      requires Exact()
      modifies this
      ensures Exact() && Progress(conn, completed, freedBytes, freedRows) == Swept(Begun(old(conn)), sweep, turns)
    {
      hide Sound, TotalBytes, PinnedBytes, RealRegionBytes, Selected, Chunk, RestTaken, SweepChunk, Sum, Run;
      freedBytes, freedRows := 0, 0;
      var turn := 0;
      while true
        invariant Exact() && 0 <= turn <= |turns|
        invariant Swept(Begun(old(conn)), sweep, turns)
               == Swept(Progress(conn, false, freedBytes, freedRows), sweep, turns[turn..])
        decreases |turns| - turn, |Selected(conn.tiles, sweep)|
      {
        ChunkTakenIs(Progress(conn, false, freedBytes, freedRows), sweep);
        var freed := DeleteUnpinnedChunk(sweep, if turn < |turns| then turns[turn].write else Written);
        if freed.Err? {
          return false, freedBytes, freedRows;
        }
        freedBytes, freedRows := freedBytes + freed.value.0, freedRows + freed.value.1;
        if freed.value.1 < DELETE_CHUNK {
          return true, freedBytes, freedRows;
        }
        if turn < |turns| {
          PerformAll(turns[turn].gap);
          turn := turn + 1;
        }
      }
    }

    /** `sweep_aged_unpinned`. */
    method SweepAgedUnpinned(ttlSecs: int, now: int, turns: seq<Turn>)
      returns (completed: bool, freedBytes: nat, freedRows: nat)
      requires Exact()
      modifies this
      ensures Exact()
      ensures Progress(conn, completed, freedBytes, freedRows)
           == if ttlSecs <= 0 then Progress(old(conn), true, 0, 0)
              else Swept(Begun(old(conn)), Aged(now - ttlSecs), turns)
      ensures completed && ttlSecs > 0 ==>
                forall k :: k in conn.tiles ==> conn.tiles[k].pinned || conn.tiles[k].lastAccess >= now - ttlSecs
      ensures turns == [] && ttlSecs > 0 ==> forall k :: k in conn.tiles <==>
                k in old(conn).tiles && (old(conn).tiles[k].pinned || old(conn).tiles[k].lastAccess >= now - ttlSecs)
      ensures turns == [] ==>
                freedBytes == old(totalBytes) - totalBytes && freedRows == |old(conn).tiles| - |conn.tiles|
    {
      if ttlSecs <= 0 {
        return true, 0, 0;
      }
      CompletedMeansNoneLeft(Begun(conn), Aged(now - ttlSecs), turns);
      SweepAllCounts(conn, Aged(now - ttlSecs));
      completed, freedBytes, freedRows := DeleteUnpinnedChunks(Aged(now - ttlSecs), turns);
      forall k | completed && k in conn.tiles && !conn.tiles[k].pinned
        ensures conn.tiles[k].lastAccess >= now - ttlSecs
      {
        assert k !in Selected(conn.tiles, Aged(now - ttlSecs));
      }
    }

    /** `clear_unpinned`, without the page reclaim that follows it. */
    method ClearUnpinned(turns: seq<Turn>) returns (completed: bool, freedBytes: nat, freedRows: nat)
      requires Exact()
      modifies this
      ensures Exact() && Progress(conn, completed, freedBytes, freedRows) == Swept(Begun(old(conn)), Clear, turns)
      ensures completed ==> totalBytes == pinnedBytes && conn.tiles.Keys == PinnedKeys(conn.tiles)
      ensures turns == [] ==> completed && conn.tiles.Keys == PinnedKeys(old(conn).tiles)
      ensures turns == [] ==>
                freedBytes == old(totalBytes) - totalBytes && freedRows == |old(conn).tiles| - |conn.tiles|
    {
      SweepAllCounts(conn, Clear);
      ClearLeavesThePins(conn);
      if Swept(Begun(conn), Clear, turns).completed {
        CompletedClear(conn, turns);
      }
      completed, freedBytes, freedRows := DeleteUnpinnedChunks(Clear, turns);
    }

    method PutManyPinned(rows: seq<WarmRow>, budget: int, cap: int, region: Option<string>, now: int,
                         disk: Disk, write: Write) returns (r: Result<PutManyOutcome>)
      requires Exact()
      modifies this
      ensures Exact()
      ensures var room := DiskHasHeadroom(disk, Growth(old(conn), rows, |rows|));
              && conn == (if room && write.Written?
                          then PutMany(old(conn), rows, budget, cap, region, now) else old(conn))
              && r == (if !room || write.DiskFull? then Ok(PutManyOutcome(0, 0, true))
                       else if write.Failed? then Err
                       else Ok(BatchOutcome(old(conn), rows, budget, cap, region, now)))
              && diskPressureEvents == old(diskPressureEvents) + if !room || write.DiskFull? then 1 else 0
      ensures memoOf == old(memoOf) && (old(regionsDirty) ==> regionsDirty)
    {
      hide Sound, TotalBytes, PinnedBytes, RealRegionBytes, PutMany, BatchOutcome, Growth;
      var requestedGrowth := BatchPhysicalGrowth(conn, rows);
      if !DiskHasHeadroom(disk, requestedGrowth) {
        diskPressureEvents := diskPressureEvents + 1;
        return Ok(DISK_PRESSURE);
      }
      var categoryBase := SumBytes(conn.tiles, CategoryKeys(conn, region));
      var tx, outcome, total, pinned :=
        ApplyBatch(conn, rows, budget, cap, region, now, totalBytes, pinnedBytes, categoryBase);
      match write
      case DiskFull =>
        diskPressureEvents := diskPressureEvents + 1;
        return Ok(DISK_PRESSURE);
      case Failed =>
        return Err;
      case Written =>
        conn, totalBytes, pinnedBytes := tx, total, pinned;
        regionsDirty := true;
        return Ok(outcome);
    }

    /** `pin_locked`: the pin transaction and its accounting. */
    method PinLocked(key: Key, region: Option<string>, wasPinned: bool, tileBytes: int, write: Write)
      returns (r: Result<()>)
      requires Exact()
      requires key in conn.tiles && wasPinned == conn.tiles[key].pinned && tileBytes == Bytes(conn.tiles, key)
      modifies this`conn, this`pinnedBytes, this`regionsDirty
      ensures old(regionsDirty) ==> regionsDirty
      ensures Exact() && conn == if write.Written? then PinRow(old(conn), key, region) else old(conn)
      ensures r == Err <==> !write.Written?
      ensures r.Ok? ==> RecordsPin(old(conn), conn, key, region)
    {
      hide Sound, PinRow, TotalBytes, PinnedBytes, RealRegionBytes;
      if !write.Written? {
        return Err;
      }
      PinRowSums(conn, key, region);
      PinRowWrites(conn, key, region);
      PinRowKeepsSound(conn, key, region);
      conn := PinRow(conn, key, region);
      if !wasPinned {
        pinnedBytes := pinnedBytes + tileBytes;
      }
      regionsDirty := true;
      return Ok(());
    }

    method PinIfFreshCapped(key: Key, now: int, freshSecs: int, negativeTtlSecs: int, budgets: PinBudgets,
                            region: Option<string>, write: Write) returns (r: Result<FreshPinOutcome>)
      requires Exact()
      modifies this`conn, this`pinnedBytes, this`regionsDirty
      ensures old(regionsDirty) ==> regionsDirty
      ensures Exact()
      ensures var tiles := old(conn).tiles;
              var servable := key in tiles && now - tiles[key].tile.fetchedAt
                                              < if tiles[key].tile.status == 200 then freshSecs else negativeTtlSecs;
              && r == (if !servable then Ok(MissingOrStale)
                       else if PinRefused(old(conn), key, budgets, region) then Ok(Capped)
                       else if write.Written? then Ok(NowPinned) else Err)
              && conn == (if servable && write.Written? then Pinned(old(conn), key, budgets, region) else old(conn))
      ensures if r == Ok(NowPinned) then RecordsPin(old(conn), conn, key, region) else conn == old(conn)
    {
      if key !in conn.tiles {
        return Ok(MissingOrStale);
      }
      var row := conn.tiles[key];
      var isFresh := row.tile.status == 200 && now - row.tile.fetchedAt < freshSecs;
      var negative := row.tile.status != 200 && now - row.tile.fetchedAt < negativeTtlSecs;
      if !isFresh && !negative {
        return Ok(MissingOrStale);
      }
      var tileBytes := row.tile.bytes;
      var inCategory := key in CategoryKeys(conn, region);
      var categoryBytes := SumBytes(conn.tiles, CategoryKeys(conn, region));
      if !inCategory && tileBytes > 0 && categoryBytes + tileBytes > budgets.category {
        return Ok(Capped);
      }
      if !row.pinned && tileBytes > 0 && budgets.physical.Some? && pinnedBytes + tileBytes > budgets.physical.value {
        return Ok(Capped);
      }
      var pinned := PinLocked(key, region, row.pinned, tileBytes, write);
      return if pinned.Ok? then Ok(NowPinned) else Err;
    }

    method PinForRegion(key: Key, budget: int, region: Option<string>, write: Write) returns (r: Result<bool>)
      requires Exact()
      modifies this`conn, this`pinnedBytes, this`regionsDirty
      ensures old(regionsDirty) ==> regionsDirty
      ensures Exact()
      ensures var open := key in old(conn).tiles && !PinRefused(old(conn), key, PinBudgets(budget, None), region);
              && r == (if !open then Ok(false) else if write.Written? then Ok(true) else Err)
              && conn == (if write.Written?
                          then Pinned(old(conn), key, PinBudgets(budget, None), region) else old(conn))
      ensures if r == Ok(true) then RecordsPin(old(conn), conn, key, region) else conn == old(conn)
    {
      if key !in conn.tiles {
        return Ok(false);
      }
      var row := conn.tiles[key];
      var inCategory := key in CategoryKeys(conn, region);
      var categoryBytes := SumBytes(conn.tiles, CategoryKeys(conn, region));
      if !inCategory && row.tile.bytes > 0 && categoryBytes + row.tile.bytes > budget {
        return Ok(false);
      }
      var pinned := PinLocked(key, region, row.pinned, row.tile.bytes, write);
      return if pinned.Ok? then Ok(true) else Err;
    }

    method DeleteRegion(region: string, write: Write) returns (r: Result<()>)
      requires Exact()
      modifies this`conn, this`pinnedBytes, this`regionsDirty
      ensures old(regionsDirty) ==> regionsDirty
      ensures Exact() && conn == if write.Written? then Regions.DeleteRegion(old(conn), region) else old(conn)
      ensures r == Err <==> !write.Written?
    {
      if !write.Written? {
        return Err;
      }
      DeleteRegionReleases(conn, region);
      var tx := DropRegion(conn, region);
      tx := DemoteOrphans(tx);
      conn := tx;
      pinnedBytes := SumBytes(conn.tiles, PinnedKeys(conn.tiles));
      regionsDirty := true;
      return Ok(());
    }

    method PromoteStagedRegions(replacements: seq<Replacement>, realBudget: int, positionBudget: int, cap: int,
                                write: Write) returns (r: Result<bool>)
      requires Exact()
      modifies this`conn, this`pinnedBytes, this`regionsDirty
      ensures old(regionsDirty) ==> regionsDirty
      ensures Exact()
      ensures conn == if write.Written?
                      then Promote(old(conn), replacements, realBudget, positionBudget, cap) else old(conn)
      ensures var fits := WithinLimits(PromoteAll(old(conn), replacements), realBudget, positionBudget, cap);
              && (r == Ok(true) <==> write.Written? && fits)
              && (r == Ok(false) <==> write.Written? && !fits)
      ensures r == Ok(true) ==>
                && pinnedBytes <= cap
                && forall id :: CategoryBytes(conn, Some(id)) <= if IsPosition(id) then positionBudget else realBudget
    {
      if !write.Written? {
        return Err;
      }
      var tx, fits, pinned := TryPromote(conn, replacements, realBudget, positionBudget, cap);
      WithinLimitsMeans(tx, realBudget, positionBudget, cap);
      if !fits {
        return Ok(false);
      }
      conn, pinnedBytes, regionsDirty := tx, pinned, true;
      return Ok(true);
    }

    method CleanupAbandonedStaging(write: Write) returns (r: Result<()>)
      requires Exact()
      modifies this`conn, this`pinnedBytes, this`regionsDirty
      ensures old(regionsDirty) ==> regionsDirty
      ensures Exact() && conn == if write.Written? then CleanupStaging(old(conn)) else old(conn)
      ensures r == Err <==> !write.Written?
    {
      if !write.Written? {
        return Err;
      }
      CleanupReleasesStaging(conn);
      conn := CleanupStaging(conn);
      pinnedBytes := SumBytes(conn.tiles, PinnedKeys(conn.tiles));
      regionsDirty := true;
      return Ok(());
    }

    /** The memoized statistic. A clean memo answers whatever region the caller asks to leave out, so the answer
        is that of the region named when the memo was last filled. */
    method RealRegionPinnedBytes(warmId: string) returns (value: int)
      requires Exact()
      modifies this`realRegionCache, this`regionsDirty, this`memoOf
      ensures Exact() && !regionsDirty && memoOf == (if old(regionsDirty) then warmId else old(memoOf))
      ensures value == RealRegionBytes(conn, memoOf)
      ensures old(MemoizesFor(warmId)) ==> value == RealRegionBytes(conn, warmId)
    {
      if !regionsDirty {
        return realRegionCache;
      }
      value := SumBytes(conn.tiles, PinnedRealKeys(conn, warmId));
      realRegionCache, regionsDirty, memoOf := value, false, warmId;
    }

    /** `regionsFreeBytes` of the statistics route: the budget gate's own figure as long as every reader of the
        memo leaves out position-warm, as this one does. */
    method ReportedFreeBytes(regions: int, position: int) returns (free: nat)
      requires Exact()
      modifies this`realRegionCache, this`regionsDirty, this`memoOf
      ensures Exact() && free == Max(0, regions - position - RealRegionBytes(conn, memoOf))
      ensures old(MemoizesFor(POSITION_WARM_REGION_ID)) ==>
                MemoizesFor(POSITION_WARM_REGION_ID) && free == RegionsFreeBytes(conn, regions, position)
    {
      var realPinned := RealRegionPinnedBytes(POSITION_WARM_REGION_ID);
      free := if regions - position - realPinned < 0 then 0 else regions - position - realPinned;
    }

    method Perform(op: Op)
      requires Exact()
      modifies this
      ensures Exact() && conn == Next(old(conn), op)
      ensures forall id :: old(MemoizesFor(id)) && Reads(op, id) ==> MemoizesFor(id)
    {
      hide Sound, TotalBytes, PinnedBytes, RealRegionBytes, PutRow, TouchRow, Eviction.EvictTo, SweepChunk, PutMany;
      hide CleanupStaging, BatchOutcome, Growth;
      match op
      case Put(k, tile, pin, now, disk, write) => var _ := Put(k, tile, pin, now, disk, write);
      case Touch(k, now, write) => var _ := Touch(k, now, write);
      case Evict(cap, write) => var _ := EvictToCap(cap, write);
      case DeleteChunk(sweep, write) => var _ := DeleteUnpinnedChunk(sweep, write);
      case PutManyPinned(rows, budget, cap, region, now, disk, write) =>
        var _ := PutManyPinned(rows, budget, cap, region, now, disk, write);
      case ReadRealRegionBytes(warmId) => var _ := RealRegionPinnedBytes(warmId);
      case Reopen(vacuumReady) => Restart(vacuumReady);
      case PinIfFresh(_, _, _, _, _, _, _) => PerformPin(op);
      case PinForRegion(_, _, _, _) => PerformPin(op);
      case _ => PerformRegion(op);
    }

    method PerformPin(op: Op)
      requires Exact() && (op.PinIfFresh? || op.PinForRegion?)
      modifies this`conn, this`pinnedBytes, this`regionsDirty
      ensures old(regionsDirty) ==> regionsDirty
      ensures Exact() && conn == Next(old(conn), op)
    {
      hide Sound, TotalBytes, PinnedBytes, RealRegionBytes, Pinned, PinRefused, PinRow;
      match op
      case PinIfFresh(k, now, freshSecs, negativeTtlSecs, budgets, region, write) =>
        var _ := PinIfFreshCapped(k, now, freshSecs, negativeTtlSecs, budgets, region, write);
      case PinForRegion(k, budget, region, write) => var _ := PinForRegion(k, budget, region, write);
    }

    method PerformRegion(op: Op)
      requires Exact() && (op.RegionDelete? || op.PromoteStaged? || op.StagingCleanup?)
      modifies this`conn, this`pinnedBytes, this`regionsDirty
      ensures old(regionsDirty) ==> regionsDirty
      ensures Exact() && conn == Next(old(conn), op)
    {
      hide Sound, TotalBytes, PinnedBytes, RealRegionBytes, Regions.DeleteRegion, Promote, CleanupStaging;
      match op
      case RegionDelete(id, write) => var _ := DeleteRegion(id, write);
      case PromoteStaged(rs, realBudget, positionBudget, cap, write) =>
        var _ := PromoteStagedRegions(rs, realBudget, positionBudget, cap, write);
      case StagingCleanup(write) => var _ := CleanupAbandonedStaging(write);
    }

    /** Whatever operations run, in whatever order and with whatever failures, the running values stay
        exact and the tables are those of the run; and when every read of the statistic leaves one region out,
        so does the memo. */
    method PerformAll(ops: seq<Op>)
      requires Exact()
      modifies this
      ensures Exact() && conn == Run(old(conn), ops)
      ensures forall id :: old(MemoizesFor(id)) && (forall op :: op in ops ==> Reads(op, id)) ==> MemoizesFor(id)
    {
      for i := 0 to |ops|
        invariant Exact() && conn == Run(old(conn), ops[..i])
        invariant forall id :: old(MemoizesFor(id)) && (forall op :: op in ops ==> Reads(op, id)) ==> MemoizesFor(id)
      {
        assert ops[..i + 1][..i] == ops[..i];
        Perform(ops[i]);
      }
      assert ops[..|ops|] == ops;
    }
  }
}
