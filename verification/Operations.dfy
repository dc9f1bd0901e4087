/** Every cache operation as a step on the tables, runs of them, and what holds over every run. */
module Operations {
  import opened Wrappers
  import opened Tables
  import opened Eviction
  import opened Sweeping
  import opened WarmBatch
  import opened Regions

  // ----- the environment -----

  /** What the platform reports before a write: free space when it is known, and free pages. */
  datatype Disk = Disk(available: Option<nat>, reusable: nat)

  /** How the engine ends a write transaction. Anything but `Written` rolls back. */
  datatype Write = Written | DiskFull | Failed

  const MIN_FREE_HEADROOM_BYTES: nat := 256 * 1024 * 1024
  const U64_MAX: nat := 0xFFFF_FFFF_FFFF_FFFF

  function SaturatingAdd(a: nat, b: nat): nat {
    if a + b <= U64_MAX then a + b else U64_MAX
  }

  predicate HasHeadroom(available: nat, reusable: nat, additional: nat) {
    SaturatingAdd(available, reusable) >= SaturatingAdd(MIN_FREE_HEADROOM_BYTES, additional)
  }

  predicate DiskHasHeadroom(disk: Disk, additional: int) {
    additional <= 0 || disk.available.None? || HasHeadroom(disk.available.value, disk.reusable, additional)
  }

  /** A write has headroom when it adds nothing, when the free space is unknown, or when the free space and the
      reusable pages hold it with 256 MiB to spare. Sums the code saturates count as that many bytes. */
  lemma HeadroomMeans(disk: Disk, additional: int)
    ensures DiskHasHeadroom(disk, additional)
       <==> || additional <= 0 || disk.available.None?
            || disk.available.value + disk.reusable >= 268435456 + additional
            || disk.available.value + disk.reusable >= 18446744073709551615
  {
  }

  // ----- the live proxy's single-row write -----

  /** INSERT OR REPLACE that never clears a pin. */
  function PutRow(db: Db, k: Key, tile: Tile, pin: bool, now: int): Db {
    db.(tiles := db.tiles[k := Row(tile, now, db.nextRowid, pin || IsPinned(db, k))],
        nextRowid := db.nextRowid + 1)
  }

  lemma PutRowKeepsSound(db: Db, k: Key, tile: Tile, pin: bool, now: int)
    requires Sound(db)
    ensures Sound(PutRow(db, k, tile, pin, now))
  {
  }

  /** A live write stores the tile under its key, keeps a pin that was there, and touches nothing else; the row
      is the newest. */
  lemma PutRowWrites(db: Db, k: Key, tile: Tile, pin: bool, now: int)
    ensures var after := PutRow(db, k, tile, pin, now);
            && k in after.tiles && after.tiles[k].tile == tile && after.tiles[k].lastAccess == now
            && (after.tiles[k].pinned <==> pin || (k in db.tiles && db.tiles[k].pinned))
            && (Sound(db) ==> forall o :: o in db.tiles ==> db.tiles[o].rowid < after.tiles[k].rowid)
            && (forall o :: o != k ==> (o in after.tiles <==> o in db.tiles))
            && (forall o :: o != k && o in db.tiles ==> after.tiles[o] == db.tiles[o])
            && after.joins == db.joins
  {
  }

  /** The pinned sum gains the row's full bytes when it newly enters, its delta when it was in, and
      nothing when it stays out. */
  function PinnedGain(db: Db, k: Key, tile: Tile, pin: bool): int {
    if !pin && !IsPinned(db, k) then 0
    else tile.bytes - if IsPinned(db, k) then Bytes(db.tiles, k) else 0
  }

  lemma PutRowSums(db: Db, k: Key, tile: Tile, pin: bool, now: int)
    ensures var after := PutRow(db, k, tile, pin, now);
            && TotalBytes(after) == TotalBytes(db) + tile.bytes - Bytes(db.tiles, k)
            && PinnedBytes(after) == PinnedBytes(db) + PinnedGain(db, k, tile, pin)
  {
    var after := PutRow(db, k, tile, pin, now);
    AddedKeySum(db.tiles, after.tiles, k, db.tiles.Keys, after.tiles.Keys);
    if pin || IsPinned(db, k) {
      assert PinnedKeys(after.tiles) == PinnedKeys(db.tiles) + {k};
      AddedKeySum(db.tiles, after.tiles, k, PinnedKeys(db.tiles), PinnedKeys(after.tiles));
    } else {
      assert PinnedKeys(after.tiles) == PinnedKeys(db.tiles);
      SumUpdate(db.tiles, k, after.tiles[k], PinnedKeys(db.tiles));
    }
  }

  /** A write that leaves its row unpinned cannot move the statistic: an unpinned row has no join. */
  lemma UnpinnedPutSparesStatistic(db: Db, k: Key, tile: Tile, now: int, warmId: string)
    requires Sound(db) && !IsPinned(db, k)
    ensures RealRegionBytes(PutRow(db, k, tile, false, now), warmId) == RealRegionBytes(db, warmId)
  {
    var after := PutRow(db, k, tile, false, now);
    assert PinnedRealKeys(after, warmId) == PinnedRealKeys(db, warmId);
    SumUpdate(db.tiles, k, after.tiles[k], PinnedRealKeys(db, warmId));
  }

  function TouchRow(db: Db, k: Key, now: int): Db {
    if k in db.tiles && db.tiles[k].lastAccess < now
    then db.(tiles := db.tiles[k := db.tiles[k].(lastAccess := now)])
    else db
  }

  /** A touch moves one row's last access forward to `now`, never back, and touches nothing else. */
  lemma TouchRowWrites(db: Db, k: Key, now: int)
    ensures var after := TouchRow(db, k, now);
            && after.tiles.Keys == db.tiles.Keys && after.joins == db.joins
            && (k in db.tiles ==> after.tiles[k] == db.tiles[k].(lastAccess := Max(db.tiles[k].lastAccess, now)))
            && (forall o :: o != k && o in db.tiles ==> after.tiles[o] == db.tiles[o])
  {
  }

  lemma TouchRowSums(db: Db, k: Key, now: int, warmId: string)
    requires Sound(db)
    ensures var after := TouchRow(db, k, now);
            && Sound(after)
            && TotalBytes(after) == TotalBytes(db)
            && PinnedBytes(after) == PinnedBytes(db)
            && RealRegionBytes(after, warmId) == RealRegionBytes(db, warmId)
  {
    var after := TouchRow(db, k, now);
    assert after.tiles.Keys == db.tiles.Keys;
    assert PinnedKeys(after.tiles) == PinnedKeys(db.tiles);
    assert PinnedRealKeys(after, warmId) == PinnedRealKeys(db, warmId);
    SumAgrees(db.tiles, after.tiles, db.tiles.Keys);
    SumAgrees(db.tiles, after.tiles, PinnedKeys(db.tiles));
    SumAgrees(db.tiles, after.tiles, PinnedRealKeys(db, warmId));
  }

  // ----- steps -----

  /** One operation under the connection lock, with the environment's part as its input. A chunked sweep
      is several `DeleteChunk` steps, since it gives the lock up between chunks. */
  datatype Op =
    | Put(key: Key, tile: Tile, pin: bool, now: int, disk: Disk, write: Write)
    | Touch(key: Key, now: int, write: Write)
    | Evict(cap: int, write: Write)
    | DeleteChunk(sweep: Sweep, write: Write)
    | PutManyPinned(rows: seq<WarmRow>, budget: int, cap: int, region: Option<string>, now: int,
                    disk: Disk, write: Write)
    | PinIfFresh(key: Key, now: int, freshSecs: int, negativeTtlSecs: int, budgets: PinBudgets,
                 region: Option<string>, write: Write)
    | PinForRegion(key: Key, budget: int, region: Option<string>, write: Write)
    | RegionDelete(id: string, write: Write)
    | PromoteStaged(replacements: seq<Replacement>, realBudget: int, positionBudget: int, cap: int, write: Write)
    | StagingCleanup(write: Write)
    | ReadRealRegionBytes(warmId: string)
    | Reopen(vacuumReady: bool)

  ghost function Pinned(db: Db, k: Key, budgets: PinBudgets, region: Option<string>): Db {
    if k !in db.tiles || PinRefused(db, k, budgets, region) then db else PinRow(db, k, region)
  }

  /** The tables an operation commits when the engine accepts the write. */
  ghost function Committed(db: Db, op: Op): Db {
    match op
    case Put(k, tile, pin, now, disk, _) =>
      if DiskHasHeadroom(disk, tile.bytes - Bytes(db.tiles, k)) then PutRow(db, k, tile, pin, now) else db
    case Touch(k, now, _) => TouchRow(db, k, now)
    case Evict(cap, _) => EvictTo(db, cap)
    case DeleteChunk(sweep, _) => SweepChunk(db, sweep)
    case PutManyPinned(rows, budget, cap, region, now, disk, _) =>
      if DiskHasHeadroom(disk, Growth(db, rows, |rows|)) then PutMany(db, rows, budget, cap, region, now) else db
    case PinIfFresh(k, now, freshSecs, negativeTtlSecs, budgets, region, _) =>
      if k in db.tiles && Fresh(db.tiles[k].tile, now, freshSecs, negativeTtlSecs)
      then Pinned(db, k, budgets, region) else db
    case PinForRegion(k, budget, region, _) => Pinned(db, k, PinBudgets(budget, None), region)
    case RegionDelete(id, _) => DeleteRegion(db, id)
    case PromoteStaged(rs, realBudget, positionBudget, cap, _) => Promote(db, rs, realBudget, positionBudget, cap)
    case StagingCleanup(_) => CleanupStaging(db)
    case ReadRealRegionBytes(_) => db
    case Reopen(vacuumReady) => if vacuumReady then CleanupStaging(db) else db
  }

  ghost function Next(db: Db, op: Op): Db {
    if op.ReadRealRegionBytes? || op.Reopen? || op.write.Written? then Committed(db, op) else db
  }

  ghost function Run(db: Db, ops: seq<Op>): Db {
    if ops == [] then db else Next(Run(db, ops[..|ops| - 1]), ops[|ops| - 1])
  }

  // ----- every run keeps the tables sound -----

  lemma NextKeepsSound(db: Db, op: Op)
    requires Sound(db)
    ensures Sound(Next(db, op))
  {
    hide Sound, PutRow, TouchRow, EvictTo, SweepChunk, PutMany, PinRow, PinRefused, DeleteRegion, CleanupStaging;
    match op
    case Put(k, tile, pin, now, _, _) => PutRowKeepsSound(db, k, tile, pin, now);
    case Touch(k, now, _) => TouchRowSums(db, k, now, POSITION_WARM_REGION_ID);
    case Evict(cap, _) => EvictionKeepsSound(db, cap);
    case DeleteChunk(sweep, _) => SweepChunkSums(db, sweep, POSITION_WARM_REGION_ID);
    case PutManyPinned(rows, budget, cap, region, now, _, _) => PutManyKeepsSound(db, rows, budget, cap, region, now);
    case PinIfFresh(k, _, _, _, _, region, _) => if k in db.tiles { PinRowKeepsSound(db, k, region); }
    case PinForRegion(k, _, region, _) => if k in db.tiles { PinRowKeepsSound(db, k, region); }
    case RegionDelete(id, _) => DeleteRegionReleases(db, id);
    case PromoteStaged(rs, _, _, _, _) => PromoteAllPins(db, rs);
    case StagingCleanup(_) => CleanupReleasesStaging(db);
    case ReadRealRegionBytes(_) =>
    case Reopen(_) => CleanupReleasesStaging(db);
  }

  lemma {:induction false} RunKeepsSound(db: Db, ops: seq<Op>)
    requires Sound(db)
    ensures Sound(Run(db, ops))
  {
    if ops == [] {
    } else {
      RunKeepsSound(db, ops[..|ops| - 1]);
      NextKeepsSound(Run(db, ops[..|ops| - 1]), ops[|ops| - 1]);
    }
  }

  // ----- the offline guarantee -----

  /** The operations that may take a tile away from `region`: its own deletion, a promotion that names it,
      and the cleanup of staging regions. */
  predicate Releases(op: Op, region: string) {
    match op
    case RegionDelete(id, _) => id == region
    case PromoteStaged(rs, _, _, _, _) =>
      exists i :: 0 <= i < |rs| && (rs[i].staging == region || rs[i].target == region)
    case StagingCleanup(_) => IsStaging(region)
    case Reopen(vacuumReady) => vacuumReady && IsStaging(region)
    case _ => false
  }

  lemma JoinSurvives(db: Db, op: Op, j: Join)
    requires Sound(db) && j in db.joins && !Releases(op, j.region)
    ensures j in Next(db, op).joins
  {
    match op
    case PutManyPinned(rows, budget, cap, region, now, _, _) =>
      StoreFirstKeepsSound(db, rows, Accepted(db, rows, budget, cap, region, now), region, now);
      var gone := EvictToDeletesUnpinned(StoredBatch(db, rows, budget, cap, region, now), cap);
    case Evict(cap, _) => var gone := EvictToDeletesUnpinned(db, cap);
    case RegionDelete(id, _) => DeleteRegionReleases(db, id);
    case PromoteStaged(rs, _, _, _, _) => PromotionSparesOthers(db, rs, j.region);
    case _ =>
  }

  /** Once a tile has a join row for a region it stays stored and pinned through every run of live
      refreshes, evictions, sweeps, clears, warms, restarts and other regions' deletes and promotions,
      until an operation that releases that region. */
  lemma {:induction false} OfflineGuarantee(db: Db, ops: seq<Op>, j: Join)
    requires Sound(db) && j in db.joins
    requires forall i :: 0 <= i < |ops| ==> !Releases(ops[i], j.region)
    ensures var after := Run(db, ops);
            j in after.joins && j.key in after.tiles && after.tiles[j.key].pinned
  {
    if ops == [] {
    } else {
      var front := ops[..|ops| - 1];
      OfflineGuarantee(db, front, j);
      RunKeepsSound(db, front);
      JoinSurvives(Run(db, front), ops[|ops| - 1], j);
      RunKeepsSound(db, ops);
    }
  }

  /** When a pin of `k` for `region` goes through: the row is there, it is still served if the pin asks for that,
      and pinning it raises neither sum past its limit. */
  ghost predicate PinGoesThrough(db: Db, op: Op, k: Key, region: string) {
    match op
    case PinIfFresh(key, now, freshSecs, negativeTtlSecs, budgets, id, write) =>
      && key == k && id == Some(region) && write.Written? && k in db.tiles
      && now - db.tiles[k].tile.fetchedAt < (if db.tiles[k].tile.status == 200 then freshSecs else negativeTtlSecs)
      && CategoryBytes(PinRow(db, k, id), id) <= Max(budgets.category, CategoryBytes(db, id))
      && (budgets.physical.Some? ==> PinnedBytes(PinRow(db, k, id)) <= Max(budgets.physical.value, PinnedBytes(db)))
    case PinForRegion(key, budget, id, write) =>
      && key == k && id == Some(region) && write.Written? && k in db.tiles
      && CategoryBytes(PinRow(db, k, id), id) <= Max(budget, CategoryBytes(db, id))
    case _ => false
  }

  /** A pin that goes through sets the row's pin bit and records the join; one that does not changes nothing. */
  lemma PinSteps(db: Db, op: Op, k: Key, region: string)
    requires match op
             case PinIfFresh(key, _, _, _, _, id, _) => key == k && id == Some(region)
             case PinForRegion(key, _, id, _) => key == k && id == Some(region)
             case _ => false
    ensures PinGoesThrough(db, op, k, region) ==>
              && Next(db, op).tiles == db.tiles[k := db.tiles[k].(pinned := true)]
              && Next(db, op).joins == db.joins + {Join(region, k)}
    ensures !PinGoesThrough(db, op, k, region) ==> Next(db, op) == db
  {
    hide PinRefused, CategoryBytes, PinnedBytes;
    if k in db.tiles {
      match op
      case PinIfFresh(_, _, _, _, budgets, _, _) => PinRefusedIff(db, k, budgets, Some(region));
      case PinForRegion(_, budget, _, _) => PinRefusedIff(db, k, PinBudgets(budget, None), Some(region));
    }
  }

  /** The guarantee starts with the pin: a tile pinned for a region from the cache stays stored and pinned through
      every run that does not release the region. */
  lemma PinnedStaysOffline(db: Db, op: Op, k: Key, region: string, ops: seq<Op>)
    requires Sound(db) && PinGoesThrough(db, op, k, region)
    requires forall i :: 0 <= i < |ops| ==> !Releases(ops[i], region)
    ensures var after := Run(Next(db, op), ops);
            Join(region, k) in after.joins && k in after.tiles && after.tiles[k].pinned
  {
    hide PinGoesThrough, Sound, Releases, Run, Next;
    PinGoesThroughAPin(db, op, k, region);
    PinSteps(db, op, k, region);
    NextKeepsSound(db, op);
    OfflineGuarantee(Next(db, op), ops, Join(region, k));
  }

  lemma PinGoesThroughAPin(db: Db, op: Op, k: Key, region: string)
    requires PinGoesThrough(db, op, k, region)
    ensures match op
            case PinIfFresh(key, _, _, _, _, id, _) => key == k && id == Some(region)
            case PinForRegion(key, _, id, _) => key == k && id == Some(region)
            case _ => false
  {
  }

  lemma WarmStep(
      db: Db, rows: seq<WarmRow>, budget: int, cap: int, region: Option<string>, now: int, disk: Disk)
    requires DiskHasHeadroom(disk, Growth(db, rows, |rows|))
    ensures Next(db, PutManyPinned(rows, budget, cap, region, now, disk, Written))
         == PutMany(db, rows, budget, cap, region, now)
  {
    hide PutMany, Growth, DiskHasHeadroom;
  }

  lemma WarmedIsJoined(
      db: Db, rows: seq<WarmRow>, budget: int, cap: int, region: string, now: int, i: nat)
    requires i < Accepted(db, rows, budget, cap, Some(region), now)
    ensures Join(region, rows[i].key) in PutMany(db, rows, budget, cap, Some(region), now).joins
  {
    hide PutMany, Accepted;
    BatchRowsAreKept(db, rows, budget, cap, Some(region), now, i);
  }

  /** So does every tile a warm for the region stored. */
  lemma WarmedStaysOffline(
      db: Db, rows: seq<WarmRow>, budget: int, cap: int, region: string, now: int, disk: Disk, i: nat, ops: seq<Op>)
    requires Sound(db) && i < Accepted(db, rows, budget, cap, Some(region), now)
    requires DiskHasHeadroom(disk, Growth(db, rows, |rows|))
    requires forall n :: 0 <= n < |ops| ==> !Releases(ops[n], region)
    ensures var after := Run(Next(db, PutManyPinned(rows, budget, cap, Some(region), now, disk, Written)), ops);
            && Join(region, rows[i].key) in after.joins
            && rows[i].key in after.tiles && after.tiles[rows[i].key].pinned
  {
    hide PutMany, Accepted, Sound, Releases, Run, Next, Growth, DiskHasHeadroom;
    WarmStep(db, rows, budget, cap, Some(region), now, disk);
    WarmedIsJoined(db, rows, budget, cap, region, now, i);
    PutManyKeepsSound(db, rows, budget, cap, Some(region), now);
    OfflineGuarantee(PutMany(db, rows, budget, cap, Some(region), now), ops, Join(region, rows[i].key));
  }

  /** A committed live write and a committed touch, as steps. */
  lemma LiveSteps(db: Db, k: Key, tile: Tile, pin: bool, now: int, disk: Disk)
    ensures DiskHasHeadroom(disk, tile.bytes - Bytes(db.tiles, k)) ==>
              var after := Next(db, Put(k, tile, pin, now, disk, Written));
              && k in after.tiles && after.tiles[k].tile == tile && after.tiles[k].lastAccess == now
              && (after.tiles[k].pinned <==> pin || IsPinned(db, k))
    ensures k in db.tiles ==>
              var after := Next(db, Touch(k, now, Written));
              && after.tiles == db.tiles[k := db.tiles[k].(lastAccess := Max(db.tiles[k].lastAccess, now))]
              && after.joins == db.joins
  {
  }

  /** Every operation the guarantee excepts can take a region's tile away: for each there are tables, within any
      limits that are not negative, in which it does. */
  lemma ReleaseCanTakeATile(op: Op, region: string, k: Key, tile: Tile) returns (db: Db, j: Join)
    requires Releases(op, region) && tile.bytes == 0 && (op.Reopen? || op.write.Written?)
    requires op.PromoteStaged? ==>
               DistinctIds(op.replacements) && op.realBudget >= 0 && op.positionBudget >= 0 && op.cap >= 0
    ensures Sound(db) && j in db.joins && j.region == region && j !in Next(db, op).joins
  {
    j := Join(region, k);
    db := Db(map[k := Row(tile, 0, 1, true)], {j}, 2);
    match op
    case RegionDelete(id, _) => DeleteRegionReleases(db, id);
    case StagingCleanup(_) => CleanupReleasesStaging(db);
    case Reopen(_) => CleanupReleasesStaging(db);
    case PromoteStaged(rs, realBudget, positionBudget, cap, _) =>
      SumSplit(db.tiles, {k}, k);
      assert db.tiles.Keys == {k} && {k} - {k} == {};
      WeightlessPromotionCommits(db, rs, realBudget, positionBudget, cap);
      var i :| 0 <= i < |rs| && (rs[i].staging == region || rs[i].target == region);
      PromotionMovesStaging(db, rs, i);
  }

  lemma WeightlessPromotionCommits(db: Db, rs: seq<Replacement>, realBudget: int, positionBudget: int, cap: int)
    requires Sound(db) && TotalBytes(db) == 0 && realBudget >= 0 && positionBudget >= 0 && cap >= 0
    ensures Promote(db, rs, realBudget, positionBudget, cap) == PromoteAll(db, rs)
  {
    var done := PromoteAll(db, rs);
    PromoteAllPins(db, rs);
    SameRowsSameTotal(db, done);
    PinnedWithinTotal(done);
    CategoryWithinPinned(done, Some(BASEMAP_ASSETS_REGION_ID));
    CategoryWithinPinned(done, Some(POSITION_WARM_REGION_ID));
  }

  predicate HasBlob(db: Db, k: Key) {
    k in db.tiles && db.tiles[k].tile.blob.Some?
  }

  /** The operation's committed write leaves a negative row under `k`. */
  ghost predicate Blanks(db: Db, op: Op, k: Key) {
    match op
    case Put(key, tile, _, _, disk, write) =>
      key == k && tile.blob.None? && write.Written? && DiskHasHeadroom(disk, tile.bytes - Bytes(db.tiles, k))
    case PutManyPinned(rows, budget, cap, region, now, disk, write) =>
      && write.Written? && DiskHasHeadroom(disk, Growth(db, rows, |rows|))
      && LastIsNegative(rows, Accepted(db, rows, budget, cap, region, now), k)
    case _ => false
  }

  /** The last of the first `n` rows that name `k`, if any, is negative. */
  predicate LastIsNegative(rows: seq<WarmRow>, n: nat, k: Key)
    requires n <= |rows|
  {
    n > 0 && if rows[n - 1].key == k then rows[n - 1].tile.blob.None? else LastIsNegative(rows, n - 1, k)
  }

  lemma {:induction false} BatchBlob(db: Db, rows: seq<WarmRow>, n: nat, region: Option<string>, now: int, k: Key)
    requires n <= |rows| && HasBlob(db, k)
    ensures var after := StoreFirst(db, rows, n, region, now);
            k in after.tiles && (HasBlob(after, k) <==> !LastIsNegative(rows, n, k))
  {
    if n == 0 {
    } else {
      BatchBlob(db, rows, n - 1, region, now, k);
    }
  }

  lemma EvictionSparesPinnedRow(db: Db, cap: int, k: Key)
    requires IsPinned(db, k)
    ensures k in EvictTo(db, cap).tiles && EvictTo(db, cap).tiles[k] == db.tiles[k]
  {
    var gone := EvictToDeletesUnpinned(db, cap);
  }

  /** A saved tile keeps a body through an operation that does not release its region if and only if the
      operation does not write a negative row over it: the pin guards the row, not what is in it. */
  lemma BodySurvivesIff(db: Db, op: Op, j: Join)
    requires Sound(db) && j in db.joins && !Releases(op, j.region) && HasBlob(db, j.key)
    ensures HasBlob(Next(db, op), j.key) <==> !Blanks(db, op, j.key)
  {
    hide EvictTo, PutMany, SweepChunk, Chunk, Promote, DeleteRegion, CleanupStaging, DiskHasHeadroom, Accepted;
    match op
    case PutManyPinned(rows, budget, cap, region, now, disk, write) =>
      if write.Written? && DiskHasHeadroom(disk, Growth(db, rows, |rows|)) {
        BatchBodySurvivesIff(db, rows, budget, cap, region, now, j);
      }
    case Evict(cap, _) => EvictionSparesPinnedRow(db, cap, j.key);
    case DeleteChunk(sweep, _) => ChunkSparesPinnedRow(db, sweep, j.key);
    case RegionDelete(id, _) => DeleteRegionReleases(db, id);
    case PromoteStaged(rs, realBudget, positionBudget, cap, _) =>
      PromoteKeepsRows(db, rs, realBudget, positionBudget, cap);
    case StagingCleanup(_) => CleanupReleasesStaging(db);
    case Reopen(_) => CleanupReleasesStaging(db);
    case _ =>
  }

  lemma BatchBodySurvivesIff(
      db: Db, rows: seq<WarmRow>, budget: int, cap: int, region: Option<string>, now: int, j: Join)
    requires Sound(db) && j in db.joins && HasBlob(db, j.key)
    ensures HasBlob(PutMany(db, rows, budget, cap, region, now), j.key)
       <==> !LastIsNegative(rows, Accepted(db, rows, budget, cap, region, now), j.key)
  {
    hide EvictTo, StoreFirst, Accepted, LastIsNegative;
    var n := Accepted(db, rows, budget, cap, region, now);
    BatchBlob(db, rows, n, region, now, j.key);
    StoreFirstKeepsSound(db, rows, n, region, now);
    EvictionSparesPinnedRow(StoredBatch(db, rows, budget, cap, region, now), cap, j.key);
  }

  lemma ChunkSparesPinnedRow(db: Db, sweep: Sweep, k: Key)
    requires IsPinned(db, k)
    ensures k in SweepChunk(db, sweep).tiles && SweepChunk(db, sweep).tiles[k] == db.tiles[k]
  {
    ChunkThenRest(db, sweep);
  }

  lemma PromoteKeepsRows(db: Db, rs: seq<Replacement>, realBudget: int, positionBudget: int, cap: int)
    requires Sound(db)
    ensures SameRows(db, Promote(db, rs, realBudget, positionBudget, cap))
  {
    PromoteAllPins(db, rs);
  }

  /** So over every run a saved tile keeps a body until an operation that releases its region or writes a
      negative row over it. */
  lemma {:induction false} OfflineBody(db: Db, ops: seq<Op>, j: Join)
    requires Sound(db) && j in db.joins && HasBlob(db, j.key)
    requires forall i :: 0 <= i < |ops| ==> !Releases(ops[i], j.region) && !Blanks(Run(db, ops[..i]), ops[i], j.key)
    ensures HasBlob(Run(db, ops), j.key)
  {
    if ops == [] {
    } else {
      hide Next, Blanks, Releases, HasBlob, Sound;
      var n := |ops| - 1;
      var front := ops[..n];
      forall i | 0 <= i < n ensures !Releases(front[i], j.region) && !Blanks(Run(db, front[..i]), front[i], j.key) {
        assert front[..i] == ops[..i] && front[i] == ops[i];
      }
      OfflineBody(db, front, j);
      OfflineGuarantee(db, front, j);
      RunKeepsSound(db, front);
      BodySurvivesIff(Run(db, front), ops[n], j);
    }
  }

  /** Any saved body can be lost so: one committed write of a negative row does it, and the row stays pinned. */
  lemma SavedBodyCanBeLost(db: Db, j: Join, bytes: nat, now: int, disk: Disk) returns (op: Op)
    requires Sound(db) && j in db.joins && DiskHasHeadroom(disk, bytes - Bytes(db.tiles, j.key))
    ensures op.Put? && !op.pin && op.tile.status == 404 && op.tile.bytes == bytes && !Releases(op, j.region)
    ensures IsPinned(Next(db, op), j.key) && !HasBlob(Next(db, op), j.key)
  {
    op := Put(j.key, Tile("", "", None, 404, now, bytes, None), false, now, disk, Written);
  }

  // ----- budgets over whole runs -----

  /** In every reachable state the reported free bytes are spendable by a real region's batch. */
  lemma FreeBytesSpendableAfterAnyRun(
      db: Db, ops: seq<Op>, rows: seq<WarmRow>, regions: int, position: int, cap: int, region: string, now: int)
    requires Sound(db) && BudgetsAccepted(cap, regions, position) && !IsPosition(region)
    requires var s := Run(db, ops);
             && BatchBytes(rows, |rows|) <= RegionsFreeBytes(s, regions, position)
             && PinnedBytes(s) + BatchBytes(rows, |rows|) <= cap
    ensures var s := Run(db, ops);
            && RealRegionBytes(s, POSITION_WARM_REGION_ID) == CategoryBytes(s, Some(region))
            && Accepted(s, rows, regions - position, cap, Some(region), now) == |rows|
  {
    RunKeepsSound(db, ops);
    StatisticMatchesGate(Run(db, ops), region);
    ReportedFreeBytesAreSpendable(Run(db, ops), rows, regions, position, cap, region, now);
  }
}
