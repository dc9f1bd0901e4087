/** Is the physical total "at or below the cap throughout", as the configuration route says? The bounded bodies
    of the live proxy, the exact condition under which its stores keep the promise, and a run that breaks it. */
module CapPromise {
  import opened Wrappers
  import opened Tables
  import opened Eviction
  import opened WarmBatch
  import opened Operations

  const NEGATIVE_ROW_COST_BYTES: nat := 512

  // ----- what the live proxy stores -----

  /** A body the proxy accepted, no longer than the limit, or a negative row at its fixed charge. A copy of one
      with a new date, as a style asset's 304 stores it, is one again. */
  predicate Fetched(tile: Tile, maxBlob: nat) {
    match tile.blob
    case Some(body) => tile.status == 200 && tile.bytes == |body| <= maxBlob
    case None => tile.status in {204, 404} && tile.bytes == NEGATIVE_ROW_COST_BYTES
  }

  function LargestFetch(maxBlob: nat): nat {
    if maxBlob < NEGATIVE_ROW_COST_BYTES then NEGATIVE_ROW_COST_BYTES else maxBlob
  }

  lemma LargestFetchIsMet(maxBlob: nat) returns (tile: Tile)
    ensures Fetched(tile, maxBlob) && tile.bytes == LargestFetch(maxBlob)
  {
    var body: seq<bv8> := seq(maxBlob, i => 0);
    tile := if maxBlob < NEGATIVE_ROW_COST_BYTES
            then Tile("", "", None, 404, 0, NEGATIVE_ROW_COST_BYTES, None)
            else Tile("image/png", "", None, 200, 0, maxBlob, Some(body));
  }

  // ----- the exact condition -----

  /** A committed write followed by its eviction leaves the total within the cap if and only if the pinned
      bytes the write leaves fit the cap, which the row's pin and size before the write decide. */
  lemma PutMeetsCapIff(db: Db, k: Key, tile: Tile, pin: bool, now: int, cap: int)
    requires Sound(db)
    ensures TotalBytes(EvictTo(PutRow(db, k, tile, pin, now), cap)) <= cap
       <==> PinnedBytes(db) + PinnedGain(db, k, tile, pin) <= cap
  {
    PutRowKeepsSound(db, k, tile, pin, now);
    PutRowSums(db, k, tile, pin, now);
    CapHoldsIffPinsFit(PutRow(db, k, tile, pin, now), cap);
  }

  /** Whatever is stored under `k`, the total is within the cap after the store's eviction. */
  ghost predicate StoreKeepsCap(db: Db, k: Key, maxBlob: nat, cap: int) {
    forall tile, now ::
      Fetched(tile, maxBlob) ==> TotalBytes(EvictTo(PutRow(db, k, tile, false, now), cap)) <= cap
  }

  /** What a store of `k` can add to the pinned bytes at most. */
  function MostPinnedGain(db: Db, k: Key, maxBlob: nat): int {
    if IsPinned(db, k) then LargestFetch(maxBlob) - Bytes(db.tiles, k) else 0
  }

  /** The promise holds for the stores of one key if and only if the pinned bytes leave room for that key's
      largest growth. */
  lemma StoreKeepsCapIff(db: Db, k: Key, maxBlob: nat, cap: int)
    requires Sound(db)
    ensures StoreKeepsCap(db, k, maxBlob, cap) <==> PinnedBytes(db) + MostPinnedGain(db, k, maxBlob) <= cap
  {
    hide EvictTo, PutRow;
    if StoreKeepsCap(db, k, maxBlob, cap) {
      var largest := LargestFetchIsMet(maxBlob);
      PutMeetsCapIff(db, k, largest, false, 0, cap);
    }
    if PinnedBytes(db) + MostPinnedGain(db, k, maxBlob) <= cap {
      forall tile, now | Fetched(tile, maxBlob)
        ensures TotalBytes(EvictTo(PutRow(db, k, tile, false, now), cap)) <= cap
      {
        PutMeetsCapIff(db, k, tile, false, now, cap);
      }
    }
  }

  lemma {:induction false} ColumnBeyond(ks: set<Key>) returns (x: nat)
    ensures forall k :: k in ks ==> k.x < x
    decreases ks
  {
    if ks == {} {
      x := 0;
    } else {
      var k := Pick(ks);
      x := ColumnBeyond(ks - {k});
      x := if k.x < x then x else k.x + 1;
    }
  }

  /** It holds for every key if and only if the pinned bytes fit the cap even after the pinned row that can
      grow most has grown. */
  lemma StoresKeepCapIff(db: Db, maxBlob: nat, cap: int)
    requires Sound(db)
    ensures (forall k :: StoreKeepsCap(db, k, maxBlob, cap))
       <==> && PinnedBytes(db) <= cap
            && forall k :: k in PinnedKeys(db.tiles)
                 ==> PinnedBytes(db) + LargestFetch(maxBlob) - Bytes(db.tiles, k) <= cap
  {
    hide StoreKeepsCap;
    forall k
      ensures StoreKeepsCap(db, k, maxBlob, cap) <==> PinnedBytes(db) + MostPinnedGain(db, k, maxBlob) <= cap
    {
      StoreKeepsCapIff(db, k, maxBlob, cap);
    }
    if forall k :: StoreKeepsCap(db, k, maxBlob, cap) {
      var x := ColumnBeyond(db.tiles.Keys);
      assert StoreKeepsCap(db, Key("", 0, x, 0), maxBlob, cap) && Key("", 0, x, 0) !in db.tiles;
      forall k | k in PinnedKeys(db.tiles)
        ensures PinnedBytes(db) + LargestFetch(maxBlob) - Bytes(db.tiles, k) <= cap
      {
        assert StoreKeepsCap(db, k, maxBlob, cap);
      }
    }
  }

  /** Since no pinned row is lighter than nothing, one largest body of room is enough, whatever is pinned. */
  lemma OneBodyOfRoomIsEnough(db: Db, maxBlob: nat, cap: int)
    requires Sound(db) && PinnedBytes(db) + LargestFetch(maxBlob) <= cap
    ensures forall k :: StoreKeepsCap(db, k, maxBlob, cap)
  {
    hide StoreKeepsCap;
    StoresKeepCapIff(db, maxBlob, cap);
  }

  // ----- a run that breaks the promise -----

  const EMPTY := Db(map[], {}, 1)

  function ByteTile(bytes: nat): Tile {
    Tile("image/png", "", None, 200, 0, bytes, Some(seq(bytes, i => 0)))
  }

  /** `n` one-byte tiles of a saved region. */
  function ByteRows(n: nat): (rows: seq<WarmRow>)
    ensures |rows| == n && forall i :: 0 <= i < n ==> rows[i] == WarmRow(Key("chart", 0, i, 0), ByteTile(1))
  {
    seq(n, (i: nat) => WarmRow(Key("chart", 0, i, 0), ByteTile(1)))
  }

  const REGION: Option<string> := Some("saved")

  lemma NewRowSums(db: Db, row: WarmRow)
    requires row.key !in db.tiles
    ensures var after := StoreRow(db, row, REGION, 0);
            && TotalBytes(after) == TotalBytes(db) + row.tile.bytes
            && PinnedBytes(after) == PinnedBytes(db) + row.tile.bytes
  {
    hide StoreRow, CategoryBytes, CategoryDelta;
    StoreRowSums(db, row, REGION, 0);
  }

  lemma {:induction false} ByteRowsSums(total: nat, n: nat)
    requires n <= total
    ensures var rows := ByteRows(total);
            var stored := StoreFirst(EMPTY, rows, n, REGION, 0);
            TotalBytes(stored) == PinnedBytes(stored) == BatchBytes(rows, n) == Growth(EMPTY, rows, n) == n
  {
    var rows := ByteRows(total);
    if n == 0 {
    } else {
      hide TotalBytes, PinnedBytes, StoreRow;
      ByteRowsSums(total, n - 1);
      UnnamedRowsKept(EMPTY, rows, n - 1, REGION, 0, rows[n - 1].key);
      UnnamedRowsKept(EMPTY, rows, n - 1, None, 0, rows[n - 1].key);
      NewRowSums(StoreFirst(EMPTY, rows, n - 1, REGION, 0), rows[n - 1]);
    }
  }

  lemma WarmStoresAll(cap: nat)
    ensures PutMany(EMPTY, ByteRows(cap), cap, cap, REGION, 0) == StoreFirst(EMPTY, ByteRows(cap), cap, REGION, 0)
  {
    hide StoreFirst, BatchBytes, Growth;
    ByteRowsSums(cap, cap);
    EmptySums();
    FittingBatchIsAccepted(EMPTY, ByteRows(cap), cap, cap, cap, REGION, 0);
  }

  lemma EmptySums()
    ensures PinnedBytes(EMPTY) == 0 && CategoryBytes(EMPTY, REGION) == 0 && Sound(EMPTY)
  {
    assert PinnedKeys(EMPTY.tiles) == {} && CategoryKeys(EMPTY, REGION) == {};
  }

  /** Warming `cap` one-byte tiles under a cap of as many bytes fills it with pins. */
  lemma WarmFillsTheCap(cap: nat, disk: Disk)
    requires cap > 0 && DiskHasHeadroom(disk, cap)
    ensures var warm := PutManyPinned(ByteRows(cap), cap, cap, REGION, 0, disk, Written);
            var warmed := Next(EMPTY, warm);
            var first := Key("chart", 0, 0, 0);
            && Sound(warmed) && PinnedBytes(warmed) == TotalBytes(warmed) == cap
            && IsPinned(warmed, first) && Bytes(warmed.tiles, first) == 1
  {
    hide PutMany, StoreFirst, Growth, TotalBytes, PinnedBytes, DiskHasHeadroom, Sound;
    var rows := ByteRows(cap);
    var stored := StoreFirst(EMPTY, rows, cap, REGION, 0);
    ByteRowsSums(cap, cap);
    EmptySums();
    StoreFirstKeepsSound(EMPTY, rows, cap, REGION, 0);
    LastRowWins(EMPTY, rows, cap, REGION, 0, 0);
    WarmStoresAll(cap);
  }

  /** Under any cap and any body limit of two bytes or more there is a run, with room on the disk and every
      gate respected, that ends above the cap after its eviction: a warm fills the cap with pins, and a live
      refresh brings one of them back a byte larger. */
  lemma RefreshCanOutgrowTheCap(cap: nat, maxBlob: nat, disk: Disk) returns (ops: seq<Op>)
    requires cap > 0 && maxBlob >= 2 && DiskHasHeadroom(disk, cap) && DiskHasHeadroom(disk, 1)
    ensures |ops| == 3 && ops[0].PutManyPinned? && ops[1].Put? && ops[2] == Evict(cap, Written)
    ensures ops[0].budget == ops[0].cap == cap && TotalBytes(Run(EMPTY, ops[..1])) <= cap
    ensures !ops[1].pin && ops[1].disk == disk && Fetched(ops[1].tile, maxBlob)
    ensures TotalBytes(Run(EMPTY, ops)) > cap
  {
    hide EvictTo, PutRow, PutMany, DiskHasHeadroom;
    var first := Key("chart", 0, 0, 0);
    var warm := PutManyPinned(ByteRows(cap), cap, cap, REGION, 0, disk, Written);
    var refresh := Put(first, ByteTile(2), false, 0, disk, Written);
    var evict := Evict(cap, Written);
    ops := [warm, refresh, evict];
    WarmFillsTheCap(cap, disk);
    var warmed := Next(EMPTY, warm);
    assert ops[..0] == [] && ops[..1][..0] == [] && ops[..2][..1] == ops[..1];
    assert Run(EMPTY, ops[..1]) == warmed;
    assert Run(EMPTY, ops[..2]) == Next(warmed, refresh) == PutRow(warmed, first, ByteTile(2), false, 0);
    assert Run(EMPTY, ops) == EvictTo(Run(EMPTY, ops[..2]), cap);
    PutMeetsCapIff(warmed, first, ByteTile(2), false, 0, cap);
  }

  // ----- a cap pushed by a configuration -----

  /** The configuration route compares the pinned bytes with a new cap under one hold of the lock and evicts
      under another, and anything may run in between. A cap that passed the comparison then bounds the total
      if and only if the pins still fit it when the eviction runs. */
  lemma EnforcementHoldsIff(db: Db, between: seq<Op>, cap: int)
    requires Sound(db) && PinnedBytes(db) <= cap
    ensures TotalBytes(Next(Run(db, between), Evict(cap, Written))) <= cap <==> PinnedBytes(Run(db, between)) <= cap
    ensures between == [] ==> TotalBytes(Next(Run(db, between), Evict(cap, Written))) <= cap
  {
    RunKeepsSound(db, between);
    CapHoldsIffPinsFit(Run(db, between), cap);
  }

  /** One live refresh in between can be enough, when the pins fill the new cap. */
  lemma EnforcementCanMiss(cap: nat, maxBlob: nat, disk: Disk) returns (db: Db, refresh: Op)
    requires cap > 0 && maxBlob >= 2 && DiskHasHeadroom(disk, cap) && DiskHasHeadroom(disk, 1)
    ensures Sound(db) && PinnedBytes(db) <= cap && refresh.Put? && Fetched(refresh.tile, maxBlob)
    ensures TotalBytes(Next(Run(db, [refresh]), Evict(cap, Written))) > cap
  {
    hide EvictTo, PutMany, Next;
    var ops := RefreshCanOutgrowTheCap(cap, maxBlob, disk);
    db, refresh := Run(EMPTY, ops[..1]), ops[1];
    RunKeepsSound(EMPTY, ops[..1]);
    PinnedWithinTotal(db);
    assert ops[..2][..1] == ops[..1] && [refresh][..0] == [];
    assert Run(db, [refresh]) == Next(Run(db, []), refresh);
    assert Run(EMPTY, ops[..2]) == Next(Run(EMPTY, ops[..1]), refresh);
    assert Run(EMPTY, ops) == Next(Run(EMPTY, ops[..2]), ops[2]);
  }
}
