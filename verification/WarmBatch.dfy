/** The batched pinned store of a warm: the growth estimate, the two gates and the make-room pass. */
module WarmBatch {
  import opened Wrappers
  import opened Tables
  import opened Eviction

  /** A tile to store as part of a warm. */
  datatype WarmRow = WarmRow(key: Key, tile: Tile)

  // ----- one row -----

  function WithJoin(joins: set<Join>, region: Option<string>, k: Key): set<Join> {
    match region
    case Some(id) => joins + {Join(id, k)}
    case None => joins
  }

  /** INSERT OR REPLACE of the pinned row, then INSERT OR IGNORE of its join. */
  function StoreRow(db: Db, row: WarmRow, region: Option<string>, now: int): Db {
    Db(db.tiles[row.key := Row(row.tile, now, db.nextRowid, true)],
       WithJoin(db.joins, region, row.key),
       db.nextRowid + 1)
  }

  function IsPinned(db: Db, k: Key): bool {
    k in db.tiles && db.tiles[k].pinned
  }

  /** A row already pinned contributes its net delta, and any other row its full bytes. */
  function PinDelta(db: Db, row: WarmRow): int {
    row.tile.bytes - if IsPinned(db, row.key) then Bytes(db.tiles, row.key) else 0
  }

  function CategoryDelta(db: Db, row: WarmRow, region: Option<string>): int {
    row.tile.bytes - if row.key in CategoryKeys(db, region) then Bytes(db.tiles, row.key) else 0
  }

  function Growth1(db: Db, row: WarmRow): nat {
    if row.tile.bytes > Bytes(db.tiles, row.key) then row.tile.bytes - Bytes(db.tiles, row.key) else 0
  }

  ghost predicate Refused(db: Db, row: WarmRow, budget: int, cap: int, region: Option<string>) {
    || (PinDelta(db, row) > 0 && PinnedBytes(db) + PinDelta(db, row) > cap)
    || (CategoryDelta(db, row, region) > 0
        && CategoryBytes(db, region) + CategoryDelta(db, row, region) > budget)
  }

  /** The incremental deltas are exact: each moves its sum as a rescan would find it. */
  lemma StoreRowSums(db: Db, row: WarmRow, region: Option<string>, now: int)
    ensures var after := StoreRow(db, row, region, now);
            && TotalBytes(after) == TotalBytes(db) + row.tile.bytes - Bytes(db.tiles, row.key)
            && PinnedBytes(after) == PinnedBytes(db) + PinDelta(db, row)
            && CategoryBytes(after, region) == CategoryBytes(db, region) + CategoryDelta(db, row, region)
  {
    var after := StoreRow(db, row, region, now);
    var k := row.key;
    AddedKeySum(db.tiles, after.tiles, k, db.tiles.Keys, after.tiles.Keys);
    AddedKeySum(db.tiles, after.tiles, k, PinnedKeys(db.tiles), PinnedKeys(after.tiles));
    CategoryAfterStore(db, row, region, now);
    AddedKeySum(db.tiles, after.tiles, k, CategoryKeys(db, region), CategoryKeys(after, region));
  }

  /** A store moves the other category's sum too, by the row's delta and past no gate, exactly when that
      category shares the row. */
  lemma SharedRowMovesTheOtherCategory(db: Db, row: WarmRow, id: string, other: string, now: int)
    requires IsPosition(id) != IsPosition(other)
    ensures CategoryBytes(StoreRow(db, row, Some(id), now), Some(other))
         == CategoryBytes(db, Some(other))
            + if row.key in CategoryKeys(db, Some(other)) then row.tile.bytes - Bytes(db.tiles, row.key) else 0
  {
    var after := StoreRow(db, row, Some(id), now);
    assert CategoryKeys(after, Some(other)) == CategoryKeys(db, Some(other));
    SumUpdate(db.tiles, row.key, after.tiles[row.key], CategoryKeys(db, Some(other)));
  }

  lemma CategoryAfterStore(db: Db, row: WarmRow, region: Option<string>, now: int)
    ensures CategoryKeys(StoreRow(db, row, region, now), region) == CategoryKeys(db, region) + {row.key}
  {
    var after := StoreRow(db, row, region, now);
    match region
    case None =>
      assert PinnedKeys(after.tiles) == PinnedKeys(db.tiles) + {row.key};
    case Some(id) =>
      assert Join(id, row.key) in after.joins;
      assert forall j :: j in after.joins <==> j in db.joins || j == Join(id, row.key);
  }

  /** A sum after one key's row was rewritten and that key joined the summed set. */
  lemma AddedKeySum(t: map<Key, Row>, u: map<Key, Row>, k: Key, ks: set<Key>, ls: set<Key>)
    requires k in u && u == t[k := u[k]] && ls == ks + {k}
    ensures Sum(u, ls) == Sum(t, ks) + u[k].tile.bytes - if k in ks then Bytes(t, k) else 0
  {
    SumUpdate(t, k, u[k], ls);
    if k in ks {
      assert ls == ks;
    } else {
      SumAdd(t, ks, k);
    }
  }

  lemma StoreRowKeepsSound(db: Db, row: WarmRow, region: Option<string>, now: int)
    requires Sound(db)
    ensures Sound(StoreRow(db, row, region, now))
  {
  }

  /** Storing a row writes its tile pinned under its key and records the join, and touches nothing else. */
  lemma StoreRowWrites(db: Db, row: WarmRow, region: Option<string>, now: int)
    ensures var after := StoreRow(db, row, region, now);
            && row.key in after.tiles && after.tiles[row.key].tile == row.tile
            && after.tiles[row.key].pinned && after.tiles[row.key].lastAccess == now
            && (Sound(db) ==> forall k :: k in db.tiles ==> db.tiles[k].rowid < after.tiles[row.key].rowid)
            && (forall k :: k != row.key ==> (k in after.tiles <==> k in db.tiles))
            && (forall k :: k != row.key && k in db.tiles ==> after.tiles[k] == db.tiles[k])
            && (forall j :: j in after.joins <==> j in db.joins || (region == Some(j.region) && j.key == row.key))
  {
  }

  /** Storing the row would raise the pinned bytes or the category past its limit. */
  ghost predicate RaisesPast(db: Db, row: WarmRow, budget: int, cap: int, region: Option<string>, now: int) {
    var after := StoreRow(db, row, region, now);
    || PinnedBytes(after) > Max(cap, PinnedBytes(db))
    || CategoryBytes(after, region) > Max(budget, CategoryBytes(db, region))
  }

  /** The gates weigh what storing the row adds and nothing more: it is refused if and only if storing it would
      raise a sum past its limit. */
  lemma RefusedIff(db: Db, row: WarmRow, budget: int, cap: int, region: Option<string>, now: int)
    ensures Refused(db, row, budget, cap, region) <==> RaisesPast(db, row, budget, cap, region, now)
  {
    StoreRowSums(db, row, region, now);
  }

  /** A row's growth is what it adds to the total when it adds anything. */
  lemma GrowthIsOfTheTotal(db: Db, row: WarmRow, region: Option<string>, now: int)
    ensures Growth1(db, row) == Max(0, TotalBytes(StoreRow(db, row, region, now)) - TotalBytes(db))
  {
    StoreRowSums(db, row, region, now);
  }

  // ----- the whole batch -----

  /** The tables after the first `n` rows are stored. */
  function StoreFirst(db: Db, rows: seq<WarmRow>, n: nat, region: Option<string>, now: int): Db
    requires n <= |rows|
  {
    if n == 0 then db else StoreRow(StoreFirst(db, rows, n - 1, region, now), rows[n - 1], region, now)
  }

  /** How many of the first `n` rows pass both gates before one that does not. */
  ghost function AcceptedOf(
      db: Db, rows: seq<WarmRow>, n: nat, budget: int, cap: int, region: Option<string>, now: int): (m: nat)
    requires n <= |rows|
    ensures m <= n
  {
    if n == 0 then 0 else
      var m := AcceptedOf(db, rows, n - 1, budget, cap, region, now);
      if m == n - 1 && !Refused(StoreFirst(db, rows, m, region, now), rows[m], budget, cap, region)
      then n else m
  }

  ghost function Accepted(db: Db, rows: seq<WarmRow>, budget: int, cap: int, region: Option<string>, now: int)
    : (m: nat)
    ensures m <= |rows|
  {
    AcceptedOf(db, rows, |rows|, budget, cap, region, now)
  }

  /** The positive byte deltas of the first `n` rows, each compared with what the rows before it left. */
  function Growth(db: Db, rows: seq<WarmRow>, n: nat): nat
    requires n <= |rows|
  {
    if n == 0 then 0 else Growth(db, rows, n - 1) + Growth1(StoreFirst(db, rows, n - 1, None, 0), rows[n - 1])
  }

  /** The rows the transaction stores, before it makes room. */
  ghost function StoredBatch(
      db: Db, rows: seq<WarmRow>, budget: int, cap: int, region: Option<string>, now: int): Db {
    StoreFirst(db, rows, Accepted(db, rows, budget, cap, region, now), region, now)
  }

  /** `put_many_pinned` once the batch is not declined for disk space. */
  ghost function PutMany(db: Db, rows: seq<WarmRow>, budget: int, cap: int, region: Option<string>, now: int): Db {
    EvictTo(StoredBatch(db, rows, budget, cap, region, now), cap)
  }

  /** Bytes in the transaction do not depend on the region or the clock, so the estimate needs neither. */
  lemma {:induction false} StoreFirstBytes(
      db: Db, rows: seq<WarmRow>, n: nat, region: Option<string>, now: int, k: Key)
    requires n <= |rows|
    ensures Bytes(StoreFirst(db, rows, n, region, now).tiles, k) == Bytes(StoreFirst(db, rows, n, None, 0).tiles, k)
  {
    if n == 0 {
    } else {
      StoreFirstBytes(db, rows, n - 1, region, now, k);
    }
  }

  lemma {:induction false} StoreFirstKeepsSound(db: Db, rows: seq<WarmRow>, n: nat, region: Option<string>, now: int)
    requires Sound(db) && n <= |rows|
    ensures Sound(StoreFirst(db, rows, n, region, now))
    ensures db.joins <= StoreFirst(db, rows, n, region, now).joins
  {
    if n == 0 {
    } else {
      StoreFirstKeepsSound(db, rows, n - 1, region, now);
      StoreRowKeepsSound(StoreFirst(db, rows, n - 1, region, now), rows[n - 1], region, now);
    }
  }

  /** The running values of a batch whose first `n` rows are all accepted. */
  ghost predicate Inserted(
      db: Db, rows: seq<WarmRow>, n: nat, budget: int, cap: int, region: Option<string>, now: int,
      tx: Db, added: int, reportedAdded: nat, pinnedAdded: int, categoryAdded: int)
  {
    && n <= |rows|
    && tx == StoreFirst(db, rows, n, region, now)
    && AcceptedOf(db, rows, n, budget, cap, region, now) == n
    && added == TotalBytes(tx) - TotalBytes(db)
    && pinnedAdded == PinnedBytes(tx) - PinnedBytes(db)
    && categoryAdded == CategoryBytes(tx, region) - CategoryBytes(db, region)
    && reportedAdded == Growth(db, rows, n)
  }

  lemma InsertNone(db: Db, rows: seq<WarmRow>, budget: int, cap: int, region: Option<string>, now: int)
    ensures Inserted(db, rows, 0, budget, cap, region, now, db, 0, 0, 0, 0)
  {
  }

  /** One more accepted row moves every running value by that row's own delta. */
  lemma InsertOneMore(
      db: Db, rows: seq<WarmRow>, n: nat, budget: int, cap: int, region: Option<string>, now: int,
      tx: Db, added: int, reportedAdded: nat, pinnedAdded: int, categoryAdded: int)
    requires n < |rows|
    requires Inserted(db, rows, n, budget, cap, region, now, tx, added, reportedAdded, pinnedAdded, categoryAdded)
    requires !Refused(tx, rows[n], budget, cap, region)
    ensures Inserted(db, rows, n + 1, budget, cap, region, now, StoreRow(tx, rows[n], region, now),
                     added + rows[n].tile.bytes - Bytes(tx.tiles, rows[n].key),
                     reportedAdded + Growth1(tx, rows[n]),
                     pinnedAdded + PinDelta(tx, rows[n]),
                     categoryAdded + CategoryDelta(tx, rows[n], region))
  {
    StoreRowSums(tx, rows[n], region, now);
    StoreFirstBytes(db, rows, n, region, now, rows[n].key);
  }

  /** The first refusal fixes the count, however long the batch goes on. */
  lemma {:induction false} RefusalStops(
      db: Db, rows: seq<WarmRow>, m: nat, n: nat, budget: int, cap: int, region: Option<string>, now: int)
    requires m < n <= |rows| && AcceptedOf(db, rows, m, budget, cap, region, now) == m
    requires Refused(StoreFirst(db, rows, m, region, now), rows[m], budget, cap, region)
    ensures AcceptedOf(db, rows, n, budget, cap, region, now) == m
  {
    if m == n - 1 {
    } else {
      RefusalStops(db, rows, m, n - 1, budget, cap, region, now);
    }
  }

  /** The accepted rows are accepted on their own. */
  lemma {:induction false} AcceptedPrefix(
      db: Db, rows: seq<WarmRow>, n: nat, budget: int, cap: int, region: Option<string>, now: int)
    requires n <= |rows|
    ensures var m := AcceptedOf(db, rows, n, budget, cap, region, now);
            AcceptedOf(db, rows, m, budget, cap, region, now) == m
  {
    if n == 0 {
    } else {
      AcceptedPrefix(db, rows, n - 1, budget, cap, region, now);
    }
  }

  // ----- what the gates guarantee -----

  /** Gating only the positive deltas bounds each sum by its limit or by where it started. */
  lemma {:induction false} AcceptedBounds(
      db: Db, rows: seq<WarmRow>, n: nat, budget: int, cap: int, region: Option<string>, now: int)
    requires n <= |rows| && AcceptedOf(db, rows, n, budget, cap, region, now) == n
    ensures PinnedBytes(StoreFirst(db, rows, n, region, now)) <= Max(cap, PinnedBytes(db))
    ensures CategoryBytes(StoreFirst(db, rows, n, region, now), region) <= Max(budget, CategoryBytes(db, region))
  {
    if n == 0 {
    } else {
      AcceptedBounds(db, rows, n - 1, budget, cap, region, now);
      StoreRowSums(StoreFirst(db, rows, n - 1, region, now), rows[n - 1], region, now);
    }
  }

  /** A key the batch does not name keeps its row. */
  lemma {:induction false} UnnamedRowsKept(
      db: Db, rows: seq<WarmRow>, n: nat, region: Option<string>, now: int, k: Key)
    requires n <= |rows| && forall i :: 0 <= i < n ==> rows[i].key != k
    ensures var after := StoreFirst(db, rows, n, region, now);
            && (k in after.tiles <==> k in db.tiles)
            && (k in db.tiles ==> after.tiles[k] == db.tiles[k])
  {
    if n == 0 {
    } else {
      UnnamedRowsKept(db, rows, n - 1, region, now, k);
    }
  }

  /** A key the batch names ends pinned and joined, with the tile of its last stored row. */
  lemma {:induction false} LastRowWins(
      db: Db, rows: seq<WarmRow>, n: nat, region: Option<string>, now: int, i: nat)
    requires i < n <= |rows|
    ensures var after := StoreFirst(db, rows, n, region, now);
            && IsPinned(after, rows[i].key)
            && (region.Some? ==> Join(region.value, rows[i].key) in after.joins)
            && ((forall j :: i < j < n ==> rows[j].key != rows[i].key)
                ==> after.tiles[rows[i].key].tile == rows[i].tile && after.tiles[rows[i].key].lastAccess == now)
  {
    if i == n - 1 {
    } else {
      LastRowWins(db, rows, n - 1, region, now, i);
    }
  }

  /** The batch stops at the first row that would raise a sum past its limit, and stores every one before it. */
  lemma {:induction false} BatchStopsAtTheFirst(
      db: Db, rows: seq<WarmRow>, n: nat, budget: int, cap: int, region: Option<string>, now: int)
    requires n <= |rows|
    ensures var m := AcceptedOf(db, rows, n, budget, cap, region, now);
            && (forall i :: 0 <= i < m ==>
                  !RaisesPast(StoreFirst(db, rows, i, region, now), rows[i], budget, cap, region, now))
            && (m < n ==> RaisesPast(StoreFirst(db, rows, m, region, now), rows[m], budget, cap, region, now))
  {
    hide RaisesPast, Refused, StoreFirst;
    if n == 0 {
    } else {
      var m := AcceptedOf(db, rows, n - 1, budget, cap, region, now);
      BatchStopsAtTheFirst(db, rows, n - 1, budget, cap, region, now);
      RefusedIff(StoreFirst(db, rows, m, region, now), rows[m], budget, cap, region, now);
    }
  }

  lemma PutManyKeepsSound(db: Db, rows: seq<WarmRow>, budget: int, cap: int, region: Option<string>, now: int)
    requires Sound(db)
    ensures Sound(PutMany(db, rows, budget, cap, region, now))
  {
    StoreFirstKeepsSound(db, rows, Accepted(db, rows, budget, cap, region, now), region, now);
    EvictionKeepsSound(StoredBatch(db, rows, budget, cap, region, now), cap);
  }

  /** After a batch that is not declined: pinned bytes within the cap or where they were, the written
      category within its budget or where it was, and the total within the cap or down to the pins. */
  lemma BatchStaysInBounds(
      db: Db, rows: seq<WarmRow>, budget: int, cap: int, region: Option<string>, now: int)
    requires Sound(db)
    ensures var after := PutMany(db, rows, budget, cap, region, now);
            && PinnedBytes(after) <= Max(cap, PinnedBytes(db))
            && CategoryBytes(after, region) <= Max(budget, CategoryBytes(db, region))
            && TotalBytes(after) <= Max(cap, PinnedBytes(after))
  {
    var m := Accepted(db, rows, budget, cap, region, now);
    var stored := StoreFirst(db, rows, m, region, now);
    AcceptedPrefix(db, rows, |rows|, budget, cap, region, now);
    AcceptedBounds(db, rows, m, budget, cap, region, now);
    StoreFirstKeepsSound(db, rows, m, region, now);
    EvictionReachesTarget(stored, EvictionTarget(cap));
    EvictionSparesRegions(stored, cap, region);
  }

  /** Every accepted row is stored, pinned and joined after the make-room pass, even one that was the
      oldest eviction candidate before the batch. */
  lemma BatchRowsAreKept(
      db: Db, rows: seq<WarmRow>, budget: int, cap: int, region: Option<string>, now: int, i: nat)
    requires i < Accepted(db, rows, budget, cap, region, now)
    ensures var after := PutMany(db, rows, budget, cap, region, now);
            && IsPinned(after, rows[i].key)
            && (region.Some? ==> Join(region.value, rows[i].key) in after.joins)
            && ((forall j :: i < j < Accepted(db, rows, budget, cap, region, now) ==> rows[j].key != rows[i].key)
                ==> after.tiles[rows[i].key].tile == rows[i].tile && after.tiles[rows[i].key].lastAccess == now)
  {
    LastRowWins(db, rows, Accepted(db, rows, budget, cap, region, now), region, now, i);
    var gone := EvictToDeletesUnpinned(StoredBatch(db, rows, budget, cap, region, now), cap);
  }

  /** The pre-write estimate bounds the reported growth, and equals it when the whole batch is stored. */
  lemma {:induction false} EstimateBoundsGrowth(db: Db, rows: seq<WarmRow>, m: nat, n: nat)
    requires m <= n <= |rows|
    ensures Growth(db, rows, m) <= Growth(db, rows, n)
  {
    if m == n {
    } else {
      EstimateBoundsGrowth(db, rows, m, n - 1);
    }
  }

  /** Some of the first `n` rows are lighter than what they replace. */
  ghost predicate SomeShrinks(db: Db, rows: seq<WarmRow>, n: nat, region: Option<string>, now: int)
    requires n <= |rows|
  {
    exists i :: 0 <= i < n && rows[i].tile.bytes < Bytes(StoreFirst(db, rows, i, region, now).tiles, rows[i].key)
  }

  lemma NextGrowth(db: Db, rows: seq<WarmRow>, n: nat, region: Option<string>, now: int)
    requires 0 < n <= |rows|
    ensures var before := StoreFirst(db, rows, n - 1, region, now);
            var delta := rows[n - 1].tile.bytes - Bytes(before.tiles, rows[n - 1].key);
            && TotalBytes(StoreFirst(db, rows, n, region, now)) == TotalBytes(before) + delta
            && Growth(db, rows, n) == Growth(db, rows, n - 1) + Max(0, delta)
  {
    hide TotalBytes, PinnedBytes, CategoryBytes, StoreRow, PinDelta, CategoryDelta;
    StoreRowSums(StoreFirst(db, rows, n - 1, region, now), rows[n - 1], region, now);
    StoreFirstBytes(db, rows, n - 1, region, now, rows[n - 1].key);
  }

  /** The estimate is never under what the total gains, and is exactly that when no row shrinks. */
  lemma {:induction false} GrowthCoversTheTotal(db: Db, rows: seq<WarmRow>, n: nat, region: Option<string>, now: int)
    requires n <= |rows|
    ensures var gained := TotalBytes(StoreFirst(db, rows, n, region, now)) - TotalBytes(db);
            gained <= Growth(db, rows, n) && (gained < Growth(db, rows, n) <==> SomeShrinks(db, rows, n, region, now))
  {
    hide TotalBytes, StoreFirst, Growth, SomeShrinks, Bytes;
    if n == 0 {
      NoGrowth(db, rows, region, now);
    } else {
      GrowthCoversTheTotal(db, rows, n - 1, region, now);
      NextGrowth(db, rows, n, region, now);
      OneMoreShrinks(db, rows, n, region, now);
    }
  }

  lemma NoGrowth(db: Db, rows: seq<WarmRow>, region: Option<string>, now: int)
    ensures StoreFirst(db, rows, 0, region, now) == db && Growth(db, rows, 0) == 0
    ensures !SomeShrinks(db, rows, 0, region, now)
  {
  }

  lemma OneMoreShrinks(db: Db, rows: seq<WarmRow>, n: nat, region: Option<string>, now: int)
    requires 0 < n <= |rows|
    ensures SomeShrinks(db, rows, n, region, now)
       <==> || SomeShrinks(db, rows, n - 1, region, now)
            || rows[n - 1].tile.bytes < Bytes(StoreFirst(db, rows, n - 1, region, now).tiles, rows[n - 1].key)
  {
    hide StoreFirst, Bytes;
  }

  // ----- the reported free bytes are spendable -----

  function BatchBytes(rows: seq<WarmRow>, n: nat): nat
    requires n <= |rows|
  {
    if n == 0 then 0 else BatchBytes(rows, n - 1) + rows[n - 1].tile.bytes
  }

  /** The budget test of a configuration push. */
  predicate BudgetsAccepted(cap: int, regions: int, position: int) {
    !(cap <= 0 || regions < 0 || regions > cap || position < 0 || position > regions)
  }

  lemma BudgetsAcceptedMeans(cap: int, regions: int, position: int)
    ensures BudgetsAccepted(cap, regions, position) <==> cap > 0 && 0 <= position <= regions <= cap
  {
  }

  /** `regionsFreeBytes`: what is left of the real regions' slice. */
  ghost function RegionsFreeBytes(db: Db, regions: int, position: int): nat {
    var free := regions - position - RealRegionBytes(db, POSITION_WARM_REGION_ID);
    if free < 0 then 0 else free
  }

  lemma {:induction false} StoreFirstGrowth(db: Db, rows: seq<WarmRow>, n: nat, region: Option<string>, now: int)
    requires n <= |rows|
    ensures PinnedBytes(StoreFirst(db, rows, n, region, now)) <= PinnedBytes(db) + BatchBytes(rows, n)
    ensures CategoryBytes(StoreFirst(db, rows, n, region, now), region)
         <= CategoryBytes(db, region) + BatchBytes(rows, n)
  {
    if n == 0 {
    } else {
      StoreFirstGrowth(db, rows, n - 1, region, now);
      StoreRowSums(StoreFirst(db, rows, n - 1, region, now), rows[n - 1], region, now);
    }
  }

  lemma {:induction false} FittingBatchIsAccepted(
      db: Db, rows: seq<WarmRow>, n: nat, budget: int, cap: int, region: Option<string>, now: int)
    requires n <= |rows|
    requires BatchBytes(rows, n) == 0 || CategoryBytes(db, region) + BatchBytes(rows, n) <= budget
    requires BatchBytes(rows, n) == 0 || PinnedBytes(db) + BatchBytes(rows, n) <= cap
    ensures AcceptedOf(db, rows, n, budget, cap, region, now) == n
  {
    if n == 0 {
    } else {
      FittingBatchIsAccepted(db, rows, n - 1, budget, cap, region, now);
      StoreFirstGrowth(db, rows, n - 1, region, now);
    }
  }

  /** Under budgets a configuration push accepts, a real region's batch no larger than the reported free
      bytes and fitting the cap is never capped by the gate at `regions - position`. */
  lemma ReportedFreeBytesAreSpendable(
      db: Db, rows: seq<WarmRow>, regions: int, position: int, cap: int, region: string, now: int)
    requires Sound(db) && BudgetsAccepted(cap, regions, position) && !IsPosition(region)
    requires BatchBytes(rows, |rows|) <= RegionsFreeBytes(db, regions, position)
    requires PinnedBytes(db) + BatchBytes(rows, |rows|) <= cap
    ensures Accepted(db, rows, regions - position, cap, Some(region), now) == |rows|
  {
    StatisticMatchesGate(db, region);
    FittingBatchIsAccepted(db, rows, |rows|, regions - position, cap, Some(region), now);
  }

  /** And no more is: one tile new to the real regions that fits the cap is stored if and only if it fits the
      reported free bytes. */
  lemma FreeBytesAreTheRoom(db: Db, row: WarmRow, regions: int, position: int, cap: int, region: string, now: int)
    requires Sound(db) && cap > 0 && 0 <= position <= regions <= cap && !IsPosition(region)
    requires row.tile.bytes > 0 && row.key !in CategoryKeys(db, Some(region))
    requires PinnedBytes(db) + row.tile.bytes <= cap
    ensures BudgetsAccepted(cap, regions, position)
    ensures Accepted(db, [row], regions - position, cap, Some(region), now) == 1
       <==> row.tile.bytes <= RegionsFreeBytes(db, regions, position)
  {
    StatisticMatchesGate(db, region);
    assert StoreFirst(db, [row], 0, Some(region), now) == db;
    assert AcceptedOf(db, [row], 0, regions - position, cap, Some(region), now) == 0;
  }
}
