/** The two relations of the tile cache, the byte sums taken over them, and the region categories. */
module Tables {
  import opened Wrappers

  // ----- rows -----

  datatype Key = Key(source: string, z: nat, x: nat, y: nat)

  /** A tile to store. `blob` is `None` for a negative row (a 404 or 204 from upstream). */
  datatype Tile = Tile(
    contentType: string, strongEtag: string, upstreamValidator: Option<string>,
    status: int, fetchedAt: int, bytes: nat, blob: Option<seq<bv8>>)

  datatype Row = Row(tile: Tile, lastAccess: int, rowid: nat, pinned: bool)

  datatype Join = Join(region: string, key: Key)

  /** The database: `tiles` by primary key, `region_tiles` as a set, and a rowid above every one in use. */
  datatype Db = Db(tiles: map<Key, Row>, joins: set<Join>, nextRowid: nat)

  /** What every committed transaction leaves behind: a join row names a stored, pinned tile, and rowids
      tell rows apart. */
  ghost predicate Sound(db: Db) {
    && (forall j :: j in db.joins ==> j.key in db.tiles && db.tiles[j.key].pinned)
    && (forall k {:trigger db.tiles[k].rowid} :: k in db.tiles ==> db.tiles[k].rowid < db.nextRowid)
    && (forall k, o {:trigger db.tiles[k].rowid, db.tiles[o].rowid} ::
          k in db.tiles && o in db.tiles && db.tiles[k].rowid == db.tiles[o].rowid ==> k == o)
  }

  // ----- byte sums -----

  function Bytes(t: map<Key, Row>, k: Key): nat {
    if k in t then t[k].tile.bytes else 0
  }

  ghost function Pick(ks: set<Key>): Key
    requires ks != {}
  {
    var k :| k in ks; k
  }

  /** `SELECT COALESCE(SUM(bytes), 0)` over the rows of `t` whose key is in `ks`. */
  ghost function Sum(t: map<Key, Row>, ks: set<Key>): nat
    decreases ks
  {
    if ks == {} then 0 else Bytes(t, Pick(ks)) + Sum(t, ks - {Pick(ks)})
  }

  lemma {:induction false} SumSplit(t: map<Key, Row>, ks: set<Key>, k: Key)
    requires k in ks
    ensures Sum(t, ks) == Bytes(t, k) + Sum(t, ks - {k})
    decreases ks
  {
    var p := Pick(ks);
    if p == k {
    } else {
      SumSplit(t, ks - {p}, k);
      SumSplit(t, ks - {k}, p);
      assert ks - {p} - {k} == ks - {k} - {p};
    }
  }

  lemma {:induction false} SumAgrees(t: map<Key, Row>, u: map<Key, Row>, ks: set<Key>)
    requires forall k :: k in ks ==> Bytes(t, k) == Bytes(u, k)
    ensures Sum(t, ks) == Sum(u, ks)
    decreases ks
  {
    if ks == {} {
    } else {
      SumAgrees(t, u, ks - {Pick(ks)});
    }
  }

  lemma {:induction false} SumUnion(t: map<Key, Row>, a: set<Key>, b: set<Key>)
    requires a !! b
    ensures Sum(t, a + b) == Sum(t, a) + Sum(t, b)
    decreases a
  {
    if a == {} {
      assert a + b == b;
    } else {
      var p := Pick(a);
      SumSplit(t, a + b, p);
      assert a + b - {p} == (a - {p}) + b;
      SumUnion(t, a - {p}, b);
    }
  }

  lemma SumSubset(t: map<Key, Row>, a: set<Key>, b: set<Key>)
    requires a <= b
    ensures Sum(t, b) == Sum(t, a) + Sum(t, b - a)
  {
    assert b == a + (b - a);
    SumUnion(t, a, b - a);
  }

  lemma SumAdd(t: map<Key, Row>, ks: set<Key>, k: Key)
    requires k !in ks
    ensures Sum(t, ks + {k}) == Bytes(t, k) + Sum(t, ks)
  {
    SumSplit(t, ks + {k}, k);
    assert ks + {k} - {k} == ks;
  }

  /** Rewriting one row moves a sum by that row's delta exactly when its key takes part. */
  lemma SumUpdate(t: map<Key, Row>, k: Key, row: Row, ks: set<Key>)
    ensures Sum(t[k := row], ks) == Sum(t, ks) + if k in ks then row.tile.bytes - Bytes(t, k) else 0
  {
    var u := t[k := row];
    if k in ks {
      SumSplit(t, ks, k);
      SumSplit(u, ks, k);
    }
    SumAgrees(t, u, ks - {k});
    assert k !in ks ==> ks - {k} == ks;
  }

  /** Deleting rows outside `ks` leaves its sum alone. */
  lemma SumDelete(t: map<Key, Row>, gone: set<Key>, ks: set<Key>)
    requires ks !! gone
    ensures Sum(t - gone, ks) == Sum(t, ks)
  {
    SumAgrees(t, t - gone, ks);
  }

  /** The SUM aggregate as the engine computes it, one row at a time. */
  method SumBytes(t: map<Key, Row>, ks: set<Key>) returns (sum: nat)
    ensures sum == Sum(t, ks)
  {
    sum := 0;
    var rest := ks;
    while rest != {}
      invariant rest <= ks
      invariant sum + Sum(t, rest) == Sum(t, ks)
      decreases rest
    {
      var k :| k in rest;
      SumSplit(t, rest, k);
      sum := sum + Bytes(t, k);
      rest := rest - {k};
    }
  }

  // ----- pinned and category membership -----

  function PinnedKeys(t: map<Key, Row>): set<Key> {
    set k | k in t && t[k].pinned
  }

  function UnpinnedKeys(t: map<Key, Row>): set<Key> {
    set k | k in t && !t[k].pinned
  }

  ghost function TotalBytes(db: Db): nat {
    Sum(db.tiles, db.tiles.Keys)
  }

  ghost function PinnedBytes(db: Db): nat {
    Sum(db.tiles, PinnedKeys(db.tiles))
  }

  lemma PinnedWithinTotal(db: Db)
    ensures TotalBytes(db) == PinnedBytes(db) + Sum(db.tiles, UnpinnedKeys(db.tiles))
  {
    SumSubset(db.tiles, PinnedKeys(db.tiles), db.tiles.Keys);
    assert db.tiles.Keys - PinnedKeys(db.tiles) == UnpinnedKeys(db.tiles);
  }

  const POSITION_WARM_REGION_ID := "__position_warm__"
  const BASEMAP_ASSETS_REGION_ID := "__basemap_assets__"
  const STAGING_REGION_PREFIX := "__warm_staging__"
  const POSITION_STAGING_REGION_PREFIX := "__warm_staging__position-"

  /** The position category holds the position-warm region and its staging copies; every other region,
      staged or not, is in the real category. */
  predicate IsPosition(region: string) {
    region == POSITION_WARM_REGION_ID || POSITION_STAGING_REGION_PREFIX <= region
  }

  predicate IsStaging(region: string) {
    STAGING_REGION_PREFIX <= region
  }

  function RegionKeys(db: Db, region: string): set<Key> {
    set j | j in db.joins && j.region == region :: j.key
  }

  function PositionKeys(db: Db): set<Key> {
    set j | j in db.joins && IsPosition(j.region) :: j.key
  }

  function RealKeys(db: Db): set<Key> {
    set j | j in db.joins && !IsPosition(j.region) :: j.key
  }

  /** The rows a write for `region` is budgeted against: its category's, or every pinned row's when the
      write records no join. */
  function CategoryKeys(db: Db, region: Option<string>): set<Key> {
    match region
    case Some(id) => if IsPosition(id) then PositionKeys(db) else RealKeys(db)
    case None => PinnedKeys(db.tiles)
  }

  ghost function CategoryBytes(db: Db, region: Option<string>): nat {
    Sum(db.tiles, CategoryKeys(db, region))
  }

  predicate Joined(db: Db, k: Key) {
    exists j :: j in db.joins && j.key == k
  }

  /** The statistic's own query: pinned rows with a join to a region that is neither the one it is asked to
      leave out nor a staging copy of position-warm. */
  function PinnedRealKeys(db: Db, warmId: string): set<Key> {
    set j | j in db.joins && CountsAsReal(j.region, warmId) && j.key in db.tiles && db.tiles[j.key].pinned :: j.key
  }

  predicate CountsAsReal(region: string, warmId: string) {
    region != warmId && !(POSITION_STAGING_REGION_PREFIX <= region)
  }

  ghost function RealRegionBytes(db: Db, warmId: string): nat {
    Sum(db.tiles, PinnedRealKeys(db, warmId))
  }

  /** The four kinds of region id. Staging copies of position-warm are in its category, other staging copies in
      the real one. */
  lemma RegionKindsAre(suffix: string)
    ensures IsPosition("__position_warm__") && !IsStaging("__position_warm__")
    ensures !IsPosition("__basemap_assets__") && !IsStaging("__basemap_assets__")
    ensures IsPosition("__warm_staging__position-" + suffix) && IsStaging("__warm_staging__position-" + suffix)
    ensures IsStaging("__warm_staging__" + suffix)
    ensures !("position-" <= suffix) ==> !IsPosition("__warm_staging__" + suffix)
    ensures suffix != "__position_warm__" && !("__warm_staging__" <= suffix)
            ==> !IsPosition(suffix) && !IsStaging(suffix)
  {
    var prefix, staged := "__warm_staging__", "__warm_staging__" + suffix;
    assert prefix[2] == 'w' && "__position_warm__"[2] == 'p' && "__basemap_assets__"[2] == 'b';
    assert "__warm_staging__position-" == prefix + "position-";
    assert "__warm_staging__position-" + suffix == prefix + ("position-" + suffix);
    assert staged[|prefix|..] == suffix;
    assert staged != "__position_warm__" by {
      assert staged[2] == 'w';
    }
    if prefix + "position-" <= staged {
      assert staged[|prefix|..|prefix| + 9] == "position-";
      assert suffix[..9] == "position-";
    }
  }

  /** The statistic and the store gate measure the same rows: a joined row is always pinned. */
  lemma StatisticMatchesGate(db: Db, region: string)
    requires Sound(db) && !IsPosition(region)
    ensures RealRegionBytes(db, POSITION_WARM_REGION_ID) == CategoryBytes(db, Some(region))
  {
    assert PinnedRealKeys(db, POSITION_WARM_REGION_ID) == RealKeys(db);
  }

  /** Which region the statistic leaves out matters: where one tile is saved for one region, leaving that region
      out or another gives different sums, so a memo of either must not answer for the other. */
  lemma StatisticDependsOnTheRegion(id: string, other: string, k: Key, tile: Tile) returns (db: Db)
    requires id != other && CountsAsReal(id, other) && tile.bytes > 0
    ensures Sound(db) && RealRegionBytes(db, id) == 0 && RealRegionBytes(db, other) == tile.bytes
  {
    db := Db(map[k := Row(tile, 0, 1, true)], {Join(id, k)}, 2);
    assert PinnedRealKeys(db, id) == {};
    assert PinnedRealKeys(db, other) == {k} by {
      assert Join(id, k) in db.joins;
    }
    SumSplit(db.tiles, {k}, k);
    assert {k} - {k} == {};
  }

  /** A category's rows are pinned, so no category outgrows the pinned set. */
  lemma CategoryWithinPinned(db: Db, region: Option<string>)
    requires Sound(db)
    ensures CategoryKeys(db, region) <= PinnedKeys(db.tiles)
    ensures CategoryBytes(db, region) <= PinnedBytes(db)
  {
    SumSubset(db.tiles, CategoryKeys(db, region), PinnedKeys(db.tiles));
  }

  // ----- deleting unpinned rows -----

  function Without(db: Db, gone: set<Key>): Db {
    db.(tiles := db.tiles - gone)
  }

  /** Deleting unpinned rows takes exactly their bytes off the total and none off the pinned sum. */
  lemma DeleteUnpinned(db: Db, gone: set<Key>)
    requires gone <= UnpinnedKeys(db.tiles)
    ensures TotalBytes(Without(db, gone)) == TotalBytes(db) - Sum(db.tiles, gone)
    ensures PinnedKeys(Without(db, gone).tiles) == PinnedKeys(db.tiles)
    ensures PinnedBytes(Without(db, gone)) == PinnedBytes(db)
  {
    var t := db.tiles;
    SumSubset(t, gone, t.Keys);
    assert (t - gone).Keys == t.Keys - gone;
    SumDelete(t, gone, t.Keys - gone);
    assert PinnedKeys(t - gone) == PinnedKeys(t);
    SumDelete(t, gone, PinnedKeys(t));
  }

  /** It keeps the tables sound, orphans no join row and moves no category sum. */
  lemma DeleteUnpinnedSparesRegions(db: Db, gone: set<Key>, region: Option<string>)
    requires Sound(db) && gone <= UnpinnedKeys(db.tiles)
    ensures Sound(Without(db, gone))
    ensures CategoryKeys(Without(db, gone), region) == CategoryKeys(db, region)
    ensures CategoryBytes(Without(db, gone), region) == CategoryBytes(db, region)
  {
    var after := Without(db, gone);
    assert PinnedKeys(after.tiles) == PinnedKeys(db.tiles);
    CategoryWithinPinned(db, region);
    SumDelete(db.tiles, gone, CategoryKeys(db, region));
  }

  /** Nor does it move the statistic, so a memo of it stays valid. */
  lemma DeleteUnpinnedSparesStatistic(db: Db, gone: set<Key>, warmId: string)
    requires Sound(db) && gone <= UnpinnedKeys(db.tiles)
    ensures Sound(Without(db, gone)) && RealRegionBytes(Without(db, gone), warmId) == RealRegionBytes(db, warmId)
  {
    DeleteUnpinnedSparesRegions(db, gone, None);
    assert PinnedRealKeys(Without(db, gone), warmId) == PinnedRealKeys(db, warmId);
    SumDelete(db.tiles, gone, PinnedRealKeys(db, warmId));
  }
}
