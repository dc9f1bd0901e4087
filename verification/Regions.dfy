/** Pins by region: pinning a cached row, deleting a region, staged promotion and staging cleanup. */
module Regions {
  import opened Wrappers
  import opened Tables
  import opened WarmBatch

  // ----- pinning a cached row -----

  /** UPDATE pinned = 1, then INSERT OR IGNORE of the join. */
  function PinRow(db: Db, k: Key, region: Option<string>): Db
    requires k in db.tiles
  {
    db.(tiles := db.tiles[k := db.tiles[k].(pinned := true)], joins := WithJoin(db.joins, region, k))
  }

  datatype PinBudgets = PinBudgets(category: int, physical: Option<int>)

  /** The gates of a pin: only bytes new to the category, and only bytes new to the pinned set, count. A
      `None` physical budget stands for the `i64::MAX` of the uncapped callers. */
  ghost predicate PinRefused(db: Db, k: Key, budgets: PinBudgets, region: Option<string>)
    requires k in db.tiles
  {
    var bytes := Bytes(db.tiles, k);
    || (k !in CategoryKeys(db, region) && bytes > 0 && CategoryBytes(db, region) + bytes > budgets.category)
    || (!db.tiles[k].pinned && bytes > 0 && budgets.physical.Some? && PinnedBytes(db) + bytes > budgets.physical.value)
  }

  /** A 200 inside its freshness window or any other status inside the negative one. */
  predicate Fresh(tile: Tile, now: int, freshSecs: int, negativeTtlSecs: int) {
    now - tile.fetchedAt < if tile.status == 200 then freshSecs else negativeTtlSecs
  }

  /** A tile is served until its window has passed: a 200 the freshness one, anything else the negative one. */
  lemma FreshUntil(tile: Tile, now: int, freshSecs: int, negativeTtlSecs: int)
    ensures tile.status == 200 ==> (Fresh(tile, now, freshSecs, negativeTtlSecs) <==> now < tile.fetchedAt + freshSecs)
    ensures tile.status != 200 ==>
              (Fresh(tile, now, freshSecs, negativeTtlSecs) <==> now < tile.fetchedAt + negativeTtlSecs)
  {
  }

  /** A pin moves no byte of the total and moves the pinned sum by the row when it was unpinned. */
  lemma PinRowSums(db: Db, k: Key, region: Option<string>)
    requires k in db.tiles
    ensures var after := PinRow(db, k, region);
            && TotalBytes(after) == TotalBytes(db)
            && PinnedBytes(after) == PinnedBytes(db) + if db.tiles[k].pinned then 0 else Bytes(db.tiles, k)
  {
    var after := PinRow(db, k, region);
    assert after.tiles.Keys == db.tiles.Keys;
    SumAgrees(db.tiles, after.tiles, db.tiles.Keys);
    assert PinnedKeys(after.tiles) == PinnedKeys(db.tiles) + {k};
    AddedKeySum(db.tiles, after.tiles, k, PinnedKeys(db.tiles), PinnedKeys(after.tiles));
  }

  /** It moves the written category by the row when the row was outside. */
  lemma PinMovesCategory(db: Db, k: Key, region: Option<string>)
    requires k in db.tiles
    ensures CategoryBytes(PinRow(db, k, region), region)
         == CategoryBytes(db, region) + if k in CategoryKeys(db, region) then 0 else Bytes(db.tiles, k)
  {
    var row := WarmRow(k, db.tiles[k].tile);
    var after := PinRow(db, k, region);
    CategoryAfterStore(db, row, region, 0);
    assert PinnedKeys(after.tiles) == PinnedKeys(StoreRow(db, row, region, 0).tiles);
    assert CategoryKeys(after, region) == CategoryKeys(db, region) + {k};
    AddedKeySum(db.tiles, after.tiles, k, CategoryKeys(db, region), CategoryKeys(after, region));
  }

  /** So a pin that is not refused keeps the category within its budget or where it was. */
  lemma PinRowCategory(db: Db, k: Key, budgets: PinBudgets, region: Option<string>)
    requires k in db.tiles && !PinRefused(db, k, budgets, region)
    ensures CategoryBytes(PinRow(db, k, region), region) <= Max(budgets.category, CategoryBytes(db, region))
    ensures budgets.physical.Some?
            ==> PinnedBytes(PinRow(db, k, region)) <= Max(budgets.physical.value, PinnedBytes(db))
  {
    PinRefusedIff(db, k, budgets, region);
  }

  /** A pin sets the row's pin bit, records the region's join, and touches nothing else. */
  lemma PinRowWrites(db: Db, k: Key, region: Option<string>)
    requires k in db.tiles
    ensures var after := PinRow(db, k, region);
            && after.tiles.Keys == db.tiles.Keys && after.tiles[k] == db.tiles[k].(pinned := true)
            && (forall o :: o in db.tiles && o != k ==> after.tiles[o] == db.tiles[o])
            && (forall j :: j in after.joins <==> j in db.joins || (region == Some(j.region) && j.key == k))
  {
  }

  /** The gates weigh what the pin adds and nothing more: it is refused if and only if it would raise the category
      past its budget, or the pinned bytes past theirs when there is one. */
  lemma PinRefusedIff(db: Db, k: Key, budgets: PinBudgets, region: Option<string>)
    requires k in db.tiles
    ensures PinRefused(db, k, budgets, region)
       <==> || CategoryBytes(PinRow(db, k, region), region) > Max(budgets.category, CategoryBytes(db, region))
            || (budgets.physical.Some?
                && PinnedBytes(PinRow(db, k, region)) > Max(budgets.physical.value, PinnedBytes(db)))
  {
    PinRowSums(db, k, region);
    PinMovesCategory(db, k, region);
  }

  lemma PinRowKeepsSound(db: Db, k: Key, region: Option<string>)
    requires Sound(db) && k in db.tiles
    ensures Sound(PinRow(db, k, region))
  {
  }

  // ----- demotion -----

  function SetPins(t: map<Key, Row>, keep: set<Key>): map<Key, Row> {
    map k | k in t :: t[k].(pinned := k in keep)
  }

  /** UPDATE pinned = 0 on every pinned row no join references. */
  function DemoteOrphans(db: Db): Db {
    db.(tiles := SetPins(db.tiles, set k | k in db.tiles && db.tiles[k].pinned && Joined(db, k)))
  }

  function DropRegion(db: Db, region: string): Db {
    db.(joins := set j | j in db.joins && j.region != region)
  }

  /** `delete_region`. */
  function DeleteRegion(db: Db, region: string): Db {
    DemoteOrphans(DropRegion(db, region))
  }

  /** `cleanup_abandoned_staging_conn`. */
  function CleanupStaging(db: Db): Db {
    DemoteOrphans(db.(joins := set j | j in db.joins && !IsStaging(j.region)))
  }

  /** Two states that differ only in pin bits and joins. */
  ghost predicate SameRows(db: Db, after: Db) {
    && after.tiles.Keys == db.tiles.Keys
    && (forall k :: k in db.tiles ==> after.tiles[k] == db.tiles[k].(pinned := after.tiles[k].pinned))
    && after.nextRowid == db.nextRowid
  }

  lemma SameRowsSameTotal(db: Db, after: Db)
    requires SameRows(db, after)
    ensures TotalBytes(after) == TotalBytes(db)
  {
    SumAgrees(db.tiles, after.tiles, db.tiles.Keys);
  }

  /** Deleting a region drops its joins and no other; no row is deleted, and exactly the rows some other
      region still holds stay pinned, so a region-less pin is demoted too. */
  lemma DeleteRegionReleases(db: Db, region: string)
    requires Sound(db)
    ensures var after := DeleteRegion(db, region);
            && Sound(after) && SameRows(db, after)
            && (forall j :: j in after.joins <==> j in db.joins && j.region != region)
            && (forall k :: k in db.tiles ==>
                  (after.tiles[k].pinned <==> exists j :: j in db.joins && j.key == k && j.region != region))
            && TotalBytes(after) == TotalBytes(db)
  {
    var after := DeleteRegion(db, region);
    SameRowsSameTotal(db, after);
    forall k | k in db.tiles && after.tiles[k].pinned
      ensures exists j :: j in db.joins && j.key == k && j.region != region
    {
      var j :| j in DropRegion(db, region).joins && j.key == k;
    }
  }

  lemma CleanupReleasesStaging(db: Db)
    requires Sound(db)
    ensures var after := CleanupStaging(db);
            && Sound(after) && SameRows(db, after)
            && (forall j :: j in after.joins <==> j in db.joins && !IsStaging(j.region))
            && (forall k :: k in db.tiles ==>
                  (after.tiles[k].pinned <==> exists j :: j in db.joins && j.key == k && !IsStaging(j.region)))
            && TotalBytes(after) == TotalBytes(db)
  {
    var after := CleanupStaging(db);
    SameRowsSameTotal(db, after);
    forall k | k in db.tiles && after.tiles[k].pinned
      ensures exists j :: j in db.joins && j.key == k && !IsStaging(j.region)
    {
      var j :| j in after.joins && j.key == k;
    }
  }

  // ----- staged promotion -----

  datatype Replacement = Replacement(staging: string, target: string)

  /** The joins of `region` whose key no other region joins. */
  function SoleKeys(db: Db, region: string): set<Key> {
    set j | j in db.joins && j.region == region
          && !(exists other :: other in db.joins && other.key == j.key && other.region != region) :: j.key
  }

  /** UPDATE pinned = 0 on the rows only the target holds. */
  function DemoteSole(db: Db, target: string): Db {
    db.(tiles := SetPins(db.tiles, PinnedKeys(db.tiles) - SoleKeys(db, target)))
  }

  /** UPDATE region_id from the staging id to the target id. */
  function Rename(db: Db, staging: string, target: string): Db {
    db.(joins := set j | j in db.joins :: if j.region == staging then Join(target, j.key) else j)
  }

  /** UPDATE pinned = 1 on every row the target joins. */
  function Repin(db: Db, target: string): Db {
    db.(tiles := SetPins(db.tiles, PinnedKeys(db.tiles) + RegionKeys(db, target)))
  }

  /** The four statements of one replacement, without and with the last. */
  function Replace(db: Db, r: Replacement): Db {
    Rename(DropRegion(DemoteSole(db, r.target), r.target), r.staging, r.target)
  }

  function Promote1(db: Db, r: Replacement): Db {
    Repin(Replace(db, r), r.target)
  }

  function PromoteAll(db: Db, rs: seq<Replacement>): Db {
    if rs == [] then db else Promote1(PromoteAll(db, rs[..|rs| - 1]), rs[|rs| - 1])
  }

  ghost predicate WithinLimits(db: Db, realBudget: int, positionBudget: int, cap: int) {
    && PinnedBytes(db) <= cap
    && CategoryBytes(db, Some(BASEMAP_ASSETS_REGION_ID)) <= realBudget
    && CategoryBytes(db, Some(POSITION_WARM_REGION_ID)) <= positionBudget
  }

  /** `promote_staged_regions`: every replacement, or nothing. */
  ghost function Promote(db: Db, rs: seq<Replacement>, realBudget: int, positionBudget: int, cap: int): Db {
    if WithinLimits(PromoteAll(db, rs), realBudget, positionBudget, cap) then PromoteAll(db, rs) else db
  }

  /** The joins after one replacement. */
  lemma ReplaceJoins(db: Db, r: Replacement)
    ensures forall j: Join :: j in Replace(db, r).joins <==>
              || (j.region != r.target && j.region != r.staging && j in db.joins)
              || (j.region == r.target && r.staging != r.target && Join(r.staging, j.key) in db.joins)
  {
    var dropped := DropRegion(DemoteSole(db, r.target), r.target);
    forall j: Join | j.region == r.target && r.staging != r.target && Join(r.staging, j.key) in db.joins
      ensures j in Replace(db, r).joins
    {
      assert Join(r.staging, j.key) in dropped.joins;
    }
  }

  /** The re-pin of the last statement never changes anything: a row a staging id joins is, by that very
      join, not the target's alone, so the first statement did not demote it. */
  lemma RepinChangesNothing(db: Db, r: Replacement)
    requires Sound(db)
    ensures Promote1(db, r) == Replace(db, r)
  {
    var replaced := Replace(db, r);
    ReplaceJoins(db, r);
    forall k | k in RegionKeys(replaced, r.target)
      ensures k in PinnedKeys(replaced.tiles)
    {
      assert Join(r.target, k) in replaced.joins;
      assert Join(r.staging, k) in db.joins;
      assert k !in SoleKeys(db, r.target);
    }
    assert SetPins(replaced.tiles, PinnedKeys(replaced.tiles)) == replaced.tiles;
    assert PinnedKeys(replaced.tiles) + RegionKeys(replaced, r.target) == PinnedKeys(replaced.tiles);
  }

  /** A row's pin goes exactly when it had a join before and has none after. */
  ghost predicate PinsFollowJoins(db: Db, after: Db) {
    && SameRows(db, after)
    && (forall k :: Joined(after, k) ==> Joined(db, k))
    && (forall k :: k in db.tiles ==>
          (after.tiles[k].pinned <==> db.tiles[k].pinned && (Joined(db, k) ==> Joined(after, k))))
  }

  lemma Promote1Pins(db: Db, r: Replacement)
    requires Sound(db)
    ensures Sound(Promote1(db, r)) && PinsFollowJoins(db, Promote1(db, r))
  {
    var after := Replace(db, r);
    RepinChangesNothing(db, r);
    ReplaceJoins(db, r);
    forall k
      ensures k in SoleKeys(db, r.target) <==> Joined(db, k) && !Joined(after, k)
    {
      ReplaceKeepsShared(db, r, k);
    }
  }

  /** A key loses its last join exactly when the target alone held it. */
  lemma ReplaceKeepsShared(db: Db, r: Replacement, k: Key)
    ensures k in SoleKeys(db, r.target) <==> Joined(db, k) && !Joined(Replace(db, r), k)
    ensures Joined(Replace(db, r), k) ==> Joined(db, k)
  {
    var after := Replace(db, r);
    ReplaceJoins(db, r);
    if j :| j in db.joins && j.key == k && j.region != r.target {
      assert (if j.region == r.staging then Join(r.target, k) else j) in after.joins;
    }
  }

  lemma {:induction false} PromoteAllPins(db: Db, rs: seq<Replacement>)
    requires Sound(db)
    ensures Sound(PromoteAll(db, rs)) && PinsFollowJoins(db, PromoteAll(db, rs))
  {
    if rs == [] {
    } else {
      var mid := PromoteAll(db, rs[..|rs| - 1]);
      PromoteAllPins(db, rs[..|rs| - 1]);
      Promote1Pins(mid, rs[|rs| - 1]);
    }
  }

  ghost predicate Named(rs: seq<Replacement>, region: string) {
    exists i :: 0 <= i < |rs| && (rs[i].staging == region || rs[i].target == region)
  }

  ghost predicate DistinctIds(rs: seq<Replacement>) {
    && (forall i :: 0 <= i < |rs| ==> rs[i].staging != rs[i].target)
    && (forall i, j :: 0 <= i < j < |rs| ==>
          && rs[i].staging != rs[j].staging && rs[i].target != rs[j].target
          && rs[i].staging != rs[j].target && rs[i].target != rs[j].staging)
  }

  /** The ids in the order the replacements name them, each staging id before its target. */
  function IdAt(rs: seq<Replacement>, n: nat): string
    requires n < 2 * |rs|
  {
    if n % 2 == 0 then rs[n / 2].staging else rs[n / 2].target
  }

  /** Distinct ids are just that: no two of the ids the replacements name are equal. */
  lemma DistinctIdsMeans(rs: seq<Replacement>)
    ensures DistinctIds(rs) <==> forall m, n :: 0 <= m < n < 2 * |rs| ==> IdAt(rs, m) != IdAt(rs, n)
  {
    if forall m, n :: 0 <= m < n < 2 * |rs| ==> IdAt(rs, m) != IdAt(rs, n) {
      forall i | 0 <= i < |rs| ensures rs[i].staging != rs[i].target {
        assert IdAt(rs, 2 * i) != IdAt(rs, 2 * i + 1);
      }
      forall i, j | 0 <= i < j < |rs|
        ensures rs[i].staging != rs[j].staging && rs[i].target != rs[j].target
        ensures rs[i].staging != rs[j].target && rs[i].target != rs[j].staging
      {
        assert IdAt(rs, 2 * i) != IdAt(rs, 2 * j) && IdAt(rs, 2 * i + 1) != IdAt(rs, 2 * j + 1);
        assert IdAt(rs, 2 * i) != IdAt(rs, 2 * j + 1) && IdAt(rs, 2 * i + 1) != IdAt(rs, 2 * j);
      }
    }
    if DistinctIds(rs) {
      forall m, n | 0 <= m < n < 2 * |rs| ensures IdAt(rs, m) != IdAt(rs, n) {
        if m / 2 == n / 2 {
          assert m % 2 == 0 && n % 2 == 1;
        }
      }
    }
  }

  /** A region no replacement names keeps exactly its joins. */
  lemma {:induction false} PromotionSparesOthers(db: Db, rs: seq<Replacement>, region: string)
    requires !Named(rs, region)
    ensures forall k :: Join(region, k) in PromoteAll(db, rs).joins <==> Join(region, k) in db.joins
  {
    if rs == [] {
    } else {
      var last := |rs| - 1;
      assert rs[last].staging != region && rs[last].target != region;
      forall i | 0 <= i < last ensures rs[..last][i].staging != region && rs[..last][i].target != region {
        assert rs[..last][i] == rs[i];
      }
      PromotionSparesOthers(db, rs[..last], region);
      ReplaceJoins(PromoteAll(db, rs[..last]), rs[last]);
    }
  }

  lemma {:induction false} PromotionMovesStaging(db: Db, rs: seq<Replacement>, i: nat)
    requires DistinctIds(rs) && i < |rs|
    ensures forall k :: Join(rs[i].target, k) in PromoteAll(db, rs).joins <==> Join(rs[i].staging, k) in db.joins
    ensures forall k :: Join(rs[i].staging, k) !in PromoteAll(db, rs).joins
  {
    var last := |rs| - 1;
    var front := rs[..last];
    var mid := PromoteAll(db, front);
    ReplaceJoins(mid, rs[last]);
    if i < last {
      assert front[i] == rs[i];
      PromotionMovesStaging(db, front, i);
    } else {
      PromotionSparesOthers(db, front, rs[last].staging);
    }
  }

  /** Promotion of replacements with distinct ids is all-or-nothing. When the promoted tables meet all
      three limits, each target owns exactly its staging set, each staging id is empty, every other
      region keeps its joins, and a row loses its pin exactly when it lost its last join; otherwise
      nothing changes. */
  lemma PromotionIsAllOrNothing(db: Db, rs: seq<Replacement>, realBudget: int, positionBudget: int, cap: int)
    requires Sound(db) && DistinctIds(rs)
    ensures var after := Promote(db, rs, realBudget, positionBudget, cap);
            && Sound(after) && TotalBytes(after) == TotalBytes(db)
            && (WithinLimits(PromoteAll(db, rs), realBudget, positionBudget, cap) ==>
                  && PinnedBytes(after) <= cap
                  && (forall id ::
                        CategoryBytes(after, Some(id)) <= if IsPosition(id) then positionBudget else realBudget)
                  && (forall i :: 0 <= i < |rs| ==>
                        && RegionKeys(after, rs[i].target) == RegionKeys(db, rs[i].staging)
                        && RegionKeys(after, rs[i].staging) == {})
                  && (forall region :: !Named(rs, region) ==> RegionKeys(after, region) == RegionKeys(db, region))
                  && PinsFollowJoins(db, after))
            && (!WithinLimits(PromoteAll(db, rs), realBudget, positionBudget, cap) ==> after == db)
  {
    var done := PromoteAll(db, rs);
    PromoteAllPins(db, rs);
    SameRowsSameTotal(db, done);
    WithinLimitsMeans(done, realBudget, positionBudget, cap);
    forall i | 0 <= i < |rs|
      ensures RegionKeys(done, rs[i].target) == RegionKeys(db, rs[i].staging)
      ensures RegionKeys(done, rs[i].staging) == {}
    {
      PromotionMovesStaging(db, rs, i);
      SameRegion(done, rs[i].target, db, rs[i].staging);
    }
    forall region | !Named(rs, region)
      ensures RegionKeys(done, region) == RegionKeys(db, region)
    {
      PromotionSparesOthers(db, rs, region);
      SameRegion(done, region, db, region);
    }
  }

  lemma SameRegion(a: Db, x: string, b: Db, y: string)
    requires forall k :: Join(x, k) in a.joins <==> Join(y, k) in b.joins
    ensures RegionKeys(a, x) == RegionKeys(b, y)
  {
    forall k ensures k in RegionKeys(a, x) <==> Join(x, k) in a.joins {}
    forall k ensures k in RegionKeys(b, y) <==> Join(y, k) in b.joins {}
  }

  // ----- the limits of a promotion -----

  /** The limits in terms of the regions they are for: every real region's category within the real budget, every
      position region's within the position budget, the pinned bytes within the cap. */
  lemma WithinLimitsMeans(db: Db, realBudget: int, positionBudget: int, cap: int)
    ensures WithinLimits(db, realBudget, positionBudget, cap)
       <==> && PinnedBytes(db) <= cap
            && forall id :: CategoryBytes(db, Some(id)) <= if IsPosition(id) then positionBudget else realBudget
  {
    forall id
      ensures CategoryBytes(db, Some(id))
           == CategoryBytes(db, Some(if IsPosition(id) then POSITION_WARM_REGION_ID else BASEMAP_ASSETS_REGION_ID))
    {
      KindsOfRegions();
    }
    KindsOfRegions();
  }

  lemma KindsOfRegions()
    ensures IsPosition(POSITION_WARM_REGION_ID) && !IsPosition(BASEMAP_ASSETS_REGION_ID)
  {
  }

  /** A replacement within its category moves joins, and adds no key to any category. */
  lemma ReplaceKeepsCategories(db: Db, r: Replacement, region: string)
    requires Sound(db) && IsPosition(r.staging) == IsPosition(r.target)
    ensures CategoryKeys(Promote1(db, r), Some(region)) <= CategoryKeys(db, Some(region))
  {
    var after := Promote1(db, r);
    RepinChangesNothing(db, r);
    ReplaceJoins(db, r);
    forall k | k in CategoryKeys(after, Some(region)) ensures k in CategoryKeys(db, Some(region)) {
      var j :| j in after.joins && j.key == k && IsPosition(j.region) == IsPosition(region);
      var from := if j.region == r.target then Join(r.staging, k) else j;
      assert from in db.joins && IsPosition(from.region) == IsPosition(region);
    }
  }

  lemma {:induction false} PromotionAddsNoKeys(db: Db, rs: seq<Replacement>, region: string)
    requires Sound(db) && forall r :: r in rs ==> IsPosition(r.staging) == IsPosition(r.target)
    ensures CategoryKeys(PromoteAll(db, rs), Some(region)) <= CategoryKeys(db, Some(region))
  {
    if rs == [] {
    } else {
      var mid := PromoteAll(db, rs[..|rs| - 1]);
      PromoteAllPins(db, rs[..|rs| - 1]);
      PromotionAddsNoKeys(db, rs[..|rs| - 1], region);
      ReplaceKeepsCategories(mid, rs[|rs| - 1], region);
    }
  }

  lemma SmallerSum(db: Db, after: Db, ks: set<Key>, ls: set<Key>)
    requires SameRows(db, after) && ks <= ls
    ensures Sum(after.tiles, ks) <= Sum(db.tiles, ls)
  {
    SumSubset(db.tiles, ks, ls);
    SumAgrees(db.tiles, after.tiles, ks);
  }

  /** Replacements that stay within their category raise neither the pinned bytes nor any category. */
  lemma PromotionRaisesNothing(db: Db, rs: seq<Replacement>, region: string)
    requires Sound(db) && forall r :: r in rs ==> IsPosition(r.staging) == IsPosition(r.target)
    ensures PinnedBytes(PromoteAll(db, rs)) <= PinnedBytes(db)
    ensures CategoryBytes(PromoteAll(db, rs), Some(region)) <= CategoryBytes(db, Some(region))
  {
    var done := PromoteAll(db, rs);
    PromoteAllPins(db, rs);
    PromotionAddsNoKeys(db, rs, region);
    SmallerSum(db, done, PinnedKeys(done.tiles), PinnedKeys(db.tiles));
    SmallerSum(db, done, CategoryKeys(done, Some(region)), CategoryKeys(db, Some(region)));
  }

  /** So from tables that meet the bounds they always commit. */
  lemma FittingPromotionCommits(db: Db, rs: seq<Replacement>, realBudget: int, positionBudget: int, cap: int)
    requires Sound(db) && forall r :: r in rs ==> IsPosition(r.staging) == IsPosition(r.target)
    requires PinnedBytes(db) <= cap
    requires forall id :: CategoryBytes(db, Some(id)) <= if IsPosition(id) then positionBudget else realBudget
    ensures Promote(db, rs, realBudget, positionBudget, cap) == PromoteAll(db, rs)
    ensures WithinLimits(PromoteAll(db, rs), realBudget, positionBudget, cap)
  {
    forall id
      ensures CategoryBytes(PromoteAll(db, rs), Some(id)) <= if IsPosition(id) then positionBudget else realBudget
    {
      PromotionRaisesNothing(db, rs, id);
    }
    PromotionRaisesNothing(db, rs, "");
    WithinLimitsMeans(PromoteAll(db, rs), realBudget, positionBudget, cap);
  }
}
