/** Enumerating the tiles of disjoint ranges, and counting them. */
module TileCounts {
  import opened Sets
  import opened TileRanges

  datatype Tile = Tile(z: nat, x: nat, y: nat)

  /** `y0..=y1` in one column. */
  function Column(z: nat, x: nat, y0: nat, n: nat): (ts: seq<Tile>)
    ensures |ts| == n && forall i :: 0 <= i < n ==> ts[i] == Tile(z, x, y0 + i)
  {
    if n == 0 then [] else Column(z, x, y0, n - 1) + [Tile(z, x, y0 + n - 1)]
  }

  function Height(r: TileRange): int {
    r.y1 - r.y0 + 1
  }

  /** The first `n` columns of a range. */
  function Columns(r: TileRange, n: nat): seq<Tile>
    requires r.y0 <= r.y1
  {
    if n == 0 then [] else Columns(r, n - 1) + Column(r.z, r.x0 + n - 1, r.y0, Height(r))
  }

  /** `tiles_iter` over ranges: x by x, y by y. */
  function Tiles(rs: seq<TileRange>): seq<Tile>
    requires Proper(rs)
  {
    if rs == [] then [] else
      var r := rs[|rs| - 1];
      assert r in rs;
      Tiles(rs[..|rs| - 1]) + RangeTiles(r)
  }

  function Area(r: TileRange): int {
    (r.x1 - r.x0 + 1) * Height(r)
  }

  function Count(rs: seq<TileRange>): int {
    if rs == [] then 0 else
      var r := rs[|rs| - 1];
      Count(rs[..|rs| - 1]) + Area(r)
  }

  ghost predicate NoRepeats(ts: seq<Tile>) {
    forall i, j :: 0 <= i < j < |ts| ==> ts[i] != ts[j]
  }

  lemma ColumnTiles(z: nat, x: nat, y0: nat, n: nat)
    ensures NoRepeats(Column(z, x, y0, n))
    ensures forall t :: t in Column(z, x, y0, n) <==> t.z == z && t.x == x && y0 <= t.y < y0 + n
  {
    var column := Column(z, x, y0, n);
    forall t: Tile | t.z == z && t.x == x && y0 <= t.y < y0 + n ensures t in column {
      assert column[t.y - y0] == t;
    }
  }

  lemma {:induction false} ColumnsCount(r: TileRange, n: nat)
    requires r.y0 <= r.y1
    ensures |Columns(r, n)| == n * Height(r)
  {
    if n == 0 {
    } else {
      ColumnsCount(r, n - 1);
      assert n * Height(r) == (n - 1) * Height(r) + Height(r);
    }
  }

  /** `ts` lists, once each, the tiles of `n` columns of `height` tiles whose first is `(x0, y0)`. */
  ghost predicate IsBlock(ts: seq<Tile>, z: nat, x0: nat, n: nat, y0: nat, height: nat) {
    && NoRepeats(ts)
    && forall t: Tile :: t in ts <==> t.z == z && x0 <= t.x < x0 + n && y0 <= t.y < y0 + height
  }

  lemma OneMoreColumn(ts: seq<Tile>, z: nat, x0: nat, n: nat, y0: nat, height: nat)
    requires IsBlock(ts, z, x0, n, y0, height)
    ensures IsBlock(ts + Column(z, x0 + n, y0, height), z, x0, n + 1, y0, height)
  {
    hide Column, NoRepeats;
    var last := Column(z, x0 + n, y0, height);
    ColumnTiles(z, x0 + n, y0, height);
    NoRepeatsAppend(ts, last);
    forall t: Tile
      ensures t in ts + last <==> t.z == z && x0 <= t.x < x0 + (n + 1) && y0 <= t.y < y0 + height
    {
      assert t in ts + last <==> t in ts || t in last;
    }
  }

  /** The first `n` columns hold exactly their tiles, once each. */
  lemma {:induction false} ColumnsTiles(r: TileRange, n: nat)
    requires r.y0 <= r.y1
    ensures IsBlock(Columns(r, n), r.z, r.x0, n, r.y0, Height(r))
  {
    hide IsBlock;
    if n == 0 {
      NoColumns(r.z, r.x0, r.y0, Height(r));
    } else {
      ColumnsTiles(r, n - 1);
      OneMoreColumn(Columns(r, n - 1), r.z, r.x0, n - 1, r.y0, Height(r));
    }
  }

  lemma NoColumns(z: nat, x0: nat, y0: nat, height: nat)
    ensures IsBlock([], z, x0, 0, y0, height)
  {
  }

  lemma NoRepeatsAppend(a: seq<Tile>, b: seq<Tile>)
    requires NoRepeats(a) && NoRepeats(b) && forall t :: t in a ==> t !in b
    ensures NoRepeats(a + b)
  {
    forall i, j | 0 <= i < j < |a + b| ensures (a + b)[i] != (a + b)[j] {
      if i < |a| <= j {
        assert a[i] in a && b[j - |a|] in b;
      }
    }
  }

  ghost predicate Lists(ts: seq<Tile>, rs: seq<TileRange>) {
    forall t: Tile :: t in ts <==> Covered(rs, t.z, t.x, t.y)
  }

  function RangeTiles(r: TileRange): seq<Tile>
    requires r.x0 <= r.x1 && r.y0 <= r.y1
  {
    Columns(r, r.x1 - r.x0 + 1)
  }

  lemma RangeTilesAre(r: TileRange)
    requires r.x0 <= r.x1 && r.y0 <= r.y1
    ensures NoRepeats(RangeTiles(r)) && |RangeTiles(r)| == Area(r)
    ensures forall t: Tile :: t in RangeTiles(r) <==> Covers(r, t.z, t.x, t.y)
  {
    ColumnsTiles(r, r.x1 - r.x0 + 1);
    ColumnsCount(r, r.x1 - r.x0 + 1);
  }

  lemma ApartFromFront(front: seq<TileRange>, r: TileRange, z: nat, x: nat, y: nat)
    requires AllApart(front + [r]) && Covered(front, z, x, y)
    ensures !Covers(r, z, x, y)
  {
    var q :| q in front && Covers(q, z, x, y);
    var i :| 0 <= i < |front| && front[i] == q;
    ApartShareNoTile(front + [r], i, |front|, z, x, y);
  }

  /** One more disjoint range adds its own tiles and repeats none. */
  lemma OneMoreRange(front: seq<TileRange>, r: TileRange, ts: seq<Tile>)
    requires AllApart(front + [r]) && r.x0 <= r.x1 && r.y0 <= r.y1
    requires NoRepeats(ts) && Lists(ts, front)
    ensures NoRepeats(ts + RangeTiles(r)) && Lists(ts + RangeTiles(r), front + [r])
  {
    RangeTilesAre(r);
    forall t: Tile | t in ts ensures t !in RangeTiles(r) {
      ApartFromFront(front, r, t.z, t.x, t.y);
    }
    NoRepeatsAppend(ts, RangeTiles(r));
    forall t: Tile
      ensures t in ts + RangeTiles(r) <==> Covered(front + [r], t.z, t.x, t.y)
    {
      CoveredPush(front, r);
    }
  }

  /** The enumeration of disjoint ranges yields exactly the covered tiles, each once, and the count is its
      length. */
  lemma {:induction false} TilesAreTheCoverage(rs: seq<TileRange>)
    requires Proper(rs) && AllApart(rs)
    ensures Lists(Tiles(rs), rs) && NoRepeats(Tiles(rs)) && |Tiles(rs)| == Count(rs)
  {
    if rs == [] {
    } else {
      var front, r := rs[..|rs| - 1], rs[|rs| - 1];
      assert rs == front + [r];
      TilesAreTheCoverage(front);
      assert r in rs;
      RangeTilesAre(r);
      OneMoreRange(front, r, Tiles(front));
    }
  }

  /** `tile_count_in_bbox`'s sum over the ranges. */
  method CountTiles(rs: seq<TileRange>) returns (count: nat)
    requires Proper(rs)
    ensures count == Count(rs)
  {
    count := 0;
    for i := 0 to |rs|
      invariant count == Count(rs[..i])
    {
      assert rs[..i + 1][..i] == rs[..i] && rs[i] in rs;
      assert Area(rs[i]) >= 0;
      count := count + Area(rs[i]);
    }
    assert rs[..|rs|] == rs;
  }

  // ----- cardinality and the overflow bound -----

  ghost function TileSet(ts: seq<Tile>): set<Tile> {
    set t | t in ts
  }

  lemma {:induction false} NoRepeatsCardinality(ts: seq<Tile>)
    requires NoRepeats(ts)
    ensures |TileSet(ts)| == |ts|
  {
    if ts == [] {
      assert TileSet(ts) == {};
    } else {
      var front, last := ts[..|ts| - 1], ts[|ts| - 1];
      NoRepeatsCardinality(front);
      assert ts == front + [last];
      assert TileSet(ts) == TileSet(front) + {last};
      assert last !in TileSet(front);
    }
  }

  function Pow2(n: nat): nat
    ensures Pow2(n) >= 1
  {
    if n == 0 then 1 else 2 * Pow2(n - 1)
  }

  function Pow4(n: nat): nat {
    if n == 0 then 1 else 4 * Pow4(n - 1)
  }

  lemma {:induction false} Pow4IsASquare(n: nat)
    ensures Pow4(n) == Pow2(n) * Pow2(n)
  {
    if n == 0 {
    } else {
      Pow4IsASquare(n - 1);
    }
  }

  /** The whole world at every zoom up to `zmax`. */
  function World(zmax: nat): (rs: seq<TileRange>)
  {
    (if zmax == 0 then [] else World(zmax - 1)) + [TileRange(zmax, 0, Pow2(zmax) - 1, 0, Pow2(zmax) - 1)]
  }

  lemma {:induction false} WorldIsDisjoint(zmax: nat)
    ensures Proper(World(zmax)) && AllApart(World(zmax))
    ensures forall r :: r in World(zmax) ==> r.z <= zmax
  {
    if zmax == 0 {
    } else {
      var front := World(zmax - 1);
      WorldIsDisjoint(zmax - 1);
      forall i | 0 <= i < |front| ensures front[i].z < zmax {
        assert front[i] in front;
      }
    }
  }

  lemma {:induction false} WorldCount(zmax: nat)
    ensures 3 * Count(World(zmax)) + 1 == Pow4(zmax + 1)
  {
    var last := TileRange(zmax, 0, Pow2(zmax) - 1, 0, Pow2(zmax) - 1);
    var front := if zmax == 0 then [] else World(zmax - 1);
    if zmax > 0 {
      WorldCount(zmax - 1);
    }
    WorldLayer(front, zmax);
    assert World(zmax) == front + [last];
  }

  lemma WorldLayer(front: seq<TileRange>, zmax: nat)
    ensures Count(front + [TileRange(zmax, 0, Pow2(zmax) - 1, 0, Pow2(zmax) - 1)]) == Count(front) + Pow4(zmax)
  {
    var layer := TileRange(zmax, 0, Pow2(zmax) - 1, 0, Pow2(zmax) - 1);
    assert (front + [layer])[..|front|] == front;
    assert Area(layer) == Pow2(zmax) * Pow2(zmax);
    Pow4IsASquare(zmax);
  }

  lemma {:induction false} WorldCovers(zmax: nat, z: nat, x: nat, y: nat)
    requires z <= zmax && x < Pow2(z) && y < Pow2(z)
    ensures Covered(World(zmax), z, x, y)
  {
    var last := TileRange(zmax, 0, Pow2(zmax) - 1, 0, Pow2(zmax) - 1);
    if z < zmax {
      WorldCovers(zmax - 1, z, x, y);
      CoveredPush(World(zmax - 1), last);
    } else {
      assert last in World(zmax) && Covers(last, z, x, y);
    }
  }

  const MAX_EFFECTIVE_ZOOM: nat := 24

  /** Disjoint ranges inside the tile grid up to `zmax` count no more tiles than the whole world, the sum of
      the powers of four. */
  lemma CountWithinWorld(rs: seq<TileRange>, zmax: nat)
    requires Proper(rs) && AllApart(rs)
    requires forall r :: r in rs ==> r.z <= zmax && r.x1 < Pow2(r.z) && r.y1 < Pow2(r.z)
    ensures |TileSet(Tiles(rs))| == Count(rs)
    ensures 3 * Count(rs) + 1 <= Pow4(zmax + 1)
  {
    var world := World(zmax);
    WorldIsDisjoint(zmax);
    WorldCount(zmax);
    TilesAreTheCoverage(rs);
    TilesAreTheCoverage(world);
    NoRepeatsCardinality(Tiles(rs));
    NoRepeatsCardinality(Tiles(world));
    forall t | t in TileSet(Tiles(rs)) ensures t in TileSet(Tiles(world)) {
      var r :| r in rs && Covers(r, t.z, t.x, t.y);
      WorldCovers(zmax, t.z, t.x, t.y);
    }
    SubsetSize(TileSet(Tiles(rs)), TileSet(Tiles(world)));
  }

  /** So with the zoom ceiling at 24 neither the count nor any partial sum leaves 64 bits. */
  lemma CountFits(rs: seq<TileRange>)
    requires Proper(rs) && AllApart(rs)
    requires forall r :: r in rs ==> r.z <= MAX_EFFECTIVE_ZOOM && r.x1 < Pow2(r.z) && r.y1 < Pow2(r.z)
    ensures 3 * Count(rs) + 1 <= 0x4_0000_0000_0000
  {
    CountWithinWorld(rs, MAX_EFFECTIVE_ZOOM);
    Pow4At25();
  }

  lemma Pow4At25()
    ensures Pow4(25) == 0x4_0000_0000_0000
  {
    FiveMore(0);
    FiveMore(5);
    FiveMore(10);
    FiveMore(15);
    FiveMore(20);
  }

  lemma FiveMore(n: nat)
    ensures Pow4(n + 5) == 1024 * Pow4(n)
  {
    assert Pow4(n + 5) == 16 * Pow4(n + 3);
    assert Pow4(n + 3) == 16 * Pow4(n + 1);
  }
}
