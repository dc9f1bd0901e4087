/** Points, clipped boxes and the tiles that hold them. Longitudes and latitudes are reals, and `merc` stands
    for the Mercator function `asinh(tan(lat)) / PI`, of which only monotonicity is used. */
module Mercator {
  import opened Wrappers
  import opened TileRanges
  import opened TileCounts

  const MAX_MERCATOR_LAT: real := 85.0511287798066

  datatype Box = Box(west: real, south: real, east: real, north: real)

  /** The part of a chart source the enumerator reads. */
  datatype ChartSource = ChartSource(minzoom: nat, maxzoom: nat, bounds: Option<Box>, coverage: Option<seq<Box>>)

  ghost predicate Monotone(merc: real -> real) {
    forall a, b :: a <= b ==> merc(a) <= merc(b)
  }

  // ----- a point's tile -----

  function Clamp(n: int, max: nat): nat {
    if n < 0 then 0 else if n > max then max else n
  }

  function ClampLat(lat: real): real {
    if lat < -MAX_MERCATOR_LAT then -MAX_MERCATOR_LAT else if lat > MAX_MERCATOR_LAT then MAX_MERCATOR_LAT else lat
  }

  /** The tile index of a fraction of the world's width or height. */
  function Index(fraction: real, z: nat): (i: nat)
    ensures i < Pow2(z)
  {
    Clamp((fraction * Pow2(z) as real).Floor, Pow2(z) - 1)
  }

  function TileX(lng: real, z: nat): nat {
    Index((lng + 180.0) / 360.0, z)
  }

  function TileY(merc: real -> real, lat: real, z: nat): nat {
    Index((1.0 - merc(ClampLat(lat))) / 2.0, z)
  }

  lemma IndexMonotone(a: real, b: real, z: nat)
    requires a <= b
    ensures Index(a, z) <= Index(b, z)
  {
    ScaleMonotone(a, b, Pow2(z) as real);
  }

  lemma ScaleMonotone(a: real, b: real, n: real)
    requires a <= b && n >= 0.0
    ensures a * n <= b * n
  {
    assert (b - a) * n >= 0.0;
  }

  /** Inside the world no index is clamped: the tile is the one whose span holds the fraction. */
  lemma IndexHoldsFraction(fraction: real, z: nat)
    requires 0.0 <= fraction < 1.0
    ensures Index(fraction, z) as real <= fraction * Pow2(z) as real < Index(fraction, z) as real + 1.0
  {
    var n := Pow2(z) as real;
    ScaleMonotone(0.0, fraction, n);
    assert (1.0 - fraction) * n > 0.0;
  }

  /** Outside it, the index is the nearest one in the grid. */
  lemma IndexClamps(fraction: real, z: nat)
    ensures fraction < 0.0 ==> Index(fraction, z) == 0
    ensures fraction >= 1.0 ==> Index(fraction, z) == Pow2(z) - 1
  {
    var n := Pow2(z) as real;
    if fraction < 0.0 {
      ScaleMonotone(fraction, 0.0, n);
    } else if fraction >= 1.0 {
      ScaleMonotone(1.0, fraction, n);
    }
  }

  /** Where a column lies: from -180 degrees on, each column of zoom `z` spans 360 degrees over `2^z`, and a
      longitude's column is the one whose span holds it. All sides are scaled by `2^z`. */
  lemma ColumnHoldsLongitude(lng: real, z: nat)
    requires -180.0 <= lng < 180.0
    ensures var n, x := Pow2(z) as real, TileX(lng, z) as real;
            -180.0 * n + 360.0 * x <= lng * n < -180.0 * n + 360.0 * (x + 1.0)
  {
    hide TileX, Pow2;
    var scaled := ColumnReaches(lng, z);
    ColumnBounds(TileX(lng, z) as real, Pow2(z) as real, scaled, scaled, lng * Pow2(z) as real, lng * Pow2(z) as real);
  }

  /** Where a row lies: from a Mercator ordinate of 1 at the north edge down to -1 at the south edge, each row
      spans 2 over `2^z`, and a latitude's row is the one whose span holds its ordinate. */
  lemma RowHoldsLatitude(merc: real -> real, lat: real, z: nat)
    requires -85.0511287798066 <= lat <= 85.0511287798066 && -1.0 < merc(lat) <= 1.0
    ensures var n, y := Pow2(z) as real, TileY(merc, lat, z) as real;
            n - 2.0 * (y + 1.0) < merc(lat) * n <= n - 2.0 * y
  {
    hide TileY, Pow2;
    var n := Pow2(z) as real;
    var scaled := RowReaches(merc, lat, z);
    RowBounds(TileY(merc, lat, z) as real, n, scaled, scaled, merc(lat) * n, merc(lat) * n);
  }

  /** Latitudes beyond the Mercator limits count as the limit. */
  lemma PolarRows(merc: real -> real, lat: real, z: nat)
    ensures lat > 85.0511287798066 ==> TileY(merc, lat, z) == TileY(merc, 85.0511287798066, z)
    ensures lat < -85.0511287798066 ==> TileY(merc, lat, z) == TileY(merc, -85.0511287798066, z)
  {
  }

  /** One zoom up, every index halves, clamped ones included. */
  lemma IndexHalves(fraction: real, z: nat)
    ensures Index(fraction, z) == Index(fraction, z + 1) / 2
  {
    var scaled := fraction * Pow2(z) as real;
    var doubled := fraction * Pow2(z + 1) as real;
    assert doubled == 2.0 * scaled by {
      assert Pow2(z + 1) as real == 2.0 * Pow2(z) as real;
    }
    FloorHalves(scaled, doubled);
  }

  lemma FloorHalves(scaled: real, doubled: real)
    requires doubled == 2.0 * scaled
    ensures doubled.Floor == 2 * scaled.Floor || doubled.Floor == 2 * scaled.Floor + 1
  {
  }

  // ----- clips -----

  function SplitBox(b: Box): seq<Box> {
    if b.west < b.east then [b]
    else if b.west > b.east then [b.(east := 180.0), b.(west := -180.0)]
    else []
  }

  function MaxR(a: real, b: real): real {
    if a < b then b else a
  }

  function MinR(a: real, b: real): real {
    if a < b then a else b
  }

  function Intersect(l: Box, r: Box): Option<Box> {
    var west := MaxR(l.west, r.west);
    var south := MaxR(MaxR(l.south, r.south), -MAX_MERCATOR_LAT);
    var east := MinR(l.east, r.east);
    var north := MinR(MinR(l.north, r.north), MAX_MERCATOR_LAT);
    if west < east && south < north then Some(Box(west, south, east, north)) else None
  }

  /** The source's disjoint coverage, else its display bounds, else the whole world. */
  function Coverage(source: ChartSource): seq<Box> {
    match source.coverage
    case Some(boxes) => boxes
    case None => [if source.bounds.Some? then source.bounds.value else Box(-180.0, -90.0, 180.0, 90.0)]
  }

  function SplitAll(boxes: seq<Box>): seq<Box> {
    if boxes == [] then [] else SplitBox(boxes[0]) + SplitAll(boxes[1..])
  }

  /** The non-empty intersections of one requested box with each source box. */
  function IntersectAll(request: Box, boxes: seq<Box>): (clips: seq<Box>)
    ensures forall s :: s in boxes && Intersect(request, s).Some? ==> Intersect(request, s).value in clips
    ensures forall c :: c in clips ==> exists s :: s in boxes && Intersect(request, s) == Some(c)
  {
    if boxes == [] then [] else
      assert boxes == [boxes[0]] + boxes[1..];
      match Intersect(request, boxes[0])
      case Some(c) => [c] + IntersectAll(request, boxes[1..])
      case None => IntersectAll(request, boxes[1..])
  }

  function ClipAll(requests: seq<Box>, boxes: seq<Box>): (clips: seq<Box>)
    ensures forall r, s :: r in requests && s in boxes && Intersect(r, s).Some? ==> Intersect(r, s).value in clips
    ensures forall c :: c in clips ==> exists r, s :: r in requests && s in boxes && Intersect(r, s) == Some(c)
  {
    if requests == [] then [] else
      assert requests == [requests[0]] + requests[1..];
      IntersectAll(requests[0], boxes) + ClipAll(requests[1..], boxes)
  }

  /** A box the request parser accepts: a non-zero longitude span that is not a whole turn written backwards,
      and a positive latitude span. */
  predicate Requestable(b: Box) {
    !(b.west == b.east || (b.west > b.east && b.west - b.east == 360.0) || b.south >= b.north)
  }

  function Clips(source: ChartSource, bbox: Box): seq<Box> {
    if !Requestable(bbox) then [] else ClipAll(SplitBox(bbox), SplitAll(Coverage(source)))
  }

  predicate In(b: Box, lng: real, lat: real) {
    b.west <= lng <= b.east && b.south <= lat <= b.north
  }

  /** What a box given by its edges means: one whose west edge is east of its east edge runs from the west edge to
      the antimeridian and from there to the east edge. */
  predicate Holds(b: Box, lng: real, lat: real) {
    && b.south <= lat <= b.north
    && if b.west < b.east then b.west <= lng <= b.east
       else b.west > b.east && (b.west <= lng <= 180.0 || -180.0 <= lng <= b.east)
  }

  /** Strictly inside, away from every edge of the box. The antimeridian is no edge of a box that crosses it. */
  predicate HoldsStrictly(b: Box, lng: real, lat: real) {
    && b.south < lat < b.north
    && if b.west < b.east then b.west < lng < b.east
       else b.west > b.east && (b.west < lng <= 180.0 || -180.0 <= lng < b.east)
  }

  lemma SplitStaysInside(b: Box, r: Box, lng: real, lat: real)
    requires r in SplitBox(b) && In(r, lng, lat)
    ensures Holds(b, lng, lat)
  {
  }

  /** Inside on every side, the antimeridian counting as the inside of a piece that is cut there. */
  predicate Reaches(r: Box, lng: real, lat: real) {
    && r.south < lat < r.north
    && (r.west < lng || r.west == lng == -180.0)
    && (lng < r.east || r.east == lng == 180.0)
  }

  lemma SplitReaches(b: Box, lng: real, lat: real) returns (r: Box)
    requires HoldsStrictly(b, lng, lat)
    ensures r in SplitBox(b) && Reaches(r, lng, lat)
  {
    if b.west < b.east {
      r := b;
    } else {
      var eastern := b.west < lng <= 180.0;
      r := if eastern then b.(east := 180.0) else b.(west := -180.0);
      assert r == SplitBox(b)[if eastern then 0 else 1];
    }
  }

  lemma {:induction false} SplitAllElements(boxes: seq<Box>, r: Box)
    ensures r in SplitAll(boxes) <==> exists b :: b in boxes && r in SplitBox(b)
  {
    if boxes == [] {
    } else {
      SplitAllElements(boxes[1..], r);
      assert boxes == [boxes[0]] + boxes[1..];
    }
  }

  /** Where a source has tiles: its coverage boxes, without them its bounds, without those the world. */
  predicate Covering(source: ChartSource, b: Box) {
    match source.coverage
    case Some(boxes) => b in boxes
    case None => b == if source.bounds.Some? then source.bounds.value else Box(-180.0, -90.0, 180.0, 90.0)
  }

  lemma CoverageIsCovering(source: ChartSource, b: Box)
    ensures b in Coverage(source) <==> Covering(source, b)
  {
  }

  /** Every point of a clip is in the request and in the source's coverage, within the Mercator limits. */
  lemma ClipsStayInTheOverlap(source: ChartSource, bbox: Box, clip: Box, lng: real, lat: real)
    requires clip in Clips(source, bbox) && In(clip, lng, lat)
    ensures Holds(bbox, lng, lat) && -85.0511287798066 <= lat <= 85.0511287798066
    ensures exists b :: Covering(source, b) && Holds(b, lng, lat)
  {
    var r, s :| r in SplitBox(bbox) && s in SplitAll(Coverage(source)) && Intersect(r, s) == Some(clip);
    assert In(r, lng, lat) && In(s, lng, lat);
    SplitStaysInside(bbox, r, lng, lat);
    SplitAllElements(Coverage(source), s);
    var b :| b in Coverage(source) && s in SplitBox(b);
    SplitStaysInside(b, s, lng, lat);
    CoverageIsCovering(source, b);
  }

  /** Every point strictly inside the request, a covering box and the Mercator limits is in a clip, one on the
      antimeridian included. The one request left out runs from an edge a whole turn back to itself. */
  lemma OverlapIsClipped(source: ChartSource, bbox: Box, b: Box, lng: real, lat: real) returns (clip: Box)
    requires bbox.west - bbox.east != 360.0 && Covering(source, b)
    requires HoldsStrictly(bbox, lng, lat) && HoldsStrictly(b, lng, lat)
    requires -85.0511287798066 < lat < 85.0511287798066
    ensures clip in Clips(source, bbox) && In(clip, lng, lat)
  {
    var r := SplitReaches(bbox, lng, lat);
    var s := SplitReaches(b, lng, lat);
    CoverageIsCovering(source, b);
    SplitAllElements(Coverage(source), s);
    clip := Intersect(r, s).value;
  }

  /** A request that is empty, or a whole turn written backwards, has no clip. */
  lemma DegenerateRequestsAreEmpty(source: ChartSource, bbox: Box)
    requires bbox.west == bbox.east || bbox.west - bbox.east == 360.0 || bbox.south >= bbox.north
    ensures Clips(source, bbox) == []
  {
  }

  // ----- covered ranges -----

  function EffectiveMin(source: ChartSource, zmin: nat): nat {
    if zmin < source.minzoom then source.minzoom else zmin
  }

  function EffectiveMax(source: ChartSource, zmax: nat): nat {
    var ceiling := if source.maxzoom < MAX_EFFECTIVE_ZOOM then source.maxzoom else MAX_EFFECTIVE_ZOOM;
    if zmax < ceiling then zmax else ceiling
  }

  /** `y` grows southward, so the north edge has the smaller `y`. */
  function TileRect(merc: real -> real, clip: Box, z: nat): TileRange {
    TileRange(z, TileX(clip.west, z), TileX(clip.east, z), TileY(merc, clip.north, z), TileY(merc, clip.south, z))
  }

  predicate Upright(b: Box) {
    b.west <= b.east && b.south <= b.north
  }

  lemma ClipsAreUpright(source: ChartSource, bbox: Box, clip: Box)
    requires clip in Clips(source, bbox)
    ensures clip.west < clip.east && -MAX_MERCATOR_LAT <= clip.south < clip.north <= MAX_MERCATOR_LAT
  {
    var r, s :| r in SplitBox(bbox) && s in SplitAll(Coverage(source)) && Intersect(r, s) == Some(clip);
  }

  /** A clip's rectangle is proper, inside the grid, and holds the tile of each of the clip's points. */
  lemma RectHoldsItsPoints(merc: real -> real, clip: Box, z: nat, lng: real, lat: real)
    requires Monotone(merc) && Upright(clip) && In(clip, lng, lat)
    ensures Covers(TileRect(merc, clip, z), z, TileX(lng, z), TileY(merc, lat, z))
  {
    IndexMonotone((clip.west + 180.0) / 360.0, (lng + 180.0) / 360.0, z);
    IndexMonotone((lng + 180.0) / 360.0, (clip.east + 180.0) / 360.0, z);
    IndexMonotone((1.0 - merc(ClampLat(clip.north))) / 2.0, (1.0 - merc(ClampLat(lat))) / 2.0, z);
    IndexMonotone((1.0 - merc(ClampLat(lat))) / 2.0, (1.0 - merc(ClampLat(clip.south))) / 2.0, z);
  }

  /** The tiles a warm touches: at an effective zoom, in some clip's rectangle. */
  ghost predicate Wanted(merc: real -> real, source: ChartSource, bbox: Box, zmin: nat, zmax: nat,
                         z: nat, x: nat, y: nat)
  {
    && EffectiveMin(source, zmin) <= z <= EffectiveMax(source, zmax)
    && exists c :: c in Clips(source, bbox) && Covers(TileRect(merc, c, z), z, x, y)
  }

  /** `covered_ranges`: disjoint ranges over exactly the wanted tiles, all inside the grid. */
  method CoveredRanges(merc: real -> real, source: ChartSource, bbox: Box, zmin: nat, zmax: nat)
    returns (ranges: seq<TileRange>)
    requires Monotone(merc)
    ensures Proper(ranges) && AllApart(ranges)
    ensures forall z: nat, x: nat, y: nat ::
              Covered(ranges, z, x, y) <==> Wanted(merc, source, bbox, zmin, zmax, z, x, y)
  {
    var clips := Clips(source, bbox);
    var lo, hi := EffectiveMin(source, zmin), EffectiveMax(source, zmax);
    if lo > hi || clips == [] {
      return [];
    }
    var raw: seq<TileRange> := [];
    for z := lo to hi + 1
      invariant forall r :: r in raw ==> r.y0 <= r.y1
      invariant forall q: nat, x: nat, y: nat :: Covered(raw, q, x, y)
                  <==> lo <= q < z && exists c :: c in clips && Covers(TileRect(merc, c, q), q, x, y)
    {
      var level := RectsAt(merc, source, bbox, z);
      CoveredAppend(raw, level);
      raw := raw + level;
    }
    ranges := DisjointRanges(raw);
  }

  method RectsAt(merc: real -> real, source: ChartSource, bbox: Box, z: nat) returns (rects: seq<TileRange>)
    requires Monotone(merc)
    ensures forall r :: r in rects ==> r.y0 <= r.y1
    ensures forall q: nat, x: nat, y: nat :: Covered(rects, q, x, y)
              <==> q == z && exists c :: c in Clips(source, bbox) && Covers(TileRect(merc, c, q), q, x, y)
  {
    var clips := Clips(source, bbox);
    rects := [];
    for i := 0 to |clips|
      invariant forall r :: r in rects ==> r.y0 <= r.y1
      invariant |rects| == i && forall k :: 0 <= k < i ==> rects[k] == TileRect(merc, clips[k], z)
    {
      ClipsAreUpright(source, bbox, clips[i]);
      RectHoldsItsPoints(merc, clips[i], z, clips[i].west, clips[i].south);
      rects := rects + [TileRect(merc, clips[i], z)];
    }
    assert forall c :: c in clips ==> TileRect(merc, c, z) in rects;
  }

  /** `tiles_iter`: every wanted tile once and nothing else, as many as `tile_count_in_bbox` counts. */
  method TilesInBbox(merc: real -> real, source: ChartSource, bbox: Box, zmin: nat, zmax: nat)
    returns (tiles: seq<Tile>, count: nat)
    requires Monotone(merc)
    ensures forall t: Tile :: t in tiles <==> Wanted(merc, source, bbox, zmin, zmax, t.z, t.x, t.y)
    ensures NoRepeats(tiles) && |tiles| == count == |TileSet(tiles)| && 3 * count + 1 <= 0x4_0000_0000_0000
  {
    var ranges := CoveredRanges(merc, source, bbox, zmin, zmax);
    tiles := Tiles(ranges);
    TilesAreTheCoverage(ranges);
    count := CountTiles(ranges);
    NoRepeatsCardinality(tiles);
    forall r | r in ranges ensures r.z <= MAX_EFFECTIVE_ZOOM && r.x1 < Pow2(r.z) && r.y1 < Pow2(r.z) {
      assert Covers(r, r.z, r.x1, r.y1);
      assert Wanted(merc, source, bbox, zmin, zmax, r.z, r.x1, r.y1);
    }
    CountFits(ranges);
  }

  /** Every point of a clip has its tile enumerated at every effective zoom. */
  lemma PointsAreWanted(merc: real -> real, source: ChartSource, bbox: Box, zmin: nat, zmax: nat,
                        clip: Box, lng: real, lat: real, z: nat)
    requires Monotone(merc) && clip in Clips(source, bbox) && In(clip, lng, lat)
    requires EffectiveMin(source, zmin) <= z <= EffectiveMax(source, zmax)
    ensures Wanted(merc, source, bbox, zmin, zmax, z, TileX(lng, z), TileY(merc, lat, z))
  {
    ClipsAreUpright(source, bbox, clip);
    RectHoldsItsPoints(merc, clip, z, lng, lat);
  }

  /** Every point of a clip lies in the span of some enumerated tile, at each zoom the request, the source and the
      ceiling of 24 allow. */
  lemma PointsHaveATile(merc: real -> real, source: ChartSource, bbox: Box, zmin: nat, zmax: nat,
                        clip: Box, lng: real, lat: real, z: nat) returns (x: nat, y: nat)
    requires Monotone(merc) && clip in Clips(source, bbox) && In(clip, lng, lat)
    requires zmin <= z <= zmax && source.minzoom <= z <= source.maxzoom && z <= 24
    ensures Wanted(merc, source, bbox, zmin, zmax, z, x, y)
    ensures -180.0 <= lng < 180.0 ==>
              var n := Pow2(z) as real;
              -180.0 * n + 360.0 * (x as real) <= lng * n < -180.0 * n + 360.0 * (x as real + 1.0)
    ensures -1.0 < merc(lat) <= 1.0 ==>
              var n := Pow2(z) as real;
              n - 2.0 * (y as real + 1.0) < merc(lat) * n <= n - 2.0 * (y as real)
  {
    x, y := TileX(lng, z), TileY(merc, lat, z);
    PointsAreWanted(merc, source, bbox, zmin, zmax, clip, lng, lat, z);
    ClipsStayInTheOverlap(source, bbox, clip, lng, lat);
    if -180.0 <= lng < 180.0 {
      ColumnHoldsLongitude(lng, z);
    }
    if -1.0 < merc(lat) <= 1.0 {
      RowHoldsLatitude(merc, lat, z);
    }
  }

  /** And no tile is enumerated for nothing: its zoom is one of those, and its span meets a clip's longitudes and
      the ordinates of its latitudes. */
  lemma WantedMeetsAClip(merc: real -> real, source: ChartSource, bbox: Box, zmin: nat, zmax: nat,
                         z: nat, x: nat, y: nat) returns (clip: Box)
    requires Monotone(merc) && Wanted(merc, source, bbox, zmin, zmax, z, x, y)
    ensures zmin <= z <= zmax && source.minzoom <= z <= source.maxzoom && z <= 24
    ensures clip in Clips(source, bbox) && clip.west < clip.east && clip.south < clip.north
    ensures clip.west < 180.0 && -180.0 <= clip.east ==>
              var n := Pow2(z) as real;
              && -180.0 * n + 360.0 * (x as real) <= clip.east * n
              && clip.west * n < -180.0 * n + 360.0 * (x as real + 1.0)
    ensures -1.0 < merc(clip.north) && merc(clip.south) <= 1.0 ==>
              var n := Pow2(z) as real;
              n - 2.0 * (y as real + 1.0) < merc(clip.north) * n && merc(clip.south) * n <= n - 2.0 * (y as real)
  {
    hide Clips, TileX, TileY, Pow2, Upright;
    clip :| clip in Clips(source, bbox) && Covers(TileRect(merc, clip, z), z, x, y);
    ClipsAreUpright(source, bbox, clip);
    if clip.west < 180.0 && -180.0 <= clip.east {
      ColumnsReach(clip.west, clip.east, z, x);
    }
    if -1.0 < merc(clip.north) && merc(clip.south) <= 1.0 {
      RowsReach(merc, clip, z, y);
    }
  }

  /** An index is no further than its fraction reaches, on either side. */
  lemma IndexReaches(fraction: real, z: nat)
    ensures fraction >= 0.0 ==> Index(fraction, z) as real <= fraction * Pow2(z) as real
    ensures fraction < 1.0 ==> fraction * Pow2(z) as real < Index(fraction, z) as real + 1.0
  {
    var n := Pow2(z) as real;
    IndexClamps(fraction, z);
    if 0.0 <= fraction < 1.0 {
      IndexHoldsFraction(fraction, z);
    } else if fraction >= 1.0 {
      ScaleMonotone(1.0, fraction, n);
    } else {
      ScaleMonotone(fraction, 0.0, n);
    }
  }

  lemma ColumnReaches(lng: real, z: nat) returns (scaled: real)
    ensures 360.0 * scaled == lng * Pow2(z) as real + 180.0 * Pow2(z) as real
    ensures -180.0 <= lng ==> TileX(lng, z) as real <= scaled
    ensures lng < 180.0 ==> scaled < TileX(lng, z) as real + 1.0
  {
    hide Index;
    var fraction := (lng + 180.0) / 360.0;
    scaled := fraction * Pow2(z) as real;
    IndexReaches(fraction, z);
    ShiftedScale(fraction, lng, Pow2(z) as real);
  }

  lemma ColumnsReach(west: real, east: real, z: nat, x: nat)
    requires west < 180.0 && -180.0 <= east && TileX(west, z) <= x <= TileX(east, z)
    ensures var n := Pow2(z) as real;
            -180.0 * n + 360.0 * (x as real) <= east * n && west * n < -180.0 * n + 360.0 * (x as real + 1.0)
  {
    hide TileX, Pow2;
    var w := ColumnReaches(west, z);
    var e := ColumnReaches(east, z);
    ColumnBounds(x as real, Pow2(z) as real, w, e, west * Pow2(z) as real, east * Pow2(z) as real);
  }

  lemma ColumnBounds(x: real, n: real, w: real, e: real, west: real, east: real)
    requires 360.0 * w == west + 180.0 * n && 360.0 * e == east + 180.0 * n && w < x + 1.0 && x <= e
    ensures -180.0 * n + 360.0 * x <= east && west < -180.0 * n + 360.0 * (x + 1.0)
  {
  }

  lemma ShiftedScale(fraction: real, lng: real, n: real)
    requires fraction == (lng + 180.0) / 360.0
    ensures 360.0 * (fraction * n) == lng * n + 180.0 * n
  {
    assert 360.0 * fraction == lng + 180.0;
    assert 360.0 * (fraction * n) == (360.0 * fraction) * n;
  }

  lemma RowReaches(merc: real -> real, lat: real, z: nat) returns (scaled: real)
    requires -MAX_MERCATOR_LAT <= lat <= MAX_MERCATOR_LAT
    ensures 2.0 * scaled == Pow2(z) as real - merc(lat) * Pow2(z) as real
    ensures merc(lat) <= 1.0 ==> TileY(merc, lat, z) as real <= scaled
    ensures -1.0 < merc(lat) ==> scaled < TileY(merc, lat, z) as real + 1.0
  {
    hide Index;
    var fraction := (1.0 - merc(lat)) / 2.0;
    scaled := fraction * Pow2(z) as real;
    IndexReaches(fraction, z);
    MirroredScale(fraction, merc(lat), Pow2(z) as real);
  }

  lemma RowsReach(merc: real -> real, clip: Box, z: nat, y: nat)
    requires -MAX_MERCATOR_LAT <= clip.south <= clip.north <= MAX_MERCATOR_LAT
    requires -1.0 < merc(clip.north) && merc(clip.south) <= 1.0
    requires TileY(merc, clip.north, z) <= y <= TileY(merc, clip.south, z)
    ensures var n := Pow2(z) as real;
            n - 2.0 * (y as real + 1.0) < merc(clip.north) * n && merc(clip.south) * n <= n - 2.0 * (y as real)
  {
    hide TileY, Pow2;
    var n := Pow2(z) as real;
    var top := RowReaches(merc, clip.north, z);
    var bottom := RowReaches(merc, clip.south, z);
    RowBounds(y as real, n, top, bottom, merc(clip.north) * n, merc(clip.south) * n);
  }

  lemma RowBounds(y: real, n: real, top: real, bottom: real, north: real, south: real)
    requires 2.0 * top == n - north && 2.0 * bottom == n - south && top < y + 1.0 && y <= bottom
    ensures n - 2.0 * (y + 1.0) < north && south <= n - 2.0 * y
  {
  }

  lemma MirroredScale(fraction: real, ordinate: real, n: real)
    requires fraction == (1.0 - ordinate) / 2.0
    ensures 2.0 * (fraction * n) == n - ordinate * n
  {
    assert 2.0 * fraction == 1.0 - ordinate;
    assert 2.0 * (fraction * n) == (2.0 * fraction) * n;
  }

  lemma ChildWithin(lo: nat, hi: nat, n: nat) returns (child: nat)
    requires lo <= hi && lo / 2 <= n <= hi / 2
    ensures lo <= child <= hi && child / 2 == n
  {
    child := if 2 * n < lo then lo else 2 * n;
  }

  /** A clip's rectangle at one zoom is its rectangle at the next with every edge halved. */
  lemma RectHalves(merc: real -> real, c: Box, z: nat)
    ensures var r := TileRect(merc, c, z + 1);
            TileRect(merc, c, z) == TileRange(z, r.x0 / 2, r.x1 / 2, r.y0 / 2, r.y1 / 2)
  {
    IndexHalves((c.west + 180.0) / 360.0, z);
    IndexHalves((c.east + 180.0) / 360.0, z);
    IndexHalves((1.0 - merc(ClampLat(c.north))) / 2.0, z);
    IndexHalves((1.0 - merc(ClampLat(c.south))) / 2.0, z);
  }

  lemma WantedChild(merc: real -> real, source: ChartSource, bbox: Box, zmin: nat, zmax: nat, z: nat, x: nat, y: nat)
    returns (childX: nat, childY: nat)
    requires Monotone(merc) && z + 1 <= EffectiveMax(source, zmax)
    requires Wanted(merc, source, bbox, zmin, zmax, z, x, y)
    ensures childX / 2 == x && childY / 2 == y
    ensures Wanted(merc, source, bbox, zmin, zmax, z + 1, childX, childY)
  {
    var c :| c in Clips(source, bbox) && Covers(TileRect(merc, c, z), z, x, y);
    ClipsAreUpright(source, bbox, c);
    childX, childY := RectChild(merc, c, z, x, y);
  }

  lemma RectChild(merc: real -> real, c: Box, z: nat, x: nat, y: nat) returns (childX: nat, childY: nat)
    requires Monotone(merc) && Upright(c) && Covers(TileRect(merc, c, z), z, x, y)
    ensures childX / 2 == x && childY / 2 == y
    ensures Covers(TileRect(merc, c, z + 1), z + 1, childX, childY)
  {
    var r := TileRect(merc, c, z + 1);
    RectHoldsItsPoints(merc, c, z + 1, c.west, c.south);
    RectHalves(merc, c, z);
    childX := ChildWithin(r.x0, r.x1, x);
    childY := ChildWithin(r.y0, r.y1, y);
  }

  lemma WantedParent(merc: real -> real, source: ChartSource, bbox: Box, zmin: nat, zmax: nat, z: nat, x: nat, y: nat)
    requires EffectiveMin(source, zmin) <= z && Wanted(merc, source, bbox, zmin, zmax, z + 1, x, y)
    ensures Wanted(merc, source, bbox, zmin, zmax, z, x / 2, y / 2)
  {
    var c :| c in Clips(source, bbox) && Covers(TileRect(merc, c, z + 1), z + 1, x, y);
    RectHalves(merc, c, z);
    assert Covers(TileRect(merc, c, z), z, x / 2, y / 2);
  }

  /** The tiles at one zoom are exactly the parents of the tiles at the next, when both are in range. */
  lemma ParentsAreWanted(merc: real -> real, source: ChartSource, bbox: Box, zmin: nat, zmax: nat,
                         z: nat, x: nat, y: nat)
    requires Monotone(merc)
    requires EffectiveMin(source, zmin) <= z && z + 1 <= EffectiveMax(source, zmax)
    ensures Wanted(merc, source, bbox, zmin, zmax, z, x, y)
       <==> exists childX: nat, childY: nat ::
              && Wanted(merc, source, bbox, zmin, zmax, z + 1, childX, childY)
              && childX / 2 == x && childY / 2 == y
  {
    if Wanted(merc, source, bbox, zmin, zmax, z, x, y) {
      var childX, childY := WantedChild(merc, source, bbox, zmin, zmax, z, x, y);
    }
    if childX: nat, childY: nat :| Wanted(merc, source, bbox, zmin, zmax, z + 1, childX, childY)
                                  && childX / 2 == x && childY / 2 == y {
      WantedParent(merc, source, bbox, zmin, zmax, z, childX, childY);
    }
  }
}
