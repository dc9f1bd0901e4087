/** The sweep that turns possibly overlapping tile rectangles into disjoint ones. */
module TileRanges {
  import opened Wrappers
  import opened Sorting

  /** An inclusive rectangle of tiles at one zoom. */
  datatype TileRange = TileRange(z: nat, x0: nat, x1: nat, y0: nat, y1: nat)

  predicate Covers(r: TileRange, z: nat, x: nat, y: nat) {
    r.z == z && r.x0 <= x <= r.x1 && r.y0 <= y <= r.y1
  }

  /** The tile is in the union of the rectangles. */
  ghost predicate Covered(rs: seq<TileRange>, z: nat, x: nat, y: nat) {
    exists r :: r in rs && Covers(r, z, x, y)
  }

  lemma CoveredAppend(a: seq<TileRange>, b: seq<TileRange>)
    ensures forall z: nat, x: nat, y: nat :: Covered(a + b, z, x, y) <==> Covered(a, z, x, y) || Covered(b, z, x, y)
  {
  }

  predicate Apart(a: TileRange, b: TileRange) {
    a.z != b.z || a.x1 < b.x0 || b.x1 < a.x0 || a.y1 < b.y0 || b.y1 < a.y0
  }

  /** No rectangle occurs twice, and different ones are apart. */
  ghost predicate AllApart(rs: seq<TileRange>) {
    forall i, j :: 0 <= i < j < |rs| ==> Apart(rs[i], rs[j])
  }

  ghost predicate Proper(rs: seq<TileRange>) {
    forall r :: r in rs ==> r.x0 <= r.x1 && r.y0 <= r.y1
  }

  /** Apart rectangles share no tile, so each covered tile lies in exactly one of them. */
  lemma ApartShareNoTile(rs: seq<TileRange>, i: nat, j: nat, z: nat, x: nat, y: nat)
    requires AllApart(rs) && i < j < |rs|
    ensures !(Covers(rs[i], z, x, y) && Covers(rs[j], z, x, y))
  {
    assert Apart(rs[i], rs[j]);
  }

  // ----- one slab -----

  datatype Interval = Interval(lo: nat, hi: nat)

  ghost predicate Within(ivs: seq<Interval>, y: nat) {
    exists i :: i in ivs && i.lo <= y <= i.hi
  }

  ghost predicate WithinFirst(ivs: seq<Interval>, n: nat, y: nat)
    requires n <= |ivs|
  {
    exists i :: 0 <= i < n && ivs[i].lo <= y <= ivs[i].hi
  }

  predicate LoOrder(a: Interval, b: Interval) {
    a.lo <= b.lo
  }

  ghost predicate InSlab(rs: seq<TileRange>, z: nat, x0: nat, x1: nat) {
    forall r :: r in rs ==> r.z == z && r.x0 == x0 && r.x1 == x1 && r.y0 <= r.y1
  }

  /** Ascending with at least one free row between neighbours. */
  ghost predicate Gapped(rs: seq<TileRange>) {
    forall i, j :: 0 <= i < j < |rs| ==> rs[i].y1 + 1 < rs[j].y0
  }

  /** Merge a slab's intervals, sorted by their low end, into rectangles with gaps between them. */
  method MergeSlab(z: nat, x0: nat, x1: nat, intervals: seq<Interval>) returns (out: seq<TileRange>)
    requires Sorted(intervals, LoOrder) && x0 <= x1
    requires forall i :: i in intervals ==> i.lo <= i.hi
    ensures InSlab(out, z, x0, x1) && Gapped(out)
    ensures forall y: nat :: Covered(out, z, x0, y) <==> Within(intervals, y)
  {
    out := [];
    var current: Option<Interval> := None;
    for k := 0 to |intervals|
      invariant InSlab(out, z, x0, x1) && Gapped(out)
      invariant current.None? ==> k == 0 && out == []
      invariant current.Some? ==>
                  && current.value.lo <= current.value.hi
                  && (forall j :: k <= j < |intervals| ==> current.value.lo <= intervals[j].lo)
                  && (forall r :: r in out ==> r.y1 + 1 < current.value.lo)
      invariant forall y: nat :: WithinFirst(intervals, k, y)
                       <==> Covered(out, z, x0, y) || (current.Some? && current.value.lo <= y <= current.value.hi)
    {
      var interval := intervals[k];
      ghost var next := k + 1;
      assert forall y: nat :: WithinFirst(intervals, next, y)
                         <==> WithinFirst(intervals, k, y) || interval.lo <= y <= interval.hi;
      match current
      case None =>
        current := Some(interval);
      case Some(iv) =>
        if interval.lo <= iv.hi + 1 {
          current := Some(Interval(iv.lo, if iv.hi < interval.hi then interval.hi else iv.hi));
        } else {
          var done := TileRange(z, x0, x1, iv.lo, iv.hi);
          CoveredPush(out, done);
          out := out + [done];
          current := Some(interval);
        }
    }
    assert forall y: nat :: WithinFirst(intervals, |intervals|, y) <==> Within(intervals, y);
    if current.Some? {
      var last := TileRange(z, x0, x1, current.value.lo, current.value.hi);
      CoveredPush(out, last);
      out := out + [last];
    }
  }

  lemma CoveredPush(rs: seq<TileRange>, r: TileRange)
    ensures forall z: nat, x: nat, y: nat :: Covered(rs + [r], z, x, y) <==> Covered(rs, z, x, y) || Covers(r, z, x, y)
  {
    assert r in rs + [r];
  }

  // ----- slabs of one zoom -----

  /** The y intervals of the ranges that span a whole slab. */
  function Spanning(rs: seq<TileRange>, x0: nat, x1: nat): (ivs: seq<Interval>)
    ensures forall i :: i in ivs ==> exists r :: r in rs && r.x0 <= x0 && r.x1 >= x1 && i == Interval(r.y0, r.y1)
    ensures forall r :: r in rs && r.x0 <= x0 && r.x1 >= x1 ==> Interval(r.y0, r.y1) in ivs
  {
    if rs == [] then [] else
      var rest := Spanning(rs[1..], x0, x1);
      assert rs == [rs[0]] + rs[1..];
      if rs[0].x0 <= x0 && rs[0].x1 >= x1 then [Interval(rs[0].y0, rs[0].y1)] + rest else rest
  }

  function Boundaries(rs: seq<TileRange>): (bs: seq<nat>)
    ensures forall r :: r in rs ==> r.x0 in bs && r.x1 + 1 in bs
  {
    if rs == [] then [] else [rs[0].x0, rs[0].x1 + 1] + Boundaries(rs[1..])
  }

  /** A rectangle either covers a whole slab or misses it: its edges are boundaries, and no boundary falls
      inside a slab. */
  lemma SlabAllOrNothing(r: TileRange, bs: seq<nat>, p: nat, x: nat)
    requires Ascending(bs) && p + 1 < |bs| && r.x0 in bs && r.x1 + 1 in bs
    requires bs[p] <= x < bs[p + 1]
    ensures r.x0 <= x <= r.x1 <==> r.x0 <= bs[p] && r.x1 >= bs[p + 1] - 1
  {
    var i :| 0 <= i < |bs| && bs[i] == r.x0;
    var j :| 0 <= j < |bs| && bs[j] == r.x1 + 1;
    assert i > p ==> bs[p + 1] <= bs[i];
    assert j <= p ==> bs[j] <= bs[p];
  }

  ghost predicate OneZoom(rs: seq<TileRange>, z: nat) {
    forall r :: r in rs ==> r.z == z && r.y0 <= r.y1
  }

  /** In the slab between two boundaries, the spanning ranges' intervals are the whole coverage. */
  lemma SpanningIsCoverage(rs: seq<TileRange>, z: nat, bs: seq<nat>, p: nat, x: nat, y: nat)
    requires OneZoom(rs, z) && Ascending(bs) && p + 1 < |bs| && bs[p] <= x < bs[p + 1]
    requires forall r :: r in rs ==> r.x0 in bs && r.x1 + 1 in bs
    ensures Within(Spanning(rs, bs[p], bs[p + 1] - 1), y) <==> Covered(rs, z, x, y)
  {
    var ivs := Spanning(rs, bs[p], bs[p + 1] - 1);
    if i :| i in ivs && i.lo <= y <= i.hi {
      var r :| r in rs && r.x0 <= bs[p] && r.x1 >= bs[p + 1] - 1 && i == Interval(r.y0, r.y1);
      assert Covers(r, z, x, y);
    }
    if r :| r in rs && Covers(r, z, x, y) {
      SlabAllOrNothing(r, bs, p, x);
      assert Interval(r.y0, r.y1) in ivs;
    }
  }

  lemma SlabIsUniform(slab: seq<TileRange>, z: nat, x0: nat, x1: nat, x: nat, y: nat)
    requires InSlab(slab, z, x0, x1) && x0 <= x1
    ensures Covered(slab, z, x, y) <==> x0 <= x <= x1 && Covered(slab, z, x0, y)
  {
    if r :| r in slab && Covers(r, z, x, y) {
      assert Covers(r, z, x0, y);
    }
    if r :| r in slab && Covers(r, z, x0, y) {
      assert x <= x1 && x0 <= x ==> Covers(r, z, x, y);
    }
  }

  lemma SlabCoverage(rs: seq<TileRange>, z: nat, bs: seq<nat>, p: nat, slab: seq<TileRange>)
    requires OneZoom(rs, z) && Ascending(bs) && p + 1 < |bs|
    requires forall r :: r in rs ==> r.x0 in bs && r.x1 + 1 in bs
    requires InSlab(slab, z, bs[p], bs[p + 1] - 1)
    requires forall y: nat :: Covered(slab, z, bs[p], y) <==> Within(Spanning(rs, bs[p], bs[p + 1] - 1), y)
    ensures forall x: nat, y: nat :: Covered(slab, z, x, y) <==> bs[p] <= x < bs[p + 1] && Covered(rs, z, x, y)
  {
    forall x: nat, y: nat
      ensures Covered(slab, z, x, y) <==> bs[p] <= x < bs[p + 1] && Covered(rs, z, x, y)
    {
      SlabIsUniform(slab, z, bs[p], bs[p + 1] - 1, x, y);
      if bs[p] <= x < bs[p + 1] {
        SpanningIsCoverage(rs, z, bs, p, x, y);
      }
    }
  }

  /** One slab: the spanning intervals, sorted and merged. */
  method SweepSlab(rs: seq<TileRange>, z: nat, bs: seq<nat>, p: nat) returns (slab: seq<TileRange>)
    requires OneZoom(rs, z) && Ascending(bs) && p + 1 < |bs|
    requires forall r :: r in rs ==> r.x0 in bs && r.x1 + 1 in bs
    ensures InSlab(slab, z, bs[p], bs[p + 1] - 1) && Gapped(slab)
    ensures forall x: nat, y: nat :: Covered(slab, z, x, y) <==> bs[p] <= x < bs[p + 1] && Covered(rs, z, x, y)
  {
    var intervals := Spanning(rs, bs[p], bs[p + 1] - 1);
    var ordered := SortBy(intervals, LoOrder);
    SameElements(intervals, ordered);
    slab := MergeSlab(z, bs[p], bs[p + 1] - 1, ordered);
    SlabCoverage(rs, z, bs, p, slab);
  }

  /** A slab to the right of everything so far stays apart from it. */
  lemma SlabAppends(out: seq<TileRange>, slab: seq<TileRange>, z: nat, x0: nat, x1: nat)
    requires Proper(out) && AllApart(out) && (forall r :: r in out ==> r.z == z && r.x1 < x0)
    requires InSlab(slab, z, x0, x1) && Gapped(slab) && x0 <= x1
    ensures Proper(out + slab) && AllApart(out + slab)
    ensures forall r :: r in out + slab ==> r.z == z && r.x1 < x1 + 1
  {
    var all := out + slab;
    forall i, j | 0 <= i < j < |all| ensures Apart(all[i], all[j]) {
      if i < |out| <= j {
        assert out[i] in out && slab[j - |out|] in slab;
      }
    }
  }

  /** All slabs of one zoom. */
  method SweepZoom(rs: seq<TileRange>, z: nat) returns (out: seq<TileRange>)
    requires OneZoom(rs, z)
    ensures Proper(out) && AllApart(out) && forall r :: r in out ==> r.z == z
    ensures forall x: nat, y: nat :: Covered(out, z, x, y) <==> Covered(rs, z, x, y)
  {
    hide Covered, AllApart, Apart, Gapped, InSlab, Proper;
    var bs := SortDedup(Boundaries(rs));
    out := NothingSwept();
    var p := 0;
    while p + 1 < |bs|
      invariant p == 0 || p < |bs|
      invariant Proper(out) && AllApart(out)
      invariant forall r :: r in out ==> r.z == z && |bs| > 0 && r.x1 < bs[p]
      invariant forall x: nat, y: nat :: Covered(out, z, x, y)
                          <==> |bs| > 0 && bs[0] <= x < bs[p] && Covered(rs, z, x, y)
      decreases |bs| - p
    {
      var slab := SweepSlab(rs, z, bs, p);
      SlabAppends(out, slab, z, bs[p], bs[p + 1] - 1);
      CoveredAppend(out, slab);
      out := out + slab;
      p := p + 1;
    }
    forall x: nat, y: nat | Covered(rs, z, x, y)
      ensures |bs| > 0 && bs[0] <= x < bs[p]
    {
      CoverageIsBounded(rs, bs, z, x, y);
    }
  }

  /** The empty list covers nothing. */
  function NothingSwept(): (rs: seq<TileRange>)
    ensures rs == [] && Proper(rs) && AllApart(rs)
    ensures forall z: nat, x: nat, y: nat :: !Covered(rs, z, x, y)
  {
    []
  }

  lemma CoverageIsBounded(rs: seq<TileRange>, bs: seq<nat>, z: nat, x: nat, y: nat)
    requires Ascending(bs) && Covered(rs, z, x, y)
    requires forall r :: r in rs ==> r.x0 in bs && r.x1 + 1 in bs
    ensures |bs| > 0 && bs[0] <= x < bs[|bs| - 1]
  {
    var r :| r in rs && Covers(r, z, x, y);
    BoundedBy(bs, r.x0);
    BoundedBy(bs, r.x1 + 1);
  }

  lemma BoundedBy(bs: seq<nat>, b: nat)
    requires Ascending(bs) && b in bs
    ensures |bs| > 0 && bs[0] <= b <= bs[|bs| - 1]
  {
    var i :| 0 <= i < |bs| && bs[i] == b;
  }

  // ----- every zoom -----

  function AtZoom(rs: seq<TileRange>, z: nat): (out: seq<TileRange>)
    ensures forall r :: r in out <==> r in rs && r.z == z
  {
    if rs == [] then [] else
      assert rs == [rs[0]] + rs[1..];
      if rs[0].z == z then [rs[0]] + AtZoom(rs[1..], z) else AtZoom(rs[1..], z)
  }

  function Zooms(rs: seq<TileRange>): (zs: seq<nat>)
    ensures forall r :: r in rs ==> r.z in zs
  {
    if rs == [] then [] else [rs[0].z] + Zooms(rs[1..])
  }

  predicate RangeOrder(a: TileRange, b: TileRange) {
    a.z < b.z || (a.z == b.z && (a.x0 < b.x0 || (a.x0 == b.x0 && a.y0 <= b.y0)))
  }

  lemma {:induction false} ApartSurvivesSorting(a: seq<TileRange>, b: seq<TileRange>)
    requires AllApart(a) && Proper(a) && multiset(a) == multiset(b)
    ensures AllApart(b) && Proper(b)
  {
    SameElements(a, b);
    forall i, j | 0 <= i < j < |b|
      ensures Apart(b[i], b[j])
    {
      if b[i] == b[j] {
        TwiceIn(b, i, j);
        var k, l := TwiceAt(a, b[i]);
      } else {
        var k :| 0 <= k < |a| && a[k] == b[i];
        assert b[j] in b;
        var l :| 0 <= l < |a| && a[l] == b[j];
        assert k < l || l < k;
      }
    }
  }

  lemma TwiceIn(b: seq<TileRange>, i: nat, j: nat)
    requires i < j < |b| && b[i] == b[j]
    ensures multiset(b)[b[i]] >= 2
  {
    assert b == b[..j] + [b[j]] + b[j + 1..];
    assert b[i] in b[..j];
  }

  lemma {:induction false} TwiceAt(a: seq<TileRange>, r: TileRange) returns (k: nat, l: nat)
    requires multiset(a)[r] >= 2
    ensures k < l < |a| && a[k] == a[l] == r
  {
    var front := a[..|a| - 1];
    assert a == front + [a[|a| - 1]];
    if a[|a| - 1] == r {
      l := |a| - 1;
      assert r in front;
      k :| 0 <= k < |front| && front[k] == r;
    } else {
      k, l := TwiceAt(front, r);
    }
  }

  /** `disjoint_ranges`: the rectangles of the result are pairwise disjoint, in order, and cover exactly the
      tiles the given ones cover. */
  method DisjointRanges(ranges: seq<TileRange>) returns (out: seq<TileRange>)
    requires forall r :: r in ranges ==> r.y0 <= r.y1
    ensures Proper(out) && AllApart(out)
    ensures forall i, j :: 0 <= i < j < |out| ==>
              || out[i].z < out[j].z
              || (out[i].z == out[j].z && out[i].x0 < out[j].x0)
              || (out[i].z == out[j].z && out[i].x0 == out[j].x0 && out[i].y0 <= out[j].y0)
    ensures forall z: nat, x: nat, y: nat :: Covered(out, z, x, y) <==> Covered(ranges, z, x, y)
  {
    var zooms := SortDedup(Zooms(ranges));
    var swept: seq<TileRange> := [];
    for i := 0 to |zooms|
      invariant Proper(swept) && AllApart(swept)
      invariant forall r :: r in swept ==> r.z in zooms[..i]
      invariant forall z: nat, x: nat, y: nat ::
                  Covered(swept, z, x, y) <==> z in zooms[..i] && Covered(ranges, z, x, y)
    {
      var z := zooms[i];
      var zoomRanges := AtZoom(ranges, z);
      var level := SweepZoom(zoomRanges, z);
      CoveredAppend(swept, level);
      assert zooms[..i + 1] == zooms[..i] + [z];
      swept := swept + level;
    }
    assert zooms[..|zooms|] == zooms;
    out := SortBy(swept, RangeOrder);
    SameElements(swept, out);
    ApartSurvivesSorting(swept, out);
  }
}
