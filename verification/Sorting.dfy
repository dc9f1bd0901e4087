/** The library sorts the enumerator calls. Callers rely on their contracts alone. */
module Sorting {
  ghost predicate TotalPreorder<T(!new)>(le: (T, T) -> bool) {
    && (forall a, b :: le(a, b) || le(b, a))
    && (forall a, b, c :: le(a, b) && le(b, c) ==> le(a, c))
  }

  ghost predicate Sorted<T>(s: seq<T>, le: (T, T) -> bool) {
    forall i, j :: 0 <= i < j < |s| ==> le(s[i], s[j])
  }

  /** Where `x` goes: after every element it is not before. */
  function Position<T(!new)>(x: T, s: seq<T>, le: (T, T) -> bool, from: nat): (p: nat)
    requires from <= |s|
    ensures from <= p <= |s|
    ensures forall i :: from <= i < p ==> !le(x, s[i])
    ensures p < |s| ==> le(x, s[p])
    decreases |s| - from
  {
    if from == |s| || le(x, s[from]) then from else Position(x, s, le, from + 1)
  }

  lemma PositionSplits<T(!new)>(x: T, s: seq<T>, le: (T, T) -> bool, p: nat)
    requires TotalPreorder(le) && Sorted(s, le) && p == Position(x, s, le, 0)
    ensures forall i :: 0 <= i < p ==> le(s[i], x)
    ensures forall i :: p <= i < |s| ==> le(x, s[i])
  {
    forall i | p <= i < |s| ensures le(x, s[i]) {
      assert i > p ==> le(s[p], s[i]);
    }
  }

  lemma InsertAt<T>(x: T, s: seq<T>, le: (T, T) -> bool, p: nat)
    requires Sorted(s, le) && p <= |s|
    requires forall i :: 0 <= i < p ==> le(s[i], x)
    requires forall i :: p <= i < |s| ==> le(x, s[i])
    ensures Sorted(s[..p] + [x] + s[p..], le)
    ensures multiset(s[..p] + [x] + s[p..]) == multiset(s) + multiset{x}
  {
    var r := s[..p] + [x] + s[p..];
    assert s == s[..p] + s[p..];
    forall i, j | 0 <= i < j < |r| ensures le(r[i], r[j]) {
      assert i != p ==> r[i] == s[if i < p then i else i - 1];
      assert j != p ==> r[j] == s[if j < p then j else j - 1];
    }
  }

  /** `sort_unstable_by_key`: in order, and a permutation. */
  function SortBy<T(!new)>(s: seq<T>, le: (T, T) -> bool): (r: seq<T>)
    requires TotalPreorder(le)
    ensures Sorted(r, le) && multiset(r) == multiset(s)
  {
    if s == [] then [] else
      var rest := SortBy(s[1..], le);
      var p := Position(s[0], rest, le, 0);
      PositionSplits(s[0], rest, le, p);
      InsertAt(s[0], rest, le, p);
      assert s == [s[0]] + s[1..];
      rest[..p] + [s[0]] + rest[p..]
  }

  lemma SameElements<T>(a: seq<T>, b: seq<T>)
    requires multiset(a) == multiset(b)
    ensures |a| == |b| && forall x :: x in a <==> x in b
  {
    assert |multiset(a)| == |multiset(b)|;
    forall x ensures x in a <==> x in b {
      assert x in a <==> x in multiset(a);
      assert x in b <==> x in multiset(b);
    }
  }

  ghost predicate Ascending(s: seq<nat>) {
    forall i, j :: 0 <= i < j < |s| ==> s[i] < s[j]
  }

  /** Insert unless present: what sorting and then `dedup` make of one more element. */
  function InsertNew(n: nat, s: seq<nat>): (r: seq<nat>)
    requires Ascending(s)
    ensures Ascending(r) && forall m :: m in r <==> m == n || m in s
  {
    if s == [] || n < s[0] then [n] + s
    else if n == s[0] then s
    else
      var rest := InsertNew(n, s[1..]);
      assert s == [s[0]] + s[1..];
      assert forall i :: 0 <= i < |rest| ==> rest[i] in rest;
      [s[0]] + rest
  }

  /** `sort_unstable` then `dedup`. */
  function SortDedup(s: seq<nat>): (r: seq<nat>)
    ensures Ascending(r) && forall n :: n in r <==> n in s
  {
    if s == [] then [] else InsertNew(s[0], SortDedup(s[1..]))
  }
}
