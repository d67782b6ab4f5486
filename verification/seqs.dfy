/**
 * Sequence utilities shared by the resolver model: the "first element that
 * satisfies p" scan behind every `for ...: if ...: return` loop of the source,
 * its "last element" counterpart, filtering, bounded prefixes, and the
 * order-preserving de-duplication the source writes as
 * `if x not in acc: acc.append(x)`.
 */
module Seqs {
  import opened Wrappers

  /** No value occurs twice. */
  predicate Distinct<T(==)>(xs: seq<T>)
  {
    forall i, j :: 0 <= i < j < |xs| ==> xs[i] != xs[j]
  }

  /** `xs[k]` is the first element satisfying `p`. */
  predicate FirstWhere<T>(xs: seq<T>, p: T -> bool, k: int)
  {
    0 <= k < |xs| && p(xs[k]) && forall j :: 0 <= j < k ==> !p(xs[j])
  }

  /** `xs[k]` is the last element satisfying `p`. */
  predicate LastWhere<T>(xs: seq<T>, p: T -> bool, k: int)
  {
    0 <= k < |xs| && p(xs[k]) && forall j :: k < j < |xs| ==> !p(xs[j])
  }

  /** There is at most one first match. */
  lemma FirstWhereUnique<T>(xs: seq<T>, p: T -> bool, k: int)
    requires FirstWhere(xs, p, k)
    ensures forall j :: FirstWhere(xs, p, j) ==> j == k
  {
  }

  /** There is at most one last match. */
  lemma LastWhereUnique<T>(xs: seq<T>, p: T -> bool, k: int)
    requires LastWhere(xs, p, k)
    ensures forall j :: LastWhere(xs, p, j) ==> j == k
  {
  }

  /** A sequence without repeats whose elements all equal `x` has at most one element. */
  lemma DistinctSingleValue<T>(xs: seq<T>, x: T)
    requires Distinct(xs)
    requires forall i :: 0 <= i < |xs| ==> xs[i] == x
    ensures |xs| <= 1
  {
    DistinctHeads(xs);
  }

  /** The first two elements of a sequence without repeats differ. */
  lemma DistinctHeads<T>(xs: seq<T>)
    requires Distinct(xs)
    ensures |xs| >= 2 ==> xs[0] != xs[1]
  {
  }

  /** Two different members need two places. */
  lemma TwoMembers<T>(xs: seq<T>, a: T, b: T)
    requires a in xs && b in xs && a != b
    ensures |xs| >= 2
  {
    var i :| 0 <= i < |xs| && xs[i] == a;
    var j :| 0 <= j < |xs| && xs[j] == b;
    assert i != j;
  }

  /** Index of the first element satisfying `p`, if any. */
  function Find<T>(xs: seq<T>, p: T -> bool): (r: Option<nat>)
    ensures r.Some? ==> FirstWhere(xs, p, r.value)
    ensures r.None? <==> forall j :: 0 <= j < |xs| ==> !p(xs[j])
  {
    if xs == [] then None
    else if p(xs[0]) then Some(0)
    else
      match Find(xs[1..], p)
      case None =>
        assert forall j :: 1 <= j < |xs| ==> xs[j] == xs[1..][j - 1];
        None
      case Some(k) =>
        assert forall j :: 1 <= j <= k ==> xs[j] == xs[1..][j - 1];
        Some(k + 1)
  }

  /** Index of the last element satisfying `p`, if any. */
  function FindLast<T>(xs: seq<T>, p: T -> bool): (r: Option<nat>)
    ensures r.Some? ==> LastWhere(xs, p, r.value)
    ensures r.None? <==> forall j :: 0 <= j < |xs| ==> !p(xs[j])
  {
    if xs == [] then None
    else if p(xs[|xs| - 1]) then Some(|xs| - 1)
    else
      match FindLast(xs[..|xs| - 1], p)
      case None =>
        assert forall j :: 0 <= j < |xs| - 1 ==> xs[j] == xs[..|xs| - 1][j];
        None
      case Some(k) =>
        assert forall j :: k < j < |xs| - 1 ==> xs[j] == xs[..|xs| - 1][j];
        Some(k)
  }

  /** `f` of the first element satisfying `p`, if any. */
  function FirstMap<T, U>(xs: seq<T>, p: T -> bool, f: T -> U): (r: Option<U>)
    ensures r.None? <==> forall j :: 0 <= j < |xs| ==> !p(xs[j])
    ensures r.Some? ==> exists k :: FirstWhere(xs, p, k) && r.value == f(xs[k])
  {
    match Find(xs, p)
    case None => None
    case Some(k) => Some(f(xs[k]))
  }

  /** `f` of the last element satisfying `p`, if any. */
  function LastMap<T, U>(xs: seq<T>, p: T -> bool, f: T -> U): (r: Option<U>)
    ensures r.None? <==> forall j :: 0 <= j < |xs| ==> !p(xs[j])
    ensures r.Some? ==> exists k :: LastWhere(xs, p, k) && r.value == f(xs[k])
  {
    match FindLast(xs, p)
    case None => None
    case Some(k) => Some(f(xs[k]))
  }

  /** One step of the first-match scan: the head decides, or the scan moves on to the tail. */
  lemma FirstMapStep<T, U>(xs: seq<T>, p: T -> bool, f: T -> U)
    requires |xs| > 0
    ensures FirstMap(xs, p, f) == if p(xs[0]) then Some(f(xs[0])) else FirstMap(xs[1..], p, f)
  {
    if !p(xs[0]) {
      match Find(xs[1..], p)
      case None =>
      case Some(k) =>
        assert FirstWhere(xs, p, k + 1);
        assert Find(xs, p) == Some(k + 1);
    }
  }

  /** The elements satisfying `p`, in their original order. */
  function Filter<T(!new)>(xs: seq<T>, p: T -> bool): (r: seq<T>)
    ensures |r| <= |xs|
    ensures forall i :: 0 <= i < |r| ==> p(r[i])
    ensures forall x :: x in r <==> x in xs && p(x)
  {
    if xs == [] then []
    else if p(xs[0]) then [xs[0]] + Filter(xs[1..], p)
    else Filter(xs[1..], p)
  }

  /** Python's `xs[:k]`: at most the first k elements. */
  function Take<T>(xs: seq<T>, k: nat): (r: seq<T>)
    ensures |r| == if k < |xs| then k else |xs|
    ensures r <= xs
  {
    if k < |xs| then xs[..k] else xs
  }

  /** The first match among the first `n` elements, stated on the whole sequence. */
  lemma FirstMapTake<T, U>(xs: seq<T>, n: nat, p: T -> bool, f: T -> U)
    ensures var o := FirstMap(Take(xs, n), p, f);
      && (o.None? <==> forall k :: 0 <= k < |xs| && k < n ==> !p(xs[k]))
      && (o.Some? ==> exists k :: FirstWhere(xs, p, k) && k < n && o.value == f(xs[k]))
  {
    var ws := Take(xs, n);
    var o := FirstMap(ws, p, f);
    assert forall k :: 0 <= k < |ws| ==> ws[k] == xs[k];
    if o.Some? {
      var k :| FirstWhere(ws, p, k) && o.value == f(ws[k]);
      assert FirstWhere(xs, p, k);
    }
  }

  /** Filtering then taking `n > 0` elements keeps an accepted head and takes `n - 1` from the rest. */
  lemma TakeFilterStep<T(!new)>(xs: seq<T>, p: T -> bool, n: nat)
    requires |xs| > 0
    ensures p(xs[0]) && n > 0 ==> Take(Filter(xs, p), n) == [xs[0]] + Take(Filter(xs[1..], p), n - 1)
    ensures !p(xs[0]) ==> Take(Filter(xs, p), n) == Take(Filter(xs[1..], p), n)
  {
  }

  /** Position of the first occurrence of `x` in `xs`. */
  function FirstIndex<T(==)>(xs: seq<T>, x: T): (i: nat)
    requires x in xs
    ensures i < |xs| && xs[i] == x
    ensures forall j :: 0 <= j < i ==> xs[j] != x
  {
    if xs[0] == x then 0 else 1 + FirstIndex(xs[1..], x)
  }

  /**
   * Appends to `acc`, in order, every element of `xs` that `keep` accepts and
   * that is not already present: the source's `if x and x not in acc: acc.append(x)`.
   */
  function AddNew<T(==,!new)>(acc: seq<T>, xs: seq<T>, keep: T -> bool): (r: seq<T>)
    ensures acc <= r
    ensures forall x :: x in r <==> x in acc || (x in xs && keep(x))
    ensures forall i :: |acc| <= i < |r| ==> keep(r[i])
    ensures Distinct(acc) ==> Distinct(r)
    decreases |xs|
  {
    if xs == [] then acc
    else
      var acc' := if keep(xs[0]) && xs[0] !in acc then acc + [xs[0]] else acc;
      AddNew(acc', xs[1..], keep)
  }

  /** Dropping the head shifts the first occurrence of any other value by one. */
  lemma FirstIndexTail<T>(xs: seq<T>, x: T)
    requires |xs| > 0 && x in xs && x != xs[0]
    ensures x in xs[1..]
    ensures FirstIndex(xs, x) == 1 + FirstIndex(xs[1..], x)
  {
  }

  /**
   * The elements AddNew appends keep their first-seen order: an element added
   * earlier first occurs in `xs` strictly before one added later.
   */
  lemma {:induction false} AddNewOrder<T(!new)>(acc: seq<T>, xs: seq<T>, keep: T -> bool)
    requires Distinct(acc)
    ensures var r := AddNew(acc, xs, keep);
      forall i, j :: |acc| <= i < j < |r| ==>
        r[i] in xs && r[j] in xs && FirstIndex(xs, r[i]) < FirstIndex(xs, r[j])
    decreases |xs|
  {
    var r := AddNew(acc, xs, keep);
    if xs != [] {
      var acc' := if keep(xs[0]) && xs[0] !in acc then acc + [xs[0]] else acc;
      assert Distinct(acc');
      AddNewOrder(acc', xs[1..], keep);
      assert r == AddNew(acc', xs[1..], keep);
      assert Distinct(r);
      forall i, j | |acc| <= i < j < |r|
        ensures r[i] in xs && r[j] in xs && FirstIndex(xs, r[i]) < FirstIndex(xs, r[j])
      {
        assert r[j] !in acc by {
          assert forall k :: 0 <= k < |acc| ==> r[k] == acc[k];
        }
        assert r[j] != r[i];
        if keep(xs[0]) && xs[0] !in acc {
          assert r[|acc|] == xs[0];
          assert r[j] != xs[0];
          assert r[j] in xs[1..];
          FirstIndexTail(xs, r[j]);
          if i > |acc| {
            assert r[i] != xs[0];
            assert r[i] !in acc by {
              assert forall k :: 0 <= k < |acc| ==> r[k] == acc[k];
            }
            assert r[i] in xs[1..];
            FirstIndexTail(xs, r[i]);
          }
        } else {
          assert r[i] !in acc by {
            assert forall k :: 0 <= k < |acc| ==> r[k] == acc[k];
          }
          assert r[i] != xs[0] && r[j] != xs[0];
          FirstIndexTail(xs, r[i]);
          FirstIndexTail(xs, r[j]);
        }
      }
    }
  }

  /** Two passes of AddNew are one pass over the concatenated input. */
  lemma {:induction false} AddNewConcat<T(!new)>(acc: seq<T>, xs: seq<T>, ys: seq<T>, keep: T -> bool)
    ensures AddNew(AddNew(acc, xs, keep), ys, keep) == AddNew(acc, xs + ys, keep)
    decreases |xs|
  {
    if xs == [] {
      assert xs + ys == ys;
    } else {
      var acc' := if keep(xs[0]) && xs[0] !in acc then acc + [xs[0]] else acc;
      assert (xs + ys)[0] == xs[0];
      assert (xs + ys)[1..] == xs[1..] + ys;
      AddNewConcat(acc', xs[1..], ys, keep);
    }
  }
}
