/**
 * The list idioms of the dashboard: list comprehensions with an `if`
 * (Filter), the first element passing a test (`break` on the first hit)
 * and the last one (a loop that keeps overwriting a variable).
 */
module Lists {
  import opened Wrappers

  /** [x for x in xs if keep(x)] */
  function Filter<T>(xs: seq<T>, keep: T -> bool): (r: seq<T>)
    ensures |r| <= |xs|
    ensures forall i :: 0 <= i < |r| ==> r[i] in xs && keep(r[i])
    ensures forall i :: 0 <= i < |xs| && keep(xs[i]) ==> xs[i] in r
  {
    if xs == [] then []
    else Filter(xs[..|xs| - 1], keep) + (if keep(xs[|xs| - 1]) then [xs[|xs| - 1]] else [])
  }

  /** Filtering distributes over concatenation: kept elements stay in their order. */
  lemma {:induction false} FilterAppend<T>(xs: seq<T>, ys: seq<T>, keep: T -> bool)
    ensures Filter(xs + ys, keep) == Filter(xs, keep) + Filter(ys, keep)
    decreases |ys|
  {
    if ys == [] {
      assert xs + ys == xs;
    } else {
      var zs := ys[..|ys| - 1];
      assert (xs + ys)[..|xs + ys| - 1] == xs + zs;
      assert (xs + ys)[|xs + ys| - 1] == ys[|ys| - 1];
      FilterAppend(xs, zs, keep);
    }
  }

  /** A kept element keeps its multiplicity; a dropped one is gone. */
  lemma {:induction false} FilterCount<T>(xs: seq<T>, keep: T -> bool, x: T)
    ensures multiset(Filter(xs, keep))[x] == if keep(x) then multiset(xs)[x] else 0
    decreases |xs|
  {
    if xs != [] {
      var ys := xs[..|xs| - 1];
      FilterCount(ys, keep, x);
      assert xs == ys + [xs[|xs| - 1]];
    }
  }

  /** A filter that every element passes keeps the whole list. */
  lemma {:induction false} FilterKeepsAll<T>(xs: seq<T>, keep: T -> bool)
    requires forall i :: 0 <= i < |xs| ==> keep(xs[i])
    ensures Filter(xs, keep) == xs
    decreases |xs|
  {
    if xs != [] {
      FilterKeepsAll(xs[..|xs| - 1], keep);
      assert xs == xs[..|xs| - 1] + [xs[|xs| - 1]];
    }
  }

  /** Two tests that agree on every element keep the same elements. */
  lemma {:induction false} FilterAgree<T>(xs: seq<T>, p: T -> bool, q: T -> bool)
    requires forall i :: 0 <= i < |xs| ==> p(xs[i]) == q(xs[i])
    ensures Filter(xs, p) == Filter(xs, q)
    decreases |xs|
  {
    if xs != [] {
      var ys := xs[..|xs| - 1];
      assert forall i :: 0 <= i < |ys| ==> ys[i] == xs[i];
      FilterAgree(ys, p, q);
    }
  }

  /** The position of the first element that passes p. */
  function FirstIndex<T>(xs: seq<T>, p: T -> bool): (r: Option<nat>)
    ensures r.Some? ==> r.value < |xs| && p(xs[r.value])
    ensures forall j :: 0 <= j < |xs| && (r.None? || j < r.value) ==> !p(xs[j])
  {
    if xs == [] then None
    else if p(xs[0]) then Some(0)
    else match FirstIndex(xs[1..], p)
      case None => None
      case Some(k) => Some(k + 1)
  }

  /** The head of a filtered list is the first element that passes, when one does. */
  lemma {:induction false} FilterHead<T>(xs: seq<T>, keep: T -> bool)
    ensures Filter(xs, keep) != [] <==> FirstIndex(xs, keep).Some?
    ensures Filter(xs, keep) != [] ==> Filter(xs, keep)[0] == xs[FirstIndex(xs, keep).value]
    decreases |xs|
  {
    if xs != [] {
      FilterAppend([xs[0]], xs[1..], keep);
      assert [xs[0]] + xs[1..] == xs;
      assert Filter([xs[0]], keep) == if keep(xs[0]) then [xs[0]] else [];
      FilterHead(xs[1..], keep);
    }
  }

  /** The position of the last element that passes p. */
  function LastIndex<T>(xs: seq<T>, p: T -> bool): (r: Option<nat>)
    ensures r.Some? ==> r.value < |xs| && p(xs[r.value])
    ensures forall j :: 0 <= j < |xs| && (r.None? || r.value < j) ==> !p(xs[j])
  {
    if xs == [] then None
    else if p(xs[|xs| - 1]) then Some(|xs| - 1)
    else LastIndex(xs[..|xs| - 1], p)
  }

  /** FirstIndex finds k exactly when k passes and nothing before it does. */
  lemma FirstIndexIs<T>(xs: seq<T>, p: T -> bool, k: nat)
    ensures FirstIndex(xs, p) == Some(k)
        <==> (k < |xs| && p(xs[k]) && forall j :: 0 <= j < k ==> !p(xs[j]))
  {
  }

  /** LastIndex finds k exactly when k passes and nothing after it does. */
  lemma LastIndexIs<T>(xs: seq<T>, p: T -> bool, k: nat)
    ensures LastIndex(xs, p) == Some(k)
        <==> (k < |xs| && p(xs[k]) && forall j :: k < j < |xs| ==> !p(xs[j]))
  {
  }

  /** The element at an optional position. */
  function At<T>(xs: seq<T>, i: Option<nat>): (r: Option<T>)
    requires i.Some? ==> i.value < |xs|
    ensures r.Some? <==> i.Some?
    ensures r.Some? ==> r.value == xs[i.value]
  {
    match i
    case None => None
    case Some(k) => Some(xs[k])
  }
}
