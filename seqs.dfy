/** Sequence helpers shared by the model: `Array.prototype.filter`. */
module Seqs {

  /** `xs.filter(keep)`: the elements of `xs` that satisfy `keep`, in order. */
  function Filter<T>(xs: seq<T>, keep: T -> bool): (r: seq<T>)
    ensures |r| <= |xs|
    ensures forall i :: 0 <= i < |r| ==> r[i] in xs && keep(r[i])
    ensures forall i :: 0 <= i < |xs| && keep(xs[i]) ==> xs[i] in r
  {
    if xs == [] then []
    else (if keep(xs[0]) then [xs[0]] else []) + Filter(xs[1..], keep)
  }

  /** Filtering keeps the relative order: it distributes over concatenation. */
  lemma {:induction false} FilterAppend<T>(a: seq<T>, b: seq<T>, keep: T -> bool)
    ensures Filter(a + b, keep) == Filter(a, keep) + Filter(b, keep)
  {
    if a == [] {
      assert a + b == b;
    } else {
      assert (a + b)[1..] == a[1..] + b;
      FilterAppend(a[1..], b, keep);
    }
  }

  /** The last element of a filter is the last element of `xs` that satisfies `keep`. */
  ghost predicate IsLastMatch<T>(xs: seq<T>, i: int, keep: T -> bool)
  {
    0 <= i < |xs| && keep(xs[i]) && forall j :: i < j < |xs| ==> !keep(xs[j])
  }

  lemma {:induction false} FilterLast<T>(xs: seq<T>, keep: T -> bool)
    requires Filter(xs, keep) != []
    ensures exists i :: IsLastMatch(xs, i, keep) && xs[i] == Filter(xs, keep)[|Filter(xs, keep)| - 1]
  {
    var n := |xs|;
    var init := xs[..n - 1];
    assert xs == init + [xs[n - 1]];
    FilterSnoc(init, xs[n - 1], keep);
    if keep(xs[n - 1]) {
      assert IsLastMatch(xs, n - 1, keep);
    } else {
      FilterLast(init, keep);
      var i :| IsLastMatch(init, i, keep) && init[i] == Filter(init, keep)[|Filter(init, keep)| - 1];
      assert IsLastMatch(xs, i, keep);
    }
  }

  /** Filtering a sequence extended by one element. */
  lemma FilterSnoc<T>(xs: seq<T>, x: T, keep: T -> bool)
    ensures Filter(xs + [x], keep) == Filter(xs, keep) + (if keep(x) then [x] else [])
  {
    FilterAppend(xs, [x], keep);
    assert [x][1..] == [];
  }

  /** Nothing is kept when no element satisfies `keep`. */
  lemma {:induction false} FilterNone<T>(xs: seq<T>, keep: T -> bool)
    requires forall i :: 0 <= i < |xs| ==> !keep(xs[i])
    ensures Filter(xs, keep) == []
  {
    if xs != [] {
      assert forall i :: 0 <= i < |xs[1..]| ==> xs[1..][i] == xs[i + 1];
      FilterNone(xs[1..], keep);
    }
  }
}
