/** The optional value the source writes as `null` or `undefined`. */
module Optional {
  datatype Option<+T> = None | Some(value: T)
}

/** Sequence helpers shared by the asteroid field and the explosion list. */
module Seqs {

  function Min(a: int, b: int): (m: int)
    ensures m <= a && m <= b
    ensures m == a || m == b
  {
    if a <= b then a else b
  }

  /** `Array.prototype.filter`: the elements that `keep` accepts, in their original order. */
  function Filter<T>(xs: seq<T>, keep: T -> bool): (r: seq<T>)
    ensures |r| <= |xs|
    ensures forall i :: 0 <= i < |r| ==> r[i] in xs && keep(r[i])
    ensures forall i :: 0 <= i < |xs| && keep(xs[i]) ==> xs[i] in r
    decreases |xs|
  {
    if xs == [] then []
    else
      assert xs == [xs[0]] + xs[1..];
      (if keep(xs[0]) then [xs[0]] else []) + Filter(xs[1..], keep)
  }

  lemma {:induction false} FilterAppend<T>(a: seq<T>, b: seq<T>, keep: T -> bool)
    ensures Filter(a + b, keep) == Filter(a, keep) + Filter(b, keep)
    decreases |a|
  {
    if a == [] {
      assert a + b == b;
    } else {
      assert (a + b)[1..] == a[1..] + b;
      FilterAppend(a[1..], b, keep);
    }
  }

  lemma {:induction false} FilterKeepsAll<T>(a: seq<T>, keep: T -> bool)
    requires forall y :: y in a ==> keep(y)
    ensures Filter(a, keep) == a
    decreases |a|
  {
    if a != [] {
      assert forall y :: y in a[1..] ==> y in a;
      FilterKeepsAll(a[1..], keep);
    }
  }

  /** Filtering out one rejected element that sits between two runs of accepted
      elements joins the two runs, each in its original order. */
  lemma FilterDropsOne<T>(a: seq<T>, x: T, b: seq<T>, keep: T -> bool)
    requires forall y :: y in a ==> keep(y)
    requires forall y :: y in b ==> keep(y)
    requires !keep(x)
    ensures Filter(a + [x] + b, keep) == a + b
  {
    var ax := a + [x];
    FilterAppend(ax, b, keep);
    FilterAppend(a, [x], keep);
    FilterKeepsAll(a, keep);
    FilterKeepsAll(b, keep);
    assert [x][1..] == [];
    assert Filter([x], keep) == [];
    assert Filter(ax, keep) == a;
  }

  predicate NoDup<T(==)>(s: seq<T>) {
    forall i, j :: 0 <= i < j < |s| ==> s[i] != s[j]
  }

  lemma {:induction false} FilterNoDup<T>(xs: seq<T>, keep: T -> bool)
    requires NoDup(xs)
    ensures NoDup(Filter(xs, keep))
    decreases |xs|
  {
    if xs != [] {
      var tail := xs[1..];
      assert NoDup(tail) by {
        forall i, j | 0 <= i < j < |tail| ensures tail[i] != tail[j] {
          assert tail[i] == xs[i + 1] && tail[j] == xs[j + 1];
        }
      }
      FilterNoDup(tail, keep);
      assert xs[0] !in tail by {
        forall k | 0 <= k < |tail| ensures tail[k] != xs[0] {
          assert tail[k] == xs[k + 1];
        }
      }
      var rest := Filter(tail, keep);
      var head: seq<T> := if keep(xs[0]) then [xs[0]] else [];
      assert Filter(xs, keep) == head + rest;
      assert forall y :: y in head ==> y !in rest;
    }
  }
}
