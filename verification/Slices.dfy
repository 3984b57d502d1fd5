/** Go's in-place filter, `kept := xs[:0]` followed by appends, and the
    function of the contents it computes. */
module Slices {

  function Filter<T>(keep: T -> bool, xs: seq<T>): seq<T> {
    if xs == [] then []
    else
      var last := xs[|xs| - 1];
      Filter(keep, xs[..|xs| - 1]) + if keep(last) then [last] else []
  }

  lemma FilterSnoc<T>(keep: T -> bool, xs: seq<T>, x: T)
    ensures Filter(keep, xs + [x]) == Filter(keep, xs) + if keep(x) then [x] else []
  {
    assert (xs + [x])[..|xs|] == xs;
  }

  lemma {:induction false} FilterMembers<T>(keep: T -> bool, xs: seq<T>)
    ensures |Filter(keep, xs)| <= |xs|
    ensures forall x :: x in Filter(keep, xs) <==> x in xs && keep(x)
  {
    if xs == [] {
    } else {
      FilterMembers(keep, xs[..|xs| - 1]);
      assert xs == xs[..|xs| - 1] + [xs[|xs| - 1]];
    }
  }

  lemma {:induction false} FilterAll<T>(keep: T -> bool, xs: seq<T>)
    requires forall x :: x in xs ==> keep(x)
    ensures Filter(keep, xs) == xs
  {
    if xs == [] {
    } else {
      FilterAll(keep, xs[..|xs| - 1]);
      assert xs == xs[..|xs| - 1] + [xs[|xs| - 1]];
    }
  }

  /** A filter that drops nothing by number drops nothing at all. */
  lemma {:induction false} FilterSameLength<T>(keep: T -> bool, xs: seq<T>)
    requires |Filter(keep, xs)| == |xs|
    ensures Filter(keep, xs) == xs
  {
    if xs == [] {
    } else {
      FilterMembers(keep, xs[..|xs| - 1]);
      FilterSameLength(keep, xs[..|xs| - 1]);
    }
  }

  lemma {:induction false} FilterNone<T>(keep: T -> bool, xs: seq<T>)
    requires forall x :: x in xs ==> !keep(x)
    ensures Filter(keep, xs) == []
  {
    if xs == [] {
    } else {
      FilterNone(keep, xs[..|xs| - 1]);
    }
  }

  lemma {:induction false} FilterConcat<T>(keep: T -> bool, xs: seq<T>, ys: seq<T>)
    ensures Filter(keep, xs + ys) == Filter(keep, xs) + Filter(keep, ys)
  {
    if ys == [] {
      assert xs + ys == xs;
    } else {
      var init := ys[..|ys| - 1];
      assert xs + ys == (xs + init) + [ys[|ys| - 1]];
      FilterSnoc(keep, xs + init, ys[|ys| - 1]);
      FilterConcat(keep, xs, init);
    }
  }

  lemma LastApart<T>(xs: seq<T>, ys: seq<T>)
    requires ys != []
    ensures xs + ys == xs + ys[..|ys| - 1] + [ys[|ys| - 1]]
  {
  }

  /** Compacts the first n elements of a in place, in order; the kept ones are
      a[..k]. The write position never passes the read position, so every
      element is still intact when it is read. */
  method Compact<T>(a: array<T>, n: nat, keep: T -> bool) returns (k: nat)
    requires n <= a.Length
    modifies a
    ensures k <= n
    ensures a[..k] == Filter(keep, old(a[..n]))
  {
    k := 0;
    assert a[..0] == [];
    for i := 0 to n
      invariant k <= i
      invariant a[..k] == Filter(keep, old(a[..i]))
      invariant forall j :: i <= j < a.Length ==> a[j] == old(a[j])
    {
      var x := a[i];
      ghost var kept := a[..k];
      if keep(x) {
        a[k] := x;
        assert a[..k] == kept;
        k := k + 1;
        assert a[..k] == kept + [x];
      }
      assert old(a[..i + 1]) == old(a[..i]) + [x];
      FilterSnoc(keep, old(a[..i]), x);
    }
  }
}
