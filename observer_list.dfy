/** The operations of `List<T>` that the observable's subscriber list uses:
    `Contains` (Dafny's `in`), `Add` (append), `IndexOf` and `Remove`, which
    removes the first occurrence only. Elements are compared with `==`, which
    for the observers in the list is reference identity. */
module ObserverList {

  /** No element occurs twice. */
  ghost predicate NoDuplicates<X>(xs: seq<X>) {
    forall i, j :: 0 <= i < j < |xs| ==> xs[i] != xs[j]
  }

  /** `List<T>.IndexOf`: the index of the first occurrence of x, or -1. */
  function IndexOf<X(==)>(xs: seq<X>, x: X): (i: int)
    ensures -1 <= i < |xs|
    ensures i == -1 <==> x !in xs
    ensures 0 <= i ==> xs[i] == x && x !in xs[..i]
    decreases |xs|
  {
    if xs == [] then -1
    else if xs[0] == x then 0
    else
      var k := IndexOf(xs[1..], x);
      if k == -1 then -1 else k + 1
  }

  /** `List<T>.Remove`: look the element up with `IndexOf` and, when it is
      there, remove that one position (`RemoveAt`). */
  function RemoveFirst<X(==)>(xs: seq<X>, x: X): (r: seq<X>)
    ensures x !in xs ==> r == xs
    ensures x in xs ==> |r| == |xs| - 1
    ensures multiset(r) == multiset(xs) - multiset{x}
  {
    var i := IndexOf(xs, x);
    if i < 0 then xs
    else
      assert xs == xs[..i] + [x] + xs[i + 1..];
      xs[..i] + xs[i + 1..]
  }

  /** Every element other than x, in their original order: the reference for
      "all other observers stay, in the same relative order". */
  function Without<X(==)>(xs: seq<X>, x: X): (r: seq<X>)
    ensures x !in r && |r| <= |xs|
    ensures forall j :: 0 <= j < |r| ==> r[j] in xs
    ensures forall i :: 0 <= i < |xs| && xs[i] != x ==> xs[i] in r
    decreases |xs|
  {
    if xs == [] then []
    else if xs[0] == x then Without(xs[1..], x)
    else [xs[0]] + Without(xs[1..], x)
  }

  /** Appending an element that is absent keeps the list duplicate-free. */
  lemma AppendFreshKeepsNoDuplicates<X>(xs: seq<X>, x: X)
    requires NoDuplicates(xs) && x !in xs
    ensures NoDuplicates(xs + [x])
  {
    forall i, j | 0 <= i < j < |xs| + 1
      ensures (xs + [x])[i] != (xs + [x])[j]
    {
      if j == |xs| {
        assert (xs + [x])[i] == xs[i];
      }
    }
  }

  /** Removing from a duplicate-free list removes every occurrence: x is gone
      afterwards and the list is still duplicate-free. */
  lemma RemoveFirstKeepsNoDuplicates<X>(xs: seq<X>, x: X)
    requires NoDuplicates(xs)
    ensures NoDuplicates(RemoveFirst(xs, x))
    ensures x !in RemoveFirst(xs, x)
    ensures |RemoveFirst(xs, x)| == if x in xs then |xs| - 1 else |xs|
  {
    var r := RemoveFirst(xs, x);
    if x in xs {
      var k := IndexOf(xs, x);
      assert r == xs[..k] + xs[k + 1..];
      forall i | 0 <= i < |r|
        ensures r[i] == if i < k then xs[i] else xs[i + 1]
      {
      }
      forall i, j | 0 <= i < j < |r|
        ensures r[i] != r[j]
      {
      }
    }
  }

  /** Subscribing an absent element and removing it again restores the list. */
  lemma RemoveAppended<X>(xs: seq<X>, x: X)
    requires x !in xs
    ensures RemoveFirst(xs + [x], x) == xs
  {
  }

  /** On a duplicate-free list, removing the first occurrence is the same as
      filtering x out: every other element stays, in the same relative order. */
  lemma {:induction false} RemoveFirstIsWithout<X>(xs: seq<X>, x: X)
    requires NoDuplicates(xs)
    ensures RemoveFirst(xs, x) == Without(xs, x)
  {
    if xs != [] {
      assert NoDuplicates(xs[1..]) by {
        forall i, j | 0 <= i < j < |xs[1..]| ensures xs[1..][i] != xs[1..][j] {
          assert xs[1..][i] == xs[i + 1] && xs[1..][j] == xs[j + 1];
        }
      }
      if xs[0] == x {
        assert x !in xs[1..] by {
          forall i | 0 <= i < |xs[1..]| ensures xs[1..][i] != x {
            assert xs[1..][i] == xs[i + 1];
          }
        }
        WithoutAbsent(xs[1..], x);
      } else {
        RemoveFirstCons(xs, x);
        RemoveFirstIsWithout(xs[1..], x);
      }
    }
  }

  /** Removing skips over a head that differs from x. */
  lemma RemoveFirstCons<X>(xs: seq<X>, x: X)
    requires xs != [] && xs[0] != x
    ensures RemoveFirst(xs, x) == [xs[0]] + RemoveFirst(xs[1..], x)
  {
    var k := IndexOf(xs[1..], x);
    assert IndexOf(xs, x) == if k < 0 then -1 else k + 1;
    if k >= 0 {
      var t := xs[1..];
      calc {
        RemoveFirst(xs, x);
        xs[..k + 1] + xs[k + 2..];
        { assert xs[..k + 1] == [xs[0]] + t[..k]; assert xs[k + 2..] == t[k + 1..]; }
        [xs[0]] + t[..k] + t[k + 1..];
        [xs[0]] + RemoveFirst(t, x);
      }
    } else {
      assert xs == [xs[0]] + xs[1..];
    }
  }

  /** Filtering out an absent element changes nothing. */
  lemma {:induction false} WithoutAbsent<X>(xs: seq<X>, x: X)
    requires x !in xs
    ensures Without(xs, x) == xs
  {
    if xs != [] {
      WithoutAbsent(xs[1..], x);
      assert xs == [xs[0]] + xs[1..];
    }
  }
}
