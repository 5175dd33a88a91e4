/** Sizes of finite sets. */
module Sets {

  ghost function Members<T(!new)>(xs: seq<T>): (s: set<T>)
    ensures forall x :: x in s <==> x in xs
  {
    set x | x in xs
  }

  /** A list without repetition has as many members as it is long. */
  lemma {:induction false} ListSize<T(!new)>(xs: seq<T>)
    requires forall i, j :: 0 <= i < j < |xs| ==> xs[i] != xs[j]
    ensures |Members(xs)| == |xs|
  {
    if xs != [] {
      var n := |xs| - 1;
      ListSize(xs[..n]);
      assert Members(xs) == Members(xs[..n]) + {xs[n]};
    }
  }

  /** A part of a set is no larger, and smaller if it is not all of it. */
  lemma Fits<T>(a: set<T>, b: set<T>)
    requires a <= b
    ensures |a| <= |b|
    ensures a != b ==> |a| < |b|
  {
    assert b == a + (b - a);
  }
}
