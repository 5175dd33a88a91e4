/** Insertion sort, standing for the sort calls of the sources: its contract is what a library
    sort promises. */
module Sorting {

  ghost predicate TotalOrder<T(!new)>(leq: (T, T) -> bool) {
    && (forall a, b :: leq(a, b) || leq(b, a))
    && (forall a, b, c :: leq(a, b) && leq(b, c) ==> leq(a, c))
  }

  ghost predicate SortedBy<T>(s: seq<T>, leq: (T, T) -> bool) {
    forall i, j :: 0 <= i < j < |s| ==> leq(s[i], s[j])
  }

  lemma SameElements<T>(s: seq<T>, t: seq<T>, x: T)
    requires multiset(t) == multiset{x} + multiset(s)
    ensures forall i :: 0 <= i < |t| ==> t[i] == x || t[i] in s
  {
    forall i | 0 <= i < |t| ensures t[i] == x || t[i] in s {
      assert t[i] in multiset(t);
    }
  }

  /** Putting the least first keeps a list sorted, with what was inserted behind it. */
  lemma HeadStaysFirst<T(!new)>(x: T, s: seq<T>, t: seq<T>, leq: (T, T) -> bool)
    requires TotalOrder(leq) && s != [] && SortedBy(s, leq) && !leq(x, s[0])
    requires SortedBy(t, leq) && multiset(t) == multiset{x} + multiset(s[1..])
    ensures SortedBy([s[0]] + t, leq) && multiset([s[0]] + t) == multiset{x} + multiset(s)
  {
    assert s == [s[0]] + s[1..];
    SameElements(s[1..], t, x);
    forall i | 0 <= i < |t| ensures leq(s[0], t[i]) {
    }
  }

  function Insert<T(!new)>(x: T, s: seq<T>, leq: (T, T) -> bool): (r: seq<T>)
    requires TotalOrder(leq) && SortedBy(s, leq)
    ensures SortedBy(r, leq) && multiset(r) == multiset{x} + multiset(s)
  {
    if s == [] || leq(x, s[0]) then
      [x] + s
    else
      var t := Insert(x, s[1..], leq);
      HeadStaysFirst(x, s, t, leq);
      [s[0]] + t
  }

  function Sort<T(!new)>(s: seq<T>, leq: (T, T) -> bool): (r: seq<T>)
    requires TotalOrder(leq)
    ensures SortedBy(r, leq) && multiset(r) == multiset(s) && |r| == |s|
  {
    if s == [] then []
    else
      assert s == [s[0]] + s[1..];
      var r := Insert(s[0], Sort(s[1..], leq), leq);
      assert |multiset(r)| == |multiset(s)|;
      r
  }

  ghost predicate NoDup<T>(s: seq<T>) {
    forall i, j :: 0 <= i < j < |s| ==> s[i] != s[j]
  }

  lemma {:induction false} NoDupCounts<T>(s: seq<T>, x: T)
    requires NoDup(s)
    ensures multiset(s)[x] <= 1
  {
    if s != [] {
      var front, last := s[..|s| - 1], s[|s| - 1];
      assert s == front + [last];
      NoDupCounts(front, x);
      assert last !in front;
      assert last !in multiset(front);
    }
  }

  /** A permutation repeats nothing its original does not. */
  lemma NoDupPermuted<T>(s: seq<T>, t: seq<T>)
    requires NoDup(s) && multiset(s) == multiset(t)
    ensures NoDup(t)
  {
    forall i, j | 0 <= i < j < |t| ensures t[i] != t[j] {
      if t[i] == t[j] {
        assert t == t[..i] + [t[i]] + t[i + 1..j] + [t[j]] + t[j + 1..];
        assert multiset(t)[t[i]] >= 2;
        NoDupCounts(s, t[i]);
      }
    }
  }

  lemma SameMembers<T>(s: seq<T>, t: seq<T>)
    requires multiset(s) == multiset(t)
    ensures forall x :: x in s <==> x in t
  {
    forall x ensures x in s <==> x in t {
      assert x in multiset(s) <==> x in multiset(t);
    }
  }

  lemma WithoutOne<T>(a: seq<T>, x: T, b: seq<T>)
    ensures multiset(a + b) == multiset(a + [x] + b) - multiset{x}
  {
    assert multiset(a + [x] + b) == multiset(a) + multiset{x} + multiset(b);
  }

  lemma DropOne<T>(t: seq<T>, k: nat)
    requires k < |t|
    ensures t == t[..k] + [t[k]] + t[k + 1..] && multiset(t[..k] + t[k + 1..]) == multiset(t) - multiset{t[k]}
  {
    assert t == t[..k] + [t[k]] + t[k + 1..];
    WithoutOne(t[..k], t[k], t[k + 1..]);
  }

  lemma DropLast<T>(s: seq<T>)
    requires s != []
    ensures multiset(s[..|s| - 1]) == multiset(s) - multiset{s[|s| - 1]} && s[|s| - 1] in s
  {
    DropOne(s, |s| - 1);
    assert s[..|s| - 1] + s[|s| - 1 + 1..] == s[..|s| - 1];
  }

  /** The last of one list, found in the other; without it they are still permutations. */
  lemma TakeOut<T>(s: seq<T>, t: seq<T>) returns (k: nat)
    requires s != [] && multiset(s) == multiset(t)
    ensures k < |t| && t[k] == s[|s| - 1] && t == t[..k] + [t[k]] + t[k + 1..]
    ensures multiset(t[..k] + t[k + 1..]) == multiset(s[..|s| - 1])
  {
    DropLast(s);
    SameMembers(s, t);
    k :| 0 <= k < |t| && t[k] == s[|s| - 1];
    DropOne(t, k);
  }

}
