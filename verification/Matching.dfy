/** Greedy matching over a sorted list of candidate pairs (server/compare/compare.go), and the
    matching it is. */
module Matching {
  import Sorting

  /** A candidate: its key, and its place in the older and in the newer list. */
  datatype Pair = Pair(d: real, i: nat, j: nat)

  predicate Before(p: Pair, q: Pair) {
    p.d < q.d || (p.d == q.d && (p.i < q.i || (p.i == q.i && p.j <= q.j)))
  }

  function PairOrder(): (leq: (Pair, Pair) -> bool)
    ensures Sorting.TotalOrder(leq)
    ensures forall p, q :: leq(p, q) <==> Before(p, q)
  {
    (p, q) => Before(p, q)
  }

  predicate Clash(p: Pair, q: Pair) {
    p.i == q.i || p.j == q.j
  }

  predicate Blocked(taken: seq<Pair>, p: Pair) {
    exists k :: 0 <= k < |taken| && Clash(taken[k], p)
  }

  /** What is taken of the first k candidates. */
  function Taken(pairs: seq<Pair>, k: nat): (taken: seq<Pair>)
    requires k <= |pairs|
  {
    if k == 0 then []
    else
      var taken := Taken(pairs, k - 1);
      if Blocked(taken, pairs[k - 1]) then taken else taken + [pairs[k - 1]]
  }

  /** No end is used twice. */
  ghost predicate IsMatching(taken: seq<Pair>) {
    forall x, y :: 0 <= x < y < |taken| ==> !Clash(taken[x], taken[y])
  }

  ghost predicate Ascending(pairs: seq<Pair>) {
    forall x, y :: 0 <= x < y < |pairs| ==> Before(pairs[x], pairs[y]) && pairs[x] != pairs[y]
  }

  /** Every candidate is taken, or clashes with one taken that comes before it. */
  ghost predicate IsStable(pairs: seq<Pair>, taken: seq<Pair>) {
    forall k :: 0 <= k < |pairs| ==> pairs[k] in taken || BlockedBefore(taken, pairs[k])
  }

  ghost predicate BlockedBefore(taken: seq<Pair>, p: Pair) {
    exists x :: 0 <= x < |taken| && Clash(taken[x], p) && Before(taken[x], p) && taken[x] != p
  }

  lemma {:induction false} TakenGrows(pairs: seq<Pair>, k: nat, m: nat)
    requires k <= m <= |pairs|
    ensures Taken(pairs, k) <= Taken(pairs, m)
  {
    if k < m {
      TakenGrows(pairs, k, m - 1);
    }
  }

  lemma {:induction false} TakenIsMatching(pairs: seq<Pair>, k: nat)
    requires k <= |pairs|
    ensures IsMatching(Taken(pairs, k)) && forall p :: p in Taken(pairs, k) ==> p in pairs[..k]
  {
    if k > 0 {
      TakenIsMatching(pairs, k - 1);
      assert forall p :: p in pairs[..k - 1] ==> p in pairs[..k];
      assert pairs[..k][k - 1] == pairs[k - 1];
    }
  }

  /** What is taken of ascending candidates ascends. */
  lemma {:induction false} TakenAscends(pairs: seq<Pair>, k: nat)
    requires Ascending(pairs) && k <= |pairs|
    ensures Ascending(Taken(pairs, k))
  {
    hide Before, Blocked;
    if k > 0 {
      TakenAscends(pairs, k - 1);
      TakenIsMatching(pairs, k - 1);
      var early := Taken(pairs, k - 1);
      forall x | 0 <= x < |early| ensures Before(early[x], pairs[k - 1]) && early[x] != pairs[k - 1] {
        assert early[x] in early;
        var y :| 0 <= y < k - 1 && pairs[..k - 1][y] == early[x];
        assert pairs[y] == early[x];
      }
    }
  }

  lemma EarlyBlocks(pairs: seq<Pair>, k: nat, taken: seq<Pair>)
    requires Ascending(pairs) && k < |pairs|
    requires Blocked(Taken(pairs, k), pairs[k]) && Taken(pairs, k) <= taken
    ensures BlockedBefore(taken, pairs[k])
  {
    var early := Taken(pairs, k);
    TakenIsMatching(pairs, k);
    hide Taken, Clash, Before;
    var x :| 0 <= x < |early| && Clash(early[x], pairs[k]);
    assert early[x] in early;
    var y :| 0 <= y < k && pairs[..k][y] == early[x];
    assert Before(pairs[y], pairs[k]) && pairs[y] != pairs[k];
    assert taken[x] == early[x];
  }

  lemma NextTaken(pairs: seq<Pair>, k: nat)
    requires k < |pairs| && !Blocked(Taken(pairs, k), pairs[k])
    ensures pairs[k] in Taken(pairs, k + 1)
  {
  }

  /** The greedy choice is stable. */
  lemma TakenIsStable(pairs: seq<Pair>)
    requires Ascending(pairs)
    ensures IsStable(pairs, Taken(pairs, |pairs|))
  {
    hide Ascending, Blocked, BlockedBefore, Taken;
    var taken := Taken(pairs, |pairs|);
    forall k | 0 <= k < |pairs| ensures pairs[k] in taken || BlockedBefore(taken, pairs[k]) {
      TakenGrows(pairs, k, |pairs|);
      if Blocked(Taken(pairs, k), pairs[k]) {
        EarlyBlocks(pairs, k, taken);
      } else {
        NextTaken(pairs, k);
        TakenGrows(pairs, k + 1, |pairs|);
        assert pairs[k] in taken;
      }
    }
  }

  /** A stable matching takes a candidate exactly when none it took before clashes with it. */
  lemma TakenIffFree(pairs: seq<Pair>, chosen: seq<Pair>, k: nat)
    requires IsMatching(chosen) && IsStable(pairs, chosen) && k < |pairs|
    ensures pairs[k] in chosen <==> !BlockedBefore(chosen, pairs[k])
  {
  }

  /** Stability has one answer: any stable matching of the candidates is the greedy one. */
  lemma {:induction false} StableIsUnique(pairs: seq<Pair>, chosen: seq<Pair>, other: seq<Pair>, k: nat)
    requires Ascending(pairs) && k <= |pairs|
    requires IsMatching(chosen) && IsStable(pairs, chosen) && forall p :: p in chosen ==> p in pairs
    requires IsMatching(other) && IsStable(pairs, other) && forall p :: p in other ==> p in pairs
    ensures forall x :: 0 <= x < k ==> (pairs[x] in chosen <==> pairs[x] in other)
  {
    if k > 0 {
      StableIsUnique(pairs, chosen, other, k - 1);
      TakenIffFree(pairs, chosen, k - 1);
      TakenIffFree(pairs, other, k - 1);
      hide BlockedBefore, IsMatching, IsStable, Ascending;
      if BlockedBefore(chosen, pairs[k - 1]) {
        BlockedAlike(pairs, chosen, other, k - 1);
      }
      if BlockedBefore(other, pairs[k - 1]) {
        BlockedAlike(pairs, other, chosen, k - 1);
      }
    }
  }

  lemma BlockedAlike(pairs: seq<Pair>, chosen: seq<Pair>, other: seq<Pair>, k: nat)
    requires Ascending(pairs) && k < |pairs| && forall p :: p in chosen ==> p in pairs
    requires forall x :: 0 <= x < k ==> (pairs[x] in chosen <==> pairs[x] in other)
    requires BlockedBefore(chosen, pairs[k])
    ensures BlockedBefore(other, pairs[k])
  {
    var x :| 0 <= x < |chosen| && Clash(chosen[x], pairs[k]) && Before(chosen[x], pairs[k]) && chosen[x] != pairs[k];
    assert chosen[x] in chosen;
    var y :| 0 <= y < |pairs| && pairs[y] == chosen[x];
    assert y < k;
    assert pairs[y] in other;
    var z :| 0 <= z < |other| && other[z] == pairs[y];
    assert Clash(other[z], pairs[k]);
  }

  /** The pair's place in the newer or in the older list. */
  function Place(p: Pair, newer: bool): (x: nat) {
    if newer then p.j else p.i
  }

  ghost predicate Uses(taken: seq<Pair>, newer: bool, x: nat) {
    exists k :: 0 <= k < |taken| && Place(taken[k], newer) == x
  }
}
