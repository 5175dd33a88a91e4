/** Comparing two versions the other way round (server/compare/compare.go): what was new is fixed,
    what was fixed is new, and the same findings are unchanged. */
module DiffMirror {
  import opened Options
  import opened Compare
  import opened CompareLaws
  import Sets

  /** The distance of a difference does not depend on its sign, as the library's Hypot's does not. */
  ghost predicate IsEven(hypot: Hypot) {
    forall dx, dy :: hypot(dx, dy) == hypot(-dx, -dy)
  }

  lemma DistanceMirrored(f: Finding, g: Finding, tol: real, hypot: Hypot)
    requires IsEven(hypot)
    ensures Distance(f, g, tol, hypot) == Distance(g, f, tol, hypot)
  {
    if Located(f) && Located(g) {
      var dx, dy := f.x.value - g.x.value, f.y.value - g.y.value;
      assert hypot(dx, dy) == hypot(-dx, -dy);
      assert -dx == g.x.value - f.x.value && -dy == g.y.value - f.y.value;
    }
  }

  lemma PairKeyMirrored(f: Finding, g: Finding, tol: real, hypot: Hypot)
    requires IsEven(hypot)
    ensures PairKey(f, g, tol, hypot) == PairKey(g, f, tol, hypot)
  {
    DistanceMirrored(f, g, tol, hypot);
    hide Distance;
  }

  lemma CandidateMirrored(before: seq<Finding>, after: seq<Finding>, tol: real, hypot: Hypot, i: nat, j: nat)
    requires IsEven(hypot)
    ensures Candidate(before, after, tol, hypot, i, j) <==> Candidate(after, before, tol, hypot, j, i)
  {
    hide PairKey, KeyOf;
    if i < |before| && j < |after| {
      PairKeyMirrored(before[i], after[j], tol, hypot);
    }
  }

  /** Of two pairs that share an end the same comes first, whichever version's places break the tie. */
  lemma BeatsMirrored(before: seq<Finding>, after: seq<Finding>, tol: real, hypot: Hypot, i': nat, j': nat, i: nat, j: nat)
    requires IsEven(hypot) && Beats(before, after, tol, hypot, i', j', i, j)
    ensures Beats(after, before, tol, hypot, j', i', j, i)
  {
    CandidateMirrored(before, after, tol, hypot, i', j');
    CandidateMirrored(before, after, tol, hypot, i, j);
    PairKeyMirrored(before[i'], after[j'], tol, hypot);
    PairKeyMirrored(before[i], after[j], tol, hypot);
    hide PairKey, KeyOf, IsEven;
  }

  // ---------- a diff, mirrored ----------

  function Opposite(status: Status): (s: Status) {
    match status
    case Fixed => New
    case New => Fixed
    case Unchanged => Unchanged
  }

  /** The change seen from the other version; an unchanged finding has the rule it had there. */
  function Mirror(before: seq<Finding>, c: Change): (d: Change) {
    Change(Opposite(c.status),
           if c.status == Unchanged && c.before.Some? && c.before.value < |before| then before[c.before.value].rule else c.rule,
           c.after, c.before)
  }

  function Mirrored(before: seq<Finding>, cs: seq<Change>): (ds: seq<Change>)
    ensures |ds| == |cs|
  {
    seq(|cs|, k requires 0 <= k < |cs| => Mirror(before, cs[k]))
  }

  lemma MirrorMentions(before: seq<Finding>, cs: seq<Change>, newer: bool, x: nat)
    ensures Mentions(Mirrored(before, cs), newer, x) == Mentions(cs, !newer, x)
  {
    assert EndsOf(Mirrored(before, cs), newer) == EndsOf(cs, !newer);
  }

  lemma MirrorMatches(before: seq<Finding>, cs: seq<Change>, i: nat, j: nat)
    ensures Matched(cs, i, j) <==> Matched(Mirrored(before, cs), j, i)
  {
    var ds := Mirrored(before, cs);
    if k :| 0 <= k < |cs| && cs[k].before == Some(i) && cs[k].after == Some(j) {
      assert ds[k].before == Some(j) && ds[k].after == Some(i);
    }
    if k :| 0 <= k < |ds| && ds[k].before == Some(j) && ds[k].after == Some(i) {
      assert cs[k].before == Some(i) && cs[k].after == Some(j);
    }
  }

  lemma MirrorFits(before: seq<Finding>, after: seq<Finding>, tol: real, hypot: Hypot, c: Change)
    requires IsEven(hypot) && ChangeFits(before, after, tol, hypot, c)
    ensures ChangeFits(after, before, tol, hypot, Mirror(before, c))
  {
    if c.status == Unchanged {
      CandidateMirrored(before, after, tol, hypot, c.before.value, c.after.value);
    }
    hide PairKey, KeyOf, IsEven;
  }

  lemma MirrorStable(before: seq<Finding>, after: seq<Finding>, tol: real, hypot: Hypot, cs: seq<Change>, i: nat, j: nat)
    requires IsEven(hypot) && StableAt(before, after, tol, hypot, cs, i, j)
    ensures StableAt(after, before, tol, hypot, Mirrored(before, cs), j, i)
  {
    CandidateMirrored(before, after, tol, hypot, i, j);
    hide Candidate, Beats, Matched, IsEven;
    if Candidate(before, after, tol, hypot, i, j) {
      var i': nat, j': nat :| MatchBeats(before, after, tol, hypot, cs, i, j, i', j');
      BeatsMirrored(before, after, tol, hypot, i', j', i, j);
      MirrorMatches(before, cs, i', j');
      assert MatchBeats(after, before, tol, hypot, Mirrored(before, cs), j, i, j', i');
    }
  }

  /** Mirrored, a diff of two versions is one of the versions the other way round. */
  lemma MirrorIsDiff(before: seq<Finding>, after: seq<Finding>, tol: real, hypot: Hypot, cs: seq<Change>)
    requires IsEven(hypot) && IsDiff(before, after, tol, hypot, cs)
    ensures IsDiff(after, before, tol, hypot, Mirrored(before, cs))
  {
    hide ChangeFits, Mentions, StableAt, IsEven;
    var ds := Mirrored(before, cs);
    forall k | 0 <= k < |ds| ensures ChangeFits(after, before, tol, hypot, ds[k]) {
      MirrorFits(before, after, tol, hypot, cs[k]);
    }
    forall j: nat | j < |after| ensures Mentions(ds, false, j) == 1 {
      MirrorMentions(before, cs, false, j);
    }
    forall i: nat | i < |before| ensures Mentions(ds, true, i) == 1 {
      MirrorMentions(before, cs, true, i);
    }
    forall j: nat, i: nat | j < |after| && i < |before| ensures StableAt(after, before, tol, hypot, ds, j, i) {
      MirrorStable(before, after, tol, hypot, cs, i, j);
    }
  }

  /** Whichever way two versions are compared, the same findings are paired. */
  lemma PairsMirrored(before: seq<Finding>, after: seq<Finding>, tol: real, hypot: Hypot, cs: seq<Change>, ds: seq<Change>, i: nat, j: nat)
    requires IsEven(hypot) && IsDiff(before, after, tol, hypot, cs) && IsDiff(after, before, tol, hypot, ds)
    ensures Matched(cs, i, j) <==> Matched(ds, j, i)
  {
    MirrorIsDiff(before, after, tol, hypot, cs);
    MirrorMatches(before, cs, i, j);
    hide IsDiff, Matched, Mirrored, IsEven;
    PairsAreDetermined(after, before, tol, hypot, Mirrored(before, cs), ds, j, i);
  }

  // ---------- what is left of each version ----------

  /** The finding is left over: new, or fixed. */
  ghost predicate IsLeft(cs: seq<Change>, newer: bool, x: nat) {
    exists k :: 0 <= k < |cs| && cs[k].status == (if newer then New else Fixed) && EndOf(cs[k], newer) == Some(x)
  }

  ghost predicate IsPaired(cs: seq<Change>, newer: bool, x: nat) {
    exists y: nat :: if newer then Matched(cs, y, x) else Matched(cs, x, y)
  }

  /** A finding is left over exactly when it is paired with none. */
  lemma LeftIfUnpaired(before: seq<Finding>, after: seq<Finding>, tol: real, hypot: Hypot, cs: seq<Change>, newer: bool, x: nat)
    requires IsDiff(before, after, tol, hypot, cs) && x < |if newer then after else before|
    ensures IsLeft(cs, newer, x) <==> !IsPaired(cs, newer, x)
  {
    assert Mentions(cs, newer, x) == 1 by { assert Mentions(cs, false, x) == 1 || newer; }
    var ends := EndsOf(cs, newer);
    assert Some(x) in ends;
    var k :| 0 <= k < |ends| && ends[k] == Some(x);
    assert ChangeFits(before, after, tol, hypot, cs[k]);
    hide Candidate, Mentions, StableAt;
    if IsLeft(cs, newer, x) && IsPaired(cs, newer, x) {
      var m :| 0 <= m < |cs| && cs[m].status == (if newer then New else Fixed) && EndOf(cs[m], newer) == Some(x);
      var y: nat :| if newer then Matched(cs, y, x) else Matched(cs, x, y);
      var n :| 0 <= n < |cs| && cs[n].before == Some(if newer then y else x) && cs[n].after == Some(if newer then x else y);
      assert ChangeFits(before, after, tol, hypot, cs[m]);
      MentionedOnce(cs, newer, x, m, n);
    }
    if cs[k].status == Unchanged {
      var y := if newer then cs[k].before.value else cs[k].after.value;
      assert if newer then Matched(cs, y, x) else Matched(cs, x, y);
    }
  }

  /** What is new one way is fixed the other way, and what is fixed is new. */
  lemma LeftMirrored(before: seq<Finding>, after: seq<Finding>, tol: real, hypot: Hypot, cs: seq<Change>, ds: seq<Change>, newer: bool, x: nat)
    requires IsEven(hypot) && IsDiff(before, after, tol, hypot, cs) && IsDiff(after, before, tol, hypot, ds)
    requires x < |if newer then after else before|
    ensures IsLeft(cs, newer, x) <==> IsLeft(ds, !newer, x)
  {
    LeftIfUnpaired(before, after, tol, hypot, cs, newer, x);
    LeftIfUnpaired(after, before, tol, hypot, ds, !newer, x);
    hide IsDiff, Matched, IsLeft, IsEven;
    forall y: nat ensures (if newer then Matched(cs, y, x) else Matched(cs, x, y)) <==> (if newer then Matched(ds, x, y) else Matched(ds, y, x)) {
      if newer {
        PairsMirrored(before, after, tol, hypot, cs, ds, y, x);
      } else {
        PairsMirrored(before, after, tol, hypot, cs, ds, x, y);
      }
    }
  }

  /** The findings left over, in order. */
  function Leftovers(cs: seq<Change>, newer: bool): (xs: seq<nat>) {
    if cs == [] then []
    else
      var c := cs[|cs| - 1];
      Leftovers(cs[..|cs| - 1], newer)
        + if c.status == (if newer then New else Fixed) && EndOf(c, newer).Some? then [EndOf(c, newer).value] else []
  }

  lemma {:induction false} LeftoverAt(cs: seq<Change>, newer: bool, x: nat)
    ensures x in Leftovers(cs, newer) <==> IsLeft(cs, newer, x)
  {
    if cs != [] {
      var n := |cs| - 1;
      LeftoverAt(cs[..n], newer, x);
      if IsLeft(cs[..n], newer, x) {
        var k :| 0 <= k < n && cs[..n][k].status == (if newer then New else Fixed) && EndOf(cs[..n][k], newer) == Some(x);
        assert cs[k] == cs[..n][k];
      }
      if IsLeft(cs, newer, x) {
        var k :| 0 <= k <= n && cs[k].status == (if newer then New else Fixed) && EndOf(cs[k], newer) == Some(x);
        assert k < n ==> cs[..n][k] == cs[k];
      }
    }
  }

  lemma {:induction false} LeftoversOnce(cs: seq<Change>, newer: bool, i: nat, j: nat)
    requires i < j < |Leftovers(cs, newer)|
    ensures exists k, m :: 0 <= k < m < |cs| && EndOf(cs[k], newer) == Some(Leftovers(cs, newer)[i])
                        && EndOf(cs[m], newer) == Some(Leftovers(cs, newer)[j])
  {
    var n := |cs| - 1;
    var early := Leftovers(cs[..n], newer);
    if j < |early| {
      LeftoversOnce(cs[..n], newer, i, j);
      var k, m :| 0 <= k < m < n && EndOf(cs[..n][k], newer) == Some(early[i]) && EndOf(cs[..n][m], newer) == Some(early[j]);
      assert cs[k] == cs[..n][k] && cs[m] == cs[..n][m];
    } else {
      assert early[i] in early;
      LeftoverAt(cs[..n], newer, early[i]);
      var k :| 0 <= k < n && cs[..n][k].status == (if newer then New else Fixed) && EndOf(cs[..n][k], newer) == Some(early[i]);
      assert cs[k] == cs[..n][k];
    }
  }

  lemma {:induction false} LeftoverTotal(before: seq<Finding>, after: seq<Finding>, tol: real, hypot: Hypot, cs: seq<Change>, newer: bool)
    requires forall k :: 0 <= k < |cs| ==> ChangeFits(before, after, tol, hypot, cs[k])
    ensures |Leftovers(cs, newer)| == TotalOf(cs, if newer then New else Fixed)
  {
    hide Candidate;
    if cs != [] {
      LeftoverTotal(before, after, tol, hypot, cs[..|cs| - 1], newer);
      assert ChangeFits(before, after, tol, hypot, cs[|cs| - 1]);
    }
  }

  ghost function LeftAmong(n: nat, cs: seq<Change>, newer: bool): (xs: set<nat>) {
    set x: nat | x < n && IsLeft(cs, newer, x)
  }

  /** As many are left over as there are findings of the version paired with none. */
  lemma TotalIsLeft(before: seq<Finding>, after: seq<Finding>, tol: real, hypot: Hypot, cs: seq<Change>, newer: bool)
    requires IsDiff(before, after, tol, hypot, cs)
    ensures TotalOf(cs, if newer then New else Fixed) == |LeftAmong(|if newer then after else before|, cs, newer)|
  {
    LeftoverTotal(before, after, tol, hypot, cs, newer);
    var xs := Leftovers(cs, newer);
    var n := |if newer then after else before|;
    forall i, j | 0 <= i < j < |xs| ensures xs[i] != xs[j] {
      LeftoversDiffer(before, after, tol, hypot, cs, newer, i, j);
    }
    Sets.ListSize(xs);
    hide IsDiff, Leftovers;
    forall x: nat ensures x in xs <==> x < n && IsLeft(cs, newer, x) {
      LeftoverAt(cs, newer, x);
      if IsLeft(cs, newer, x) {
        LeftInRange(before, after, tol, hypot, cs, newer, x);
      }
    }
    assert Sets.Members(xs) == LeftAmong(n, cs, newer);
  }

  lemma LeftInRange(before: seq<Finding>, after: seq<Finding>, tol: real, hypot: Hypot, cs: seq<Change>, newer: bool, x: nat)
    requires IsDiff(before, after, tol, hypot, cs) && IsLeft(cs, newer, x)
    ensures x < |if newer then after else before|
  {
    hide Candidate, Mentions, StableAt;
    var k :| 0 <= k < |cs| && cs[k].status == (if newer then New else Fixed) && EndOf(cs[k], newer) == Some(x);
    assert ChangeFits(before, after, tol, hypot, cs[k]);
  }

  lemma LeftoversDiffer(before: seq<Finding>, after: seq<Finding>, tol: real, hypot: Hypot, cs: seq<Change>, newer: bool, i: nat, j: nat)
    requires IsDiff(before, after, tol, hypot, cs) && i < j < |Leftovers(cs, newer)|
    ensures Leftovers(cs, newer)[i] != Leftovers(cs, newer)[j]
  {
    var xs := Leftovers(cs, newer);
    LeftoversOnce(cs, newer, i, j);
    LeftoverAt(cs, newer, xs[i]);
    LeftInRange(before, after, tol, hypot, cs, newer, xs[i]);
    var k, m :| 0 <= k < m < |cs| && EndOf(cs[k], newer) == Some(xs[i]) && EndOf(cs[m], newer) == Some(xs[j]);
    if xs[i] == xs[j] {
      MentionedOnce(cs, newer, xs[i], k, m);
    }
  }

  /** The counts change places with the versions, and as many are unchanged. */
  lemma CountsMirrored(before: seq<Finding>, after: seq<Finding>, tol: real, hypot: Hypot, cs: seq<Change>, ds: seq<Change>)
    requires IsEven(hypot) && IsDiff(before, after, tol, hypot, cs) && IsDiff(after, before, tol, hypot, ds)
    ensures TotalOf(cs, New) == TotalOf(ds, Fixed) && TotalOf(cs, Fixed) == TotalOf(ds, New)
    ensures TotalOf(cs, Unchanged) == TotalOf(ds, Unchanged)
  {
    hide IsDiff, IsLeft, IsEven, TotalOf;
    TotalIsLeft(before, after, tol, hypot, cs, true);
    TotalIsLeft(before, after, tol, hypot, cs, false);
    TotalIsLeft(after, before, tol, hypot, ds, true);
    TotalIsLeft(after, before, tol, hypot, ds, false);
    Conserved(before, after, tol, hypot, cs);
    Conserved(after, before, tol, hypot, ds);
    SameLeft(before, after, tol, hypot, cs, ds, true);
    SameLeft(before, after, tol, hypot, cs, ds, false);
  }

  lemma SameLeft(before: seq<Finding>, after: seq<Finding>, tol: real, hypot: Hypot, cs: seq<Change>, ds: seq<Change>, newer: bool)
    requires IsEven(hypot) && IsDiff(before, after, tol, hypot, cs) && IsDiff(after, before, tol, hypot, ds)
    ensures var n := |if newer then after else before|; LeftAmong(n, cs, newer) == LeftAmong(n, ds, !newer)
  {
    var n := |if newer then after else before|;
    hide IsDiff, IsLeft, IsEven;
    forall x: nat | x < n ensures IsLeft(cs, newer, x) <==> IsLeft(ds, !newer, x) {
      LeftMirrored(before, after, tol, hypot, cs, ds, newer, x);
    }
  }
}
