/** What the diff of two versions promises, whatever the findings (server/compare/compare.go). */
module CompareLaws {
  import opened Numbers
  import opened Options
  import opened Matching
  import opened Compare
  import Sorting
  import Sets

  // ---------- counts ----------

  function TotalOf(cs: seq<Change>, status: Status): (n: nat) {
    if cs == [] then 0
    else TotalOf(cs[..|cs| - 1], status) + if cs[|cs| - 1].status == status then 1 else 0
  }

  /** The numbers of the findings that are named, in order. */
  function Named(ends: seq<Option<nat>>): (xs: seq<nat>) {
    if ends == [] then []
    else
      var front, last := ends[..|ends| - 1], ends[|ends| - 1];
      if last.Some? then Named(front) + [last.value] else Named(front)
  }

  lemma {:induction false} NamedCounts(ends: seq<Option<nat>>, x: nat)
    ensures multiset(Named(ends))[x] == multiset(ends)[Some(x)]
  {
    if ends != [] {
      var front, last := ends[..|ends| - 1], ends[|ends| - 1];
      assert ends == front + [last];
      NamedCounts(front, x);
    }
  }

  lemma {:induction false} NamedTotal(before: seq<Finding>, after: seq<Finding>, tol: real, hypot: Hypot, cs: seq<Change>, newer: bool)
    requires forall k :: 0 <= k < |cs| ==> ChangeFits(before, after, tol, hypot, cs[k])
    ensures |Named(EndsOf(cs, newer))| == TotalOf(cs, Unchanged) + TotalOf(cs, if newer then New else Fixed)
  {
    hide Candidate;
    if cs != [] {
      var front := cs[..|cs| - 1];
      NamedTotal(before, after, tol, hypot, front, newer);
      assert EndsOf(cs, newer)[..|cs| - 1] == EndsOf(front, newer);
    }
  }

  lemma OutOfRange(before: seq<Finding>, after: seq<Finding>, tol: real, hypot: Hypot, cs: seq<Change>, newer: bool, x: nat)
    requires forall k :: 0 <= k < |cs| ==> ChangeFits(before, after, tol, hypot, cs[k])
    requires x >= |if newer then after else before|
    ensures Mentions(cs, newer, x) == 0
  {
  }

  function Count(xs: seq<nat>, x: nat): (n: nat) {
    multiset(xs)[x]
  }

  lemma NoneTwice(xs: seq<nat>, i: nat, j: nat)
    requires i < j < |xs| && Count(xs, xs[i]) <= 1
    ensures xs[i] != xs[j]
  {
    assert xs == xs[..i] + [xs[i]] + xs[i + 1..j] + [xs[j]] + xs[j + 1..];
  }

  /** A list with each number below n once, and no other, has length n. */
  lemma {:induction false} EachOnce(xs: seq<nat>, n: nat)
    requires Sorting.NoDup(xs) && forall x: nat :: x in xs <==> x < n
    ensures |xs| == n
  {
    assert |xs| > 0 ==> xs[0] in xs;
    if n > 0 {
      assert n - 1 in xs;
      var k :| 0 <= k < |xs| && xs[k] == n - 1;
      var ys := xs[..k] + xs[k + 1..];
      forall y: nat ensures y in ys <==> y < n - 1 {
        if y in xs && y != n - 1 {
          var m :| 0 <= m < |xs| && xs[m] == y;
          assert ys[if m < k then m else m - 1] == y;
        }
        assert y in ys ==> y in xs && y != n - 1;
      }
      EachOnce(ys, n - 1);
    }
  }

  lemma NamedOnce(before: seq<Finding>, after: seq<Finding>, tol: real, hypot: Hypot, cs: seq<Change>, newer: bool)
    requires IsDiff(before, after, tol, hypot, cs)
    ensures |Named(EndsOf(cs, newer))| == |if newer then after else before|
  {
    hide Named, ChangeFits, StableAt;
    var n := |if newer then after else before|;
    var xs := Named(EndsOf(cs, newer));
    forall x: nat ensures Count(xs, x) == if x < n then 1 else 0 {
      NamedCounts(EndsOf(cs, newer), x);
      assert x < n ==> Mentions(cs, if newer then true else false, x) == 1;
      if x >= n {
        OutOfRange(before, after, tol, hypot, cs, newer, x);
      }
    }
    forall i, j | 0 <= i < j < |xs| ensures xs[i] != xs[j] {
      NoneTwice(xs, i, j);
    }
    forall x: nat ensures x in xs <==> x < n {
      assert x in xs <==> Count(xs, x) > 0;
    }
    EachOnce(xs, n);
  }

  /** Nothing is lost or invented: what is unchanged or fixed is all of the older version, what is
      unchanged or new is all of the newer one. */
  lemma Conserved(before: seq<Finding>, after: seq<Finding>, tol: real, hypot: Hypot, cs: seq<Change>)
    requires IsDiff(before, after, tol, hypot, cs)
    ensures TotalOf(cs, Unchanged) + TotalOf(cs, Fixed) == |before|
    ensures TotalOf(cs, Unchanged) + TotalOf(cs, New) == |after|
  {
    NamedTotal(before, after, tol, hypot, cs, false);
    NamedTotal(before, after, tol, hypot, cs, true);
    hide ChangeFits, StableAt, Named, Mentions;
    NamedOnce(before, after, tol, hypot, cs, false);
    NamedOnce(before, after, tol, hypot, cs, true);
  }

  // ---------- near before far ----------

  function Unplaced(title: string): (f: Finding) {
    Finding("", "", "", title, "", "", "", None, None, "")
  }

  /** Near pairs come strictly before far pairs of one title exactly when the tolerance is not
      negative. */
  lemma NearBeatsFar(tol: real, hypot: Hypot)
    requires IsHypot(hypot)
    ensures tol >= 0.0 <==> forall f, g, h, k :: Near(f, g, tol, hypot) && FarAlike(h, k, tol, hypot) ==>
      PairKey(f, g, tol, hypot).value < PairKey(h, k, tol, hypot).value
  {
    if tol < 0.0 {
      var f, g := Unplaced("a"), Unplaced("b");
      assert Near(f, g, tol, hypot) && FarAlike(f, f, tol, hypot);
      assert PairKey(f, g, tol, hypot).value == PairKey(f, f, tol, hypot).value;
    }
  }

  // ---------- keys ----------

  predicate NulFree(s: string) {
    forall i :: 0 <= i < |s| ==> s[i] != '\0'
  }

  lemma SplitAtNul(a: string, b: string, c: string, d: string)
    requires NulFree(a) && NulFree(c) && a + "\0" + b == c + "\0" + d
    ensures a == c && b == d
  {
    var s, t := a + "\0" + b, c + "\0" + d;
    assert s[|a|] == '\0' && t[|c|] == '\0';
    assert forall i :: 0 <= i < |a| ==> s[i] == a[i];
    assert forall i :: 0 <= i < |c| ==> t[i] == c[i];
    assert |a| == |c|;
    assert a == s[..|a|] && c == t[..|a|];
    assert b == s[|a| + 1..] && d == t[|a| + 1..];
  }

  function Nuls(s: string): (n: nat) {
    if s == "" then 0 else (if s[0] == '\0' then 1 else 0) + Nuls(s[1..])
  }

  lemma {:induction false} NulsConcat(a: string, b: string)
    ensures Nuls(a + b) == Nuls(a) + Nuls(b)
  {
    if a == "" {
      assert a + b == b;
    } else {
      assert (a + b)[1..] == a[1..] + b;
      NulsConcat(a[1..], b);
    }
  }

  lemma {:induction false} NoNuls(s: string)
    ensures NulFree(s) <==> Nuls(s) == 0
  {
    if s != "" {
      NoNuls(s[1..]);
      assert s == [s[0]] + s[1..];
    }
  }

  predicate SameGroup(f: Finding, g: Finding) {
    f.rule == g.rule && f.net == g.net && f.layer == g.layer
  }

  predicate AllNulFree(f: Finding) {
    NulFree(f.rule) && NulFree(f.net) && NulFree(f.layer)
  }

  lemma OneNul()
    ensures Nuls("\0") == 1
  {
    assert Nuls("\0") == 1 + Nuls("\0"[1..]);
  }

  lemma NulBetween(a: string, b: string)
    ensures Nuls(a + "\0" + b) == Nuls(a) + 1 + Nuls(b)
  {
    hide Nuls;
    NulsConcat(a + "\0", b);
    NulsConcat(a, "\0");
    OneNul();
  }

  lemma KeyParts(f: Finding)
    ensures KeyOf(f) == f.rule + "\0" + (f.net + "\0" + f.layer)
  {
  }

  lemma KeyNuls(f: Finding)
    ensures Nuls(KeyOf(f)) == Nuls(f.rule) + Nuls(f.net) + Nuls(f.layer) + 2
    ensures KeyOf(f) == f.rule + "\0" + (f.net + "\0" + f.layer)
  {
    hide Nuls, KeyOf;
    KeyParts(f);
    NulBetween(f.rule, f.net + "\0" + f.layer);
    NulBetween(f.net, f.layer);
  }

  lemma CleanKeySeparates(f: Finding, g: Finding)
    requires AllNulFree(f) && KeyOf(f) == KeyOf(g)
    ensures SameGroup(f, g)
  {
    hide KeyOf, NulFree;
    KeyNuls(f);
    KeyNuls(g);
    NoNuls(f.rule);
    NoNuls(f.net);
    NoNuls(f.layer);
    NoNuls(g.rule);
    NoNuls(g.net);
    SplitAtNul(f.rule, f.net + "\0" + f.layer, g.rule, g.net + "\0" + g.layer);
    SplitAtNul(f.net, f.layer, g.net, g.layer);
  }

  lemma AtNul(s: string) returns (a: string, b: string)
    requires !NulFree(s)
    ensures s == a + "\0" + b
  {
    var i :| 0 <= i < |s| && s[i] == '\0';
    a, b := s[..i], s[i + 1..];
  }

  /** A finding with a NUL in its rule, net or layer shares its key with one of another group. */
  lemma NulMerges(f: Finding) returns (g: Finding)
    requires !AllNulFree(f)
    ensures KeyOf(f) == KeyOf(g) && !SameGroup(f, g)
  {
    hide NulFree;
    if !NulFree(f.rule) {
      var a, b := AtNul(f.rule);
      g := f.(rule := a, net := b + "\0" + f.net);
      assert |g.rule| < |f.rule|;
    } else if !NulFree(f.net) {
      var a, b := AtNul(f.net);
      g := f.(net := a, layer := b + "\0" + f.layer);
      assert |g.net| < |f.net|;
    } else {
      var a, b := AtNul(f.layer);
      g := f.(net := f.net + "\0" + a, layer := b);
      assert |g.layer| < |f.layer|;
    }
    assert KeyOf(f) == KeyOf(g);
  }

  /** A finding shares its group with none of another rule, net or layer exactly when its own have no
      NUL in them. */
  lemma KeySeparatesExactly(f: Finding)
    ensures (forall g :: KeyOf(f) == KeyOf(g) ==> SameGroup(f, g)) <==> AllNulFree(f)
  {
    hide KeyOf, AllNulFree, SameGroup;
    if AllNulFree(f) {
      forall g | KeyOf(f) == KeyOf(g) ensures SameGroup(f, g) {
        CleanKeySeparates(f, g);
      }
    } else {
      var g := NulMerges(f);
    }
  }

  // ---------- reordering ----------

  /** The parts of a finding that matching reads. */
  function Seen(f: Finding): (g: Finding) {
    f.(id := "", severity := "", detail := "", action := "")
  }

  function SeenAll(fs: seq<Finding>): (r: seq<Finding>) {
    seq(|fs|, i requires 0 <= i < |fs| => Seen(fs[i]))
  }

  /** The least key any candidate can have. */
  function Base(tol: real): (d: real) {
    if tol < 0.0 then tol else 0.0
  }

  /** A candidate pair of the least key: nothing comes before it. */
  predicate Alike(f: Finding, g: Finding, tol: real, hypot: Hypot) {
    KeyOf(f) == KeyOf(g) && PairKey(f, g, tol, hypot) == Some(Base(tol))
  }

  lemma KeyAtLeastBase(f: Finding, g: Finding, tol: real, hypot: Hypot)
    requires IsHypot(hypot)
    ensures PairKey(f, g, tol, hypot).Some? ==> PairKey(f, g, tol, hypot).value >= Base(tol)
  {
  }

  lemma AlikeIsEquivalence(f: Finding, g: Finding, h: Finding, tol: real, hypot: Hypot)
    requires IsHypot(hypot)
    ensures Alike(f, f, tol, hypot)
    ensures Alike(f, g, tol, hypot) ==> Alike(g, f, tol, hypot)
    ensures Alike(f, g, tol, hypot) && Alike(g, h, tol, hypot) ==> Alike(f, h, tol, hypot)
  {
  }

  lemma SeenAlike(f: Finding, g: Finding, tol: real, hypot: Hypot)
    ensures Alike(Seen(f), g, tol, hypot) <==> Alike(f, g, tol, hypot)
  {
  }

  /** How many of the findings are alike to f. */
  function AlikeTo(fs: seq<Finding>, f: Finding, tol: real, hypot: Hypot): (n: nat) {
    if fs == [] then 0
    else AlikeTo(fs[..|fs| - 1], f, tol, hypot) + if Alike(fs[|fs| - 1], f, tol, hypot) then 1 else 0
  }

  lemma {:induction false} AlikeConcat(a: seq<Finding>, b: seq<Finding>, f: Finding, tol: real, hypot: Hypot)
    ensures AlikeTo(a + b, f, tol, hypot) == AlikeTo(a, f, tol, hypot) + AlikeTo(b, f, tol, hypot)
  {
    hide Alike;
    if b == [] {
      assert a + b == a;
    } else {
      AlikeConcat(a, b[..|b| - 1], f, tol, hypot);
      assert (a + b)[..|a + b| - 1] == a + b[..|b| - 1];
    }
  }

  lemma {:induction false} AlikePermuted(a: seq<Finding>, b: seq<Finding>, f: Finding, tol: real, hypot: Hypot)
    requires multiset(a) == multiset(b)
    ensures AlikeTo(a, f, tol, hypot) == AlikeTo(b, f, tol, hypot)
  {
    hide Alike;
    if a == [] {
      assert |b| == |multiset(b)| == |multiset(a)| == 0;
    } else {
      var k := Sorting.TakeOut(a, b);
      var l, r := b[..k], b[k + 1..];
      AlikePermuted(a[..|a| - 1], l + r, f, tol, hypot);
      AlikeConcat(l, r, f, tol, hypot);
      AlikeConcat(l + [b[k]], r, f, tol, hypot);
      AlikeConcat(l, [b[k]], f, tol, hypot);
      assert [b[k]][..0] == [];
    }
  }

  lemma {:induction false} AlikeSeen(fs: seq<Finding>, f: Finding, tol: real, hypot: Hypot)
    ensures AlikeTo(SeenAll(fs), f, tol, hypot) == AlikeTo(fs, f, tol, hypot)
  {
    if fs != [] {
      var front := fs[..|fs| - 1];
      AlikeSeen(front, f, tol, hypot);
      SeenAlike(fs[|fs| - 1], f, tol, hypot);
      assert SeenAll(fs)[..|fs| - 1] == SeenAll(front);
      hide Alike, Seen;
    }
  }

  /** The places of the findings alike to f. */
  function AlikeAt(fs: seq<Finding>, f: Finding, tol: real, hypot: Hypot): (at: set<nat>) {
    set i: nat | i < |fs| && Alike(fs[i], f, tol, hypot)
  }

  lemma AlikeAtNext(fs: seq<Finding>, f: Finding, tol: real, hypot: Hypot)
    requires fs != []
    ensures var n := |fs| - 1;
      |AlikeAt(fs, f, tol, hypot)| == |AlikeAt(fs[..n], f, tol, hypot)| + if Alike(fs[n], f, tol, hypot) then 1 else 0
  {
    hide Alike;
    var n: nat := |fs| - 1;
    var at, early := AlikeAt(fs, f, tol, hypot), AlikeAt(fs[..n], f, tol, hypot);
    assert n !in early;
    if Alike(fs[n], f, tol, hypot) {
      assert at == early + {n};
    } else {
      assert at == early;
    }
  }

  lemma {:induction false} AlikeCount(fs: seq<Finding>, f: Finding, tol: real, hypot: Hypot)
    ensures |AlikeAt(fs, f, tol, hypot)| == AlikeTo(fs, f, tol, hypot)
  {
    hide Alike;
    if fs != [] {
      AlikeCount(fs[..|fs| - 1], f, tol, hypot);
      AlikeAtNext(fs, f, tol, hypot);
    }
  }

  // ---------- the partner of each finding ----------

  lemma TwicePlaced<T>(s: seq<T>, i: nat, j: nat)
    requires i < j < |s| && s[i] == s[j]
    ensures multiset(s)[s[i]] >= 2
  {
    assert s == s[..i] + [s[i]] + s[i + 1..j] + [s[j]] + s[j + 1..];
  }

  /** A finding mentioned once is in one change only. */
  lemma MentionedOnce(cs: seq<Change>, newer: bool, x: nat, k: nat, m: nat)
    requires Mentions(cs, newer, x) == 1 && k < |cs| && m < |cs|
    requires EndOf(cs[k], newer) == EndOf(cs[m], newer) == Some(x)
    ensures k == m
  {
    var ends := EndsOf(cs, newer);
    if k < m {
      TwicePlaced(ends, k, m);
    } else if m < k {
      TwicePlaced(ends, m, k);
    }
  }

  lemma OnePartner(cs: seq<Change>, i: nat, j: nat, j': nat)
    requires Mentions(cs, false, i) == 1 && Matched(cs, i, j) && Matched(cs, i, j')
    ensures j == j'
  {
    var k :| 0 <= k < |cs| && cs[k].before == Some(i) && cs[k].after == Some(j);
    var m :| 0 <= m < |cs| && cs[m].before == Some(i) && cs[m].after == Some(j');
    MentionedOnce(cs, false, i, k, m);
  }

  lemma OneOrigin(cs: seq<Change>, i: nat, i': nat, j: nat)
    requires Mentions(cs, true, j) == 1 && Matched(cs, i, j) && Matched(cs, i', j)
    ensures i == i'
  {
    var k :| 0 <= k < |cs| && cs[k].before == Some(i) && cs[k].after == Some(j);
    var m :| 0 <= m < |cs| && cs[m].before == Some(i') && cs[m].after == Some(j);
    MentionedOnce(cs, true, j, k, m);
  }

  /** The candidate pairs that come strictly before the pair i, j. */
  ghost function EarlierPairs(before: seq<Finding>, after: seq<Finding>, tol: real, hypot: Hypot, i: nat, j: nat): (ps: set<(nat, nat)>) {
    set i': nat, j': nat | i' < |before| && j' < |after| && ComesFirst(before, after, tol, hypot, i', j', i, j) :: (i', j')
  }

  ghost predicate ComesFirst(before: seq<Finding>, after: seq<Finding>, tol: real, hypot: Hypot, i': nat, j': nat, i: nat, j: nat) {
    && Candidate(before, after, tol, hypot, i', j') && Candidate(before, after, tol, hypot, i, j) && !(i' == i && j' == j)
    && Before(RankOf(before, after, tol, hypot, i', j'), RankOf(before, after, tol, hypot, i, j))
  }

  lemma FewerEarlier(before: seq<Finding>, after: seq<Finding>, tol: real, hypot: Hypot, i': nat, j': nat, i: nat, j: nat)
    requires ComesFirst(before, after, tol, hypot, i', j', i, j)
    ensures |EarlierPairs(before, after, tol, hypot, i', j')| < |EarlierPairs(before, after, tol, hypot, i, j)|
  {
    hide KeyOf, PairKey;
    var few, more := EarlierPairs(before, after, tol, hypot, i', j'), EarlierPairs(before, after, tol, hypot, i, j);
    assert (i', j') in more && (i', j') !in few;
    assert few <= more;
    Sets.Fits(few, more);
  }

  /** A pair matched in one diff is matched in any other of the same versions. */
  lemma {:induction false} MatchedInBoth(before: seq<Finding>, after: seq<Finding>, tol: real, hypot: Hypot, cs: seq<Change>, ds: seq<Change>, i: nat, j: nat)
    requires IsDiff(before, after, tol, hypot, cs) && IsDiff(before, after, tol, hypot, ds)
    requires Candidate(before, after, tol, hypot, i, j) && Matched(cs, i, j)
    ensures Matched(ds, i, j)
    decreases |EarlierPairs(before, after, tol, hypot, i, j)|
  {
    assert StableAt(before, after, tol, hypot, ds, i, j);
    hide KeyOf, PairKey, Matched, EarlierPairs, ChangeFits;
    var i': nat, j': nat :| MatchBeats(before, after, tol, hypot, ds, i, j, i', j');
    if !(i' == i && j' == j) {
      FewerEarlier(before, after, tol, hypot, i', j', i, j);
      MatchedInBoth(before, after, tol, hypot, ds, cs, i', j');
      if i' == i {
        OnePartner(cs, i, j, j');
      } else {
        OneOrigin(cs, i, i', j);
      }
    }
  }

  lemma MatchedIsCandidate(before: seq<Finding>, after: seq<Finding>, tol: real, hypot: Hypot, cs: seq<Change>, i: nat, j: nat)
    requires IsDiff(before, after, tol, hypot, cs) && Matched(cs, i, j)
    ensures Candidate(before, after, tol, hypot, i, j)
  {
    hide KeyOf, PairKey, StableAt;
    var k :| 0 <= k < |cs| && cs[k].before == Some(i) && cs[k].after == Some(j);
    assert ChangeFits(before, after, tol, hypot, cs[k]);
  }

  /** What being such a diff says leaves no choice: any two of the same versions pair the same
      findings. */
  lemma PairsAreDetermined(before: seq<Finding>, after: seq<Finding>, tol: real, hypot: Hypot, cs: seq<Change>, ds: seq<Change>, i: nat, j: nat)
    requires IsDiff(before, after, tol, hypot, cs) && IsDiff(before, after, tol, hypot, ds)
    ensures Matched(cs, i, j) <==> Matched(ds, i, j)
  {
    hide Matched, Candidate, IsDiff;
    if Matched(cs, i, j) {
      MatchedIsCandidate(before, after, tol, hypot, cs, i, j);
      MatchedInBoth(before, after, tol, hypot, cs, ds, i, j);
    }
    if Matched(ds, i, j) {
      MatchedIsCandidate(before, after, tol, hypot, ds, i, j);
      MatchedInBoth(before, after, tol, hypot, ds, cs, i, j);
    }
  }

  /** Numbers sent to different numbers of a set are no more than the set has. */
  lemma {:induction false} Pigeonhole(keys: set<nat>, values: set<nat>, to: map<nat, nat>)
    requires to.Keys == keys && forall k :: k in keys ==> to[k] in values
    requires forall k, m :: k in keys && m in keys && k != m ==> to[k] != to[m]
    ensures |keys| <= |values|
  {
    if keys != {} {
      var k :| k in keys;
      Pigeonhole(keys - {k}, values - {to[k]}, to - {k});
    }
  }

  /** A finding alike to one that would be left over is matched with another alike finding. */
  lemma AlikeIsTaken(before: seq<Finding>, after: seq<Finding>, tol: real, hypot: Hypot, cs: seq<Change>, i: nat, j: nat) returns (i': nat)
    requires IsHypot(hypot) && IsDiff(before, after, tol, hypot, cs)
    requires i < |before| && j in AlikeAt(after, before[i], tol, hypot)
    requires forall j' :: !Matched(cs, i, j')
    ensures i' in AlikeAt(before, before[i], tol, hypot) - {i} && Matched(cs, i', j)
  {
    assert StableAt(before, after, tol, hypot, cs, i, j);
    AlikeIsEquivalence(after[j], before[i], before[i], tol, hypot);
    assert Candidate(before, after, tol, hypot, i, j);
    hide IsDiff, Matched, AlikeTo;
    var i0: nat, j0: nat :| MatchBeats(before, after, tol, hypot, cs, i, j, i0, j0);
    i' := i0;
    KeyAtLeastBase(before[i'], after[j], tol, hypot);
    hide PairKey, KeyOf;
    assert Alike(before[i'], after[j], tol, hypot);
    AlikeIsEquivalence(before[i'], after[j], before[i], tol, hypot);
  }

  /** With as many alike findings in the newer version, none of the older ones is left over. */
  lemma EachIsMatched(before: seq<Finding>, after: seq<Finding>, tol: real, hypot: Hypot, cs: seq<Change>, i: nat)
    requires IsHypot(hypot) && IsDiff(before, after, tol, hypot, cs) && i < |before|
    requires AlikeTo(before, before[i], tol, hypot) <= AlikeTo(after, before[i], tol, hypot)
    ensures exists j :: Matched(cs, i, j)
  {
    hide IsDiff, Matched, IsHypot, Alike;
    if forall j :: !Matched(cs, i, j) {
      var f := before[i];
      AlikeIsEquivalence(f, f, f, tol, hypot);
      AlikeCount(before, f, tol, hypot);
      AlikeCount(after, f, tol, hypot);
      var keys, values := AlikeAt(after, f, tol, hypot), AlikeAt(before, f, tol, hypot) - {i};
      NoRoomLeft(before, after, tol, hypot, cs, i, keys, values);
    }
  }

  lemma NoRoomLeft(before: seq<Finding>, after: seq<Finding>, tol: real, hypot: Hypot, cs: seq<Change>, i: nat, keys: set<nat>, values: set<nat>)
    requires IsHypot(hypot) && IsDiff(before, after, tol, hypot, cs) && i < |before|
    requires forall j :: !Matched(cs, i, j)
    requires keys == AlikeAt(after, before[i], tol, hypot) && values == AlikeAt(before, before[i], tol, hypot) - {i}
    requires forall x :: x in values ==> x < |before|
    ensures |keys| <= |values|
  {
    hide IsHypot, Matched, StableAt, ChangeFits, AlikeAt;
    forall j | j in keys ensures exists i' :: i' in values && Matched(cs, i', j) {
      var i' := AlikeIsTaken(before, after, tol, hypot, cs, i, j);
    }
    var to := map j: nat | j in keys :: PartnerOf(cs, values, j);
    forall j, k | j in keys && k in keys && j != k ensures to[j] != to[k] {
      if to[j] == to[k] {
        OnePartner(cs, to[j], j, k);
      }
    }
    Pigeonhole(keys, values, to);
  }

  ghost function PartnerOf(cs: seq<Change>, values: set<nat>, j: nat): (i: nat)
    requires exists i' :: i' in values && Matched(cs, i', j)
    ensures i in values && Matched(cs, i, j)
  {
    var i' :| i' in values && Matched(cs, i', j);
    i'
  }

  lemma MatchedIsUnchanged(before: seq<Finding>, after: seq<Finding>, tol: real, hypot: Hypot, cs: seq<Change>, k: nat, j: nat)
    requires IsDiff(before, after, tol, hypot, cs) && k < |cs| && cs[k].before.Some?
    requires Matched(cs, cs[k].before.value, j)
    ensures cs[k].status == Unchanged
  {
    hide StableAt, PairKey;
    var i := cs[k].before.value;
    var m :| 0 <= m < |cs| && cs[m].before == Some(i) && cs[m].after == Some(j);
    assert ChangeFits(before, after, tol, hypot, cs[k]);
    MentionedOnce(cs, false, i, k, m);
  }

  lemma {:induction false} NoneOfStatus(cs: seq<Change>, status: Status)
    ensures TotalOf(cs, status) == 0 <==> forall k :: 0 <= k < |cs| ==> cs[k].status != status
  {
    if cs != [] {
      NoneOfStatus(cs[..|cs| - 1], status);
    }
  }

  /** Findings in another order, under other ids, with other severities, details or advice: all
      are unchanged, none is fixed or new, whatever the tolerance. */
  lemma ReorderedIsUnchanged(before: seq<Finding>, after: seq<Finding>, tol: real, hypot: Hypot, cs: seq<Change>)
    requires IsHypot(hypot) && IsDiff(before, after, tol, hypot, cs)
    requires multiset(SeenAll(before)) == multiset(SeenAll(after))
    ensures forall k :: 0 <= k < |cs| ==> cs[k].status == Unchanged
    ensures TotalOf(cs, Fixed) == 0 && TotalOf(cs, New) == 0
  {
    assert |before| == |multiset(SeenAll(before))| == |multiset(SeenAll(after))| == |after|;
    hide IsHypot, StableAt, SeenAll, Alike, Candidate;
    forall k | 0 <= k < |cs| ensures cs[k].status != Fixed {
      assert ChangeFits(before, after, tol, hypot, cs[k]);
      if cs[k].before.Some? {
        var i := cs[k].before.value;
        SameAlike(before, after, before[i], tol, hypot);
        EachIsMatched(before, after, tol, hypot, cs, i);
        var j :| Matched(cs, i, j);
        MatchedIsUnchanged(before, after, tol, hypot, cs, k, j);
      }
    }
    NoneOfStatus(cs, Fixed);
    Conserved(before, after, tol, hypot, cs);
    NoneOfStatus(cs, New);
  }

  lemma SameAlike(before: seq<Finding>, after: seq<Finding>, f: Finding, tol: real, hypot: Hypot)
    requires multiset(SeenAll(before)) == multiset(SeenAll(after))
    ensures AlikeTo(before, f, tol, hypot) == AlikeTo(after, f, tol, hypot)
  {
    AlikePermuted(SeenAll(before), SeenAll(after), f, tol, hypot);
    AlikeSeen(before, f, tol, hypot);
    AlikeSeen(after, f, tol, hypot);
  }

  // ---------- severity counts and the headline ----------

  datatype SeverityCounts = SeverityCounts(critical: nat, warning: nat, info: nat, total: nat)

  type Counts = map<Status, SeverityCounts>

  /** The severity in the newer version when it has the finding. */
  function SeverityOf(before: seq<Finding>, after: seq<Finding>, c: Change): (s: string)
    requires (c.after.Some? && c.after.value < |after|) || (c.after.None? && c.before.Some? && c.before.value < |before|)
  {
    if c.after.Some? then after[c.after.value].severity else before[c.before.value].severity
  }

  /** Every change has a severity. */
  ghost predicate Rated(before: seq<Finding>, after: seq<Finding>, cs: seq<Change>) {
    forall k :: 0 <= k < |cs| ==> ((cs[k].after.Some? && cs[k].after.value < |after|)
      || (cs[k].after.None? && cs[k].before.Some? && cs[k].before.value < |before|))
  }

  /** How many changes have the status and the severity. */
  function CountOf(before: seq<Finding>, after: seq<Finding>, cs: seq<Change>, status: Status, severity: string): (n: nat)
    requires Rated(before, after, cs)
  {
    if cs == [] then 0
    else
      var n := |cs| - 1;
      CountOf(before, after, cs[..n], status, severity)
        + if cs[n].status == status && SeverityOf(before, after, cs[n]) == severity then 1 else 0
  }

  function CountsFor(before: seq<Finding>, after: seq<Finding>, cs: seq<Change>, status: Status): (n: SeverityCounts)
    requires Rated(before, after, cs)
  {
    SeverityCounts(CountOf(before, after, cs, status, "critical"), CountOf(before, after, cs, status, "warning"),
                   CountOf(before, after, cs, status, "info"), TotalOf(cs, status))
  }

  /** One more change of the severity. */
  function Bumped(n: SeverityCounts, severity: string): (m: SeverityCounts) {
    var m := n.(total := n.total + 1);
    if severity == "critical" then m.(critical := n.critical + 1)
    else if severity == "warning" then m.(warning := n.warning + 1)
    else if severity == "info" then m.(info := n.info + 1)
    else m
  }

  lemma CountsNext(before: seq<Finding>, after: seq<Finding>, cs: seq<Change>, k: nat, status: Status)
    requires Rated(before, after, cs) && k < |cs|
    ensures Rated(before, after, cs[..k]) && Rated(before, after, cs[..k + 1])
    ensures var n := CountsFor(before, after, cs[..k], status);
      CountsFor(before, after, cs[..k + 1], status)
        == if cs[k].status == status then Bumped(n, SeverityOf(before, after, cs[k])) else n
  {
    assert cs[..k + 1][..k] == cs[..k];
    var s := SeverityOf(before, after, cs[k]);
    assert !(s == "critical" && s == "warning") && !(s == "critical" && s == "info") && !(s == "warning" && s == "info");
  }

  method CountChanges(before: seq<Finding>, after: seq<Finding>, cs: seq<Change>) returns (counts: Counts)
    requires Rated(before, after, cs)
    ensures forall status :: status in counts && counts[status] == CountsFor(before, after, cs, status)
  {
    var none := SeverityCounts(0, 0, 0, 0);
    counts := map[Fixed := none, New := none, Unchanged := none];
    forall status ensures status in counts && counts[status] == none {
      assert status.Fixed? || status.New? || status.Unchanged?;
    }
    var k := 0;
    while k < |cs|
      invariant 0 <= k <= |cs| && Rated(before, after, cs[..k])
      invariant forall status :: status in counts && counts[status] == CountsFor(before, after, cs[..k], status)
    {
      hide CountsFor, Bumped;
      forall status
        ensures Rated(before, after, cs[..k + 1])
        ensures var n := CountsFor(before, after, cs[..k], status);
          CountsFor(before, after, cs[..k + 1], status)
            == if cs[k].status == status then Bumped(n, SeverityOf(before, after, cs[k])) else n
      {
        CountsNext(before, after, cs, k, status);
      }
      var c := cs[k];
      counts := counts[c.status := Bumped(counts[c.status], SeverityOf(before, after, c))];
      k := k + 1;
    }
    assert cs[..k] == cs;
  }

  lemma DiffIsRated(before: seq<Finding>, after: seq<Finding>, tol: real, hypot: Hypot, cs: seq<Change>)
    requires IsDiff(before, after, tol, hypot, cs)
    ensures Rated(before, after, cs)
  {
  }

  /** DiffFindings. */
  method DiffFindings(before: seq<Finding>, after: seq<Finding>, tol: real, hypot: Hypot) returns (changes: seq<Change>, counts: Counts)
    ensures IsDiff(before, after, tol, hypot, changes) && Rated(before, after, changes)
    ensures AllOrdered(before, after, tol, hypot, KeysMet(before, |before|, after, |after|), changes)
    ensures forall status :: status in counts && counts[status] == CountsFor(before, after, changes, status)
    ensures counts[Unchanged].total + counts[Fixed].total == |before| && counts[Unchanged].total + counts[New].total == |after|
  {
    changes := FindChanges(before, after, tol, hypot);
    DiffIsRated(before, after, tol, hypot, changes);
    Conserved(before, after, tol, hypot, changes);
    hide IsDiff, Rated, CountOf;
    counts := CountChanges(before, after, changes);
  }

  function Decimal(n: nat): (s: string) {
    if n < 10 then [Digit(n)] else Decimal(n / 10) + [Digit(n % 10)]
  }

  /** "3 fixed, 1 new", or "No change". */
  function Headline(counts: Counts): (s: string)
    requires Fixed in counts && New in counts
  {
    var fixed := if counts[Fixed].total > 0 then [Decimal(counts[Fixed].total) + " fixed"] else [];
    var added := if counts[New].total > 0 then [Decimal(counts[New].total) + " new"] else [];
    Joined(fixed + added)
  }

  function Joined(parts: seq<string>): (s: string)
    requires |parts| <= 2
  {
    if parts == [] then "No change"
    else if |parts| == 1 then parts[0]
    else parts[0] + ", " + parts[1]
  }

  lemma {:induction false} DecimalStarts(n: nat)
    ensures |Decimal(n)| > 0 && '0' <= Decimal(n)[0] <= '9'
  {
    if n >= 10 {
      DecimalStarts(n / 10);
    }
  }

  /** The headline says nothing changed exactly when nothing was fixed and nothing is new. */
  lemma QuietHeadline(counts: Counts)
    requires Fixed in counts && New in counts
    ensures Headline(counts) == "No change" <==> counts[Fixed].total == 0 && counts[New].total == 0
  {
    DecimalStarts(counts[Fixed].total);
    DecimalStarts(counts[New].total);
    if counts[Fixed].total > 0 {
      assert Headline(counts)[0] == Decimal(counts[Fixed].total)[0];
    } else if counts[New].total > 0 {
      assert Headline(counts)[0] == Decimal(counts[New].total)[0];
    }
  }
}
