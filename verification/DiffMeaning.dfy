/** What the diff of two versions says of the findings themselves: their rule, net and layer, their
    places and their titles (server/compare/compare.go). */
module DiffMeaning {
  import opened Options
  import opened Compare
  import opened CompareLaws
  import opened DiffMirror

  // ---------- which findings can be the same ----------

  /** The texts findings are grouped by are equal. */
  ghost predicate OneGroup(f: Finding, g: Finding) {
    f.rule + "\0" + f.net + "\0" + f.layer == g.rule + "\0" + g.net + "\0" + g.layer
  }

  ghost predicate OnBoard(f: Finding) {
    f.x != None && f.y != None
  }

  /** How far apart two findings on the board are. */
  ghost function Gap(f: Finding, g: Finding, hypot: Hypot): (d: real)
    requires OnBoard(f) && OnBoard(g)
  {
    hypot(f.x.value - g.x.value, f.y.value - g.y.value)
  }

  /** Both are on the board, within the tolerance or under one title; or neither is. */
  ghost predicate MayBeOne(f: Finding, g: Finding, tol: real, hypot: Hypot) {
    if OnBoard(f) && OnBoard(g) then Gap(f, g, hypot) <= tol || f.title == g.title
    else !OnBoard(f) && !OnBoard(g)
  }

  lemma KeysMean(f: Finding, g: Finding)
    ensures KeyOf(f) == KeyOf(g) <==> OneGroup(f, g)
  {
  }

  lemma CandidateMeans(before: seq<Finding>, after: seq<Finding>, tol: real, hypot: Hypot, i: nat, j: nat)
    ensures Candidate(before, after, tol, hypot, i, j) <==>
      i < |before| && j < |after| && OneGroup(before[i], after[j]) && MayBeOne(before[i], after[j], tol, hypot)
  {
  }

  /** Only findings that may be one are reported unchanged. */
  lemma UnchangedMayBeOne(before: seq<Finding>, after: seq<Finding>, tol: real, hypot: Hypot, cs: seq<Change>, c: Change)
    requires IsDiff(before, after, tol, hypot, cs) && c in cs && c.status == Unchanged
    ensures c.before.Some? && c.after.Some? && c.before.value < |before| && c.after.value < |after|
    ensures var (f, g) := (before[c.before.value], after[c.after.value]); OneGroup(f, g) && MayBeOne(f, g, tol, hypot) && c.rule == g.rule
  {
    hide Candidate, StableAt, Mentions, OneGroup, MayBeOne;
    assert ChangeFits(before, after, tol, hypot, c);
    CandidateMeans(before, after, tol, hypot, c.before.value, c.after.value);
  }

  /** No two findings that may be one are left over, one as fixed and one as new. */
  lemma LeftCannotBeOne(before: seq<Finding>, after: seq<Finding>, tol: real, hypot: Hypot, cs: seq<Change>, i: nat, j: nat)
    requires IsDiff(before, after, tol, hypot, cs) && i < |before| && j < |after|
    requires IsLeft(cs, false, i) && IsLeft(cs, true, j)
    ensures !(OneGroup(before[i], after[j]) && MayBeOne(before[i], after[j], tol, hypot))
  {
    CandidateMeans(before, after, tol, hypot, i, j);
    LeftIfUnpaired(before, after, tol, hypot, cs, false, i);
    LeftIfUnpaired(before, after, tol, hypot, cs, true, j);
    hide Candidate, IsLeft, OneGroup, MayBeOne, IsDiff, IsPaired;
    if Candidate(before, after, tol, hypot, i, j) {
      OneIsPaired(before, after, tol, hypot, cs, i, j);
    }
  }

  lemma OneIsPaired(before: seq<Finding>, after: seq<Finding>, tol: real, hypot: Hypot, cs: seq<Change>, i: nat, j: nat)
    requires IsDiff(before, after, tol, hypot, cs) && Candidate(before, after, tol, hypot, i, j)
    ensures IsPaired(cs, false, i) || IsPaired(cs, true, j)
  {
    assert StableAt(before, after, tol, hypot, cs, i, j);
    hide Candidate, IsDiff, Matched;
    var i': nat, j': nat :| MatchBeats(before, after, tol, hypot, cs, i, j, i', j');
  }

  // ---------- the closest first ----------

  /** The pair is matched, and has a finding in common with the pair i, j. */
  ghost predicate MatchedInstead(before: seq<Finding>, after: seq<Finding>, cs: seq<Change>, i: nat, j: nat, i': nat, j': nat) {
    Matched(cs, i', j') && i' < |before| && j' < |after| && (i' == i || j' == j)
  }

  /** The pair has the earlier finding of the older version, or that one too and no later one of the newer. */
  ghost predicate FoundFirst(i': nat, j': nat, i: nat, j: nat) {
    i' < i || (i' == i && j' <= j)
  }

  /** What is matched in a candidate pair's stead comes no later. */
  lemma InsteadOf(before: seq<Finding>, after: seq<Finding>, tol: real, hypot: Hypot, cs: seq<Change>, i: nat, j: nat) returns (i': nat, j': nat)
    requires IsDiff(before, after, tol, hypot, cs) && Candidate(before, after, tol, hypot, i, j)
    ensures MatchedInstead(before, after, cs, i, j, i', j') && Candidate(before, after, tol, hypot, i', j')
    ensures var (d', d) := (PairKey(before[i'], after[j'], tol, hypot).value, PairKey(before[i], after[j], tol, hypot).value);
      d' < d || (d' == d && FoundFirst(i', j', i, j))
  {
    assert StableAt(before, after, tol, hypot, cs, i, j);
    hide Candidate, IsDiff, Matched, PairKey;
    i', j' :| MatchBeats(before, after, tol, hypot, cs, i, j, i', j');
  }

  /** Of two findings of a group within the tolerance of each other, one is matched nearer by, or as near
      by in a pair that was found first. */
  lemma ClosestFirst(before: seq<Finding>, after: seq<Finding>, tol: real, hypot: Hypot, cs: seq<Change>, i: nat, j: nat) returns (i': nat, j': nat)
    requires IsDiff(before, after, tol, hypot, cs) && tol >= 0.0 && i < |before| && j < |after|
    requires OneGroup(before[i], after[j]) && OnBoard(before[i]) && OnBoard(after[j]) && Gap(before[i], after[j], hypot) <= tol
    ensures MatchedInstead(before, after, cs, i, j, i', j') && OnBoard(before[i']) && OnBoard(after[j'])
    ensures var (d', d) := (Gap(before[i'], after[j'], hypot), Gap(before[i], after[j], hypot));
      d' < d || (d' == d && FoundFirst(i', j', i, j))
  {
    CandidateMeans(before, after, tol, hypot, i, j);
    i', j' := InsteadOf(before, after, tol, hypot, cs, i, j);
    CandidateMeans(before, after, tol, hypot, i', j');
    hide IsDiff, Candidate, OneGroup, Matched;
  }

  /** Of two findings of a group and title beyond the tolerance, one is matched within it, or under its
      title nearer by, or as near by in a pair that was found first. */
  lemma TitlesNext(before: seq<Finding>, after: seq<Finding>, tol: real, hypot: Hypot, cs: seq<Change>, i: nat, j: nat) returns (i': nat, j': nat)
    requires IsDiff(before, after, tol, hypot, cs) && tol >= 0.0 && i < |before| && j < |after|
    requires OneGroup(before[i], after[j]) && OnBoard(before[i]) && OnBoard(after[j]) && before[i].title == after[j].title
    ensures MatchedInstead(before, after, cs, i, j, i', j') && OnBoard(before[i']) && OnBoard(after[j'])
    ensures
      || Gap(before[i'], after[j'], hypot) <= tol
      || (before[i'].title == after[j'].title
          && (Gap(before[i'], after[j'], hypot) < Gap(before[i], after[j], hypot)
              || (Gap(before[i'], after[j'], hypot) == Gap(before[i], after[j], hypot) && FoundFirst(i', j', i, j))))
  {
    CandidateMeans(before, after, tol, hypot, i, j);
    i', j' := InsteadOf(before, after, tol, hypot, cs, i, j);
    CandidateMeans(before, after, tol, hypot, i', j');
    hide IsDiff, Candidate, OneGroup, Matched;
  }

  /** Of two findings of a group and title that are not on the board, one is matched under its title,
      in a pair that was found first. */
  lemma SummariesByTitle(before: seq<Finding>, after: seq<Finding>, tol: real, hypot: Hypot, cs: seq<Change>, i: nat, j: nat) returns (i': nat, j': nat)
    requires IsDiff(before, after, tol, hypot, cs) && tol > 0.0 && i < |before| && j < |after|
    requires OneGroup(before[i], after[j]) && !OnBoard(before[i]) && !OnBoard(after[j]) && before[i].title == after[j].title
    ensures MatchedInstead(before, after, cs, i, j, i', j') && !OnBoard(before[i']) && !OnBoard(after[j'])
    ensures before[i'].title == after[j'].title && FoundFirst(i', j', i, j)
  {
    CandidateMeans(before, after, tol, hypot, i, j);
    i', j' := InsteadOf(before, after, tol, hypot, cs, i, j);
    CandidateMeans(before, after, tol, hypot, i', j');
    hide IsDiff, Candidate, OneGroup, Matched;
  }

  /** Without a tolerance and without equal titles, findings on the board are unchanged only at one place. */
  lemma NoToleranceSamePlace(before: seq<Finding>, after: seq<Finding>, hypot: Hypot, cs: seq<Change>, c: Change)
    requires IsHypot(hypot) && IsDiff(before, after, 0.0, hypot, cs) && c in cs && c.status == Unchanged
    requires forall f, g :: f in before && g in after ==> f.title != g.title
    ensures c.before.Some? && c.after.Some? && c.before.value < |before| && c.after.value < |after|
    ensures var (f, g) := (before[c.before.value], after[c.after.value]);
      OnBoard(f) ==> OnBoard(g) && f.x.value == g.x.value && f.y.value == g.y.value
  {
    UnchangedMayBeOne(before, after, 0.0, hypot, cs, c);
    hide IsDiff, OneGroup;
    var f, g := before[c.before.value], after[c.after.value];
    assert f in before && g in after;
  }

  // ---------- the order of the changes ----------

  /** The finding a change reports: as it now is, or as it last was. */
  ghost predicate Reports(before: seq<Finding>, after: seq<Finding>, c: Change, f: Finding) {
    match c
    case Change(_, _, _, Some(j)) => j < |after| && f == after[j]
    case Change(_, _, Some(i), None) => i < |before| && f == before[i]
    case _ => false
  }

  /** What pairs of a group are sorted by: how far apart they are, those beyond the tolerance after those
      within it; findings not on the board by whether they have one title. */
  ghost function HowFar(f: Finding, g: Finding, tol: real, hypot: Hypot): (d: real) {
    if OnBoard(f) && OnBoard(g) then (if Gap(f, g, hypot) <= tol then Gap(f, g, hypot) else tol + Gap(f, g, hypot))
    else if f.title == g.title && tol >= 0.0 then 0.0 else tol
  }

  lemma HowFarMeans(f: Finding, g: Finding, tol: real, hypot: Hypot)
    requires PairKey(f, g, tol, hypot).Some?
    ensures PairKey(f, g, tol, hypot).value == HowFar(f, g, tol, hypot)
  {
  }

  ghost predicate InOrderListed(before: seq<Finding>, after: seq<Finding>, tol: real, hypot: Hypot, c: Change, d: Change) {
    match (c, d)
    case (Change(Unchanged, _, Some(i), Some(j)), Change(Unchanged, _, Some(i'), Some(j'))) =>
      && i < |before| && j < |after| && i' < |before| && j' < |after|
      && var (far, far') := (HowFar(before[i], after[j], tol, hypot), HowFar(before[i'], after[j'], tol, hypot));
         far < far' || (far == far' && FoundFirst(i, j, i', j'))
    case (Change(Fixed, _, Some(i), _), Change(Fixed, _, Some(i'), _)) => i < i'
    case (Change(New, _, _, Some(j)), Change(New, _, _, Some(j'))) => j < j'
    case _ => c.status == Unchanged || (c.status == Fixed && d.status == New)
  }

  lemma ListedMeans(before: seq<Finding>, after: seq<Finding>, tol: real, hypot: Hypot, c: Change, d: Change)
    requires InGroupOrder(before, after, tol, hypot, c, d)
    ensures InOrderListed(before, after, tol, hypot, c, d)
  {
    hide PairKey, HowFar, KeyOf;
    if c.status == Unchanged && d.status == Unchanged && c.before.Some? && c.after.Some? && d.before.Some? && d.after.Some? {
      HowFarMeans(before[c.before.value], after[c.after.value], tol, hypot);
      HowFarMeans(before[d.before.value], after[d.after.value], tol, hypot);
    }
  }

  lemma ReportedKey(before: seq<Finding>, after: seq<Finding>, key: string, c: Change, f: Finding)
    requires OfKey(before, after, key, c) && Reports(before, after, c, f)
    ensures KeyOf(f) == key
  {
  }

  /** Changes of one group are listed unchanged, then fixed, then new: the unchanged from the closest
      pair on, and as far apart as each other as they were found; the others as they are in their version. */
  lemma ListedInOrder(before: seq<Finding>, after: seq<Finding>, tol: real, hypot: Hypot, cs: seq<Change>, k: nat, l: nat,
                      f: Finding, g: Finding)
    requires AllOrdered(before, after, tol, hypot, KeysMet(before, |before|, after, |after|), cs) && k < l < |cs|
    requires Reports(before, after, cs[k], f) && Reports(before, after, cs[l], g) && OneGroup(f, g)
    ensures InOrderListed(before, after, tol, hypot, cs[k], cs[l])
  {
    hide KeyOf, OfKey, InGroupOrder, InOrderListed, KeysMet, OneGroup, Reports;
    var order := KeysMet(before, |before|, after, |after|);
    var x, y := Followed(before, after, tol, hypot, order, cs, k, l);
    ReportedKey(before, after, order[x], cs[k], f);
    ReportedKey(before, after, order[y], cs[l], g);
    KeysMean(f, g);
    if x < y {
      KeysDiffer(before, after, x, y);
    }
    ListedMeans(before, after, tol, hypot, cs[k], cs[l]);
  }

  lemma Followed(before: seq<Finding>, after: seq<Finding>, tol: real, hypot: Hypot, order: seq<string>, cs: seq<Change>, k: nat, l: nat)
    returns (x: nat, y: nat)
    requires AllOrdered(before, after, tol, hypot, order, cs) && k < l < |cs|
    ensures x <= y < |order| && OfKey(before, after, order[x], cs[k]) && OfKey(before, after, order[y], cs[l])
    ensures x == y ==> InGroupOrder(before, after, tol, hypot, cs[k], cs[l])
  {
    hide OfKey, InGroupOrder;
    assert Follows(before, after, tol, hypot, order, cs[k], cs[l]);
    x, y :| 0 <= x <= y < |order| && OfKey(before, after, order[x], cs[k]) && OfKey(before, after, order[y], cs[l])
      && (x == y ==> InGroupOrder(before, after, tol, hypot, cs[k], cs[l]));
  }

  lemma KeysDiffer(before: seq<Finding>, after: seq<Finding>, x: nat, y: nat)
    requires x < y < |KeysMet(before, |before|, after, |after|)|
    ensures KeysMet(before, |before|, after, |after|)[x] != KeysMet(before, |before|, after, |after|)[y]
  {
    KeysMetOnce(before, |before|, after, |after|);
  }

  ghost predicate Once(keys: seq<string>) {
    forall x, y :: 0 <= x < y < |keys| ==> keys[x] != keys[y]
  }

  lemma {:induction false} KeysMetOnce(before: seq<Finding>, m: nat, after: seq<Finding>, n: nat)
    requires m <= |before| && n <= |after|
    ensures Once(KeysMet(before, m, after, n))
    decreases n, m
  {
    hide KeyOf, Once;
    NoKeys();
    if n > 0 {
      KeysMetOnce(before, m, after, n - 1);
      ListedOnce(KeysMet(before, m, after, n - 1), KeyOf(after[n - 1]));
    } else if m > 0 {
      KeysMetOnce(before, m - 1, after, 0);
      ListedOnce(KeysMet(before, m - 1, after, 0), KeyOf(before[m - 1]));
    }
  }

  lemma NoKeys()
    ensures Once([])
  {
  }

  lemma ListedOnce(order: seq<string>, key: string)
    requires Once(order)
    ensures Once(Listed(order, key))
  {
    assert forall x :: 0 <= x < |order| ==> order[x] in order;
  }

  /** The groups come as they are first met, in the older version and then in the newer. */
  lemma GroupsAsMet(before: seq<Finding>, after: seq<Finding>, tol: real, hypot: Hypot, cs: seq<Change>, k: nat, l: nat,
                    f: Finding, g: Finding, z: nat) returns (w: nat)
    requires AllOrdered(before, after, tol, hypot, KeysMet(before, |before|, after, |after|), cs) && k < l < |cs|
    requires Reports(before, after, cs[k], f) && Reports(before, after, cs[l], g) && !OneGroup(f, g)
    requires z < |before| + |after| && OneGroup((before + after)[z], g)
    ensures w < z && OneGroup((before + after)[w], f)
  {
    hide KeyOf, OfKey, InGroupOrder, KeysMet, OneGroup, Reports;
    var order := KeysMet(before, |before|, after, |after|);
    var x, y := Followed(before, after, tol, hypot, order, cs, k, l);
    ReportedKey(before, after, order[x], cs[k], f);
    ReportedKey(before, after, order[y], cs[l], g);
    KeysMean(f, g);
    NthIsThere(before, after, z);
    KeysMean((before + after)[z], g);
    ListedAsMet(before, |before|, after, |after|, x, y, z);
    w :| 0 <= w < z && KeyOf(Nth(before, after, w)) == order[x];
    NthIsThere(before, after, w);
    KeysMean((before + after)[w], f);
  }

  lemma NthIsThere(before: seq<Finding>, after: seq<Finding>, z: nat)
    requires z < |before| + |after|
    ensures Nth(before, after, z) == (before + after)[z]
  {
  }

  // ---------- the counts ----------

  /** The change is of the status, and the finding, as it now is or as it last was, of the severity. */
  ghost predicate CountsAs(before: seq<Finding>, after: seq<Finding>, c: Change, status: Status, severity: string) {
    && c.status == status
    && match c
       case Change(Fixed, _, Some(i), _) => i < |before| && before[i].severity == severity
       case Change(_, _, _, Some(j)) => j < |after| && after[j].severity == severity
       case _ => false
  }

  ghost function Counted(before: seq<Finding>, after: seq<Finding>, cs: seq<Change>, status: Status, severity: string): (ks: set<nat>) {
    set k: nat | k < |cs| && CountsAs(before, after, cs[k], status, severity)
  }

  lemma SeverityMeans(before: seq<Finding>, after: seq<Finding>, tol: real, hypot: Hypot, c: Change, status: Status, severity: string)
    requires ChangeFits(before, after, tol, hypot, c)
    ensures (c.after.Some? && c.after.value < |after|) || (c.after.None? && c.before.Some? && c.before.value < |before|)
    ensures c.status == status && SeverityOf(before, after, c) == severity <==> CountsAs(before, after, c, status, severity)
  {
    hide PairKey, KeyOf;
  }

  lemma OneMoreIn(early: set<nat>, all: set<nat>, n: nat, more: bool)
    requires n !in early && forall k: nat :: k in all <==> k in early || (more && k == n)
    ensures |all| == |early| + if more then 1 else 0
  {
    assert all == if more then early + {n} else early;
  }

  lemma CountedNext(before: seq<Finding>, after: seq<Finding>, cs: seq<Change>, c: Change, status: Status, severity: string)
    ensures |Counted(before, after, cs + [c], status, severity)|
         == |Counted(before, after, cs, status, severity)| + if CountsAs(before, after, c, status, severity) then 1 else 0
  {
    hide CountsAs;
    var n, all := |cs|, cs + [c];
    assert all[n] == c && forall k :: 0 <= k < n ==> all[k] == cs[k];
    OneMoreIn(Counted(before, after, cs, status, severity), Counted(before, after, all, status, severity), n, CountsAs(before, after, c, status, severity));
  }

  /** The counts by severity are of exactly such changes. */
  lemma {:induction false} CountsMean(before: seq<Finding>, after: seq<Finding>, tol: real, hypot: Hypot, cs: seq<Change>, status: Status, severity: string)
    requires (forall k :: 0 <= k < |cs| ==> ChangeFits(before, after, tol, hypot, cs[k])) && Rated(before, after, cs)
    ensures CountOf(before, after, cs, status, severity) == |Counted(before, after, cs, status, severity)|
  {
    hide ChangeFits, SeverityOf, CountsAs;
    if cs != [] {
      var n := |cs| - 1;
      CountsMean(before, after, tol, hypot, cs[..n], status, severity);
      SeverityMeans(before, after, tol, hypot, cs[n], status, severity);
      CountedNext(before, after, cs[..n], cs[n], status, severity);
      assert cs == cs[..n] + [cs[n]];
      hide Counted;
    }
  }

  /** Each status has its changes counted by severity, and all of them in the total. */
  lemma StatusCounted(before: seq<Finding>, after: seq<Finding>, tol: real, hypot: Hypot, cs: seq<Change>, status: Status)
    requires IsDiff(before, after, tol, hypot, cs) && Rated(before, after, cs)
    ensures var n := CountsFor(before, after, cs, status);
      && n.critical == |Counted(before, after, cs, status, "critical")| && n.warning == |Counted(before, after, cs, status, "warning")|
      && n.info == |Counted(before, after, cs, status, "info")| && n.total == |OfStatus(cs, status)|
  {
    CountsMean(before, after, tol, hypot, cs, status, "critical");
    CountsMean(before, after, tol, hypot, cs, status, "warning");
    CountsMean(before, after, tol, hypot, cs, status, "info");
    TotalsMean(cs, status);
    hide IsDiff, Counted, OfStatus, CountOf, TotalOf, Rated;
  }

  ghost function OfStatus(cs: seq<Change>, status: Status): (ks: set<nat>) {
    set k: nat | k < |cs| && cs[k].status == status
  }

  lemma OfStatusNext(cs: seq<Change>, c: Change, status: Status)
    ensures |OfStatus(cs + [c], status)| == |OfStatus(cs, status)| + if c.status == status then 1 else 0
  {
    var n, all := |cs|, cs + [c];
    assert all[n] == c && forall k :: 0 <= k < n ==> all[k] == cs[k];
    OneMoreIn(OfStatus(cs, status), OfStatus(all, status), n, c.status == status);
  }

  lemma {:induction false} TotalsMean(cs: seq<Change>, status: Status)
    ensures TotalOf(cs, status) == |OfStatus(cs, status)|
  {
    hide OfStatus;
    if cs == [] {
      NoneOfStatus(status);
    } else {
      var n := |cs| - 1;
      TotalsMean(cs[..n], status);
      OfStatusNext(cs[..n], cs[n], status);
      assert cs == cs[..n] + [cs[n]];
    }
  }

  lemma NoneOfStatus(status: Status)
    ensures OfStatus([], status) == {}
  {
  }

  // ---------- the headline ----------

  /** The number a decimal text stands for. */
  function Read(s: string): (n: int) {
    if s == "" then 0 else Read(s[..|s| - 1]) * 10 + (s[|s| - 1] as int - '0' as int)
  }

  /** A count is written in digits that read as it, without a leading zero. */
  lemma {:induction false} DecimalReads(n: nat)
    ensures Read(Decimal(n)) == n && Decimal(n) != "" && (n > 0 ==> Decimal(n)[0] != '0')
    ensures forall k :: 0 <= k < |Decimal(n)| ==> '0' <= Decimal(n)[k] <= '9'
  {
    if n >= 10 {
      DecimalReads(n / 10);
      assert Decimal(n)[..|Decimal(n)| - 1] == Decimal(n / 10);
    } else {
      assert Decimal(n)[..0] == "";
      assert Read("") == 0;
    }
  }

  /** The headline names what is fixed, then what is new, each only if there is any. */
  lemma HeadlineSays(counts: Counts)
    requires Fixed in counts && New in counts
    ensures var (f, n) := (counts[Fixed].total, counts[New].total);
      Headline(counts) ==
        if f > 0 && n > 0 then Decimal(f) + " fixed, " + Decimal(n) + " new"
        else if f > 0 then Decimal(f) + " fixed"
        else if n > 0 then Decimal(n) + " new"
        else "No change"
  {
    var (f, n) := (counts[Fixed].total, counts[New].total);
    if f > 0 && n > 0 {
      assert Decimal(f) + " fixed" + ", " + (Decimal(n) + " new") == Decimal(f) + " fixed, " + Decimal(n) + " new";
    }
  }
}
