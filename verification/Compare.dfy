/** What changed between the findings of two versions of a board (server/compare/compare.go). */
module Compare {
  import opened Options
  import opened Matching
  import Sorting

  datatype Finding = Finding(id: string, rule: string, severity: string, title: string, detail: string,
                             net: string, layer: string, x: Option<real>, y: Option<real>, action: string)

  /** A distance function as the library's Hypot: never negative, zero only for no difference. */
  type Hypot = (real, real) -> real

  ghost predicate IsHypot(hypot: Hypot) {
    forall dx, dy :: hypot(dx, dy) >= 0.0 && (hypot(dx, dy) == 0.0 <==> dx == 0.0 && dy == 0.0)
  }

  predicate Located(f: Finding) {
    f.x.Some? && f.y.Some?
  }

  /** How far apart two findings are; None when they cannot be the same finding. */
  function Distance(f: Finding, g: Finding, tol: real, hypot: Hypot): (d: Option<real>) {
    if Located(f) != Located(g) then None
    else if !Located(f) then Some(if f.title == g.title then 0.0 else tol)
    else Some(hypot(f.x.value - g.x.value, f.y.value - g.y.value))
  }

  /** What a finding is matched within: its rule, net and layer. */
  function KeyOf(f: Finding): (key: string) {
    f.rule + "\0" + f.net + "\0" + f.layer
  }

  predicate Near(f: Finding, g: Finding, tol: real, hypot: Hypot) {
    var d := Distance(f, g, tol, hypot);
    d.Some? && d.value <= tol
  }

  predicate FarAlike(f: Finding, g: Finding, tol: real, hypot: Hypot) {
    var d := Distance(f, g, tol, hypot);
    d.Some? && d.value > tol && f.title == g.title
  }

  /** The sort key of a pair of one group, if the pair is a candidate: near pairs by distance, and
      pairs of one title further apart after them. */
  function PairKey(f: Finding, g: Finding, tol: real, hypot: Hypot): (key: Option<real>) {
    if Near(f, g, tol, hypot) then Distance(f, g, tol, hypot)
    else if FarAlike(f, g, tol, hypot) then Some(tol + Distance(f, g, tol, hypot).value)
    else None
  }

  // ---------- groups ----------

  /** Where in the first n findings the key is, in order. */
  function Where(fs: seq<Finding>, key: string, n: nat): (at: seq<nat>)
    requires n <= |fs|
  {
    if n == 0 then []
    else if KeyOf(fs[n - 1]) == key then Where(fs, key, n - 1) + [n - 1]
    else Where(fs, key, n - 1)
  }

  lemma {:induction false} WhereMembers(fs: seq<Finding>, key: string, n: nat, i: nat)
    requires n <= |fs|
    ensures i in Where(fs, key, n) <==> i < n && KeyOf(fs[i]) == key
  {
    if n > 0 {
      WhereMembers(fs, key, n - 1, i);
    }
  }

  lemma {:induction false} WhereAscends(fs: seq<Finding>, key: string, n: nat, x: nat, y: nat)
    requires n <= |fs| && x < y < |Where(fs, key, n)|
    ensures Where(fs, key, n)[x] < Where(fs, key, n)[y]
  {
    var early := Where(fs, key, n - 1);
    if y < |early| {
      WhereAscends(fs, key, n - 1, x, y);
    } else {
      assert early[x] in early;
      WhereMembers(fs, key, n - 1, early[x]);
    }
  }

  datatype Group = Group(a: seq<nat>, b: seq<nat>)

  type Groups = map<string, Group>

  /** The group of the key, an empty one if there is none yet. */
  function GroupAt(groups: Groups, key: string): (g: Group) {
    if key in groups then groups[key] else Group([], [])
  }

  function WithBefore(groups: Groups, key: string, i: nat): (r: Groups) {
    var g := GroupAt(groups, key);
    groups[key := Group(g.a + [i], g.b)]
  }

  function WithAfter(groups: Groups, key: string, j: nat): (r: Groups) {
    var g := GroupAt(groups, key);
    groups[key := Group(g.a, g.b + [j])]
  }

  /** Every key met so far is listed once, with its findings. */
  ghost predicate Grouped(before: seq<Finding>, m: nat, after: seq<Finding>, n: nat, order: seq<string>, groups: Groups)
    requires m <= |before| && n <= |after|
  {
    KeysListed(order, groups) && AllGrouped(before, m, after, n, groups)
  }

  ghost predicate KeysListed(order: seq<string>, groups: Groups) {
    Sorting.NoDup(order) && forall key :: key in order <==> key in groups
  }

  ghost predicate AllGrouped(before: seq<Finding>, m: nat, after: seq<Finding>, n: nat, groups: Groups)
    requires m <= |before| && n <= |after|
  {
    forall key :: GroupAt(groups, key) == Group(Where(before, key, m), Where(after, key, n))
  }

  function Listed(order: seq<string>, key: string): (r: seq<string>) {
    if key in order then order else order + [key]
  }

  /** The keys in the order they are first met, of the first m older and then n newer findings. */
  function KeysMet(before: seq<Finding>, m: nat, after: seq<Finding>, n: nat): (order: seq<string>)
    requires m <= |before| && n <= |after|
  {
    if n > 0 then Listed(KeysMet(before, m, after, n - 1), KeyOf(after[n - 1]))
    else if m > 0 then Listed(KeysMet(before, m - 1, after, 0), KeyOf(before[m - 1]))
    else []
  }

  /** The finding at a place of the older list followed by the newer. */
  function Nth(before: seq<Finding>, after: seq<Finding>, z: nat): (f: Finding)
    requires z < |before| + |after|
  {
    if z < |before| then before[z] else after[z - |before|]
  }

  lemma {:induction false} KeysMetMembers(before: seq<Finding>, m: nat, after: seq<Finding>, n: nat, key: string)
    requires m <= |before| && n <= |after| && (n > 0 ==> m == |before|)
    ensures key in KeysMet(before, m, after, n) <==> exists z :: 0 <= z < m + n && KeyOf(Nth(before, after, z)) == key
    decreases n, m
  {
    hide KeyOf;
    if n > 0 {
      KeysMetMembers(before, m, after, n - 1, key);
      assert Nth(before, after, m + n - 1) == after[n - 1];
    } else if m > 0 {
      KeysMetMembers(before, m - 1, after, 0, key);
      assert Nth(before, after, m - 1) == before[m - 1];
    }
  }

  /** A key listed before another was met before every finding of the other. */
  lemma {:induction false} ListedAsMet(before: seq<Finding>, m: nat, after: seq<Finding>, n: nat, x: nat, y: nat, z: nat)
    requires m <= |before| && n <= |after| && (n > 0 ==> m == |before|)
    requires x < y < |KeysMet(before, m, after, n)| && z < m + n
    requires KeyOf(Nth(before, after, z)) == KeysMet(before, m, after, n)[y]
    ensures exists w :: 0 <= w < z && KeyOf(Nth(before, after, w)) == KeysMet(before, m, after, n)[x]
    decreases n, m
  {
    hide KeyOf;
    var (i, j) := if n > 0 then (m, n - 1) else (m - 1, 0);
    var early, key := KeysMet(before, i, after, j), KeyOf(Nth(before, after, m + n - 1));
    assert KeysMet(before, m, after, n) == Listed(early, key);
    assert early[x] in early;
    KeysMetMembers(before, i, after, j, early[x]);
    if y < |early| {
      if z < m + n - 1 {
        ListedAsMet(before, i, after, j, x, y, z);
      }
    } else {
      KeysMetMembers(before, i, after, j, key);
    }
  }

  lemma GroupBefore(before: seq<Finding>, m: nat, after: seq<Finding>, order: seq<string>, groups: Groups)
    requires m < |before| && Grouped(before, m, after, 0, order, groups)
    ensures var key := KeyOf(before[m]);
      Grouped(before, m + 1, after, 0, Listed(order, key), WithBefore(groups, key, m))
  {
  }

  lemma GroupAfter(before: seq<Finding>, after: seq<Finding>, n: nat, order: seq<string>, groups: Groups)
    requires n < |after| && Grouped(before, |before|, after, n, order, groups)
    ensures var key := KeyOf(after[n]);
      Grouped(before, |before|, after, n + 1, Listed(order, key), WithAfter(groups, key, n))
  {
  }

  method GroupFindings(before: seq<Finding>, after: seq<Finding>) returns (order: seq<string>, groups: Groups)
    ensures Grouped(before, |before|, after, |after|, order, groups) && order == KeysMet(before, |before|, after, |after|)
  {
    order, groups := [], map[];
    assert Grouped(before, 0, after, 0, order, groups);
    hide Grouped, KeyOf, Where, Listed, WithBefore, WithAfter;
    var i := 0;
    while i < |before|
      invariant 0 <= i <= |before| && Grouped(before, i, after, 0, order, groups) && order == KeysMet(before, i, after, 0)
    {
      GroupBefore(before, i, after, order, groups);
      var key := KeyOf(before[i]);
      order, groups := Listed(order, key), WithBefore(groups, key, i);
      i := i + 1;
    }
    var j := 0;
    while j < |after|
      invariant 0 <= j <= |after| && Grouped(before, |before|, after, j, order, groups) && order == KeysMet(before, |before|, after, j)
    {
      GroupAfter(before, after, j, order, groups);
      var key := KeyOf(after[j]);
      order, groups := Listed(order, key), WithAfter(groups, key, j);
      j := j + 1;
    }
  }

  // ---------- the candidates of one group ----------

  /** One group's findings, and how they are matched. */
  datatype Query = Query(a: seq<Finding>, b: seq<Finding>, tol: real, hypot: Hypot)

  /** The pair of places i and j, if it is a candidate of the tier. */
  function PairsAt(q: Query, far: bool, i: nat, j: nat): (r: seq<Pair>)
    requires i < |q.a| && j < |q.b|
  {
    var f, g := q.a[i], q.b[j];
    if far then
      (if FarAlike(f, g, q.tol, q.hypot) then [Pair(q.tol + Distance(f, g, q.tol, q.hypot).value, i, j)] else [])
    else
      (if Near(f, g, q.tol, q.hypot) then [Pair(Distance(f, g, q.tol, q.hypot).value, i, j)] else [])
  }

  function Row(q: Query, far: bool, i: nat, n: nat): (r: seq<Pair>)
    requires i < |q.a| && n <= |q.b|
  {
    if n == 0 then [] else Row(q, far, i, n - 1) + PairsAt(q, far, i, n - 1)
  }

  function Rows(q: Query, far: bool, m: nat): (r: seq<Pair>)
    requires m <= |q.a|
  {
    if m == 0 then [] else Rows(q, far, m - 1) + Row(q, far, m - 1, |q.b|)
  }

  ghost predicate InRow(q: Query, far: bool, i: nat, n: nat, p: Pair)
    requires i < |q.a| && n <= |q.b|
  {
    p.i == i && p.j < n && PairsAt(q, far, i, p.j) == [p]
  }

  lemma {:induction false} RowMember(q: Query, far: bool, i: nat, n: nat, p: Pair)
    requires i < |q.a| && n <= |q.b|
    ensures p in Row(q, far, i, n) <==> InRow(q, far, i, n, p)
  {
    hide PairsAt;
    if n > 0 {
      RowMember(q, far, i, n - 1, p);
      OnePairAt(q, far, i, n - 1, p);
    }
  }

  lemma OnePairAt(q: Query, far: bool, i: nat, j: nat, p: Pair)
    requires i < |q.a| && j < |q.b|
    ensures p in PairsAt(q, far, i, j) <==> PairsAt(q, far, i, j) == [p]
    ensures p in PairsAt(q, far, i, j) ==> p.i == i && p.j == j
  {
  }

  lemma {:induction false} RowsMember(q: Query, far: bool, m: nat, p: Pair)
    requires m <= |q.a|
    ensures p in Rows(q, far, m) <==> p.i < m && p.j < |q.b| && PairsAt(q, far, p.i, p.j) == [p]
  {
    hide PairsAt;
    if m > 0 {
      RowsMember(q, far, m - 1, p);
      RowMember(q, far, m - 1, |q.b|, p);
    }
  }

  lemma {:induction false} RowAscends(q: Query, far: bool, i: nat, n: nat, x: nat, y: nat)
    requires i < |q.a| && n <= |q.b| && x < y < |Row(q, far, i, n)|
    ensures Row(q, far, i, n)[x].i == Row(q, far, i, n)[y].i == i && Row(q, far, i, n)[x].j < Row(q, far, i, n)[y].j
  {
    var early := Row(q, far, i, n - 1);
    if y < |early| {
      RowAscends(q, far, i, n - 1, x, y);
    } else {
      assert early[x] in early;
      RowMember(q, far, i, n - 1, early[x]);
      assert |PairsAt(q, far, i, n - 1)| <= 1;
    }
  }

  lemma {:induction false} RowsAscend(q: Query, far: bool, m: nat, x: nat, y: nat)
    requires m <= |q.a| && x < y < |Rows(q, far, m)|
    ensures Rows(q, far, m)[x] != Rows(q, far, m)[y]
  {
    hide PairsAt;
    var early, row := Rows(q, far, m - 1), Row(q, far, m - 1, |q.b|);
    if y < |early| {
      RowsAscend(q, far, m - 1, x, y);
    } else if x < |early| {
      assert early[x] in early && row[y - |early|] in row;
      RowsMember(q, far, m - 1, early[x]);
      RowMember(q, far, m - 1, |q.b|, row[y - |early|]);
    } else {
      RowAscends(q, far, m - 1, |q.b|, x - |early|, y - |early|);
    }
  }

  /** The candidates in the order they are collected: the near pairs, then the far ones. */
  function Collected(q: Query): (pairs: seq<Pair>) {
    Rows(q, false, |q.a|) + Rows(q, true, |q.a|)
  }

  ghost predicate IsCandidate(q: Query, p: Pair) {
    p.i < |q.a| && p.j < |q.b| && PairKey(q.a[p.i], q.b[p.j], q.tol, q.hypot) == Some(p.d)
  }

  lemma TierOf(q: Query, p: Pair)
    requires p.i < |q.a| && p.j < |q.b|
    ensures IsCandidate(q, p) <==> PairsAt(q, false, p.i, p.j) == [p] || PairsAt(q, true, p.i, p.j) == [p]
    ensures PairsAt(q, false, p.i, p.j) == [] || PairsAt(q, true, p.i, p.j) == []
  {
  }

  lemma CollectedMember(q: Query, p: Pair)
    ensures p in Collected(q) <==> IsCandidate(q, p)
  {
    RowsMember(q, false, |q.a|, p);
    RowsMember(q, true, |q.a|, p);
    if p.i < |q.a| && p.j < |q.b| {
      TierOf(q, p);
    }
    hide PairsAt;
  }

  lemma CollectedOnce(q: Query)
    ensures Sorting.NoDup(Collected(q))
  {
    hide PairsAt;
    var near, far := Rows(q, false, |q.a|), Rows(q, true, |q.a|);
    var all := Collected(q);
    forall x, y | 0 <= x < y < |all| ensures all[x] != all[y] {
      if y < |near| {
        RowsAscend(q, false, |q.a|, x, y);
      } else if x < |near| {
        assert near[x] in near && far[y - |near|] in far;
        RowsMember(q, false, |q.a|, near[x]);
        RowsMember(q, true, |q.a|, far[y - |near|]);
        TierOf(q, near[x]);
      } else {
        RowsAscend(q, true, |q.a|, x - |near|, y - |near|);
      }
    }
  }

  /** The candidates, each once, in the order they are tried. */
  ghost predicate IsTryOrder(q: Query, pairs: seq<Pair>) {
    Ascending(pairs) && forall p :: p in pairs <==> IsCandidate(q, p)
  }

  lemma SortedIsTryOrder(q: Query, pairs: seq<Pair>)
    requires Sorting.SortedBy(pairs, PairOrder()) && multiset(pairs) == multiset(Collected(q))
    ensures IsTryOrder(q, pairs)
  {
    CollectedOnce(q);
    Sorting.NoDupPermuted(Collected(q), pairs);
    Sorting.SameMembers(Collected(q), pairs);
    hide Collected, IsCandidate;
    forall p ensures p in pairs <==> IsCandidate(q, p) {
      CollectedMember(q, p);
    }
    forall x, y | 0 <= x < y < |pairs| ensures Before(pairs[x], pairs[y]) {
      assert PairOrder()(pairs[x], pairs[y]);
    }
  }

  method CollectTier(q: Query, far: bool, before: seq<Pair>) returns (pairs: seq<Pair>)
    ensures pairs == before + Rows(q, far, |q.a|)
  {
    hide PairsAt;
    pairs := before;
    var i := 0;
    while i < |q.a|
      invariant 0 <= i <= |q.a| && pairs == before + Rows(q, far, i)
    {
      var j := 0;
      while j < |q.b|
        invariant 0 <= j <= |q.b| && pairs == before + (Rows(q, far, i) + Row(q, far, i, j))
      {
        pairs := pairs + PairsAt(q, far, i, j);
        assert Rows(q, far, i) + Row(q, far, i, j + 1) == Rows(q, far, i) + Row(q, far, i, j) + PairsAt(q, far, i, j);
        j := j + 1;
      }
      i := i + 1;
    }
  }

  // ---------- taking them in order ----------

  ghost predicate Marks(used: seq<bool>, taken: seq<Pair>, newer: bool) {
    forall x: nat :: x < |used| ==> (used[x] <==> Uses(taken, newer, x))
  }

  lemma MarkTaken(used: seq<bool>, taken: seq<Pair>, newer: bool, p: Pair)
    requires Marks(used, taken, newer) && Place(p, newer) < |used|
    ensures Marks(used[Place(p, newer) := true], taken + [p], newer)
  {
    hide Place;
    var x := Place(p, newer);
    var taken' := taken + [p];
    forall y: nat | y < |used| ensures used[x := true][y] <==> Uses(taken', newer, y) {
      assert taken'[|taken|] == p;
      if used[y] {
        var z :| 0 <= z < |taken| && Place(taken[z], newer) == y;
        assert taken'[z] == taken[z];
      }
    }
  }

  lemma BlockedIffUsed(taken: seq<Pair>, p: Pair)
    ensures Blocked(taken, p) <==> Uses(taken, false, p.i) || Uses(taken, true, p.j)
  {
  }

  /** Each candidate in turn, unless one of its ends is used. */
  method TakeInOrder(q: Query, pairs: seq<Pair>) returns (taken: seq<Pair>, usedA: array<bool>, usedB: array<bool>)
    requires forall k :: 0 <= k < |pairs| ==> pairs[k].i < |q.a| && pairs[k].j < |q.b|
    ensures taken == Taken(pairs, |pairs|)
    ensures fresh(usedA) && fresh(usedB) && usedA.Length == |q.a| && usedB.Length == |q.b|
    ensures Marks(usedA[..], taken, false) && Marks(usedB[..], taken, true)
  {
    usedA := new bool[|q.a|](_ => false);
    usedB := new bool[|q.b|](_ => false);
    taken := [];
    var k := 0;
    while k < |pairs|
      invariant 0 <= k <= |pairs| && taken == Taken(pairs, k)
      invariant usedA != usedB
      invariant Marks(usedA[..], taken, false) && Marks(usedB[..], taken, true)
    {
      var p := pairs[k];
      BlockedIffUsed(taken, p);
      hide Blocked, Uses;
      assert usedA[p.i] == usedA[..][p.i] && usedB[p.j] == usedB[..][p.j];
      if !usedA[p.i] && !usedB[p.j] {
        MarkTaken(usedA[..], taken, false, p);
        MarkTaken(usedB[..], taken, true, p);
        hide Marks;
        ghost var a, b := usedA[..], usedB[..];
        usedA[p.i] := true;
        usedB[p.j] := true;
        assert usedA[..] == a[p.i := true] && usedB[..] == b[p.j := true];
        taken := taken + [p];
      }
      k := k + 1;
    }
  }

  // ---------- changes ----------

  datatype Status = Fixed | New | Unchanged

  /** One finding of either version, named by its place in its list. */
  datatype Change = Change(status: Status, rule: string, before: Option<nat>, after: Option<nat>)

  ghost predicate Candidate(before: seq<Finding>, after: seq<Finding>, tol: real, hypot: Hypot, i: nat, j: nat) {
    && i < |before| && j < |after| && KeyOf(before[i]) == KeyOf(after[j])
    && PairKey(before[i], after[j], tol, hypot).Some?
  }

  /** The status says which versions have the finding, the rule is the newer version's when it has
      one, and only a candidate pair is unchanged. */
  ghost predicate ChangeFits(before: seq<Finding>, after: seq<Finding>, tol: real, hypot: Hypot, c: Change) {
    match c
    case Change(Unchanged, rule, Some(i), Some(j)) => Candidate(before, after, tol, hypot, i, j) && rule == after[j].rule
    case Change(Fixed, rule, Some(i), None) => i < |before| && rule == before[i].rule
    case Change(New, rule, None, Some(j)) => j < |after| && rule == after[j].rule
    case _ => false
  }

  ghost predicate OfKey(before: seq<Finding>, after: seq<Finding>, key: string, c: Change) {
    && (c.before.Some? ==> c.before.value < |before| && KeyOf(before[c.before.value]) == key)
    && (c.after.Some? ==> c.after.value < |after| && KeyOf(after[c.after.value]) == key)
  }

  function EndOf(c: Change, newer: bool): (end: Option<nat>) {
    if newer then c.after else c.before
  }

  /** The findings of one version that the changes name, in order. */
  function EndsOf(cs: seq<Change>, newer: bool): (ends: seq<Option<nat>>) {
    seq(|cs|, k requires 0 <= k < |cs| => EndOf(cs[k], newer))
  }

  /** How often the changes name a finding of one version. */
  function Mentions(cs: seq<Change>, newer: bool, x: nat): (n: nat) {
    multiset(EndsOf(cs, newer))[Some(x)]
  }

  lemma MentionsConcat(cs: seq<Change>, ds: seq<Change>, newer: bool, x: nat)
    ensures Mentions(cs + ds, newer, x) == Mentions(cs, newer, x) + Mentions(ds, newer, x)
  {
    assert EndsOf(cs + ds, newer) == EndsOf(cs, newer) + EndsOf(ds, newer);
  }

  lemma CountOnce<T>(s: seq<T>, x: T)
    requires Sorting.NoDup(s)
    ensures multiset(s)[x] == if x in s then 1 else 0
  {
    Sorting.NoDupCounts(s, x);
  }

  /** The places of a group's findings are in range, in order. */
  ghost predicate Places(fs: seq<Finding>, at: seq<nat>) {
    && (forall x :: 0 <= x < |at| ==> at[x] < |fs|)
    && (forall x, y :: 0 <= x < y < |at| ==> at[x] < at[y])
  }

  ghost predicate InRange(taken: seq<Pair>, m: nat, n: nat) {
    forall k :: 0 <= k < |taken| ==> taken[k].i < m && taken[k].j < n
  }

  function Paired(after: seq<Finding>, a: seq<nat>, b: seq<nat>, taken: seq<Pair>): (cs: seq<Change>)
    requires InRange(taken, |a|, |b|) && Places(after, b)
  {
    seq(|taken|, k requires 0 <= k < |taken| =>
      Change(Unchanged, after[b[taken[k].j]].rule, Some(a[taken[k].i]), Some(b[taken[k].j])))
  }

  function Single(fs: seq<Finding>, x: nat, newer: bool): (c: Change)
    requires x < |fs|
  {
    if newer then Change(New, fs[x].rule, None, Some(x)) else Change(Fixed, fs[x].rule, Some(x), None)
  }

  /** A change for each of the first n findings that is not used. */
  function Left(fs: seq<Finding>, at: seq<nat>, used: seq<bool>, newer: bool, n: nat): (cs: seq<Change>)
    requires Places(fs, at) && |used| == |at| && n <= |at|
  {
    if n == 0 then []
    else if used[n - 1] then Left(fs, at, used, newer, n - 1)
    else Left(fs, at, used, newer, n - 1) + [Single(fs, at[n - 1], newer)]
  }

  lemma PairedMentions(after: seq<Finding>, a: seq<nat>, b: seq<nat>, taken: seq<Pair>, newer: bool, x: nat)
    requires InRange(taken, |a|, |b|) && Places(after, b) && IsMatching(taken)
    requires forall x, y :: 0 <= x < y < |a| ==> a[x] < a[y]
    requires x < if newer then |b| else |a|
    ensures Mentions(Paired(after, a, b, taken), newer, if newer then b[x] else a[x]) == if Uses(taken, newer, x) then 1 else 0
  {
    var at := if newer then b else a;
    var ends := EndsOf(Paired(after, a, b, taken), newer);
    forall k | 0 <= k < |taken| ensures ends[k] == Some(at[Place(taken[k], newer)]) {
    }
    forall k, m | 0 <= k < m < |taken| ensures ends[k] != ends[m] {
      assert !Clash(taken[k], taken[m]);
      var u, v := Place(taken[k], newer), Place(taken[m], newer);
      assert u < v || v < u;
    }
    CountOnce(ends, Some(at[x]));
    if Uses(taken, newer, x) {
      var k :| 0 <= k < |taken| && Place(taken[k], newer) == x;
      assert ends[k] in ends;
    }
    if Some(at[x]) in ends {
      var k :| 0 <= k < |ends| && ends[k] == Some(at[x]);
      var u := Place(taken[k], newer);
      assert !(u < x) && !(x < u);
    }
  }

  lemma {:induction false} LeftMentions(fs: seq<Finding>, at: seq<nat>, used: seq<bool>, newer: bool, n: nat, x: nat)
    requires Places(fs, at) && |used| == |at| && n <= |at| && x < |at|
    ensures Mentions(Left(fs, at, used, newer, n), newer, at[x]) == if x < n && !used[x] then 1 else 0
  {
    if n > 0 {
      LeftMentions(fs, at, used, newer, n - 1, x);
      if !used[n - 1] {
        var c := Single(fs, at[n - 1], newer);
        MentionsConcat(Left(fs, at, used, newer, n - 1), [c], newer, at[x]);
        assert EndsOf([c], newer) == [Some(at[n - 1])];
      }
    }
  }

  lemma {:induction false} OtherSideUnmentioned(fs: seq<Finding>, at: seq<nat>, used: seq<bool>, newer: bool, n: nat, x: nat)
    requires Places(fs, at) && |used| == |at| && n <= |at|
    ensures Mentions(Left(fs, at, used, newer, n), !newer, x) == 0
  {
    if n > 0 {
      OtherSideUnmentioned(fs, at, used, newer, n - 1, x);
      if !used[n - 1] {
        var c := Single(fs, at[n - 1], newer);
        MentionsConcat(Left(fs, at, used, newer, n - 1), [c], !newer, x);
        assert EndsOf([c], !newer) == [None];
      }
    }
  }

  /** The changes of one group: what was taken, then what is left of each version. */
  function GroupChanges(before: seq<Finding>, after: seq<Finding>, a: seq<nat>, b: seq<nat>, taken: seq<Pair>,
                        usedA: seq<bool>, usedB: seq<bool>): (cs: seq<Change>)
    requires Places(before, a) && Places(after, b) && InRange(taken, |a|, |b|) && |usedA| == |a| && |usedB| == |b|
  {
    Paired(after, a, b, taken) + Left(before, a, usedA, false, |a|) + Left(after, b, usedB, true, |b|)
  }

  /** Every finding of the group is in exactly one of its changes. */
  lemma GroupMentions(before: seq<Finding>, after: seq<Finding>, a: seq<nat>, b: seq<nat>, taken: seq<Pair>,
                      usedA: seq<bool>, usedB: seq<bool>, newer: bool, x: nat)
    requires Places(before, a) && Places(after, b) && InRange(taken, |a|, |b|) && |usedA| == |a| && |usedB| == |b|
    requires IsMatching(taken) && Marks(usedA, taken, false) && Marks(usedB, taken, true)
    requires x < if newer then |b| else |a|
    ensures Mentions(GroupChanges(before, after, a, b, taken, usedA, usedB), newer, if newer then b[x] else a[x]) == 1
  {
    hide Mentions, Paired, Left, IsMatching;
    var at := if newer then b else a;
    var p := Paired(after, a, b, taken);
    var l, r := Left(before, a, usedA, false, |a|), Left(after, b, usedB, true, |b|);
    MentionsConcat(p + l, r, newer, at[x]);
    MentionsConcat(p, l, newer, at[x]);
    PairedMentions(after, a, b, taken, newer, x);
    if newer {
      OtherSideUnmentioned(before, a, usedA, false, |a|, at[x]);
      LeftMentions(after, b, usedB, true, |b|, x);
    } else {
      OtherSideUnmentioned(after, b, usedB, true, |b|, at[x]);
      LeftMentions(before, a, usedA, false, |a|, x);
    }
  }

  function At(fs: seq<Finding>, at: seq<nat>): (r: seq<Finding>)
    requires Places(fs, at)
  {
    seq(|at|, x requires 0 <= x < |at| => fs[at[x]])
  }

  ghost predicate AllOfKey(fs: seq<Finding>, at: seq<nat>, key: string) {
    Places(fs, at) && forall x :: 0 <= x < |at| ==> KeyOf(fs[at[x]]) == key
  }

  lemma LeftFits(before: seq<Finding>, after: seq<Finding>, tol: real, hypot: Hypot, at: seq<nat>, used: seq<bool>, newer: bool, n: nat, key: string, c: Change)
    requires AllOfKey(if newer then after else before, at, key) && |used| == |at| && n <= |at|
    requires c in Left(if newer then after else before, at, used, newer, n)
    ensures ChangeFits(before, after, tol, hypot, c) && OfKey(before, after, key, c)
  {
    hide KeyOf, Candidate;
    if used[n - 1] || c != Single(if newer then after else before, at[n - 1], newer) {
      LeftFits(before, after, tol, hypot, at, used, newer, n - 1, key, c);
    }
  }

  /** What is taken are candidates of the group. */
  ghost predicate TakenFits(q: Query, taken: seq<Pair>) {
    IsMatching(taken) && forall k :: 0 <= k < |taken| ==> IsCandidate(q, taken[k])
  }

  lemma PairedFits(before: seq<Finding>, after: seq<Finding>, tol: real, hypot: Hypot, a: seq<nat>, b: seq<nat>, taken: seq<Pair>, key: string, c: Change)
    requires AllOfKey(before, a, key) && AllOfKey(after, b, key) && InRange(taken, |a|, |b|)
    requires TakenFits(Query(At(before, a), At(after, b), tol, hypot), taken)
    requires c in Paired(after, a, b, taken)
    ensures ChangeFits(before, after, tol, hypot, c) && OfKey(before, after, key, c)
  {
  }

  lemma GroupFits(before: seq<Finding>, after: seq<Finding>, tol: real, hypot: Hypot, a: seq<nat>, b: seq<nat>, taken: seq<Pair>,
                  usedA: seq<bool>, usedB: seq<bool>, key: string, c: Change)
    requires AllOfKey(before, a, key) && AllOfKey(after, b, key) && InRange(taken, |a|, |b|) && |usedA| == |a| && |usedB| == |b|
    requires TakenFits(Query(At(before, a), At(after, b), tol, hypot), taken)
    requires c in GroupChanges(before, after, a, b, taken, usedA, usedB)
    ensures ChangeFits(before, after, tol, hypot, c) && OfKey(before, after, key, c)
  {
    hide KeyOf, ChangeFits, OfKey, TakenFits, Paired, Left;
    if c in Paired(after, a, b, taken) {
      PairedFits(before, after, tol, hypot, a, b, taken, key, c);
    } else if c in Left(before, a, usedA, false, |a|) {
      LeftFits(before, after, tol, hypot, a, usedA, false, |a|, key, c);
    } else {
      LeftFits(before, after, tol, hypot, b, usedB, true, |b|, key, c);
    }
  }

  // ---------- the matching, by the findings' own places ----------

  ghost predicate Matched(cs: seq<Change>, i: nat, j: nat) {
    exists k :: 0 <= k < |cs| && cs[k].before == Some(i) && cs[k].after == Some(j)
  }

  ghost function RankOf(before: seq<Finding>, after: seq<Finding>, tol: real, hypot: Hypot, i: nat, j: nat): (p: Pair)
    requires Candidate(before, after, tol, hypot, i, j)
  {
    Pair(PairKey(before[i], after[j], tol, hypot).value, i, j)
  }

  /** The pair i', j' shares an end with the pair i, j, and comes first. */
  ghost predicate Beats(before: seq<Finding>, after: seq<Finding>, tol: real, hypot: Hypot, i': nat, j': nat, i: nat, j: nat) {
    && (i' == i || j' == j)
    && Candidate(before, after, tol, hypot, i', j') && Candidate(before, after, tol, hypot, i, j)
    && Before(RankOf(before, after, tol, hypot, i', j'), RankOf(before, after, tol, hypot, i, j))
  }

  ghost predicate MatchBeats(before: seq<Finding>, after: seq<Finding>, tol: real, hypot: Hypot, cs: seq<Change>, i: nat, j: nat, i': nat, j': nat) {
    Matched(cs, i', j') && Beats(before, after, tol, hypot, i', j', i, j)
  }

  /** A candidate pair is matched, or one of its ends is, by a pair that comes before it. */
  ghost predicate StableAt(before: seq<Finding>, after: seq<Finding>, tol: real, hypot: Hypot, cs: seq<Change>, i: nat, j: nat) {
    Candidate(before, after, tol, hypot, i, j) ==>
      exists i': nat, j': nat :: MatchBeats(before, after, tol, hypot, cs, i, j, i', j')
  }

  lemma PairedMatches(before: seq<Finding>, after: seq<Finding>, a: seq<nat>, b: seq<nat>, taken: seq<Pair>,
                      usedA: seq<bool>, usedB: seq<bool>, k: nat)
    requires Places(before, a) && Places(after, b) && InRange(taken, |a|, |b|) && |usedA| == |a| && |usedB| == |b|
    requires k < |taken|
    ensures Matched(GroupChanges(before, after, a, b, taken, usedA, usedB), a[taken[k].i], b[taken[k].j])
  {
    hide Left;
    var cs := GroupChanges(before, after, a, b, taken, usedA, usedB);
    assert cs[k] == Paired(after, a, b, taken)[k];
  }

  lemma SameOrder(before: seq<Finding>, after: seq<Finding>, tol: real, hypot: Hypot, a: seq<nat>, b: seq<nat>, p: Pair, r: Pair, key: string)
    requires AllOfKey(before, a, key) && AllOfKey(after, b, key)
    requires var q := Query(At(before, a), At(after, b), tol, hypot); IsCandidate(q, p) && IsCandidate(q, r)
    requires p == r || (Clash(p, r) && Before(p, r))
    ensures Beats(before, after, tol, hypot, a[p.i], b[p.j], a[r.i], b[r.j])
  {
  }

  lemma GroupStable(before: seq<Finding>, after: seq<Finding>, tol: real, hypot: Hypot, a: seq<nat>, b: seq<nat>, pairs: seq<Pair>, taken: seq<Pair>,
                    usedA: seq<bool>, usedB: seq<bool>, key: string, x: nat, y: nat)
    requires AllOfKey(before, a, key) && AllOfKey(after, b, key) && |usedA| == |a| && |usedB| == |b|
    requires var q := Query(At(before, a), At(after, b), tol, hypot); IsTryOrder(q, pairs) && TakenFits(q, taken)
    requires InRange(taken, |a|, |b|) && IsStable(pairs, taken) && x < |a| && y < |b|
    ensures StableAt(before, after, tol, hypot, GroupChanges(before, after, a, b, taken, usedA, usedB), a[x], b[y])
  {
    var cs := GroupChanges(before, after, a, b, taken, usedA, usedB);
    var q := Query(At(before, a), At(after, b), tol, hypot);
    if Candidate(before, after, tol, hypot, a[x], b[y]) {
      var p := Pair(PairKey(q.a[x], q.b[y], tol, hypot).value, x, y);
      assert IsCandidate(q, p);
      hide GroupChanges, Candidate, Beats, Matched;
      var k :| 0 <= k < |pairs| && pairs[k] == p;
      var z := FirstOf(pairs, taken, k);
      assert IsCandidate(q, taken[z]);
      SameOrder(before, after, tol, hypot, a, b, taken[z], p, key);
      PairedMatches(before, after, a, b, taken, usedA, usedB, z);
      assert MatchBeats(before, after, tol, hypot, cs, a[x], b[y], a[taken[z].i], b[taken[z].j]);
    }
  }

  lemma FirstOf(pairs: seq<Pair>, taken: seq<Pair>, k: nat) returns (z: nat)
    requires IsStable(pairs, taken) && k < |pairs|
    ensures z < |taken| && (taken[z] == pairs[k] || (Clash(taken[z], pairs[k]) && Before(taken[z], pairs[k])))
  {
    if pairs[k] in taken {
      z :| 0 <= z < |taken| && taken[z] == pairs[k];
    } else {
      assert BlockedBefore(taken, pairs[k]);
      z :| 0 <= z < |taken| && Clash(taken[z], pairs[k]) && Before(taken[z], pairs[k]);
    }
  }

  // ---------- the order of the changes ----------

  /** Of one group: the unchanged by (key, i, j), then the fixed and then the new, each in order. */
  ghost predicate InGroupOrder(before: seq<Finding>, after: seq<Finding>, tol: real, hypot: Hypot, c: Change, d: Change) {
    match (c, d)
    case (Change(Unchanged, _, Some(i), Some(j)), Change(Unchanged, _, Some(i'), Some(j'))) =>
      && Candidate(before, after, tol, hypot, i, j) && Candidate(before, after, tol, hypot, i', j')
      && Before(RankOf(before, after, tol, hypot, i, j), RankOf(before, after, tol, hypot, i', j'))
    case (Change(Fixed, _, Some(i), _), Change(Fixed, _, Some(i'), _)) => i < i'
    case (Change(New, _, _, Some(j)), Change(New, _, _, Some(j'))) => j < j'
    case _ => c.status == Unchanged || (c.status == Fixed && d.status == New)
  }

  ghost predicate GroupOrdered(before: seq<Finding>, after: seq<Finding>, tol: real, hypot: Hypot, cs: seq<Change>) {
    forall k, l :: 0 <= k < l < |cs| ==> InGroupOrder(before, after, tol, hypot, cs[k], cs[l])
  }

  lemma {:induction false} LeftAt(fs: seq<Finding>, at: seq<nat>, used: seq<bool>, newer: bool, n: nat, k: nat)
    requires Places(fs, at) && |used| == |at| && n <= |at| && k < |Left(fs, at, used, newer, n)|
    ensures exists x :: 0 <= x < n && Left(fs, at, used, newer, n)[k] == Single(fs, at[x], newer)
  {
    if k < |Left(fs, at, used, newer, n - 1)| {
      LeftAt(fs, at, used, newer, n - 1, k);
    }
  }

  lemma {:induction false} LeftAscends(fs: seq<Finding>, at: seq<nat>, used: seq<bool>, newer: bool, n: nat, k: nat, l: nat)
    requires Places(fs, at) && |used| == |at| && n <= |at| && k < l < |Left(fs, at, used, newer, n)|
    ensures exists x, y :: 0 <= x < y < n && Left(fs, at, used, newer, n)[k] == Single(fs, at[x], newer)
                        && Left(fs, at, used, newer, n)[l] == Single(fs, at[y], newer)
  {
    var early := Left(fs, at, used, newer, n - 1);
    if l < |early| {
      LeftAscends(fs, at, used, newer, n - 1, k, l);
    } else {
      LeftAt(fs, at, used, newer, n - 1, k);
    }
  }

  lemma LeftOrdered(before: seq<Finding>, after: seq<Finding>, tol: real, hypot: Hypot, at: seq<nat>, used: seq<bool>, newer: bool, k: nat, l: nat)
    requires Places(if newer then after else before, at) && |used| == |at|
    requires k < l < |Left(if newer then after else before, at, used, newer, |at|)|
    ensures var cs := Left(if newer then after else before, at, used, newer, |at|); InGroupOrder(before, after, tol, hypot, cs[k], cs[l])
  {
    LeftAscends(if newer then after else before, at, used, newer, |at|, k, l);
    hide Left;
  }

  lemma LeftStatus(fs: seq<Finding>, at: seq<nat>, used: seq<bool>, newer: bool, k: nat)
    requires Places(fs, at) && |used| == |at| && k < |Left(fs, at, used, newer, |at|)|
    ensures Left(fs, at, used, newer, |at|)[k].status == if newer then New else Fixed
  {
    LeftAt(fs, at, used, newer, |at|, k);
    hide Left;
  }

  lemma PairedOrdered(before: seq<Finding>, after: seq<Finding>, tol: real, hypot: Hypot, a: seq<nat>, b: seq<nat>, taken: seq<Pair>,
                      key: string, k: nat, l: nat)
    requires AllOfKey(before, a, key) && AllOfKey(after, b, key) && InRange(taken, |a|, |b|) && Ascending(taken)
    requires TakenFits(Query(At(before, a), At(after, b), tol, hypot), taken) && k < l < |taken|
    ensures var cs := Paired(after, a, b, taken); InGroupOrder(before, after, tol, hypot, cs[k], cs[l])
  {
    var p, r := taken[k], taken[l];
    assert IsCandidate(Query(At(before, a), At(after, b), tol, hypot), p);
    assert IsCandidate(Query(At(before, a), At(after, b), tol, hypot), r);
    hide TakenFits, PairKey, KeyOf;
    PlacesOrdered(a, p.i, r.i);
    PlacesOrdered(b, p.j, r.j);
  }

  lemma PlacesOrdered(at: seq<nat>, x: nat, y: nat)
    requires (forall i, j :: 0 <= i < j < |at| ==> at[i] < at[j]) && x < |at| && y < |at|
    ensures (x < y <==> at[x] < at[y]) && (x == y <==> at[x] == at[y])
  {
  }

  lemma GroupIsOrdered(before: seq<Finding>, after: seq<Finding>, tol: real, hypot: Hypot, key: string, a: seq<nat>, b: seq<nat>,
                       taken: seq<Pair>, usedA: seq<bool>, usedB: seq<bool>)
    requires AllOfKey(before, a, key) && AllOfKey(after, b, key) && |usedA| == |a| && |usedB| == |b| && InRange(taken, |a|, |b|)
    requires TakenFits(Query(At(before, a), At(after, b), tol, hypot), taken) && Ascending(taken)
    ensures GroupOrdered(before, after, tol, hypot, GroupChanges(before, after, a, b, taken, usedA, usedB))
  {
    var cs := GroupChanges(before, after, a, b, taken, usedA, usedB);
    var p, l, r := Paired(after, a, b, taken), Left(before, a, usedA, false, |a|), Left(after, b, usedB, true, |b|);
    hide Left, TakenFits, Ascending;
    forall x, y | 0 <= x < y < |cs| ensures InGroupOrder(before, after, tol, hypot, cs[x], cs[y]) {
      var m, n := |p|, |p| + |l|;
      assert x < m ==> cs[x] == p[x] && cs[x].status == Unchanged;
      assert m <= x < n ==> cs[x] == l[x - m];
      assert m <= y < n ==> cs[y] == l[y - m];
      assert n <= y ==> cs[y] == r[y - n];
      hide Paired, GroupChanges;
      if y < m {
        PairedOrdered(before, after, tol, hypot, a, b, taken, key, x, y);
      } else if y < n {
        LeftStatus(before, a, usedA, false, y - m);
        if x >= m {
          LeftOrdered(before, after, tol, hypot, a, usedA, false, x - m, y - m);
        }
      } else {
        LeftStatus(after, b, usedB, true, y - n);
        if x >= n {
          LeftOrdered(before, after, tol, hypot, b, usedB, true, x - n, y - n);
        } else if x >= m {
          LeftStatus(before, a, usedA, false, x - m);
        }
      }
    }
  }

  /** The changes come group by group, in the order of the keys. */
  ghost predicate Follows(before: seq<Finding>, after: seq<Finding>, tol: real, hypot: Hypot, order: seq<string>, c: Change, d: Change) {
    exists x, y :: 0 <= x <= y < |order| && OfKey(before, after, order[x], c) && OfKey(before, after, order[y], d)
                && (x == y ==> InGroupOrder(before, after, tol, hypot, c, d))
  }

  ghost predicate AllOrdered(before: seq<Finding>, after: seq<Finding>, tol: real, hypot: Hypot, order: seq<string>, cs: seq<Change>) {
    forall k, l :: 0 <= k < l < |cs| ==> Follows(before, after, tol, hypot, order, cs[k], cs[l])
  }

  lemma OneMoreOrdered(before: seq<Finding>, after: seq<Finding>, tol: real, hypot: Hypot, keys: seq<string>, cs: seq<Change>,
                       key: string, ds: seq<Change>)
    requires AllOrdered(before, after, tol, hypot, keys, cs) && GroupOrdered(before, after, tol, hypot, ds)
    requires forall k :: 0 <= k < |cs| ==> KeyIn(before, after, keys, cs[k])
    requires forall k :: 0 <= k < |ds| ==> KeyIn(before, after, [key], ds[k])
    ensures AllOrdered(before, after, tol, hypot, keys + [key], cs + ds)
  {
    hide OfKey, InGroupOrder;
    var keys', all, n := keys + [key], cs + ds, |cs|;
    forall k, l | 0 <= k < l < |all| ensures Follows(before, after, tol, hypot, keys', all[k], all[l]) {
      if l < n {
        var x, y :| 0 <= x <= y < |keys| && OfKey(before, after, keys[x], cs[k]) && OfKey(before, after, keys[y], cs[l])
                 && (x == y ==> InGroupOrder(before, after, tol, hypot, cs[k], cs[l]));
        assert keys'[x] == keys[x] && keys'[y] == keys[y];
      } else {
        assert KeyIn(before, after, [key], ds[l - n]);
        assert keys'[|keys|] == key;
        if k < n {
          var x :| 0 <= x < |keys| && OfKey(before, after, keys[x], cs[k]);
          assert keys'[x] == keys[x];
        } else {
          assert KeyIn(before, after, [key], ds[k - n]);
          assert InGroupOrder(before, after, tol, hypot, ds[k - n], ds[l - n]);
        }
      }
    }
  }

  // ---------- the diff ----------

  /** The changes of the keys done so far: each of their findings in exactly one change, no other
      finding in any, and the matching stable. */
  ghost predicate IsDiffOf(before: seq<Finding>, after: seq<Finding>, tol: real, hypot: Hypot, keys: seq<string>, cs: seq<Change>) {
    && (forall k :: 0 <= k < |cs| ==> ChangeFits(before, after, tol, hypot, cs[k]) && KeyIn(before, after, keys, cs[k]))
    && (forall i: nat :: i < |before| && KeyOf(before[i]) in keys ==> Mentions(cs, false, i) == 1)
    && (forall j: nat :: j < |after| && KeyOf(after[j]) in keys ==> Mentions(cs, true, j) == 1)
    && (forall i: nat, j: nat :: i < |before| && j < |after| && KeyOf(before[i]) in keys ==> StableAt(before, after, tol, hypot, cs, i, j))
  }

  ghost predicate KeyIn(before: seq<Finding>, after: seq<Finding>, keys: seq<string>, c: Change) {
    exists k :: 0 <= k < |keys| && OfKey(before, after, keys[k], c)
  }

  lemma Unmentioned(before: seq<Finding>, after: seq<Finding>, tol: real, hypot: Hypot, keys: seq<string>, cs: seq<Change>, newer: bool, x: nat)
    requires x < |if newer then after else before| && KeyOf((if newer then after else before)[x]) !in keys
    requires forall k :: 0 <= k < |cs| ==> KeyIn(before, after, keys, cs[k])
    ensures Mentions(cs, newer, x) == 0
  {
  }

  lemma MatchedStays(before: seq<Finding>, after: seq<Finding>, tol: real, hypot: Hypot, cs: seq<Change>, all: seq<Change>, i: nat, j: nat)
    requires StableAt(before, after, tol, hypot, cs, i, j) && forall c :: c in cs ==> c in all
    ensures StableAt(before, after, tol, hypot, all, i, j)
  {
    hide Candidate, Beats;
    if Candidate(before, after, tol, hypot, i, j) {
      var i': nat, j': nat :| MatchBeats(before, after, tol, hypot, cs, i, j, i', j');
      var k :| 0 <= k < |cs| && cs[k].before == Some(i') && cs[k].after == Some(j');
      assert cs[k] in all;
      assert MatchBeats(before, after, tol, hypot, all, i, j, i', j');
    }
  }

  lemma KeyStaysIn(before: seq<Finding>, after: seq<Finding>, keys: seq<string>, all: seq<string>, c: Change)
    requires KeyIn(before, after, keys, c) && forall key :: key in keys ==> key in all
    ensures KeyIn(before, after, all, c)
  {
    hide OfKey;
    var k :| 0 <= k < |keys| && OfKey(before, after, keys[k], c);
    assert keys[k] in all;
  }

  /** One more group's changes. */
  lemma OneMoreGroup(before: seq<Finding>, after: seq<Finding>, tol: real, hypot: Hypot, keys: seq<string>, cs: seq<Change>, key: string, ds: seq<Change>)
    requires IsDiffOf(before, after, tol, hypot, keys, cs) && IsDiffOf(before, after, tol, hypot, [key], ds)
    requires key !in keys
    ensures IsDiffOf(before, after, tol, hypot, keys + [key], cs + ds)
  {
    hide KeyOf, ChangeFits, KeyIn, Mentions, StableAt;
    var keys', all := keys + [key], cs + ds;
    forall k | 0 <= k < |all| ensures ChangeFits(before, after, tol, hypot, all[k]) && KeyIn(before, after, keys', all[k]) {
      KeyStaysIn(before, after, if k < |cs| then keys else [key], keys', all[k]);
    }
    forall i: nat | i < |before| && KeyOf(before[i]) in keys' ensures Mentions(all, false, i) == 1 {
      MentionsConcat(cs, ds, false, i);
      if KeyOf(before[i]) in keys {
        Unmentioned(before, after, tol, hypot, [key], ds, false, i);
      } else {
        Unmentioned(before, after, tol, hypot, keys, cs, false, i);
      }
    }
    forall j: nat | j < |after| && KeyOf(after[j]) in keys' ensures Mentions(all, true, j) == 1 {
      MentionsConcat(cs, ds, true, j);
      if KeyOf(after[j]) in keys {
        Unmentioned(before, after, tol, hypot, [key], ds, true, j);
      } else {
        Unmentioned(before, after, tol, hypot, keys, cs, true, j);
      }
    }
    forall i: nat, j: nat | i < |before| && j < |after| && KeyOf(before[i]) in keys'
      ensures StableAt(before, after, tol, hypot, all, i, j)
    {
      MatchedStays(before, after, tol, hypot, if KeyOf(before[i]) in keys then cs else ds, all, i, j);
    }
  }

  /** The places of a key are those of its findings. */
  lemma WherePlaces(fs: seq<Finding>, key: string)
    ensures AllOfKey(fs, Where(fs, key, |fs|), key)
  {
    var at := Where(fs, key, |fs|);
    forall x | 0 <= x < |at| ensures at[x] < |fs| && KeyOf(fs[at[x]]) == key {
      assert at[x] in at;
      WhereMembers(fs, key, |fs|, at[x]);
    }
    forall x, y | 0 <= x < y < |at| ensures at[x] < at[y] {
      WhereAscends(fs, key, |fs|, x, y);
    }
  }

  lemma WhereOf(fs: seq<Finding>, i: nat) returns (x: nat)
    requires i < |fs|
    ensures var at := Where(fs, KeyOf(fs[i]), |fs|); x < |at| && at[x] == i
  {
    var at := Where(fs, KeyOf(fs[i]), |fs|);
    WhereMembers(fs, KeyOf(fs[i]), |fs|, i);
    x :| 0 <= x < |at| && at[x] == i;
  }

  /** A matched group: its findings' places, the candidates, what was taken and what was used. */
  ghost predicate GroupMatched(before: seq<Finding>, after: seq<Finding>, tol: real, hypot: Hypot, key: string, a: seq<nat>, b: seq<nat>,
                               pairs: seq<Pair>, taken: seq<Pair>, usedA: seq<bool>, usedB: seq<bool>) {
    && a == Where(before, key, |before|) && b == Where(after, key, |after|)
    && AllOfKey(before, a, key) && AllOfKey(after, b, key) && |usedA| == |a| && |usedB| == |b| && InRange(taken, |a|, |b|)
    && (var q := Query(At(before, a), At(after, b), tol, hypot); IsTryOrder(q, pairs) && TakenFits(q, taken))
    && IsStable(pairs, taken) && Marks(usedA, taken, false) && Marks(usedB, taken, true)
  }

  lemma GroupMentionsAll(before: seq<Finding>, after: seq<Finding>, tol: real, hypot: Hypot, key: string, a: seq<nat>, b: seq<nat>,
                         pairs: seq<Pair>, taken: seq<Pair>, usedA: seq<bool>, usedB: seq<bool>, newer: bool)
    requires GroupMatched(before, after, tol, hypot, key, a, b, pairs, taken, usedA, usedB)
    ensures var fs := if newer then after else before;
      forall i: nat :: i < |fs| && KeyOf(fs[i]) == key ==> Mentions(GroupChanges(before, after, a, b, taken, usedA, usedB), newer, i) == 1
  {
    hide KeyOf, Mentions, GroupChanges, Marks, IsStable, IsTryOrder, Where;
    var fs := if newer then after else before;
    forall i: nat | i < |fs| && KeyOf(fs[i]) == key
      ensures Mentions(GroupChanges(before, after, a, b, taken, usedA, usedB), newer, i) == 1
    {
      var x := WhereOf(fs, i);
      GroupMentions(before, after, a, b, taken, usedA, usedB, newer, x);
    }
  }

  lemma GroupStableAll(before: seq<Finding>, after: seq<Finding>, tol: real, hypot: Hypot, key: string, a: seq<nat>, b: seq<nat>,
                       pairs: seq<Pair>, taken: seq<Pair>, usedA: seq<bool>, usedB: seq<bool>, i: nat, j: nat)
    requires GroupMatched(before, after, tol, hypot, key, a, b, pairs, taken, usedA, usedB)
    requires i < |before| && j < |after| && KeyOf(before[i]) == key
    ensures StableAt(before, after, tol, hypot, GroupChanges(before, after, a, b, taken, usedA, usedB), i, j)
  {
    hide KeyOf, StableAt, GroupChanges, Marks, IsStable, IsTryOrder, Where, TakenFits;
    if KeyOf(after[j]) == key {
      var x := WhereOf(before, i);
      var y := WhereOf(after, j);
      GroupStable(before, after, tol, hypot, a, b, pairs, taken, usedA, usedB, key, x, y);
    } else {
      NoCandidate(before, after, tol, hypot, GroupChanges(before, after, a, b, taken, usedA, usedB), i, j);
    }
  }

  lemma GroupFitsAll(before: seq<Finding>, after: seq<Finding>, tol: real, hypot: Hypot, key: string, a: seq<nat>, b: seq<nat>,
                     pairs: seq<Pair>, taken: seq<Pair>, usedA: seq<bool>, usedB: seq<bool>, c: Change)
    requires GroupMatched(before, after, tol, hypot, key, a, b, pairs, taken, usedA, usedB)
    requires c in GroupChanges(before, after, a, b, taken, usedA, usedB)
    ensures ChangeFits(before, after, tol, hypot, c) && KeyIn(before, after, [key], c)
  {
    hide KeyOf, ChangeFits, GroupChanges, Marks, IsStable, IsTryOrder, Where, TakenFits, OfKey;
    GroupFits(before, after, tol, hypot, a, b, taken, usedA, usedB, key, c);
    assert OfKey(before, after, [key][0], c);
  }

  lemma GroupIsDiff(before: seq<Finding>, after: seq<Finding>, tol: real, hypot: Hypot, key: string, a: seq<nat>, b: seq<nat>,
                    pairs: seq<Pair>, taken: seq<Pair>, usedA: seq<bool>, usedB: seq<bool>)
    requires GroupMatched(before, after, tol, hypot, key, a, b, pairs, taken, usedA, usedB)
    ensures IsDiffOf(before, after, tol, hypot, [key], GroupChanges(before, after, a, b, taken, usedA, usedB))
  {
    MatchedInRange(before, after, tol, hypot, key, a, b, pairs, taken, usedA, usedB);
    hide KeyOf, ChangeFits, Mentions, StableAt, GroupChanges, KeyIn, GroupMatched, Places, InRange;
    GroupMentionsAll(before, after, tol, hypot, key, a, b, pairs, taken, usedA, usedB, false);
    GroupMentionsAll(before, after, tol, hypot, key, a, b, pairs, taken, usedA, usedB, true);
    var cs := GroupChanges(before, after, a, b, taken, usedA, usedB);
    forall k | 0 <= k < |cs| ensures ChangeFits(before, after, tol, hypot, cs[k]) && KeyIn(before, after, [key], cs[k]) {
      GroupFitsAll(before, after, tol, hypot, key, a, b, pairs, taken, usedA, usedB, cs[k]);
    }
    forall i: nat, j: nat | i < |before| && j < |after| && KeyOf(before[i]) == key
      ensures StableAt(before, after, tol, hypot, cs, i, j)
    {
      GroupStableAll(before, after, tol, hypot, key, a, b, pairs, taken, usedA, usedB, i, j);
    }
  }

  lemma MatchedInRange(before: seq<Finding>, after: seq<Finding>, tol: real, hypot: Hypot, key: string, a: seq<nat>, b: seq<nat>,
                       pairs: seq<Pair>, taken: seq<Pair>, usedA: seq<bool>, usedB: seq<bool>)
    requires GroupMatched(before, after, tol, hypot, key, a, b, pairs, taken, usedA, usedB)
    ensures Places(before, a) && Places(after, b) && InRange(taken, |a|, |b|) && |usedA| == |a| && |usedB| == |b|
  {
    hide KeyOf, Where, TakenFits, IsTryOrder, IsStable, Marks;
  }

  lemma NoCandidate(before: seq<Finding>, after: seq<Finding>, tol: real, hypot: Hypot, cs: seq<Change>, i: nat, j: nat)
    requires i < |before| && j < |after| && KeyOf(before[i]) != KeyOf(after[j])
    ensures StableAt(before, after, tol, hypot, cs, i, j)
  {
  }

  /** What is left over, in order. */
  method CollectLeft(fs: seq<Finding>, at: seq<nat>, used: array<bool>, newer: bool) returns (cs: seq<Change>)
    requires Places(fs, at) && used.Length == |at|
    ensures cs == Left(fs, at, used[..], newer, |at|)
  {
    cs := [];
    var x := 0;
    while x < |at|
      invariant 0 <= x <= |at| && cs == Left(fs, at, used[..], newer, x)
    {
      if !used[x] {
        cs := cs + [Single(fs, at[x], newer)];
      }
      x := x + 1;
    }
  }

  method SortedCandidates(q: Query) returns (pairs: seq<Pair>)
    ensures IsTryOrder(q, pairs)
  {
    pairs := CollectTier(q, false, []);
    pairs := CollectTier(q, true, pairs);
    assert pairs == Collected(q);
    hide Collected;
    pairs := Sorting.Sort(pairs, PairOrder());
    SortedIsTryOrder(q, pairs);
  }

  lemma TryOrderInRange(q: Query, pairs: seq<Pair>)
    requires IsTryOrder(q, pairs)
    ensures Ascending(pairs) && forall k :: 0 <= k < |pairs| ==> pairs[k].i < |q.a| && pairs[k].j < |q.b|
  {
    forall k | 0 <= k < |pairs| ensures pairs[k].i < |q.a| && pairs[k].j < |q.b| {
      assert pairs[k] in pairs;
      assert IsCandidate(q, pairs[k]);
    }
  }

  /** The changes of one group. */
  method MatchGroup(before: seq<Finding>, after: seq<Finding>, tol: real, hypot: Hypot, key: string, a: seq<nat>, b: seq<nat>)
    returns (cs: seq<Change>)
    requires a == Where(before, key, |before|) && b == Where(after, key, |after|)
    ensures IsDiffOf(before, after, tol, hypot, [key], cs) && GroupOrdered(before, after, tol, hypot, cs)
  {
    WherePlaces(before, key);
    WherePlaces(after, key);
    hide Ascending, IsStable, Marks, IsDiffOf, IsTryOrder, Taken, TakenFits, IsMatching, KeyOf, Where, GroupOrdered;
    var q := Query(At(before, a), At(after, b), tol, hypot);
    var pairs := SortedCandidates(q);
    TryOrderInRange(q, pairs);
    var taken, usedA, usedB := TakeInOrder(q, pairs);
    TakenIsStable(pairs);
    TakenIsCandidates(q, pairs);
    var left := CollectLeft(before, a, usedA, false);
    var right := CollectLeft(after, b, usedB, true);
    cs := Paired(after, a, b, taken) + left + right;
    GroupIsDiff(before, after, tol, hypot, key, a, b, pairs, taken, usedA[..], usedB[..]);
    TakenAscends(pairs, |pairs|);
    GroupIsOrdered(before, after, tol, hypot, key, a, b, taken, usedA[..], usedB[..]);
  }

  lemma TakenIsCandidates(q: Query, pairs: seq<Pair>)
    requires IsTryOrder(q, pairs)
    ensures TakenFits(q, Taken(pairs, |pairs|)) && InRange(Taken(pairs, |pairs|), |q.a|, |q.b|)
  {
    TakenIsMatching(pairs, |pairs|);
    var taken := Taken(pairs, |pairs|);
    forall k | 0 <= k < |taken| ensures IsCandidate(q, taken[k]) {
      assert taken[k] in taken;
      assert pairs[..|pairs|] == pairs;
    }
  }

  /** Every finding of either version is in exactly one change, a change says what became of it,
      and the matching is stable: a candidate pair that is not matched has an end matched by a pair
      that comes before it. */
  ghost predicate IsDiff(before: seq<Finding>, after: seq<Finding>, tol: real, hypot: Hypot, cs: seq<Change>) {
    && (forall k :: 0 <= k < |cs| ==> ChangeFits(before, after, tol, hypot, cs[k]))
    && (forall i: nat :: i < |before| ==> Mentions(cs, false, i) == 1)
    && (forall j: nat :: j < |after| ==> Mentions(cs, true, j) == 1)
    && (forall i: nat, j: nat :: i < |before| && j < |after| ==> StableAt(before, after, tol, hypot, cs, i, j))
  }

  lemma AllKeysDone(before: seq<Finding>, after: seq<Finding>, tol: real, hypot: Hypot, order: seq<string>, groups: Groups, cs: seq<Change>)
    requires Grouped(before, |before|, after, |after|, order, groups)
    requires IsDiffOf(before, after, tol, hypot, order, cs)
    ensures IsDiff(before, after, tol, hypot, cs)
  {
    hide KeyOf, ChangeFits, KeyIn, Mentions, StableAt, Where;
    forall i: nat | i < |before| ensures KeyOf(before[i]) in order {
      var x := WhereOf(before, i);
      assert GroupAt(groups, KeyOf(before[i])).a != [];
    }
    forall j: nat | j < |after| ensures KeyOf(after[j]) in order {
      var x := WhereOf(after, j);
      assert GroupAt(groups, KeyOf(after[j])).b != [];
    }
  }

  lemma NextKey(before: seq<Finding>, after: seq<Finding>, order: seq<string>, groups: Groups, k: nat)
    requires Grouped(before, |before|, after, |after|, order, groups) && k < |order|
    ensures GroupAt(groups, order[k]) == Group(Where(before, order[k], |before|), Where(after, order[k], |after|))
    ensures order[k] !in order[..k] && order[..k + 1] == order[..k] + [order[k]]
  {
    hide Where, GroupAt, KeysListed, AllGrouped;
    GroupOf(before, after, groups, order[k]);
    ListedOnce(order, groups, k);
  }

  lemma GroupOf(before: seq<Finding>, after: seq<Finding>, groups: Groups, key: string)
    requires AllGrouped(before, |before|, after, |after|, groups)
    ensures GroupAt(groups, key) == Group(Where(before, key, |before|), Where(after, key, |after|))
  {
  }

  lemma ListedOnce(order: seq<string>, groups: Groups, k: nat)
    requires KeysListed(order, groups) && k < |order|
    ensures order[k] !in order[..k]
  {
  }

  lemma NoKeysDone(before: seq<Finding>, after: seq<Finding>, tol: real, hypot: Hypot)
    ensures IsDiffOf(before, after, tol, hypot, [], [])
  {
  }

  lemma DoneInOrder(before: seq<Finding>, after: seq<Finding>, tol: real, hypot: Hypot, keys: seq<string>, cs: seq<Change>,
                    key: string, ds: seq<Change>)
    requires IsDiffOf(before, after, tol, hypot, keys, cs) && IsDiffOf(before, after, tol, hypot, [key], ds)
    requires AllOrdered(before, after, tol, hypot, keys, cs) && GroupOrdered(before, after, tol, hypot, ds)
    ensures AllOrdered(before, after, tol, hypot, keys + [key], cs + ds)
  {
    hide AllOrdered, GroupOrdered, KeyIn, ChangeFits, Mentions, StableAt;
    OneMoreOrdered(before, after, tol, hypot, keys, cs, key, ds);
  }

  /** The changes half of DiffFindings. */
  method FindChanges(before: seq<Finding>, after: seq<Finding>, tol: real, hypot: Hypot) returns (changes: seq<Change>)
    ensures IsDiff(before, after, tol, hypot, changes)
    ensures AllOrdered(before, after, tol, hypot, KeysMet(before, |before|, after, |after|), changes)
  {
    hide KeyOf, Where, IsDiff, IsDiffOf, Grouped, GroupAt, Follows, GroupOrdered, KeysMet;
    var order, groups := GroupFindings(before, after);
    changes := [];
    NoKeysDone(before, after, tol, hypot);
    assert AllOrdered(before, after, tol, hypot, [], []);
    hide AllOrdered;
    var k := 0;
    while k < |order|
      invariant 0 <= k <= |order| && IsDiffOf(before, after, tol, hypot, order[..k], changes)
      invariant AllOrdered(before, after, tol, hypot, order[..k], changes)
    {
      var key := order[k];
      NextKey(before, after, order, groups, k);
      var cs := MatchGroup(before, after, tol, hypot, key, GroupAt(groups, key).a, GroupAt(groups, key).b);
      OneMoreGroup(before, after, tol, hypot, order[..k], changes, key, cs);
      DoneInOrder(before, after, tol, hypot, order[..k], changes, key, cs);
      changes := changes + cs;
      k := k + 1;
    }
    assert order[..k] == order;
    AllKeysDone(before, after, tol, hypot, order, groups, changes);
  }
}
