/** What holds over every run of the protocol: whose token is accepted, how often a claim can be
    completed, what a finished run keeps, and that no run is stuck. */
module Lifecycle {
  import opened Runs
  import opened Stores
  import opened Service
  import opened Protocol

  ghost predicate Inv(s: State) {
    RowsOk(s) && LogKnown(s) && HeldAsLogged(s) && CompletedOnce(s)
  }

  lemma InvStays(w: World, s: State, a: Action)
    requires Inv(s) && Legal(w, s, a)
    ensures Inv(Next(w, s, a))
  {
    hide Legal, Next, RowsOk, LogKnown, HeldAsLogged, CompletedOnce;
    RowsStay(w, s, a);
    LogStaysKnown(w, s, a);
    HeldStays(w, s, a);
    CompletedOnceStays(w, s, a);
  }

  // ---------- runs of the system ----------

  ghost function After(w: World, s: State, path: seq<Action>): (s': State) {
    if path == [] then s else Next(w, After(w, s, path[..|path| - 1]), path[|path| - 1])
  }

  ghost predicate LegalPath(w: World, s: State, path: seq<Action>) {
    forall k :: 0 <= k < |path| ==> Legal(w, After(w, s, path[..k]), path[k])
  }

  lemma LegalPrefix(w: World, s: State, path: seq<Action>)
    requires LegalPath(w, s, path) && path != []
    ensures var n := |path| - 1; LegalPath(w, s, path[..n]) && Legal(w, After(w, s, path[..n]), path[n])
  {
    hide Legal, After;
    var n := |path| - 1;
    forall k | 0 <= k < n ensures Legal(w, After(w, s, path[..n][..k]), path[..n][k]) {
      assert path[..n][..k] == path[..k];
    }
  }

  function Start(now: Time): (s: State) {
    State(Tables(map[], map[], map[], map[]), {}, {}, now, {}, [])
  }

  lemma {:induction false} InvAlong(w: World, s: State, path: seq<Action>)
    requires Inv(s) && LegalPath(w, s, path)
    ensures Inv(After(w, s, path))
  {
    hide Inv, Next;
    if path != [] {
      LegalPrefix(w, s, path);
      InvAlong(w, s, path[..|path| - 1]);
      InvStays(w, After(w, s, path[..|path| - 1]), path[|path| - 1]);
    }
  }

  /** Every reachable state: each row fits its status, its token id is that of the run's current
      claim, and no claim was completed twice. */
  lemma Reachable(w: World, now: Time, path: seq<Action>)
    requires LegalPath(w, Start(now), path)
    ensures Inv(After(w, Start(now), path))
  {
    InvAlong(w, Start(now), path);
  }

  // ---------- tokens ----------

  /** A token is accepted exactly while it is in date and its id is that of the current claim of a
      run that is there. */
  lemma AcceptedIffCurrentClaim(s: State, tok: Token)
    requires Inv(s)
    ensures Accepts(s.t, s.now, tok) <==>
      s.now < tok.exp && tok.run != "" && tok.run in s.t.runs && tok.jti != "" && Holder(s.log, tok.run) == tok.jti
  {
  }

  /** The run's claim under the token id is over: another has it, nobody has it, or it is gone. */
  ghost predicate Superseded(s: State, run: string, jti: string) {
    run in s.used && jti in s.used && !(run in s.t.runs && s.t.runs[run].jti == jti)
  }

  lemma SupersededStays(w: World, s: State, a: Action, run: string, jti: string)
    requires Inv(s) && Legal(w, s, a) && Superseded(s, run, jti) && jti != ""
    ensures Superseded(Next(w, s, a), run, jti)
  {
    hide Legal, TablesAfter, MoveOf, EventsOf, IssuedBy, ObjectsAfter, Drawn, Moved, Allows, LogKnown, HeldAsLogged, CompletedOnce,
      RowOk, Blobs.ValidId;
    var u := TablesAfter(w, s, a);
    if run in u.runs {
      if run in s.t.runs {
        RowMoves(w, s, a, run);
        EventTells(w, s, a, run);
        MovedJti(s.t.runs[run], MoveOf(w, s, a, run), s.now);
        if jti in Drawn(a) {
          DrawnUnused(w, s, a, jti);
        }
      } else {
        NewRows(w, s, a, run);
        DrawnUnused(w, s, a, run);
      }
    }
  }

  lemma {:induction false} SupersededAlong(w: World, s: State, path: seq<Action>, run: string, jti: string)
    requires Inv(s) && LegalPath(w, s, path) && Superseded(s, run, jti) && jti != ""
    ensures Superseded(After(w, s, path), run, jti)
  {
    hide Inv, Superseded, Next;
    if path != [] {
      LegalPrefix(w, s, path);
      var front := path[..|path| - 1];
      InvAlong(w, s, front);
      SupersededAlong(w, s, front, run, jti);
      SupersededStays(w, After(w, s, front), path[|path| - 1], run, jti);
    }
  }

  /** Once a claim is over, no token of it is ever accepted again. */
  lemma SupersededForever(w: World, s: State, path: seq<Action>, tok: Token)
    requires Inv(s) && LegalPath(w, s, path) && Superseded(s, tok.run, tok.jti)
    ensures var s' := After(w, s, path); !Accepts(s'.t, s'.now, tok)
  {
    if tok.jti != "" {
      SupersededAlong(w, s, path, tok.run, tok.jti);
    }
    hide Inv, LegalPath, After;
  }

  /** A retry ends the claim: its tokens are never accepted again, whoever claims the run next. */
  lemma RetryRevokes(w: World, s: State, allowed: bool, path: seq<Action>, tok: Token)
    requires Inv(s) && Accepts(s.t, s.now, tok) && CanRetry(s.t, tok.run) && allowed
    requires var s' := Next(w, s, RetryIt(allowed, tok.run)); LegalPath(w, s', path)
    ensures var s' := After(w, Next(w, s, RetryIt(allowed, tok.run)), path); !Accepts(s'.t, s'.now, tok)
  {
    var a := RetryIt(allowed, tok.run);
    InvStays(w, s, a);
    assert Superseded(Next(w, s, a), tok.run, tok.jti);
    hide Inv, Next;
    SupersededForever(w, Next(w, s, a), path, tok);
  }

  /** A refresh changes no row: tokens of the claim go on being accepted until they expire, and the
      new one is of the same claim, for the key that holds the run, and is accepted at once. */
  lemma RefreshKeepsTokens(w: World, s: State, kid: string, keyOrg: string, run: string, tok: Token)
    requires Inv(s)
    ensures var a := Refresh(kid, keyOrg, run);
      var s' := Next(w, s, a);
      && (Accepts(s'.t, s'.now, tok) <==> Accepts(s.t, s.now, tok))
      && (IssuedBy(s, a).Some? ==> HeldForNew(s, kid, run, IssuedBy(s, a).value) && Accepts(s'.t, s'.now, IssuedBy(s, a).value))
  {
    hide LogKnown, HeldAsLogged, CompletedOnce;
    if run in s.t.runs {
      assert Blobs.ValidId(run);
    }
  }

  ghost predicate HeldForNew(s: State, kid: string, run: string, tok: Token) {
    run in s.t.runs && HeldBy(s.t.runs[run], kid) && tok.run == run && tok.jti == s.t.runs[run].jti
  }

  /** Whoever is given a token holds the run from then on, under that token's id. */
  lemma IssuedToHolder(w: World, s: State, a: Action)
    requires Inv(s) && Legal(w, s, a) && IssuedBy(s, a).Some?
    ensures (a.Mint? && HeldForNew(Next(w, s, a), a.kid, a.run, IssuedBy(s, a).value))
         || (a.Refresh? && HeldForNew(Next(w, s, a), a.kid, a.run, IssuedBy(s, a).value))
  {
    hide LogKnown, HeldAsLogged, CompletedOnce, RowsOk;
    if a.Mint? {
      DrawnUnused(w, s, a, a.jti);
    }
  }

  /** Minting again for a run the key holds is a refresh, not a second claim. */
  lemma MintAgainIsRefresh(w: World, s: State, kid: string, keyOrg: string, run: string, jti: string)
    requires run in s.t.runs && HeldBy(s.t.runs[run], kid)
    ensures TablesAfter(w, s, Mint(kid, keyOrg, true, run, jti)) == s.t
    ensures IssuedBy(s, Mint(kid, keyOrg, true, run, jti)) == IssuedBy(s, Refresh(kid, keyOrg, run))
  {
  }

  // ---------- completions ----------

  /** Over any run of the system, each claim is completed at most once, whatever tokens are
      presented after it, and by whom. */
  lemma OneCompletionEach(w: World, now: Time, path: seq<Action>, run: string, jti: string)
    requires LegalPath(w, Start(now), path)
    ensures Completions(After(w, Start(now), path).log, run, jti) <= 1
  {
    Reachable(w, now, path);
  }

  /** Once a claim has been completed, no request with a token of it completes the run again: not a
      "failed" sent because the reply to "done" was lost, not a stop, a sweep or a restart later. */
  lemma CompletedClaimIsOver(w: World, s: State, a: Action, path: seq<Action>)
    requires Inv(s) && Legal(w, s, a) && a.Finish? && EventsOf(w, s, a) != []
    requires LegalPath(w, Next(w, s, a), path)
    ensures var s' := After(w, Next(w, s, a), path);
      forall b: Action :: Legal(w, s', b) && b.Finish? && b.path == a.path && b.tok.jti == a.tok.jti ==> EventsOf(w, s', b) == []
  {
    var t := Next(w, s, a);
    InvStays(w, s, a);
    InvAlong(w, t, path);
    assert EventsOf(w, s, a) == [Completes(a.path, a.tok.jti)];
    CompletionsNext(s.log, Completes(a.path, a.tok.jti), a.path, a.tok.jti);
    hide Legal, Next, EventsOf, Completions;
    LogGrows(w, t, path);
    var s' := After(w, t, path);
    CompletionsGrow(t.log, s'.log, a.path, a.tok.jti);
    forall b: Action | Legal(w, s', b) && b.Finish? && b.path == a.path && b.tok.jti == a.tok.jti
      ensures EventsOf(w, s', b) == []
    {
      FinishEvent(w, s', b);
      hide Inv;
      CompletionsBefore(w, s', b);
    }
  }

  lemma FinishEvent(w: World, s: State, b: Action)
    requires b.Finish?
    ensures EventsOf(w, s, b) == [] || EventsOf(w, s, b) == [Completes(b.path, b.tok.jti)]
  {
  }

  lemma CompletionsBefore(w: World, s: State, b: Action)
    requires Inv(s) && Legal(w, s, b) && b.Finish?
    ensures EventsOf(w, s, b) == [Completes(b.path, b.tok.jti)] ==> Completions(s.log, b.path, b.tok.jti) == 0
  {
    hide Legal, EventsOf, Completions;
    CompletionsAfter(w, s, b, b.path, b.tok.jti);
  }

  lemma {:induction false} LogGrows(w: World, s: State, path: seq<Action>)
    ensures s.log <= After(w, s, path).log
  {
    hide TablesAfter, EventsOf, ObjectsAfter, IssuedBy;
    if path != [] {
      LogGrows(w, s, path[..|path| - 1]);
    }
  }

  lemma CompletionsGrow(log: seq<Event>, more: seq<Event>, run: string, jti: string)
    requires log <= more
    ensures Completions(log, run, jti) <= Completions(more, run, jti)
  {
    assert more == log + more[|log|..];
  }

  // ---------- finished runs ----------

  /** The artifacts of one run. */
  function ArtifactsOf(t: Tables, run: string): (r: ArtifactRows) {
    map k | k in t.artifacts && k.0 == run :: t.artifacts[k]
  }

  lemma ArtifactsStay(w: World, s: State, a: Action, run: string)
    requires run in s.t.runs && run in TablesAfter(w, s, a).runs && !MoveOf(w, s, a, run).ByCompletion?
    ensures ArtifactsOf(TablesAfter(w, s, a), run) == ArtifactsOf(s.t, run)
  {
    hide Prepare, Boards.CreateBoardStep, Boards.CreateRunStep, MintStep, ProgressStep, StopStep, RetryStep, CompleteStep,
      Boards.OnlyVersion, Boards.StillGoing, Sweep, Interrupt, ArtifactsOf, WithoutProject, WithoutBoard;
    match a
    case Finish(tok, path, body, stat) => FinishArtifacts(s.t, s.now, tok, path, body, stat, w.limit, run);
    case DropProject(project, _, _) => DropArtifacts(s.t, project, "", run);
    case DropBoard(project, board, _, _, _) => DropArtifacts(s.t, project, board, run);
    case _ =>
      SameArtifacts(w, s, a);
      SameTables(s.t, TablesAfter(w, s, a), run);
  }

  lemma SameTables(t: Tables, u: Tables, run: string)
    requires u.artifacts == t.artifacts
    ensures ArtifactsOf(u, run) == ArtifactsOf(t, run)
  {
  }

  lemma DropArtifacts(t: Tables, project: string, board: string, run: string)
    requires run in t.runs
    ensures run in WithoutProject(t, project).runs ==> ArtifactsOf(WithoutProject(t, project), run) == ArtifactsOf(t, run)
    ensures run in WithoutBoard(t, project, board).runs ==> ArtifactsOf(WithoutBoard(t, project, board), run) == ArtifactsOf(t, run)
  {
  }

  lemma SameArtifacts(w: World, s: State, a: Action)
    requires !a.Finish? && !a.DropProject? && !a.DropBoard?
    ensures TablesAfter(w, s, a).artifacts == s.t.artifacts
  {
  }

  lemma FinishArtifacts(t: Tables, now: Time, tok: Token, path: string, body: Body, stat: Stat, limit: int, run: string)
    requires !(path == run && Prepare(t, path, body, stat, limit).Good? && CompleteStep(t, now, tok, path, body, stat, limit).1.code == 200)
    ensures ArtifactsOf(CompleteStep(t, now, tok, path, body, stat, limit).0, run) == ArtifactsOf(t, run)
  {
    hide Prepare;
    var c := Prepare(t, path, body, stat, limit);
    if c.Good? && path != run {
      forall k: (string, string)
        ensures k.0 == run ==> (k in Upserted(t.artifacts, path, c.value.artifacts) <==> k in t.artifacts)
        ensures k.0 == run && k in t.artifacts ==> Upserted(t.artifacts, path, c.value.artifacts)[k] == t.artifacts[k]
      {
        UpsertedElsewhere(t.artifacts, path, c.value.artifacts, k);
      }
    }
  }

  /** A run that is done is unchanged, row and artifacts, as long as it is there at all; and gone is
      gone. */
  ghost predicate Kept(s: State, run: string, row: Run, artifacts: ArtifactRows) {
    run in s.used && (run in s.t.runs ==> s.t.runs[run] == row && ArtifactsOf(s.t, run) == artifacts)
  }

  lemma KeptStays(w: World, s: State, a: Action, run: string, row: Run, artifacts: ArtifactRows)
    requires Inv(s) && Legal(w, s, a) && Kept(s, run, row, artifacts) && row.status == Done
    ensures Kept(Next(w, s, a), run, row, artifacts)
  {
    hide Legal, TablesAfter, MoveOf, EventsOf, IssuedBy, ObjectsAfter, Drawn, Moved, Allows, LogKnown, HeldAsLogged, CompletedOnce,
      RowOk, Blobs.ValidId, ArtifactsOf;
    var u := TablesAfter(w, s, a);
    if run in u.runs {
      if run in s.t.runs {
        RowMoves(w, s, a, run);
        DoneStays(row, MoveOf(w, s, a, run), s.now);
        ArtifactsStay(w, s, a, run);
      } else {
        NewRows(w, s, a, run);
        DrawnUnused(w, s, a, run);
      }
    }
  }

  lemma DoneStays(row: Run, m: Move, at: Time)
    requires row.status == Done && Allows(row, m)
    ensures m == Same && Moved(row, m, at) == row
  {
  }

  lemma {:induction false} KeptAlong(w: World, s: State, path: seq<Action>, run: string, row: Run, artifacts: ArtifactRows)
    requires Inv(s) && LegalPath(w, s, path) && Kept(s, run, row, artifacts) && row.status == Done
    ensures Kept(After(w, s, path), run, row, artifacts)
  {
    hide Inv, Kept, Next;
    if path != [] {
      LegalPrefix(w, s, path);
      var front := path[..|path| - 1];
      InvAlong(w, s, front);
      KeptAlong(w, s, front, run, row, artifacts);
      KeptStays(w, After(w, s, front), path[|path| - 1], run, row, artifacts);
    }
  }

  /** A done run's row and artifacts never change again until it is deleted with its project or
      version. */
  lemma DoneIsFinal(w: World, s: State, path: seq<Action>, run: string)
    requires Inv(s) && LegalPath(w, s, path) && run in s.t.runs && s.t.runs[run].status == Done
    ensures var s' := After(w, s, path);
      run in s'.t.runs ==> s'.t.runs[run] == s.t.runs[run] && ArtifactsOf(s'.t, run) == ArtifactsOf(s.t, run)
  {
    KeptAlong(w, s, path, run, s.t.runs[run], ArtifactsOf(s.t, run));
    hide Inv, After;
  }

  // ---------- no run is stuck ----------

  /** How often the run's status changed along the path, and how often it was retried. */
  ghost function Changes(w: World, s: State, path: seq<Action>, run: string): (n: nat) {
    if path == [] then 0
    else
      var k := |path| - 1;
      var t := After(w, s, path[..k]);
      var u := TablesAfter(w, t, path[k]);
      Changes(w, s, path[..k], run)
        + if run in t.t.runs && run in u.runs && t.t.runs[run].status != u.runs[run].status then 1 else 0
  }

  ghost function RetriesOf(w: World, s: State, path: seq<Action>, run: string): (n: nat) {
    if path == [] then 0
    else
      var k := |path| - 1;
      var t := After(w, s, path[..k]);
      RetriesOf(w, s, path[..k], run) + if EventsOf(w, t, path[k]) == [Retries(run)] then 1 else 0
  }

  ghost function RankIn(s: State, run: string): (k: nat) {
    if run in s.t.runs then Rank(s.t.runs[run].status) else 0
  }

  lemma ChangeCosts(w: World, s: State, a: Action, run: string)
    requires Inv(s) && Legal(w, s, a) && run in s.used
    ensures var u := TablesAfter(w, s, a);
      RankIn(Next(w, s, a), run) + (if run in s.t.runs && run in u.runs && s.t.runs[run].status != u.runs[run].status then 1 else 0)
        <= RankIn(s, run) + if EventsOf(w, s, a) == [Retries(run)] then 4 else 0
  {
    hide Legal, TablesAfter, MoveOf, EventsOf, IssuedBy, ObjectsAfter, Drawn, Moved, Allows, LogKnown, HeldAsLogged, CompletedOnce,
      RowOk, Blobs.ValidId, Rank;
    var u := TablesAfter(w, s, a);
    if run in u.runs {
      if run in s.t.runs {
        RowMoves(w, s, a, run);
        EventTells(w, s, a, run);
        EventNames(w, s, a);
        RankMoves(s.t.runs[run], MoveOf(w, s, a, run), s.now);
      } else {
        NewRows(w, s, a, run);
        DrawnUnused(w, s, a, run);
      }
    }
  }

  /** Every change of status takes the rank down, but a retry, which raises it from 0 to 3. */
  lemma RankMoves(r: Run, m: Move, at: Time)
    requires Allows(r, m)
    ensures var before, after := Rank(r.status), Rank(Moved(r, m, at).status);
      if m.ByRetry? then before == 0 && after == 3
      else if Moved(r, m, at).status != r.status then after < before
      else after == before
  {
  }

  /** Between retries a run changes status at most three times: over any path, at most its rank and
      four times for each retry. */
  lemma {:induction false} ChangesAreBounded(w: World, s: State, path: seq<Action>, run: string)
    requires Inv(s) && LegalPath(w, s, path) && run in s.used
    ensures run in After(w, s, path).used
    ensures RankIn(After(w, s, path), run) + Changes(w, s, path, run) <= RankIn(s, run) + 4 * RetriesOf(w, s, path, run)
  {
    hide Inv, TablesAfter, EventsOf, IssuedBy, ObjectsAfter, Legal, RankIn;
    if path != [] {
      LegalPrefix(w, s, path);
      var front := path[..|path| - 1];
      InvAlong(w, s, front);
      ChangesAreBounded(w, s, front, run);
      ChangeCosts(w, After(w, s, front), path[|path| - 1], run);
    }
  }

  /** An unfinished run is claimable, and then any key that serves its organization can claim it; or
      it has a claim time, and a sweep after its time limit ends it. */
  lemma NoRunIsStuck(w: World, s: State, run: string, kid: string, keyOrg: string, jti: string)
    requires Inv(s) && run in s.t.runs && !Terminal(s.t.runs[run].status)
    requires s.t.runs[run].project in s.t.projects && Serves(keyOrg, s.t.projects[s.t.runs[run].project].org)
    ensures Claimable(s.t.runs[run].status) ==>
      MintStep(s.t, s.now, kid, keyOrg, true, run, jti).0.runs[run] == Claimed(s.t.runs[run], kid, jti, s.now)
    ensures !Claimable(s.t.runs[run].status) ==> s.t.runs[run].claimedAt.Some?
    ensures !Claimable(s.t.runs[run].status) && s.now - w.timeout > s.t.runs[run].claimedAt.value ==>
      TablesAfter(w, s, SweepAll).runs[run] == TimedOutAt(s.t.runs[run], s.now)
  {
    hide LogKnown, HeldAsLogged, CompletedOnce;
    assert RowOk(s.t.runs[run]);
  }
}
