/** Workers, users, the sweeper and a restart of the app, all taking steps on the same runs: one
    authenticated request is one step. Run tokens already issued may be presented at any time,
    by anybody, in any order (server/emi/auth.go, server/emi/api_agent.go, server/emi/api_user.go,
    server/local/sqlitestore.go, worker/emi_worker/runner.py). */
module Protocol {
  import opened Options
  import opened Runs
  import opened Stores
  import opened Service
  import opened Boards
  import opened Blobs
  import opened Keys

  /** What does not change: where objects are kept, when a run is overdue, the upload limit. */
  datatype World = World(storage: Storage, timeout: int, limit: int)

  /** What has happened to runs: claimed under a token id, completed by a request that took
      effect, taken away by a retry. */
  datatype Event = Claims(run: string, jti: string) | Completes(run: string, jti: string) | Retries(run: string)

  datatype State = State(t: Tables, objects: set<string>, issued: set<Token>, now: Time, used: set<string>, log: seq<Event>)

  datatype Action =
    | Tick(to: Time)
    | Put(key: string)
    | NewProject(id: string, org: string)
    | NewBoard(project: string, key: string, digestOk: bool, stat: Stat, board: string, run: string)
    | NewRun(project: string, board: string, refusal: int, run: string)
    | Mint(kid: string, keyOrg: string, allowed: bool, run: string, jti: string)
    | Refresh(kid: string, keyOrg: string, run: string)
    | Progress(tok: Token, path: string, stage: string, text: string)
    | Finish(tok: Token, path: string, body: Body, stat: Stat)
    | StopIt(run: string)
    | RetryIt(allowed: bool, run: string)
    | SweepAll
    | Restart
    | DropProject(project: string, listed: seq<string>, keys: seq<string>)
    | DropBoard(project: string, board: string, listed: seq<string>, runs: seq<string>, keys: seq<string>)

  // ---------- steps ----------

  ghost predicate Fresh(s: State, id: string) {
    ValidId(id) && id !in s.used
  }

  ghost predicate StatOk(w: World, s: State, stat: Stat) {
    forall key :: stat(key).Some? <==> ObjectName(w.storage, key) in s.objects
  }

  /** A new id is one never drawn before; a presented token is one that was issued; a deletion
      lists and clears what it finds. */
  ghost predicate Legal(w: World, s: State, a: Action) {
    match a
    case Tick(to) => to >= s.now
    case NewProject(id, _) => Fresh(s, id)
    case NewBoard(_, _, _, stat, board, run) => Fresh(s, board) && Fresh(s, run) && board != run && StatOk(w, s, stat)
    case NewRun(_, _, _, run) => Fresh(s, run)
    case Mint(kid, _, _, _, jti) => kid != "" && Fresh(s, jti)
    case Progress(tok, _, _, _) => tok in s.issued
    case Finish(tok, _, _, stat) => tok in s.issued && StatOk(w, s, stat)
    case DropProject(project, listed, keys) =>
      project in s.t.projects ==> IsListing(s.t, project, LIST_LIMIT, listed) && IsOrphans(s.t, project, keys)
    case DropBoard(project, board, listed, runs, keys) =>
      project in s.t.projects && HasBoard(s.t, project, board) ==>
        && IsListing(s.t, project, LIST_LIMIT, listed)
        && OfVersion(s.t, board, listed, runs) && IsVersionOrphans(s.t, project, board, keys)
    case _ => true
  }

  /** Whether a version is deleted, rather than the request refused. */
  ghost predicate DropsBoard(t: Tables, project: string, board: string, listed: seq<string>) {
    && project in t.projects && HasBoard(t, project, board)
    && !OnlyVersion(t, project, board) && !StillGoing(t, board, listed)
  }

  ghost function TablesAfter(w: World, s: State, a: Action): (t: Tables) {
    match a
    case Tick(_) => s.t
    case Put(_) => s.t
    case NewProject(id, org) => CreateProjectStep(s.t, org, 0, id).0
    case NewBoard(project, key, digestOk, stat, board, run) =>
      CreateBoardStep(s.t, s.now, project, key, digestOk, stat, w.limit, board, run).0
    case NewRun(project, board, refusal, run) => CreateRunStep(s.t, s.now, project, board, refusal, run).0
    case Mint(kid, keyOrg, allowed, run, jti) => MintStep(s.t, s.now, kid, keyOrg, allowed, run, jti).0
    case Refresh(_, _, _) => s.t
    case Progress(tok, path, stage, text) => ProgressStep(s.t, s.now, tok, path, stage, text).0
    case Finish(tok, path, body, stat) => CompleteStep(s.t, s.now, tok, path, body, stat, w.limit).0
    case StopIt(run) => StopStep(s.t, s.now, run).0
    case RetryIt(allowed, run) => RetryStep(s.t, s.now, allowed, run).0
    case SweepAll => Sweep(s.t, s.now - w.timeout, s.now)
    case Restart => Interrupt(s.t, s.now)
    case DropProject(project, _, _) => if project in s.t.projects then WithoutProject(s.t, project) else s.t
    case DropBoard(project, board, listed, _, _) =>
      if DropsBoard(s.t, project, board, listed) then WithoutBoard(s.t, project, board) else s.t
  }

  ghost function ObjectsAfter(w: World, s: State, a: Action): (objects: set<string>) {
    match a
    case Put(key) => s.objects + {ObjectName(w.storage, key)}
    case DropProject(project, listed, keys) =>
      if project in s.t.projects then Cleared(w.storage, s.objects, listed, keys) else s.objects
    case DropBoard(project, board, listed, runs, keys) =>
      if DropsBoard(s.t, project, board, listed) then Cleared(w.storage, s.objects, runs, keys) else s.objects
    case _ => s.objects
  }

  ghost function IssuedBy(s: State, a: Action): (tok: Option<Token>) {
    match a
    case Mint(kid, keyOrg, allowed, run, jti) => MintStep(s.t, s.now, kid, keyOrg, allowed, run, jti).1.token
    case Refresh(kid, keyOrg, run) => RefreshStep(s.t, s.now, kid, keyOrg, run).token
    case _ => None
  }

  ghost function Drawn(a: Action): (ids: set<string>) {
    match a
    case NewProject(id, _) => {id}
    case NewBoard(_, _, _, _, board, run) => {board, run}
    case NewRun(_, _, _, run) => {run}
    case Mint(_, _, _, _, jti) => {jti}
    case _ => {}
  }

  ghost function EventsOf(w: World, s: State, a: Action): (events: seq<Event>) {
    match a
    case Mint(kid, keyOrg, allowed, run, jti) =>
      var tok := IssuedBy(s, a);
      if tok.Some? && tok.value.jti == jti then [Claims(run, jti)] else []
    case Finish(tok, path, body, stat) =>
      if CompleteStep(s.t, s.now, tok, path, body, stat, w.limit).1.code == 200 then [Completes(path, tok.jti)] else []
    case RetryIt(allowed, run) => if RetryStep(s.t, s.now, allowed, run).1.code == 200 then [Retries(run)] else []
    case _ => []
  }

  ghost function Next(w: World, s: State, a: Action): (s': State) {
    var tok := IssuedBy(s, a);
    State(TablesAfter(w, s, a), ObjectsAfter(w, s, a), if tok.Some? then s.issued + {tok.value} else s.issued,
          if a.Tick? then a.to else s.now, s.used + Drawn(a), s.log + EventsOf(w, s, a))
  }

  // ---------- what a step does to one run's row ----------

  datatype Move = Same | ByClaim(kid: string, jti: string) | ByProgress(text: string) | ByCompletion(c: Completion)
                | ByStop | ByRetry | BySweep | ByRestart

  function Moved(r: Run, m: Move, at: Time): (q: Run) {
    match m
    case Same => r
    case ByClaim(kid, jti) => Claimed(r, kid, jti, at)
    case ByProgress(text) => Progressed(r, text, at)
    case ByCompletion(c) => Completed(r, c, at)
    case ByStop => StopAsked(r, at)
    case ByRetry => Retried(r, at)
    case BySweep => TimedOutAt(r, at)
    case ByRestart => Interrupted(r, at)
  }

  /** When a row can be moved so. */
  predicate Allows(r: Run, m: Move) {
    match m
    case Same => true
    case ByClaim(kid, jti) => Claimable(r.status) && kid != "" && jti != ""
    case ByProgress(_) => Running(r.status)
    case ByCompletion(c) => Running(r.status) && (c.status == Done || c.status == Failed)
    case ByStop => Stoppable(r.status)
    case ByRetry => Retriable(r.status)
    case BySweep => Running(r.status)
    case ByRestart => Running(r.status)
  }

  ghost function MoveOf(w: World, s: State, a: Action, r: string): (m: Move)
    requires r in s.t.runs
  {
    match a
    case Mint(kid, keyOrg, allowed, run, jti) => if run == r && EventsOf(w, s, a) != [] then ByClaim(kid, jti) else Same
    case Progress(tok, path, stage, text) =>
      if path == r && ProgressStep(s.t, s.now, tok, path, stage, text).1.code == 204 then ByProgress(text) else Same
    case Finish(tok, path, body, stat) =>
      var c := Prepare(s.t, path, body, stat, w.limit);
      if path == r && c.Good? && EventsOf(w, s, a) != [] then ByCompletion(c.value) else Same
    case StopIt(run) => if run == r && CanStop(s.t, r) then ByStop else Same
    case RetryIt(allowed, run) => if run == r && EventsOf(w, s, a) != [] then ByRetry else Same
    case SweepAll => if Overdue(s.t.runs[r], s.now - w.timeout) then BySweep else Same
    case Restart => if Running(s.t.runs[r].status) then ByRestart else Same
    case _ => Same
  }

  /** Every row fits its status, under an id that was drawn; so was its token id. */
  ghost predicate RowsOk(s: State) {
    forall r :: r in s.t.runs ==> RowOk(s.t.runs[r]) && ValidId(r) && r in s.used && (s.t.runs[r].jti == "" || s.t.runs[r].jti in s.used)
  }

  /** The row, if it is still there, is the old one moved as its status allows. */
  ghost predicate MovesBy(t: Tables, u: Tables, r: string, m: Move, at: Time)
    requires r in t.runs
  {
    Allows(t.runs[r], m) && (r in u.runs ==> u.runs[r] == Moved(t.runs[r], m, at))
  }

  lemma MintMoves(t: Tables, now: Time, kid: string, keyOrg: string, allowed: bool, run: string, jti: string, r: string)
    requires kid != "" && jti != "" && r in t.runs && (run in t.runs ==> t.runs[run].jti != jti)
    ensures var (u, reply) := MintStep(t, now, kid, keyOrg, allowed, run, jti);
      var claims := reply.token.Some? && reply.token.value.jti == jti;
      MovesBy(t, u, r, if run == r && claims then ByClaim(kid, jti) else Same, now)
  {
  }

  lemma ProgressMoves(t: Tables, now: Time, tok: Token, path: string, stage: string, text: string, r: string)
    requires r in t.runs
    ensures var (u, reply) := ProgressStep(t, now, tok, path, stage, text);
      MovesBy(t, u, r, if path == r && reply.code == 204 then ByProgress(text) else Same, now)
  {
  }

  lemma FinishMoves(t: Tables, now: Time, tok: Token, path: string, body: Body, stat: Stat, limit: int, r: string)
    requires r in t.runs
    ensures var (u, reply) := CompleteStep(t, now, tok, path, body, stat, limit);
      var c := Prepare(t, path, body, stat, limit);
      MovesBy(t, u, r, if path == r && c.Good? && reply.code == 200 then ByCompletion(c.value) else Same, now)
  {
    PreparedIsOwn(t, path, body, stat, limit);
    RefusedByCode(t, path, body, stat, limit);
    hide Prepare;
  }

  lemma StopMoves(t: Tables, now: Time, run: string, r: string)
    requires r in t.runs
    ensures MovesBy(t, StopStep(t, now, run).0, r, if run == r && CanStop(t, r) then ByStop else Same, now)
  {
  }

  lemma RetryMoves(t: Tables, now: Time, allowed: bool, run: string, r: string)
    requires r in t.runs
    ensures var (u, reply) := RetryStep(t, now, allowed, run);
      MovesBy(t, u, r, if run == r && reply.code == 200 then ByRetry else Same, now)
  {
  }

  lemma CreateMoves(t: Tables, now: Time, project: string, key: string, digestOk: bool, stat: Stat, limit: int, board: string,
                    refusal: int, run: string, r: string)
    requires r in t.runs && run != r
    ensures MovesBy(t, CreateBoardStep(t, now, project, key, digestOk, stat, limit, board, run).0, r, Same, now)
    ensures MovesBy(t, CreateRunStep(t, now, project, board, refusal, run).0, r, Same, now)
  {
    hide UploadKeyAllowed;
  }

  lemma SweepMoves(t: Tables, deadline: Time, now: Time, r: string)
    requires r in t.runs
    ensures MovesBy(t, Sweep(t, deadline, now), r, if Overdue(t.runs[r], deadline) then BySweep else Same, now)
    ensures MovesBy(t, Interrupt(t, now), r, if Running(t.runs[r].status) then ByRestart else Same, now)
  {
  }

  lemma DropMoves(t: Tables, project: string, board: string, now: Time, r: string)
    requires r in t.runs
    ensures MovesBy(t, WithoutProject(t, project), r, Same, now) && MovesBy(t, WithoutBoard(t, project, board), r, Same, now)
  {
  }

  /** What a step leaves of a row is the row moved, and only as its status allows. */
  lemma RowMoves(w: World, s: State, a: Action, r: string)
    requires RowsOk(s) && Legal(w, s, a) && r in s.t.runs
    ensures MovesBy(s.t, TablesAfter(w, s, a), r, MoveOf(w, s, a, r), s.now)
  {
    hide RowOk, MintStep, ProgressStep, CompleteStep, StopStep, RetryStep, CreateBoardStep, CreateRunStep, Sweep, Interrupt,
      WithoutProject, WithoutBoard, MovesBy, ValidId, Prepare, IsListing, IsOrphans, OfVersion, IsVersionOrphans, CanStop, Overdue,
      Legal, RowsOk, Fresh, DropsBoard;
    DrawnIsNew(w, s, a, r);
    StaysSame(s.t, r, s.now);
    match a
    case NewBoard(project, key, digestOk, stat, board, run) =>
      CreateMoves(s.t, s.now, project, key, digestOk, stat, w.limit, board, 0, run, r);
    case NewRun(project, board, refusal, run) =>
      CreateMoves(s.t, s.now, project, "", false, _ => None, 0, board, refusal, run, r);
    case Mint(kid, keyOrg, allowed, run, jti) =>
      MintMoves(s.t, s.now, kid, keyOrg, allowed, run, jti, r);
    case Progress(tok, path, stage, text) => ProgressMoves(s.t, s.now, tok, path, stage, text, r);
    case Finish(tok, path, body, stat) => FinishMoves(s.t, s.now, tok, path, body, stat, w.limit, r);
    case StopIt(run) => StopMoves(s.t, s.now, run, r);
    case RetryIt(allowed, run) => RetryMoves(s.t, s.now, allowed, run, r);
    case SweepAll => SweepMoves(s.t, s.now - w.timeout, s.now, r);
    case Restart => SweepMoves(s.t, 0, s.now, r);
    case DropProject(project, _, _) => DropMoves(s.t, project, "", s.now, r);
    case DropBoard(project, board, _, _, _) => DropMoves(s.t, project, board, s.now, r);
    case NewProject(_, _) => SameRuns(s.t, TablesAfter(w, s, a), r, s.now);
    case _ =>
  }

  lemma StaysSame(t: Tables, r: string, at: Time)
    requires r in t.runs
    ensures MovesBy(t, t, r, Same, at)
  {
  }

  lemma SameRuns(t: Tables, u: Tables, r: string, at: Time)
    requires r in t.runs && u.runs == t.runs
    ensures MovesBy(t, u, r, Same, at)
  {
  }

  /** A drawn id is nobody's row and nobody's token id. */
  lemma DrawnIsNew(w: World, s: State, a: Action, r: string)
    requires RowsOk(s) && Legal(w, s, a) && r in s.t.runs
    ensures r !in Drawn(a)
    ensures a.Mint? ==> a.kid != "" && a.jti != "" && (a.run in s.t.runs ==> s.t.runs[a.run].jti != a.jti)
  {
    hide RowOk, IsListing, IsOrphans, OfVersion, IsVersionOrphans;
  }

  /** A row that was not there is a queued run under an id drawn for it, of a version of its project. */
  lemma NewRows(w: World, s: State, a: Action, r: string)
    requires Legal(w, s, a) && r !in s.t.runs && r in TablesAfter(w, s, a).runs
    ensures var u := TablesAfter(w, s, a);
      && r in Drawn(a) && ValidId(r)
      && exists project, board :: u.runs[r] == Created(project, board, s.now) && HasBoard(u, project, board)
  {
    hide ValidId, UploadKeyAllowed, IsListing, IsOrphans, OfVersion, IsVersionOrphans, Prepare;
    match a
    case NewBoard(project, key, digestOk, stat, board, run) =>
      var u := TablesAfter(w, s, a);
      assert u.runs[r] == Created(project, board, s.now) && HasBoard(u, project, board);
    case NewRun(project, board, refusal, run) =>
      var u := TablesAfter(w, s, a);
      assert u.runs[r] == Created(project, board, s.now) && HasBoard(u, project, board);
    case _ =>
  }

  lemma MovedRowOk(s: State, r: Run, m: Move, at: Time)
    requires RowOk(r) && Allows(r, m)
    ensures RowOk(Moved(r, m, at))
  {
    RowsStayOk(r, if m.ByClaim? then m.kid else "", if m.ByClaim? then m.jti else "",
               if m.ByCompletion? then m.c else Completion(Done, None, "", None, [], None),
               if m.ByProgress? then m.text else "", at);
    hide RowOk;
  }

  /** The event of a step tells what it did to the run it names, and nothing else does that. */
  lemma EventTells(w: World, s: State, a: Action, r: string)
    requires RowsOk(s) && Legal(w, s, a) && r in s.t.runs
    ensures var m, events := MoveOf(w, s, a, r), EventsOf(w, s, a);
      && (m.ByClaim? <==> events != [] && events[0].Claims? && events[0].run == r)
      && (m.ByClaim? ==> events == [Claims(r, m.jti)] && m.jti in Drawn(a))
      && (m.ByCompletion? <==> events != [] && events[0].Completes? && events[0].run == r)
      && (m.ByCompletion? ==> events == [Completes(r, s.t.runs[r].jti)])
      && (m.ByRetry? <==> events != [] && events[0].Retries? && events[0].run == r)
  {
    hide RowOk, Legal, MintStep, RetryStep, CompleteStep, Prepare, StopStep, ProgressStep, RowsOk;
    if a.Finish? {
      FinishTells(s.t, s.now, a.tok, a.path, a.body, a.stat, w.limit);
    }
    if a.Mint? {
      DrawnIsNew(w, s, a, r);
    }
  }

  lemma FinishTells(t: Tables, now: Time, tok: Token, path: string, body: Body, stat: Stat, limit: int)
    ensures CompleteStep(t, now, tok, path, body, stat, limit).1.code == 200 ==>
      Prepare(t, path, body, stat, limit).Good? && path in t.runs && t.runs[path].jti == tok.jti
  {
    RefusedByCode(t, path, body, stat, limit);
    hide Prepare;
  }

  /** Only a run that is there has events, one a step. */
  lemma EventNames(w: World, s: State, a: Action)
    ensures var events := EventsOf(w, s, a);
      events == [] || (|events| == 1 && events[0].run in s.t.runs)
  {
    hide Prepare;
    match a
    case Mint(kid, keyOrg, allowed, run, jti) =>
    case Finish(tok, path, body, stat) => FinishTells(s.t, s.now, tok, path, body, stat, w.limit);
    case RetryIt(allowed, run) =>
    case _ =>
  }

  lemma RowsStay(w: World, s: State, a: Action)
    requires RowsOk(s) && Legal(w, s, a)
    ensures RowsOk(Next(w, s, a))
  {
    var u := TablesAfter(w, s, a);
    hide Legal, TablesAfter, RowOk, ValidId, MoveOf, EventsOf, IssuedBy, ObjectsAfter, Moved, Allows;
    forall r | r in u.runs
      ensures RowOk(u.runs[r]) && ValidId(r) && r in s.used + Drawn(a) && (u.runs[r].jti == "" || u.runs[r].jti in s.used + Drawn(a))
    {
      if r in s.t.runs {
        RowMoves(w, s, a, r);
        MovedRowOk(s, s.t.runs[r], MoveOf(w, s, a, r), s.now);
        EventTells(w, s, a, r);
        MovedJti(s.t.runs[r], MoveOf(w, s, a, r), s.now);
      } else {
        NewRows(w, s, a, r);
        CreatedOk(s.now);
      }
    }
  }

  lemma CreatedOk(at: Time)
    ensures forall project, board :: RowOk(Created(project, board, at)) && Created(project, board, at).jti == ""
  {
  }

  /** The token id of a moved row: the claim's, none after a retry, otherwise what it was. */
  lemma MovedJti(r: Run, m: Move, at: Time)
    ensures Moved(r, m, at).jti == if m.ByClaim? then m.jti else if m.ByRetry? then "" else r.jti
    ensures Allows(r, m) && Running(Moved(r, m, at).status) ==> m.ByClaim? || (Running(r.status) && !m.ByCompletion? && !m.ByRetry?)
    ensures Allows(r, m) && m != Same ==> r.status != Done
    ensures Allows(r, m) && !m.ByRetry? && Moved(r, m, at).status != r.status ==> Rank(Moved(r, m, at).status) < Rank(r.status)
  {
  }

  // ---------- what the log says ----------

  /** The token id the run was last claimed under, if nothing has taken the run away since. */
  function Holder(log: seq<Event>, run: string): (jti: string) {
    if log == [] then ""
    else
      match log[|log| - 1]
      case Claims(r, j) => if r == run then j else Holder(log[..|log| - 1], run)
      case Retries(r) => if r == run then "" else Holder(log[..|log| - 1], run)
      case Completes(_, _) => Holder(log[..|log| - 1], run)
  }

  lemma HolderNext(log: seq<Event>, e: Event, run: string)
    ensures Holder(log + [e], run) == if e == Retries(run) then "" else if e.Claims? && e.run == run then e.jti else Holder(log, run)
  {
    assert (log + [e])[..|log|] == log;
  }

  /** How often a claim of the run was completed. */
  function Completions(log: seq<Event>, run: string, jti: string): (n: nat) {
    multiset(log)[Completes(run, jti)]
  }

  lemma CompletionsNext(log: seq<Event>, e: Event, run: string, jti: string)
    ensures Completions(log + [e], run, jti) == Completions(log, run, jti) + if e == Completes(run, jti) then 1 else 0
  {
  }

  /** The log knows drawn ids only. */
  ghost predicate LogKnown(s: State) {
    forall e :: e in s.log ==> e.run in s.used && (e.Claims? || e.Completes? ==> e.jti in s.used)
  }

  /** A row's token id is that of the run's current claim. */
  ghost predicate HeldAsLogged(s: State) {
    forall r :: r in s.t.runs ==> s.t.runs[r].jti == Holder(s.log, r)
  }

  /** No claim was completed twice, and a run still being worked on has its current claim not
      completed at all. */
  ghost predicate CompletedOnce(s: State) {
    && (forall r, j :: Completions(s.log, r, j) <= 1)
    && (forall r :: r in s.t.runs && Running(s.t.runs[r].status) ==> Completions(s.log, r, s.t.runs[r].jti) == 0)
  }

  lemma {:induction false} UnknownHolder(log: seq<Event>, run: string)
    requires forall e :: e in log ==> e.run != run
    ensures Holder(log, run) == ""
  {
    if log != [] {
      assert log[|log| - 1] in log;
      UnknownHolder(log[..|log| - 1], run);
    }
  }

  lemma LogStaysKnown(w: World, s: State, a: Action)
    requires RowsOk(s) && Legal(w, s, a) && LogKnown(s)
    ensures LogKnown(Next(w, s, a))
  {
    EventNames(w, s, a);
    hide Legal, TablesAfter, RowOk, ValidId, MoveOf, EventsOf, IssuedBy, ObjectsAfter, Drawn;
    var events := EventsOf(w, s, a);
    if events != [] {
      var e := events[0];
      EventTells(w, s, a, e.run);
      RowMoves(w, s, a, e.run);
      CompletedHasJti(s.t.runs[e.run], MoveOf(w, s, a, e.run));
      assert events == [e];
    }
  }

  lemma CompletedHasJti(r: Run, m: Move)
    requires RowOk(r) && Allows(r, m)
    ensures m.ByCompletion? ==> r.jti != ""
  {
  }

  lemma HeldStays(w: World, s: State, a: Action)
    requires RowsOk(s) && Legal(w, s, a) && LogKnown(s) && HeldAsLogged(s)
    ensures HeldAsLogged(Next(w, s, a))
  {
    EventNames(w, s, a);
    var u := TablesAfter(w, s, a);
    var events := EventsOf(w, s, a);
    hide Legal, TablesAfter, RowOk, ValidId, MoveOf, EventsOf, IssuedBy, ObjectsAfter, Drawn, Moved, Allows, Holder;
    forall r | r in u.runs ensures u.runs[r].jti == Holder(s.log + events, r) {
      HolderAfter(w, s, a, r);
      if r in s.t.runs {
        RowMoves(w, s, a, r);
        EventTells(w, s, a, r);
        MovedJti(s.t.runs[r], MoveOf(w, s, a, r), s.now);
      } else {
        NewRows(w, s, a, r);
        CreatedOk(s.now);
        DrawnUnused(w, s, a, r);
        UnknownHolder(s.log, r);
      }
    }
  }

  lemma HolderAfter(w: World, s: State, a: Action, r: string)
    ensures var events := EventsOf(w, s, a);
      Holder(s.log + events, r) ==
        if events == [] || events[0].run != r || events[0].Completes? then Holder(s.log, r)
        else if events[0].Claims? then events[0].jti
        else ""
  {
    EventNames(w, s, a);
    hide EventsOf, Holder;
    var events := EventsOf(w, s, a);
    if events == [] {
      assert s.log + events == s.log;
    } else {
      assert events == [events[0]];
      HolderNext(s.log, events[0], r);
    }
  }

  lemma DrawnUnused(w: World, s: State, a: Action, id: string)
    requires Legal(w, s, a) && id in Drawn(a)
    ensures id !in s.used && id != ""
  {
    hide IsListing, IsOrphans, OfVersion, IsVersionOrphans;
  }

  lemma CompletedOnceStays(w: World, s: State, a: Action)
    requires RowsOk(s) && Legal(w, s, a) && LogKnown(s) && CompletedOnce(s)
    ensures CompletedOnce(Next(w, s, a))
  {
    EventNames(w, s, a);
    var u := TablesAfter(w, s, a);
    var events := EventsOf(w, s, a);
    hide Legal, TablesAfter, RowOk, ValidId, MoveOf, EventsOf, IssuedBy, ObjectsAfter, Drawn, Moved, Allows, Completions;
    forall r, j ensures Completions(s.log + events, r, j) <= 1 {
      CompletionsAfter(w, s, a, r, j);
    }
    forall r | r in u.runs && Running(u.runs[r].status) ensures Completions(s.log + events, r, u.runs[r].jti) == 0 {
      CompletionsAfter(w, s, a, r, u.runs[r].jti);
      if r in s.t.runs {
        RowMoves(w, s, a, r);
        EventTells(w, s, a, r);
        MovedJti(s.t.runs[r], MoveOf(w, s, a, r), s.now);
        if MoveOf(w, s, a, r).ByClaim? {
          DrawnUnused(w, s, a, u.runs[r].jti);
          NotLogged(s, r, u.runs[r].jti);
        }
      } else {
        NewRows(w, s, a, r);
      }
    }
  }

  lemma NotLogged(s: State, r: string, j: string)
    requires LogKnown(s) && j !in s.used
    ensures Completions(s.log, r, j) == 0
  {
    assert Completes(r, j) !in s.log;
  }

  /** A completion is logged for a claim only while the claim is running and has none. */
  lemma CompletionsAfter(w: World, s: State, a: Action, r: string, j: string)
    requires RowsOk(s) && Legal(w, s, a) && CompletedOnce(s)
    ensures var events := EventsOf(w, s, a);
      && Completions(s.log + events, r, j) == Completions(s.log, r, j) + (if events == [Completes(r, j)] then 1 else 0)
      && (events == [Completes(r, j)] ==> Completions(s.log, r, j) == 0)
  {
    EventNames(w, s, a);
    hide Legal, TablesAfter, RowOk, ValidId, MoveOf, EventsOf, Completions;
    var events := EventsOf(w, s, a);
    if events == [] {
      assert s.log + events == s.log;
    } else {
      assert events == [events[0]];
      CompletionsNext(s.log, events[0], r, j);
    }
    if events == [Completes(r, j)] {
      assert events[0] == Completes(r, j);
      RowMoves(w, s, a, r);
      EventTells(w, s, a, r);
    }
  }
}
