/** What each request that changes a run does to its row, column by column, and to nothing else
    (server/emi/api_agent.go, server/emi/api_user.go, server/emi/pgstore.go). */
module RequestLaws {
  import opened Options
  import opened Runs
  import opened Stores
  import opened Service
  import opened Keys
  import opened Boards
  import opened Protocol
  import opened Lifecycle

  /** Nothing but the one run's row differs. */
  ghost predicate OnlyRun(t: Tables, u: Tables, id: string) {
    && u.projects == t.projects && u.boards == t.boards && u.artifacts == t.artifacts && id in t.runs && id in u.runs
    && (forall r :: r in u.runs <==> r in t.runs) && (forall r :: r in t.runs && r != id ==> u.runs[r] == t.runs[r])
  }

  /** What no request changes of a row. */
  ghost predicate SameRun(r: Run, q: Run) {
    q.project == r.project && q.board == r.board && q.createdAt == r.createdAt
  }

  // ---------- tokens ----------

  /** The run token a request gets lives for six hours, in whole seconds, for this run and its
      project's organization, under the row's token id. */
  ghost predicate TokenFor(u: Tables, id: string, now: Time, tok: Token) {
    && id in u.runs && u.runs[id].project in u.projects
    && tok.run == id && tok.org == u.projects[u.runs[id].project].org && tok.jti == u.runs[id].jti
    && now + 21_600_000_000_000 - 1_000_000_000 < tok.exp <= now + 21_600_000_000_000 && tok.exp % 1_000_000_000 == 0
  }

  /** Whether the key may act on the run: it is shared, or of the organization of the run's project. */
  ghost predicate MayServe(t: Tables, keyOrg: string, id: string) {
    && id in t.runs && t.runs[id].project in t.projects
    && (keyOrg == "" || t.projects[t.runs[id].project].org == keyOrg)
  }

  ghost predicate HasIt(t: Tables, id: string, kid: string) {
    && id in t.runs && (t.runs[id].status == InProgress || t.runs[id].status == Stopping)
    && t.runs[id].owner == kid && kid != "" && t.runs[id].jti != ""
  }

  ghost predicate Queued(t: Tables, id: string) {
    id in t.runs && (t.runs[id].status == New || t.runs[id].status == RetryPending)
  }

  /** A token is minted exactly for a key that may act on the run and has the feature, when the run is
      queued or the key's own already. */
  lemma MintIffAllowed(t: Tables, now: Time, kid: string, keyOrg: string, allowed: bool, id: string, jti: string)
    ensures var (u, r) := MintStep(t, now, kid, keyOrg, allowed, id, jti);
      && (r.code == 200 <==> r.token.Some?)
      && (r.code == 200 <==> MayServe(t, keyOrg, id) && allowed && (Queued(t, id) || HasIt(t, id, kid)))
      && (r.code == 200 ==> TokenFor(u, id, now, r.token.value))
      && (r.code == 404 <==> id !in t.runs || (allowed && !MayServe(t, keyOrg, id)))
      && (r.code == 403 <==> id in t.runs && !allowed)
      && (r.code == 200 || r.code == 403 || r.code == 404 || r.code == 409)
  {
  }

  /** Minting for a queued run claims it for the key under the new id; any other mint changes nothing. */
  lemma MintClaims(t: Tables, now: Time, kid: string, keyOrg: string, allowed: bool, id: string, jti: string)
    ensures var (u, r) := MintStep(t, now, kid, keyOrg, allowed, id, jti);
      if r.code == 200 && Queued(t, id) then
        && OnlyRun(t, u, id) && SameRun(t.runs[id], u.runs[id])
        && var (row, q) := (t.runs[id], u.runs[id]);
           && q.status == InProgress && q.owner == kid && q.jti == jti && q.claimedAt == Some(now) && q.updatedAt == now
           && q.startedAt == (if row.startedAt.Some? then row.startedAt else Some(now)) && q.finishedAt == row.finishedAt
           && q.progress == row.progress && q.summary == row.summary && q.error == row.error && q.estimate == row.estimate
      else u == t
  {
  }

  /** A refresh is answered with a token exactly for the key that has the run; it changes nothing. */
  lemma RefreshIffHeld(t: Tables, now: Time, kid: string, keyOrg: string, id: string)
    ensures var r := RefreshStep(t, now, kid, keyOrg, id);
      && (r.code == 200 <==> r.token.Some?) && (r.code == 200 <==> MayServe(t, keyOrg, id) && HasIt(t, id, kid))
      && (r.code == 200 ==> TokenFor(t, id, now, r.token.value))
      && (r.code == 404 <==> !MayServe(t, keyOrg, id)) && (r.code == 200 || r.code == 404 || r.code == 409)
  {
  }

  /** The token is in date, for the run in the path, under the id that run's row has. */
  ghost predicate Admits(t: Tables, now: Time, tok: Token, path: string) {
    now < tok.exp && tok.run == path && path != "" && path in t.runs && t.runs[path].jti == tok.jti && tok.jti != ""
  }

  ghost predicate BeingWorkedOn(t: Tables, id: string) {
    id in t.runs && (t.runs[id].status == InProgress || t.runs[id].status == Stopping)
  }

  // ---------- progress ----------

  /** Progress is noted exactly with an admitted token, a stage, and while the run is worked on. */
  lemma ProgressNotes(t: Tables, now: Time, tok: Token, path: string, stage: string, text: string)
    ensures var (u, r) := ProgressStep(t, now, tok, path, stage, text);
      && (r.code == 204 <==> Admits(t, now, tok, path) && stage != "" && BeingWorkedOn(t, path))
      && (r.code != 204 ==> u == t)
      && (r.code == 204 ==> OnlyRun(t, u, path) && u.runs[path] == t.runs[path].(progress := Some(text), updatedAt := now))
  {
  }

  /** The token is past its end, or names no run. */
  ghost predicate Lapsed(now: Time, tok: Token) {
    now >= tok.exp || tok.run == ""
  }

  /** The token is for the run in the path, but not under the id that run's row has. */
  ghost predicate Superseded(t: Tables, now: Time, tok: Token, path: string) {
    !Lapsed(now, tok) && tok.run == path && path in t.runs && (t.runs[path].jti == "" || t.runs[path].jti != tok.jti)
  }

  /** Which requests with a run token are refused, and how: for a token that lapsed, for one of another
      run, for a run that is gone. */
  ghost predicate TokenCodes(t: Tables, now: Time, tok: Token, path: string, code: int) {
    && (code == 401 <==> Lapsed(now, tok))
    && (code == 403 <==> !Lapsed(now, tok) && tok.run != path)
    && (code == 404 <==> !Lapsed(now, tok) && tok.run == path && path !in t.runs)
  }

  lemma ProgressCodes(t: Tables, now: Time, tok: Token, path: string, stage: string, text: string)
    ensures var code := ProgressStep(t, now, tok, path, stage, text).1.code;
      && TokenCodes(t, now, tok, path, code)
      && (code == 400 <==> Admits(t, now, tok, path) && stage == "")
      && (code == 409 <==> Superseded(t, now, tok, path) || (Admits(t, now, tok, path) && stage != "" && !BeingWorkedOn(t, path)))
  {
  }

  // ---------- completion ----------

  /** The name an artifact is recorded under: trimmed, clean, short, and not hidden behind dots. */
  ghost predicate GoodName(name: string) {
    CleanKey(name) && Bytes(name) <= 200 && !(|name| >= 2 && name[0] == '.' && name[1] == '.')
  }

  ghost function KeyFor(a: ArtifactBody, run: string): (key: string) {
    if a.key == "" then "runs/" + run + "/" + TrimSpace(a.name) else a.key
  }

  /** How large the artifact is: as storage says, or as the request does where storage has nothing. */
  ghost function SizeOf(a: ArtifactBody, run: string, stat: Stat): (size: int) {
    var found := stat(KeyFor(a, run));
    if found.Some? then found.value.0 else a.size
  }

  ghost function TypeOf(a: ArtifactBody, run: string, stat: Stat): (ct: string) {
    var found := stat(KeyFor(a, run));
    if found.Some? && found.value.1 != "" then found.value.1
    else if a.contentType != "" then a.contentType
    else "application/octet-stream"
  }

  ghost predicate GoodArtifact(a: ArtifactBody, run: string, done: bool, stat: Stat, limit: int) {
    && GoodName(TrimSpace(a.name)) && RunKeyAllowed(KeyFor(a, run), run)
    && (done ==> stat(KeyFor(a, run)).Some?) && SizeOf(a, run, stat) <= limit
  }

  ghost predicate GoodBoard(r: Run, run: string, board: Option<BoardBody>) {
    board.Some? ==>
      && (board.value.boardKey == "" || RunKeyAllowed(board.value.boardKey, run))
      && (r.board == "" || board.value.sha.Some?)
  }

  lemma NameIsTrimmed(a: ArtifactBody, run: string)
    ensures NameAndKey(a, run).Some? <==> GoodName(TrimSpace(a.name)) && RunKeyAllowed(KeyFor(a, run), run)
    ensures NameAndKey(a, run).Some? ==> NameAndKey(a, run).value == (TrimSpace(a.name), KeyFor(a, run))
  {
    hide CleanKey, Bytes, RunKeyAllowed, TrimSpace;
  }

  lemma {:induction false} NamesIfGood(arts: seq<ArtifactBody>, run: string, n: nat)
    requires n <= |arts|
    ensures NamesAndKeys(arts, run, n).Some? <==> forall i :: 0 <= i < n ==> NameAndKey(arts[i], run).Some?
    ensures NamesAndKeys(arts, run, n).Some? ==>
      forall i :: 0 <= i < n ==> NameAndKey(arts[i], run) == Some(NamesAndKeys(arts, run, n).value[i])
  {
    hide NameAndKey;
    if n > 0 {
      NamesIfGood(arts, run, n - 1);
    }
  }

  lemma {:induction false} RecordedIfGood(arts: seq<ArtifactBody>, named: seq<(string, string)>, done: bool, stat: Stat, limit: int, n: nat)
    requires n <= |arts| == |named|
    ensures RecordedAll(arts, named, done, stat, limit, n).Good? <==> forall i :: 0 <= i < n ==> Recorded(arts[i], named[i], done, stat, limit).Good?
    ensures RecordedAll(arts, named, done, stat, limit, n).Good? ==>
      forall i :: 0 <= i < n ==> Recorded(arts[i], named[i], done, stat, limit) == Good(RecordedAll(arts, named, done, stat, limit, n).value[i])
  {
    hide Recorded;
    if n > 0 {
      RecordedIfGood(arts, named, done, stat, limit, n - 1);
    }
  }

  /** What is recorded of an artifact. */
  lemma RecordedAs(a: ArtifactBody, run: string, done: bool, stat: Stat, limit: int)
    requires NameAndKey(a, run).Some?
    ensures var r := Recorded(a, NameAndKey(a, run).value, done, stat, limit);
      && (r.Good? <==> GoodArtifact(a, run, done, stat, limit))
      && (r.Good? ==> r.value == Named(TrimSpace(a.name), Artifact(KeyFor(a, run), TypeOf(a, run, stat), SizeOf(a, run, stat))))
  {
    NameIsTrimmed(a, run);
    hide NameAndKey, TrimSpace, RunKeyAllowed, GoodName;
  }

  ghost predicate GoodBody(t: Tables, path: string, body: Body, stat: Stat, limit: int)
    requires path in t.runs
  {
    && (body.status == Done || body.status == Failed) && GoodBoard(t.runs[path], path, body.board)
    && forall i :: 0 <= i < |body.artifacts| ==> GoodArtifact(body.artifacts[i], path, body.status == Done, stat, limit)
  }

  /** The i-th artifact of a completion that is not refused. */
  lemma PreparedAt(t: Tables, path: string, body: Body, stat: Stat, limit: int, i: nat)
    requires path in t.runs && Prepare(t, path, body, stat, limit).Good? && i < |body.artifacts|
    ensures var c := Prepare(t, path, body, stat, limit).value;
      && |c.artifacts| == |body.artifacts|
      && c.artifacts[i] == Named(TrimSpace(body.artifacts[i].name),
           Artifact(KeyFor(body.artifacts[i], path), TypeOf(body.artifacts[i], path, stat), SizeOf(body.artifacts[i], path, stat)))
  {
    hide NameAndKey, Recorded, TrimSpace, RunKeyAllowed, KeyFor, TypeOf, SizeOf, GoodArtifact;
    var arts := body.artifacts;
    NamesIfGood(arts, path, |arts|);
    var named := NamesAndKeys(arts, path, |arts|).value;
    RecordedIfGood(arts, named, body.status == Done, stat, limit, |arts|);
    RecordedAs(arts[i], path, body.status == Done, stat, limit);
  }

  lemma PreparedIfGood(t: Tables, path: string, body: Body, stat: Stat, limit: int)
    requires path in t.runs
    ensures Prepare(t, path, body, stat, limit).Good? <==> GoodBody(t, path, body, stat, limit)
  {
    hide NameAndKey, Recorded, RunKeyAllowed, KeyFor, GoodArtifact, GoodName, TrimSpace;
    var arts, done := body.artifacts, body.status == Done;
    NamesIfGood(arts, path, |arts|);
    forall i | 0 <= i < |arts| ensures GoodArtifact(arts[i], path, done, stat, limit) ==> NameAndKey(arts[i], path).Some? {
      GoodIsNamed(arts[i], path, done, stat, limit);
    }
    if NamesAndKeys(arts, path, |arts|).Some? {
      var named := NamesAndKeys(arts, path, |arts|).value;
      RecordedIfGood(arts, named, done, stat, limit, |arts|);
      forall i | 0 <= i < |arts| ensures Recorded(arts[i], named[i], done, stat, limit).Good? <==> GoodArtifact(arts[i], path, done, stat, limit) {
        RecordedAs(arts[i], path, done, stat, limit);
      }
    }
  }

  lemma GoodIsNamed(a: ArtifactBody, run: string, done: bool, stat: Stat, limit: int)
    ensures GoodArtifact(a, run, done, stat, limit) ==> NameAndKey(a, run).Some?
  {
    NameIsTrimmed(a, run);
    hide NameAndKey, TrimSpace, RunKeyAllowed, GoodName;
  }

  /** A completion takes effect exactly with an admitted token while the run is worked on, when its
      artifacts and its board are acceptable; otherwise nothing changes. */
  lemma FinishIffGood(t: Tables, now: Time, tok: Token, path: string, body: Body, stat: Stat, limit: int)
    ensures var (u, r) := CompleteStep(t, now, tok, path, body, stat, limit);
      && (r.code == 200 <==> Admits(t, now, tok, path) && BeingWorkedOn(t, path) && GoodBody(t, path, body, stat, limit))
      && (r.code != 200 ==> u == t)
  {
    RefusedByCode(t, path, body, stat, limit);
    if path in t.runs {
      PreparedIfGood(t, path, body, stat, limit);
    }
    hide Prepare, GoodBody;
  }

  lemma {:induction false} RefusalCodes(arts: seq<ArtifactBody>, named: seq<(string, string)>, done: bool, stat: Stat, limit: int, n: nat)
    requires n <= |arts| == |named| && RecordedAll(arts, named, done, stat, limit, n).Bad?
    ensures var code := RecordedAll(arts, named, done, stat, limit, n).code; code == 400 || code == 413
  {
    if RecordedAll(arts, named, done, stat, limit, n - 1).Bad? {
      RefusalCodes(arts, named, done, stat, limit, n - 1);
    }
  }

  lemma BodyCodes(t: Tables, path: string, body: Body, stat: Stat, limit: int)
    requires path in t.runs && Prepare(t, path, body, stat, limit).Bad?
    ensures var code := Prepare(t, path, body, stat, limit).code; code == 400 || code == 413
  {
    hide RecordedAll, NamesAndKeys, RunKeyAllowed;
    var arts := body.artifacts;
    var named := NamesAndKeys(arts, path, |arts|);
    if named.Some? && RecordedAll(arts, named.value, body.status == Done, stat, limit, |arts|).Bad? {
      RefusalCodes(arts, named.value, body.status == Done, stat, limit, |arts|);
    }
  }

  /** How a completion that does not take effect is refused. */
  lemma FinishCodes(t: Tables, now: Time, tok: Token, path: string, body: Body, stat: Stat, limit: int)
    ensures var code := CompleteStep(t, now, tok, path, body, stat, limit).1.code;
      && TokenCodes(t, now, tok, path, code)
      && (code == 400 || code == 413 <==> Admits(t, now, tok, path) && !GoodBody(t, path, body, stat, limit))
      && (code == 409 <==>
            Superseded(t, now, tok, path) || (Admits(t, now, tok, path) && GoodBody(t, path, body, stat, limit) && !BeingWorkedOn(t, path)))
  {
    if path in t.runs {
      PreparedIfGood(t, path, body, stat, limit);
      if Prepare(t, path, body, stat, limit).Bad? {
        BodyCodes(t, path, body, stat, limit);
      }
    }
    hide Prepare, GoodBody;
  }

  lemma PreparedFields(t: Tables, path: string, body: Body, stat: Stat, limit: int)
    requires path in t.runs && Prepare(t, path, body, stat, limit).Good?
    ensures var c := Prepare(t, path, body, stat, limit).value;
      && c.status == body.status && c.error == body.error && c.summary == body.summary && c.estimate == body.estimate
      && |c.artifacts| == |body.artifacts|
      && c.parsed == (if body.board.Some? && t.runs[path].board != "" && body.board.value.sha.Some? then
                        Some(ParsedBoard(t.runs[path].board, body.board.value.boardKey, body.board.value.layers, body.board.value.nets, body.board.value.sha.value))
                      else None)
  {
    hide NameAndKey, Recorded, RunKeyAllowed;
  }

  /** What a completion that took effect makes of the run's row. */
  lemma FinishRow(t: Tables, now: Time, tok: Token, path: string, body: Body, stat: Stat, limit: int)
    requires CompleteStep(t, now, tok, path, body, stat, limit).1.code == 200
    ensures var u := CompleteStep(t, now, tok, path, body, stat, limit).0;
      && u.projects == t.projects && path in t.runs && path in u.runs && SameRun(t.runs[path], u.runs[path])
      && (forall r :: r in u.runs <==> r in t.runs) && (forall r :: r in t.runs && r != path ==> u.runs[r] == t.runs[r])
      && var (row, q) := (t.runs[path], u.runs[path]);
         && q.status == body.status && q.error == body.error && q.finishedAt == Some(now) && q.updatedAt == now
         && q.summary == (if body.summary.Some? then body.summary else row.summary)
         && q.estimate == (if body.estimate.Some? then body.estimate else row.estimate)
         && q.owner == row.owner && q.jti == row.jti && q.claimedAt == row.claimedAt && q.startedAt == row.startedAt
         && q.progress == row.progress
  {
    GoodIfDone(t, now, tok, path, body, stat, limit);
    PreparedFields(t, path, body, stat, limit);
    hide Prepare, CompleteStep, WithParsed, Upserted;
  }

  /** And of the version it parsed: the layers, nets and digest reported, and the key if there is one. */
  lemma FinishBoard(t: Tables, now: Time, tok: Token, path: string, body: Body, stat: Stat, limit: int)
    requires CompleteStep(t, now, tok, path, body, stat, limit).1.code == 200
    ensures var u := CompleteStep(t, now, tok, path, body, stat, limit).0;
      && path in t.runs
      && var board := t.runs[path].board;
         && (forall b :: b in u.boards <==> b in t.boards) && (forall b :: b in t.boards && b != board ==> u.boards[b] == t.boards[b])
         && (board in t.boards ==>
               if body.board.None? || board == "" then u.boards[board] == t.boards[board]
               else
                 var (b, q, p) := (t.boards[board], u.boards[board], body.board.value);
                 && p.sha.Some? && q.layers == p.layers && q.nets == p.nets && q.sha == p.sha.value
                 && q.boardKey == (if p.boardKey == "" then b.boardKey else p.boardKey)
                 && q.project == b.project && q.inputKey == b.inputKey)
  {
    GoodIfDone(t, now, tok, path, body, stat, limit);
    FinishIffGood(t, now, tok, path, body, stat, limit);
    PreparedFields(t, path, body, stat, limit);
    hide Prepare, CompleteStep, Upserted, GoodArtifact, RunKeyAllowed;
  }

  lemma {:induction false} LastStays(rows: ArtifactRows, run: string, added: seq<Named>, i: nat)
    requires i < |added| && forall j :: i < j < |added| ==> added[j].name != added[i].name
    ensures (run, added[i].name) in Upserted(rows, run, added)
    ensures Upserted(rows, run, added)[(run, added[i].name)] == added[i].artifact
  {
    if i < |added| - 1 {
      LastStays(rows, run, added[..|added| - 1], i);
    }
  }

  lemma {:induction false} OthersStay(rows: ArtifactRows, run: string, added: seq<Named>, k: (string, string))
    requires k.0 != run || forall j :: 0 <= j < |added| ==> added[j].name != k.1
    ensures k in Upserted(rows, run, added) <==> k in rows
    ensures k in rows ==> Upserted(rows, run, added)[k] == rows[k]
  {
    if added != [] {
      OthersStay(rows, run, added[..|added| - 1], k);
    }
  }

  /** The artifact recorded under a name is the last one the completion has of that name. */
  lemma FinishArtifact(t: Tables, now: Time, tok: Token, path: string, body: Body, stat: Stat, limit: int, i: nat)
    requires CompleteStep(t, now, tok, path, body, stat, limit).1.code == 200 && i < |body.artifacts|
    requires forall j :: i < j < |body.artifacts| ==> TrimSpace(body.artifacts[j].name) != TrimSpace(body.artifacts[i].name)
    ensures var (u, a) := (CompleteStep(t, now, tok, path, body, stat, limit).0, body.artifacts[i]);
      && (path, TrimSpace(a.name)) in u.artifacts
      && u.artifacts[(path, TrimSpace(a.name))] == Artifact(KeyFor(a, path), TypeOf(a, path, stat), SizeOf(a, path, stat))
  {
    GoodIfDone(t, now, tok, path, body, stat, limit);
    hide Prepare, CompleteStep, Upserted, TrimSpace, KeyFor, TypeOf, SizeOf, WithParsed, Completed;
    var c := Prepare(t, path, body, stat, limit).value;
    PreparedAt(t, path, body, stat, limit, i);
    forall j | i < j < |c.artifacts| ensures c.artifacts[j].name != c.artifacts[i].name {
      PreparedAt(t, path, body, stat, limit, j);
    }
    LastStays(t.artifacts, path, c.artifacts, i);
  }

  /** Artifacts of other runs, and of names the completion does not have, stay. */
  lemma FinishOtherArtifacts(t: Tables, now: Time, tok: Token, path: string, body: Body, stat: Stat, limit: int, k: (string, string))
    requires CompleteStep(t, now, tok, path, body, stat, limit).1.code == 200
    requires k.0 != path || forall j :: 0 <= j < |body.artifacts| ==> TrimSpace(body.artifacts[j].name) != k.1
    ensures var u := CompleteStep(t, now, tok, path, body, stat, limit).0;
      (k in u.artifacts <==> k in t.artifacts) && (k in t.artifacts ==> u.artifacts[k] == t.artifacts[k])
  {
    GoodIfDone(t, now, tok, path, body, stat, limit);
    PreparedFields(t, path, body, stat, limit);
    hide Prepare, CompleteStep, Upserted, TrimSpace, KeyFor, TypeOf, SizeOf, WithParsed, Completed;
    var c := Prepare(t, path, body, stat, limit).value;
    forall j | 0 <= j < |c.artifacts| && k.0 == path ensures c.artifacts[j].name != k.1 {
      PreparedAt(t, path, body, stat, limit, j);
    }
    OthersStay(t.artifacts, path, c.artifacts, k);
  }

  // ---------- stop and retry ----------

  /** A run being worked on is asked to stop, and has not finished; a queued one fails at once. */
  lemma StopAsks(t: Tables, now: Time, id: string)
    ensures var (u, r) := StopStep(t, now, id);
      && (r.code == 200 <==> id in t.runs && (t.runs[id].status == InProgress || Queued(t, id)))
      && (r.code == 404 <==> id !in t.runs) && (r.code == 200 || r.code == 404 || r.code == 409) && (r.code != 200 ==> u == t)
      && (r.code == 200 ==>
            (OnlyRun(t, u, id)
             && u.runs[id] == if t.runs[id].status == InProgress then t.runs[id].(status := Stopping, updatedAt := now)
                              else t.runs[id].(status := Failed, error := "stopped before a worker started it", finishedAt := Some(now), updatedAt := now)))
  {
  }

  /** A failed or timed-out run is queued again, nobody's; what it was last summarised as stays. */
  lemma RetryQueues(t: Tables, now: Time, allowed: bool, id: string)
    ensures var (u, r) := RetryStep(t, now, allowed, id);
      && (r.code == 200 <==> id in t.runs && (t.runs[id].status == Failed || t.runs[id].status == TimedOut) && allowed)
      && (r.code == 404 <==> id !in t.runs) && (r.code == 200 || r.code == 403 || r.code == 404 || r.code == 409) && (r.code != 200 ==> u == t)
      && (r.code == 403 <==> id in t.runs && (t.runs[id].status == Failed || t.runs[id].status == TimedOut) && !allowed)
      && (r.code == 200 ==>
            (OnlyRun(t, u, id) && SameRun(t.runs[id], u.runs[id])
             && var (row, q) := (t.runs[id], u.runs[id]);
                && q.status == RetryPending && q.owner == "" && q.jti == "" && q.claimedAt == None && q.finishedAt == None
                && q.error == "" && q.progress == None && q.updatedAt == now
                && q.startedAt == row.startedAt && q.summary == row.summary && q.estimate == row.estimate))
  {
  }

  // ---------- the sweeps ----------

  /** The sweep times out what was claimed before the deadline and is still worked on, and leaves what
      is known of it. */
  lemma SweepTimesOut(t: Tables, deadline: Time, now: Time)
    ensures var u := Sweep(t, deadline, now);
      && u.projects == t.projects && u.boards == t.boards && u.artifacts == t.artifacts && (forall r :: r in u.runs <==> r in t.runs)
      && forall r :: r in t.runs ==>
           u.runs[r] == if BeingWorkedOn(t, r) && t.runs[r].claimedAt.Some? && t.runs[r].claimedAt.value < deadline
                        then t.runs[r].(status := TimedOut, finishedAt := Some(now), updatedAt := now) else t.runs[r]
  {
  }

  /** At a restart of the desktop app what was worked on is failed, with a reason. */
  lemma RestartFails(t: Tables, now: Time)
    ensures var u := Interrupt(t, now);
      && u.projects == t.projects && u.boards == t.boards && u.artifacts == t.artifacts && (forall r :: r in u.runs <==> r in t.runs)
      && forall r :: r in t.runs ==>
           u.runs[r] == if BeingWorkedOn(t, r)
                        then t.runs[r].(status := Failed, finishedAt := Some(now), updatedAt := now,
                                        error := "interrupted: the app was closed while this run was in progress")
                        else t.runs[r]
  {
  }

  // ---------- creating ----------

  /** A queued run of the version, nobody's. */
  ghost predicate IsQueuedRun(r: Run, project: string, board: string, now: Time) {
    && r.project == project && r.board == board && r.status == New && r.createdAt == now && r.updatedAt == now
    && r.owner == "" && r.jti == "" && r.error == "" && r.claimedAt == None && r.startedAt == None && r.finishedAt == None
    && r.progress == None && r.summary == None && r.estimate == None
  }

  lemma ProjectIsCreated(t: Tables, org: string, refusal: int, project: string)
    ensures var (u, r) := CreateProjectStep(t, org, refusal, project);
      && (refusal != 0 ==> u == t && r.code == refusal)
      && (refusal == 0 ==> r.code == 201 && u == t.(projects := t.projects[project := Project(org)]))
  {
  }

  /** A version is created, with a run to parse it, exactly for an upload of the project's organization
      that is stored, no larger than the limit, and of the digest announced. */
  lemma BoardIsCreated(t: Tables, now: Time, project: string, key: string, digestOk: bool, stat: Stat, limit: int, board: string, run: string)
    ensures var (u, r) := CreateBoardStep(t, now, project, key, digestOk, stat, limit, board, run);
      && (r.code == 201 <==>
            && project in t.projects && t.projects[project].org != "" && CleanKey(key)
            && HasPrefix(key, "uploads/" + t.projects[project].org + "/")
            && stat(key).Some? && stat(key).value.0 <= limit && digestOk)
      && (r.code == 404 <==> project !in t.projects)
      && (r.code == 413 <==> project in t.projects && UploadKeyAllowed(key, t.projects[project].org) && stat(key).Some? && stat(key).value.0 > limit)
      && (r.code != 201 ==> u == t)
      && (r.code == 201 ==>
            (run in u.runs && IsQueuedRun(u.runs[run], project, board, now)
             && u == t.(boards := t.boards[board := Board(project, key, "", 0, 0, "")], runs := t.runs[run := u.runs[run]])))
  {
    hide CleanKey;
  }

  /** A run is created exactly for a version of the project. */
  lemma RunIsCreated(t: Tables, now: Time, project: string, board: string, refusal: int, run: string)
    ensures var (u, r) := CreateRunStep(t, now, project, board, refusal, run);
      && (project in t.projects && refusal != 0 ==> r.code == refusal && u == t)
      && (refusal == 0 ==> (r.code == 201 <==> project in t.projects && board != "" && board in t.boards && t.boards[board].project == project))
      && (refusal == 0 && r.code != 201 ==> u == t)
      && (refusal == 0 && r.code == 201 ==> run in u.runs && IsQueuedRun(u.runs[run], project, board, now) && u == t.(runs := t.runs[run := u.runs[run]]))
  {
  }

  // ---------- deleting ----------

  /** The rows of a deleted project: those of other projects, as they were. */
  lemma ProjectRowsGo(t: Tables, project: string)
    ensures var u := WithoutProject(t, project);
      && (forall p :: p in u.projects <==> p in t.projects && p != project) && (forall p :: p in u.projects ==> u.projects[p] == t.projects[p])
      && (forall b :: b in u.boards <==> b in t.boards && t.boards[b].project != project) && (forall b :: b in u.boards ==> u.boards[b] == t.boards[b])
      && (forall r :: r in u.runs <==> r in t.runs && t.runs[r].project != project) && (forall r :: r in u.runs ==> u.runs[r] == t.runs[r])
      && (forall k :: k in u.artifacts ==> k in t.artifacts && u.artifacts[k] == t.artifacts[k])
      && (forall k :: k in t.artifacts && k.0 in t.runs ==> (k in u.artifacts <==> t.runs[k.0].project != project))
  {
  }

  lemma VersionRowsGo(t: Tables, project: string, board: string)
    requires HasBoard(t, project, board)
    ensures var u := WithoutBoard(t, project, board);
      && u.projects == t.projects && (forall b :: b in u.boards <==> b in t.boards && b != board) && (forall b :: b in u.boards ==> u.boards[b] == t.boards[b])
      && (forall r :: r in u.runs <==> r in t.runs && !(t.runs[r].project == project && t.runs[r].board == board))
      && (forall r :: r in u.runs ==> u.runs[r] == t.runs[r])
      && (forall k :: k in u.artifacts ==> k in t.artifacts && u.artifacts[k] == t.artifacts[k])
      && (forall k :: k in t.artifacts && k.0 in t.runs ==>
            (k in u.artifacts <==> !(t.runs[k.0].project == project && t.runs[k.0].board == board)))
  {
  }

  /** A project's key is orphaned exactly when one of its versions was uploaded or parsed under it, and
      no version of another project was uploaded under it. */
  lemma ProjectOrphans(t: Tables, project: string, keys: seq<string>, key: string)
    requires IsOrphans(t, project, keys)
    ensures key in keys <==>
      (key != "" && (exists b :: b in t.boards && t.boards[b].project == project && (t.boards[b].inputKey == key || t.boards[b].boardKey == key))
       && forall b :: b in t.boards && t.boards[b].project != project ==> t.boards[b].inputKey != key)
  {
    assert forall k :: Sharing(t.boards, k, project) == {} <==> forall b :: b in t.boards && t.boards[b].project != project ==> t.boards[b].inputKey != k by {
      forall k ensures Sharing(t.boards, k, project) == {} <==> forall b :: b in t.boards && t.boards[b].project != project ==> t.boards[b].inputKey != k {
        NoSharing(t.boards, k, project);
      }
    }
    hide Sharing;
    if b :| b in t.boards && t.boards[b].project == project && (t.boards[b].inputKey == key || t.boards[b].boardKey == key) {
      assert HasBoard(t, project, b);
    }
  }

  lemma NoSharing(boards: BoardRows, key: string, project: string)
    ensures Sharing(boards, key, project) == {} <==> forall b :: b in boards && boards[b].project != project ==> boards[b].inputKey != key
  {
    assert forall b :: b in Sharing(boards, key, project) <==> b in boards && boards[b].project != project && boards[b].inputKey == key;
  }

  /** A version's key is orphaned exactly when in addition no other version of its project names it. */
  lemma VersionOrphans(t: Tables, project: string, board: string, keys: seq<string>, key: string)
    requires IsVersionOrphans(t, project, board, keys) && board in t.boards && t.boards[board].project == project
    ensures key in keys <==>
      (key != "" && (t.boards[board].inputKey == key || t.boards[board].boardKey == key)
       && forall b :: b in t.boards && b != board ==>
            t.boards[b].inputKey != key && (t.boards[b].project == project ==> t.boards[b].boardKey != key))
  {
    NoSharing(t.boards, key, project);
    hide Sharing;
  }

  /** A version is refused as the last exactly when its project has no other, and as worked on exactly
      when a listed run of it has not ended. */
  lemma VersionRefused(t: Tables, project: string, board: string, listed: seq<string>)
    ensures OnlyVersion(t, project, board) <==> forall b :: b in t.boards && t.boards[b].project == project ==> b == board
    ensures StillGoing(t, board, listed) <==>
      exists r :: r in listed && r in t.runs && t.runs[r].board == board
               && t.runs[r].status != Done && t.runs[r].status != Failed && t.runs[r].status != TimedOut
  {
    assert forall b :: HasBoard(t, project, b) <==> b in t.boards && t.boards[b].project == project;
  }

  // ---------- over whole runs of the system ----------

  /** A run whose completion as done was answered with 200, in whatever reachable state, is done in
      every state after it until it is deleted. */
  lemma DoneStaysDone(w: World, start: Time, path: seq<Action>, tok: Token, run: string, body: Body, stat: Stat, more: seq<Action>)
    requires LegalPath(w, Start(start), path)
    requires var s := After(w, Start(start), path);
      && Legal(w, s, Finish(tok, run, body, stat)) && body.status == Done
      && CompleteStep(s.t, s.now, tok, run, body, stat, w.limit).1.code == 200
      && LegalPath(w, Next(w, s, Finish(tok, run, body, stat)), more)
    ensures var u := After(w, Next(w, After(w, Start(start), path), Finish(tok, run, body, stat)), more).t;
      run in u.runs ==> u.runs[run].status == Done
  {
    hide LegalPath, After, Inv, CompleteStep, Legal, IssuedBy, EventsOf, ObjectsAfter, Drawn;
    var s := After(w, Start(start), path);
    Reachable(w, start, path);
    FinishRow(s.t, s.now, tok, run, body, stat, w.limit);
    var s' := Next(w, s, Finish(tok, run, body, stat));
    assert s'.t.runs[run].status == Done;
    InvStays(w, s, Finish(tok, run, body, stat));
    hide Next, TablesAfter;
    DoneIsFinal(w, s', more, run);
  }
}
