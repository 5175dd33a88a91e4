/** The server's requests that change runs: tokens, completion, stop and retry
    (server/emi/auth.go, server/emi/api_agent.go, server/emi/api_user.go). */
module Service {
  import opened Options
  import opened Runs
  import opened Stores
  import opened Keys

  // ---------- tokens ----------

  /** A run token as its claims; the signature is taken to be unforgeable. */
  datatype Token = Token(run: string, org: string, jti: string, exp: Time)

  const SECOND: int := 1_000_000_000
  const RUN_TOKEN_TTL: int := 6 * 3600 * SECOND

  /** Expiry is kept in whole seconds. */
  function NumericDate(t: Time): (s: Time)
    ensures t - SECOND < s <= t
  {
    t - t % SECOND
  }

  function Minted(run: string, org: string, jti: string, now: Time): (tok: Token) {
    Token(run, org, jti, NumericDate(now + RUN_TOKEN_TTL))
  }

  /** What a request gets back: a status code, and a token if one was issued. */
  datatype Reply = Reply(code: int, token: Option<Token>)

  function Code(code: int): (r: Reply) {
    Reply(code, None)
  }

  function CodeOf(e: Error): (code: int) {
    if e == NotFound then 404 else 409
  }

  /** Why a token is refused for the run in the path, or 0. */
  function TokenRefusal(t: Tables, now: Time, tok: Token, path: string): (code: int) {
    if now >= tok.exp || tok.run == "" then 401
    else if path == "" || path != tok.run then 403
    else if path !in t.runs then 404
    else if t.runs[path].jti == "" || t.runs[path].jti != tok.jti then 409
    else 0
  }

  predicate Accepts(t: Tables, now: Time, tok: Token) {
    TokenRefusal(t, now, tok, tok.run) == 0
  }

  /** Accepted is exactly a token in date whose id is the one its run's row has. */
  lemma AcceptsIffCurrent(t: Tables, now: Time, tok: Token)
    ensures Accepts(t, now, tok) <==>
      now < tok.exp && tok.run != "" && tok.run in t.runs && t.runs[tok.run].jti == tok.jti && tok.jti != ""
  {
  }

  predicate HeldBy(r: Run, kid: string) {
    kid != "" && r.owner == kid && r.jti != "" && Running(r.status)
  }

  predicate Serves(keyOrg: string, org: string) {
    keyOrg == "" || org == keyOrg
  }

  // ---------- mint and refresh ----------

  function MintStep(t: Tables, now: Time, kid: string, keyOrg: string, allowed: bool, id: string, jti: string): (r: (Tables, Reply)) {
    if id !in t.runs then (t, Code(404))
    else if !allowed then (t, Code(403))
    else
      var run := t.runs[id];
      if run.project !in t.projects || !Serves(keyOrg, t.projects[run.project].org) then (t, Code(404))
      else if Terminal(run.status) then (t, Code(409))
      else if HeldBy(run, kid) then (t, Reply(200, Some(Minted(id, t.projects[run.project].org, run.jti, now))))
      else if !Claimable(run.status) then (t, Code(409))
      else (Claim(t, id, kid, jti, now), Reply(200, Some(Minted(id, t.projects[run.project].org, jti, now))))
  }

  function RefreshStep(t: Tables, now: Time, kid: string, keyOrg: string, id: string): (r: Reply) {
    if id !in t.runs then Code(404)
    else
      var run := t.runs[id];
      if run.project !in t.projects || !Serves(keyOrg, t.projects[run.project].org) then Code(404)
      else if Terminal(run.status) || !HeldBy(run, kid) then Code(409)
      else Reply(200, Some(Minted(id, t.projects[run.project].org, run.jti, now)))
  }

  method MintRunToken(s: Store, now: Time, kid: string, keyOrg: string, allowed: bool, id: string, jti: string) returns (r: Reply)
    modifies s
    ensures (s.Now(), r) == MintStep(old(s.Now()), now, kid, keyOrg, allowed, id, jti)
  {
    var run := s.GetRun(id);
    if run.Err? {
      return Code(CodeOf(run.error));
    }
    if !allowed {
      return Code(403);
    }
    var project := s.GetProject(run.value.project);
    if project.Err? {
      return Code(CodeOf(project.error));
    }
    if keyOrg != "" && project.value.org != keyOrg {
      return Code(404);
    }
    if Terminal(run.value.status) {
      return Code(409);
    }
    if HeldBy(run.value, kid) {
      return Reply(200, Some(Minted(id, project.value.org, run.value.jti, now)));
    }
    if run.value.owner != "" && run.value.owner != kid && !Claimable(run.value.status) {
      return Code(409);
    }
    var claimed := s.ClaimRun(id, kid, jti, now);
    if claimed.Err? {
      return Code(CodeOf(claimed.error));
    }
    return Reply(200, Some(Minted(id, project.value.org, jti, now)));
  }

  method RefreshRunToken(s: Store, now: Time, kid: string, keyOrg: string, id: string) returns (r: Reply)
    ensures r == RefreshStep(s.Now(), now, kid, keyOrg, id)
  {
    var run := s.GetRun(id);
    if run.Err? {
      return Code(CodeOf(run.error));
    }
    var project := s.GetProject(run.value.project);
    if project.Err? {
      return Code(CodeOf(project.error));
    }
    if keyOrg != "" && project.value.org != keyOrg {
      return Code(404);
    }
    if Terminal(run.value.status) {
      return Code(409);
    }
    if !HeldBy(run.value, kid) {
      return Code(409);
    }
    return Reply(200, Some(Minted(id, project.value.org, run.value.jti, now)));
  }

  method RequireRunToken(s: Store, now: Time, tok: Token, path: string) returns (code: int)
    ensures code == TokenRefusal(s.Now(), now, tok, path)
  {
    if now >= tok.exp || tok.run == "" {
      return 401;
    }
    if path == "" || path != tok.run {
      return 403;
    }
    var run := s.GetRun(path);
    if run.Err? {
      return CodeOf(run.error);
    }
    if run.value.jti == "" || run.value.jti != tok.jti {
      return 409;
    }
    return 0;
  }

  // ---------- progress ----------

  function ProgressStep(t: Tables, now: Time, tok: Token, path: string, stage: string, progress: string): (r: (Tables, Reply)) {
    var refusal := TokenRefusal(t, now, tok, path);
    if refusal != 0 then (t, Code(refusal))
    else if stage == "" then (t, Code(400))
    else if IsRunning(t, path) then (PostProgress(t, path, progress, now), Code(204))
    else (t, Code(409))
  }

  method RunProgress(s: Store, now: Time, tok: Token, path: string, stage: string, progress: string) returns (r: Reply)
    modifies s
    ensures (s.Now(), r) == ProgressStep(old(s.Now()), now, tok, path, stage, progress)
  {
    var refusal := RequireRunToken(s, now, tok, path);
    if refusal != 0 {
      return Code(refusal);
    }
    if stage == "" {
      return Code(400);
    }
    var ok := s.UpdateRunProgress(path, progress, now);
    if ok.Err? {
      return Code(CodeOf(ok.error));
    }
    return Code(204);
  }

  // ---------- completion ----------

  datatype ArtifactBody = ArtifactBody(name: string, key: string, contentType: string, size: int)

  /** A parsed board as the worker reports it; the digest is None when it is not one. */
  datatype BoardBody = BoardBody(boardKey: string, layers: int, nets: int, sha: Option<string>)

  datatype Body = Body(status: RunStatus, error: string, summary: Option<string>, estimate: Option<string>,
                       artifacts: seq<ArtifactBody>, board: Option<BoardBody>)

  /** Size and content type of a stored object, if there is one under the key. */
  type Stat = string -> Option<(int, string)>

  /** The name and key an artifact is recorded under, if both are acceptable. */
  ghost function NameAndKey(a: ArtifactBody, id: string): (r: Option<(string, string)>) {
    if Sanitised(a.name).None? then None
    else
      var key := if a.key == "" then ArtifactKey(id, Sanitised(a.name).value) else a.key;
      if RunKeyAllowed(key, id) then Some((Sanitised(a.name).value, key)) else None
  }

  ghost function NamesAndKeys(arts: seq<ArtifactBody>, id: string, n: nat): (r: Option<seq<(string, string)>>)
    requires n <= |arts|
    ensures r.Some? ==> |r.value| == n
  {
    if n == 0 then Some([])
    else
      var r := NamesAndKeys(arts, id, n - 1);
      var last := NameAndKey(arts[n - 1], id);
      if r.Some? && last.Some? then Some(r.value + [last.value]) else None
  }

  /** A checked value, or the code it is refused with. */
  datatype Checked<T> = Good(value: T) | Bad(code: int)

  /** What is recorded of an artifact, by what storage says is there. */
  function Recorded(a: ArtifactBody, named: (string, string), done: bool, stat: Stat, limit: int): (r: Checked<Named>) {
    var found := stat(named.1);
    if found.None? && done then Bad(400)
    else
      var size := if found.Some? then found.value.0 else a.size;
      var ct := if found.Some? && found.value.1 != "" then found.value.1 else a.contentType;
      if size > limit then Bad(413)
      else Good(Named(named.0, Artifact(named.1, if ct == "" then "application/octet-stream" else ct, size)))
  }

  /** The first n artifacts, or why the first one refused is. */
  function RecordedAll(arts: seq<ArtifactBody>, named: seq<(string, string)>, done: bool, stat: Stat, limit: int, n: nat)
    : (r: Checked<seq<Named>>)
    requires n <= |arts| == |named|
    ensures r.Good? ==> |r.value| == n && forall i :: 0 <= i < n ==> r.value[i].name == named[i].0 && r.value[i].artifact.key == named[i].1
  {
    if n == 0 then Good([])
    else
      var before := RecordedAll(arts, named, done, stat, limit, n - 1);
      if before.Bad? then before
      else
        var last := Recorded(arts[n - 1], named[n - 1], done, stat, limit);
        if last.Bad? then Bad(last.code) else Good(before.value + [last.value])
  }

  /** The parsed board a completion carries on, if the run has a board. */
  function ParsedOf(run: Run, body: Body): (r: Checked<Option<ParsedBoard>>) {
    if body.board.None? || run.board == "" then Good(None)
    else if body.board.value.sha.None? then Bad(400)
    else
      var b := body.board.value;
      Good(Some(ParsedBoard(run.board, b.boardKey, b.layers, b.nets, b.sha.value)))
  }

  /** The completion a request asks for, or the code it is refused with. */
  ghost function Prepare(t: Tables, id: string, body: Body, stat: Stat, limit: int): (r: Checked<Completion>) {
    if body.status != Done && body.status != Failed then Bad(400)
    else if id !in t.runs then Bad(404)
    else if body.board.Some? && body.board.value.boardKey != "" && !RunKeyAllowed(body.board.value.boardKey, id) then Bad(400)
    else
      var names := NamesAndKeys(body.artifacts, id, |body.artifacts|);
      if names.None? then Bad(400)
      else
        var recorded := RecordedAll(body.artifacts, names.value, body.status == Done, stat, limit, |body.artifacts|);
        var parsed := ParsedOf(t.runs[id], body);
        if recorded.Bad? then Bad(recorded.code)
        else if parsed.Bad? then Bad(parsed.code)
        else Good(Completion(body.status, body.summary, body.error, body.estimate, recorded.value, parsed.value))
  }

  /** What a completion may hold: an end, artifacts under the run's own prefix, and a parsed board
      that is the run's own board, with its key under the run. */
  ghost predicate OwnCompletion(t: Tables, id: string, c: Completion) {
    && (c.status == Done || c.status == Failed)
    && (forall i :: 0 <= i < |c.artifacts| ==> RunKeyAllowed(c.artifacts[i].artifact.key, id) && CleanKey(c.artifacts[i].name))
    && (c.parsed.Some? ==> id in t.runs && OwnParsed(t.runs[id], id, c.parsed.value))
  }

  ghost predicate OwnParsed(run: Run, id: string, p: ParsedBoard) {
    p.board == run.board && (p.boardKey == "" || RunKeyAllowed(p.boardKey, id))
  }

  lemma {:induction false} NamesAreAllowed(arts: seq<ArtifactBody>, id: string, n: nat)
    requires n <= |arts| && NamesAndKeys(arts, id, n).Some?
    ensures var r := NamesAndKeys(arts, id, n).value;
      forall i :: 0 <= i < n ==> RunKeyAllowed(r[i].1, id) && CleanKey(r[i].0)
  {
    hide RunKeyAllowed, CleanKey;
    if n > 0 {
      NamesAreAllowed(arts, id, n - 1);
    }
  }

  /** A completion that is not refused holds only what is the run's own. */
  lemma PreparedIsOwn(t: Tables, id: string, body: Body, stat: Stat, limit: int)
    ensures var r := Prepare(t, id, body, stat, limit); r.Good? ==> OwnCompletion(t, id, r.value)
  {
    hide RunKeyAllowed, CleanKey;
    var names := NamesAndKeys(body.artifacts, id, |body.artifacts|);
    if names.Some? {
      NamesAreAllowed(body.artifacts, id, |body.artifacts|);
    }
  }

  lemma {:induction false} DoneIsFound(arts: seq<ArtifactBody>, named: seq<(string, string)>, stat: Stat, limit: int, n: nat, i: nat)
    requires i < n <= |arts| == |named| && RecordedAll(arts, named, true, stat, limit, n).Good?
    ensures stat(named[i].1).Some? && stat(named[i].1).value.0 <= limit
  {
    if i < n - 1 {
      DoneIsFound(arts, named, stat, limit, n - 1, i);
    }
  }

  ghost function CompleteStep(t: Tables, now: Time, tok: Token, path: string, body: Body, stat: Stat, limit: int): (r: (Tables, Reply)) {
    var refusal := TokenRefusal(t, now, tok, path);
    if refusal != 0 then (t, Code(refusal))
    else
      var c := Prepare(t, path, body, stat, limit);
      if c.Bad? then (t, Code(c.code))
      else if IsRunning(t, path) then (Complete(t, path, c.value, now), Code(200))
      else (t, Code(409))
  }

  lemma RefusedByCode(t: Tables, path: string, body: Body, stat: Stat, limit: int)
    ensures var c := Prepare(t, path, body, stat, limit); c.Bad? ==> c.code != 200
  {
    var names := NamesAndKeys(body.artifacts, path, |body.artifacts|);
    if names.Some? {
      RecordedCode(body.artifacts, names.value, body.status == Done, stat, limit, |body.artifacts|);
    }
  }

  lemma {:induction false} RecordedCode(arts: seq<ArtifactBody>, named: seq<(string, string)>, done: bool, stat: Stat, limit: int, n: nat)
    requires n <= |arts| == |named|
    ensures var r := RecordedAll(arts, named, done, stat, limit, n); r.Bad? ==> r.code != 200
  {
    if n > 0 {
      RecordedCode(arts, named, done, stat, limit, n - 1);
    }
  }

  /** When a request to complete a run as done is answered with 200, every artifact it named is
      recorded for the run, under a key that storage has, within the limit. */
  lemma DoneIsStored(t: Tables, now: Time, tok: Token, path: string, body: Body, stat: Stat, limit: int, i: nat)
    requires CompleteStep(t, now, tok, path, body, stat, limit).1.code == 200 && body.status == Done && i < |body.artifacts|
    ensures NameAndKey(body.artifacts[i], path).Some?
    ensures var (u, named) := (CompleteStep(t, now, tok, path, body, stat, limit).0, NameAndKey(body.artifacts[i], path).value);
      (path, named.0) in u.artifacts && stat(named.1).Some? && stat(named.1).value.0 <= limit
  {
    hide Sanitised, RunKeyAllowed, ArtifactKey;
    var names := NamesAndKeys(body.artifacts, path, |body.artifacts|);
    var c := Prepare(t, path, body, stat, limit);
    GoodIfDone(t, now, tok, path, body, stat, limit);
    NameAt(body.artifacts, path, |body.artifacts|, i);
    DoneIsFound(body.artifacts, names.value, stat, limit, |body.artifacts|, i);
    UpsertedNamed(t.artifacts, path, c.value.artifacts, i);
  }

  lemma {:induction false} NameAt(arts: seq<ArtifactBody>, id: string, n: nat, i: nat)
    requires i < n <= |arts| && NamesAndKeys(arts, id, n).Some?
    ensures NameAndKey(arts[i], id) == Some(NamesAndKeys(arts, id, n).value[i])
  {
    hide NameAndKey;
    if i < n - 1 {
      NameAt(arts, id, n - 1, i);
    }
  }

  lemma GoodIfDone(t: Tables, now: Time, tok: Token, path: string, body: Body, stat: Stat, limit: int)
    requires CompleteStep(t, now, tok, path, body, stat, limit).1.code == 200
    ensures Prepare(t, path, body, stat, limit).Good?
    ensures CompleteStep(t, now, tok, path, body, stat, limit).0 == Complete(t, path, Prepare(t, path, body, stat, limit).value, now)
    ensures path in t.runs && IsRunning(t, path)
  {
    RefusedByCode(t, path, body, stat, limit);
    hide Prepare;
  }

  method RunKeyIsAllowed(key: string, id: string) returns (ok: bool)
    ensures ok == RunKeyAllowed(key, id)
  {
    hide CleanKey;
    var clean := IsCleanKey(key);
    ok := id != "" && clean && HasPrefix(key, ArtifactKey(id, ""));
  }

  /** Every name and key, before anything is written. */
  method CheckNames(arts: seq<ArtifactBody>, id: string) returns (r: Option<seq<(string, string)>>)
    ensures r == NamesAndKeys(arts, id, |arts|)
  {
    hide Sanitised, RunKeyAllowed, ArtifactKey;
    var named: seq<(string, string)> := [];
    var i := 0;
    while i < |arts|
      invariant 0 <= i <= |arts| && NamesAndKeys(arts, id, i) == Some(named)
    {
      var name := SanitiseArtifactName(arts[i].name);
      if name.None? {
        NamesRefused(arts, id, i);
        return None;
      }
      var key := arts[i].key;
      if key == "" {
        key := ArtifactKey(id, name.value);
      }
      var allowed := RunKeyIsAllowed(key, id);
      if !allowed {
        NamesRefused(arts, id, i);
        return None;
      }
      named := named + [(name.value, key)];
      i := i + 1;
    }
    return Some(named);
  }

  lemma {:induction false} NamesRefusedBy(arts: seq<ArtifactBody>, id: string, i: nat, n: nat)
    requires i < n <= |arts| && NameAndKey(arts[i], id).None?
    ensures NamesAndKeys(arts, id, n).None?
  {
    hide NameAndKey;
    if i < n - 1 {
      NamesRefusedBy(arts, id, i, n - 1);
    }
  }

  lemma NamesRefused(arts: seq<ArtifactBody>, id: string, i: nat)
    requires i < |arts| && NameAndKey(arts[i], id).None?
    ensures NamesAndKeys(arts, id, |arts|).None?
  {
    NamesRefusedBy(arts, id, i, |arts|);
  }

  lemma {:induction false} RecordRefused(arts: seq<ArtifactBody>, named: seq<(string, string)>, done: bool, stat: Stat, limit: int, i: nat, n: nat)
    requires i < n <= |arts| == |named| && RecordedAll(arts, named, done, stat, limit, i).Good?
    requires Recorded(arts[i], named[i], done, stat, limit).Bad?
    ensures RecordedAll(arts, named, done, stat, limit, n) == Bad(Recorded(arts[i], named[i], done, stat, limit).code)
  {
    hide Recorded;
    if i < n - 1 {
      RecordRefused(arts, named, done, stat, limit, i, n - 1);
    }
  }

  lemma OneRecorded(arts: seq<ArtifactBody>, named: seq<(string, string)>, done: bool, stat: Stat, limit: int, i: nat, recorded: seq<Named>, x: Named)
    requires i < |arts| == |named| && RecordedAll(arts, named, done, stat, limit, i) == Good(recorded)
    requires Recorded(arts[i], named[i], done, stat, limit) == Good(x)
    ensures RecordedAll(arts, named, done, stat, limit, i + 1) == Good(recorded + [x])
  {
    hide Recorded;
  }

  /** What storage says is there, and what the request says where it has nothing. */
  method RecordArtifact(art: ArtifactBody, named: (string, string), done: bool, stat: Stat, limit: int) returns (r: Checked<Named>)
    ensures r == Recorded(art, named, done, stat, limit)
  {
    var (name, key) := named;
    var size, ct := art.size, art.contentType;
    var found := stat(key);
    if found.Some? {
      size := found.value.0;
      if found.value.1 != "" {
        ct := found.value.1;
      }
    } else if done {
      return Bad(400);
    }
    if size > limit {
      return Bad(413);
    }
    if ct == "" {
      ct := "application/octet-stream";
    }
    return Good(Named(name, Artifact(key, ct, size)));
  }

  /** Storage is asked what is there, artifact by artifact. */
  method RecordArtifacts(arts: seq<ArtifactBody>, named: seq<(string, string)>, done: bool, stat: Stat, limit: int)
    returns (r: Checked<seq<Named>>)
    requires |named| == |arts|
    ensures r == RecordedAll(arts, named, done, stat, limit, |arts|)
  {
    var recorded: seq<Named> := [];
    assert RecordedAll(arts, named, done, stat, limit, 0) == Good(recorded);
    hide RecordedAll, Recorded;
    var i := 0;
    while i < |arts|
      invariant 0 <= i <= |arts| && RecordedAll(arts, named, done, stat, limit, i) == Good(recorded)
    {
      var one := RecordArtifact(arts[i], named[i], done, stat, limit);
      if one.Bad? {
        RecordRefused(arts, named, done, stat, limit, i, |arts|);
        return Bad(one.code);
      }
      OneRecorded(arts, named, done, stat, limit, i, recorded, one.value);
      recorded := recorded + [one.value];
      i := i + 1;
    }
    return Good(recorded);
  }

  method PrepareCompletion(s: Store, id: string, body: Body, stat: Stat, limit: int) returns (r: Checked<Completion>)
    ensures r == Prepare(s.Now(), id, body, stat, limit)
  {
    hide RunKeyAllowed, NamesAndKeys, RecordedAll;
    if body.status != Done && body.status != Failed {
      return Bad(400);
    }
    var run := s.GetRun(id);
    if run.Err? {
      return Bad(CodeOf(run.error));
    }
    if body.board.Some? && body.board.value.boardKey != "" {
      var allowed := RunKeyIsAllowed(body.board.value.boardKey, id);
      if !allowed {
        return Bad(400);
      }
    }
    var named := CheckNames(body.artifacts, id);
    if named.None? {
      return Bad(400);
    }
    var recorded := RecordArtifacts(body.artifacts, named.value, body.status == Done, stat, limit);
    if recorded.Bad? {
      return Bad(recorded.code);
    }
    var parsed: Option<ParsedBoard> := None;
    if body.board.Some? && run.value.board != "" {
      var b := body.board.value;
      if b.sha.None? {
        return Bad(400);
      }
      parsed := Some(ParsedBoard(run.value.board, b.boardKey, b.layers, b.nets, b.sha.value));
    }
    return Good(Completion(body.status, body.summary, body.error, body.estimate, recorded.value, parsed));
  }

  method CompleteRun(s: Store, now: Time, tok: Token, path: string, body: Body, stat: Stat, limit: int) returns (r: Reply)
    modifies s
    ensures (s.Now(), r) == CompleteStep(old(s.Now()), now, tok, path, body, stat, limit)
  {
    hide Prepare, Complete;
    var refusal := RequireRunToken(s, now, tok, path);
    if refusal != 0 {
      return Code(refusal);
    }
    var c := PrepareCompletion(s, path, body, stat, limit);
    if c.Bad? {
      return Code(c.code);
    }
    UnchangedUnlessRunning(s.Now(), path, c.value, now);
    var ok := s.CompleteRun(path, c.value, now);
    if ok.Err? {
      return Code(CodeOf(ok.error));
    }
    return Code(200);
  }

  lemma UnchangedUnlessRunning(t: Tables, id: string, c: Completion, at: Time)
    ensures !IsRunning(t, id) ==> Complete(t, id, c, at) == t
  {
  }

  // ---------- stop and retry ----------

  function StopStep(t: Tables, now: Time, id: string): (r: (Tables, Reply)) {
    if id !in t.runs then (t, Code(404))
    else if CanStop(t, id) then (Stop(t, id, now), Code(200))
    else (t, Code(409))
  }

  method StopRun(s: Store, now: Time, id: string) returns (r: Reply)
    modifies s
    ensures (s.Now(), r) == StopStep(old(s.Now()), now, id)
  {
    var run := s.GetRun(id);
    if run.Err? {
      return Code(CodeOf(run.error));
    }
    if Terminal(run.value.status) {
      return Code(409);
    }
    var ok := s.RequestStop(id, now);
    if ok.Err? {
      return Code(CodeOf(ok.error));
    }
    return Code(200);
  }

  function RetryStep(t: Tables, now: Time, allowed: bool, id: string): (r: (Tables, Reply)) {
    if id !in t.runs then (t, Code(404))
    else if !CanRetry(t, id) then (t, Code(409))
    else if !allowed then (t, Code(403))
    else (Retry(t, id, now), Code(200))
  }

  method RetryRun(s: Store, now: Time, allowed: bool, id: string) returns (r: Reply)
    modifies s
    ensures (s.Now(), r) == RetryStep(old(s.Now()), now, allowed, id)
  {
    var run := s.GetRun(id);
    if run.Err? {
      return Code(CodeOf(run.error));
    }
    if run.value.status != Failed && run.value.status != TimedOut {
      return Code(409);
    }
    if !allowed {
      return Code(403);
    }
    var ok := s.RetryRun(id, now);
    if ok.Err? {
      return Code(409);
    }
    return Code(200);
  }
}
