/** The store: its tables, and its statements, each of which finds its rows by a condition and
    changes them in one step (server/emi/pgstore.go, server/local/sqlitestore.go). */
module Stores {
  import opened Options
  import opened Runs

  datatype Error = NotFound | Conflict

  datatype Outcome<T> = Ok(value: T) | Err(error: Error)

  datatype Tables = Tables(projects: map<string, Project>, boards: BoardRows, runs: RunRows, artifacts: ArtifactRows)

  // ---------- the statements on the tables ----------

  function Claim(t: Tables, id: string, kid: string, jti: string, at: Time): (u: Tables) {
    if id in t.runs && Claimable(t.runs[id].status) then t.(runs := t.runs[id := Claimed(t.runs[id], kid, jti, at)]) else t
  }

  predicate CanClaim(t: Tables, id: string) {
    id in t.runs && Claimable(t.runs[id].status)
  }

  predicate IsRunning(t: Tables, id: string) {
    id in t.runs && Running(t.runs[id].status)
  }

  function PostProgress(t: Tables, id: string, progress: string, at: Time): (u: Tables) {
    if IsRunning(t, id) then t.(runs := t.runs[id := Progressed(t.runs[id], progress, at)]) else t
  }

  /** One transaction: the row, the artifacts and the parsed board, or nothing. */
  function Complete(t: Tables, id: string, c: Completion, at: Time): (u: Tables) {
    if IsRunning(t, id) then
      t.(runs := t.runs[id := Completed(t.runs[id], c, at)],
         artifacts := Upserted(t.artifacts, id, c.artifacts),
         boards := WithParsed(t.boards, c.parsed))
    else t
  }

  function WithParsed(boards: BoardRows, parsed: Option<ParsedBoard>): (r: BoardRows) {
    if parsed.Some? && parsed.value.board in boards then
      boards[parsed.value.board := Parsed(boards[parsed.value.board], parsed.value)]
    else boards
  }

  predicate CanStop(t: Tables, id: string) {
    id in t.runs && Stoppable(t.runs[id].status)
  }

  function Stop(t: Tables, id: string, at: Time): (u: Tables) {
    if CanStop(t, id) then t.(runs := t.runs[id := StopAsked(t.runs[id], at)]) else t
  }

  predicate CanRetry(t: Tables, id: string) {
    id in t.runs && Retriable(t.runs[id].status)
  }

  function Retry(t: Tables, id: string, at: Time): (u: Tables) {
    if CanRetry(t, id) then t.(runs := t.runs[id := Retried(t.runs[id], at)]) else t
  }

  function OverdueRuns(t: Tables, deadline: Time): (ids: set<string>) {
    set id | id in t.runs && Overdue(t.runs[id], deadline)
  }

  function Sweep(t: Tables, deadline: Time, at: Time): (u: Tables) {
    t.(runs := map id | id in t.runs :: if Overdue(t.runs[id], deadline) then TimedOutAt(t.runs[id], at) else t.runs[id])
  }

  function RunningRuns(t: Tables): (ids: set<string>) {
    set id | id in t.runs && Running(t.runs[id].status)
  }

  function Interrupt(t: Tables, at: Time): (u: Tables) {
    t.(runs := map id | id in t.runs :: if Running(t.runs[id].status) then Interrupted(t.runs[id], at) else t.runs[id])
  }

  /** The project goes with everything that hangs on it. */
  function WithoutProject(t: Tables, project: string): (u: Tables) {
    Tables(t.projects - {project},
           map b | b in t.boards && t.boards[b].project != project :: t.boards[b],
           map r | r in t.runs && t.runs[r].project != project :: t.runs[r],
           map k | k in t.artifacts && !(k.0 in t.runs && t.runs[k.0].project == project) :: t.artifacts[k])
  }

  predicate HasBoard(t: Tables, project: string, board: string) {
    board in t.boards && t.boards[board].project == project
  }

  /** One version goes, with its runs and their artifacts. */
  function WithoutBoard(t: Tables, project: string, board: string): (u: Tables) {
    Tables(t.projects,
           t.boards - {board},
           map r | r in t.runs && !(t.runs[r].project == project && t.runs[r].board == board) :: t.runs[r],
           map k | k in t.artifacts && !(k.0 in t.runs && t.runs[k.0].project == project && t.runs[k.0].board == board)
             :: t.artifacts[k])
  }

  /** Boards of other projects uploaded under the key. */
  function Sharing(boards: BoardRows, key: string, except: string): (ids: set<string>) {
    set b | b in boards && boards[b].inputKey == key && boards[b].project != except
  }

  // ---------- listings ----------

  function RunsOf(t: Tables, project: string): (ids: set<string>) {
    set r | r in t.runs && t.runs[r].project == project
  }

  /** Up to limit of the runs, as many as there are, each once, newest first; which of those created
      at the same time come first, or are left out, is left open. */
  ghost predicate IsNewest(runs: RunRows, among: set<string>, limit: nat, ids: seq<string>)
    requires among <= runs.Keys
  {
    && |ids| == (if |among| < limit then |among| else limit)
    && (forall r :: r in ids ==> r in among)
    && (forall i, j :: 0 <= i < j < |ids| ==> ids[i] != ids[j])
    && (forall i, j :: 0 <= i < j < |ids| ==> runs[ids[j]].createdAt <= runs[ids[i]].createdAt)
    && (forall q, r :: q in ids && r in among && r !in ids ==> runs[r].createdAt <= runs[q].createdAt)
  }

  ghost predicate IsListing(t: Tables, project: string, limit: nat, ids: seq<string>) {
    IsNewest(t.runs, RunsOf(t, project), limit, ids)
  }

  lemma {:induction false} SomeNewest(runs: RunRows, among: set<string>) returns (r: string)
    requires among <= runs.Keys && among != {}
    ensures r in among && forall q :: q in among ==> runs[q].createdAt <= runs[r].createdAt
    decreases |among|
  {
    r :| r in among;
    if among != {r} {
      var q := SomeNewest(runs, among - {r});
      r := if runs[r].createdAt < runs[q].createdAt then q else r;
    }
  }

  /** The newest so far, and what is left to choose from. */
  ghost predicate NewestSoFar(runs: RunRows, among: set<string>, left: set<string>, ids: seq<string>)
    requires among <= runs.Keys
  {
    && left <= among && |ids| + |left| == |among|
    && (forall r :: r in ids <==> r in among && r !in left)
    && (forall i, j :: 0 <= i < j < |ids| ==> ids[i] != ids[j])
    && (forall i, j :: 0 <= i < j < |ids| ==> runs[ids[j]].createdAt <= runs[ids[i]].createdAt)
    && (forall q, r :: q in ids && r in left ==> runs[r].createdAt <= runs[q].createdAt)
  }

  lemma OneMoreNewest(runs: RunRows, among: set<string>, left: set<string>, ids: seq<string>, r: string)
    requires among <= runs.Keys && NewestSoFar(runs, among, left, ids)
    requires r in left && forall q :: q in left ==> runs[q].createdAt <= runs[r].createdAt
    ensures NewestSoFar(runs, among, left - {r}, ids + [r])
  {
    assert forall i :: 0 <= i < |ids| ==> ids[i] in ids;
  }

  /** ORDER BY created_at DESC LIMIT. */
  method NewestFirst(runs: RunRows, among: set<string>, limit: nat) returns (ids: seq<string>)
    requires among <= runs.Keys
    ensures IsNewest(runs, among, limit, ids)
  {
    ids := [];
    var left := among;
    assert NewestSoFar(runs, among, left, ids);
    while left != {} && |ids| < limit
      invariant NewestSoFar(runs, among, left, ids) && left <= among && |ids| <= limit
      decreases |left|
    {
      hide NewestSoFar, IsNewest;
      ghost var newest := SomeNewest(runs, left);
      var r :| r in left && forall q :: q in left ==> runs[q].createdAt <= runs[r].createdAt;
      OneMoreNewest(runs, among, left, ids, r);
      left := left - {r};
      ids := ids + [r];
    }
  }

  // ---------- what a statement on one run leaves ----------

  ghost predicate OthersKept(t: Tables, u: Tables, id: string) {
    && u.projects == t.projects && u.runs.Keys == t.runs.Keys
    && forall r :: r in t.runs && r != id ==> u.runs[r] == t.runs[r]
  }

  ghost predicate AllOk(t: Tables) {
    forall r :: r in t.runs ==> RowOk(t.runs[r])
  }

  lemma OneRow(t: Tables, u: Tables, id: string)
    requires u.projects == t.projects && id in t.runs && id in u.runs && u.runs == t.runs[id := u.runs[id]]
    ensures OthersKept(t, u, id) && (AllOk(t) && RowOk(u.runs[id]) ==> AllOk(u))
  {
    hide RowOk;
  }

  lemma ClaimKeeps(t: Tables, id: string, kid: string, jti: string, at: Time)
    ensures OthersKept(t, Claim(t, id, kid, jti, at), id)
    ensures AllOk(t) && kid != "" && jti != "" ==> AllOk(Claim(t, id, kid, jti, at))
  {
    hide AllOk;
    if CanClaim(t, id) {
      OneRow(t, Claim(t, id, kid, jti, at), id);
      RowIsOk(t, id);
    }
  }

  lemma RowIsOk(t: Tables, id: string)
    requires id in t.runs
    ensures AllOk(t) ==> RowOk(t.runs[id])
  {
  }

  lemma ReportKeeps(t: Tables, id: string, text: string, c: Completion, at: Time)
    ensures OthersKept(t, PostProgress(t, id, text, at), id) && OthersKept(t, Complete(t, id, c, at), id)
    ensures AllOk(t) ==> AllOk(PostProgress(t, id, text, at))
    ensures AllOk(t) && (c.status == Done || c.status == Failed) ==> AllOk(Complete(t, id, c, at))
  {
    hide AllOk, WithParsed, Upserted;
    if IsRunning(t, id) {
      OneRow(t, PostProgress(t, id, text, at), id);
      OneRow(t, Complete(t, id, c, at), id);
      RowIsOk(t, id);
    }
  }

  lemma RequestKeeps(t: Tables, id: string, at: Time)
    ensures OthersKept(t, Stop(t, id, at), id) && OthersKept(t, Retry(t, id, at), id)
    ensures AllOk(t) ==> AllOk(Stop(t, id, at)) && AllOk(Retry(t, id, at))
  {
    hide AllOk;
    if id in t.runs {
      RowIsOk(t, id);
    }
    if CanStop(t, id) {
      OneRow(t, Stop(t, id, at), id);
    }
    if CanRetry(t, id) {
      OneRow(t, Retry(t, id, at), id);
    }
  }

  /** The sweeps leave nothing of what they look for. */
  lemma SweepsKeep(t: Tables, deadline: Time, at: Time)
    ensures OverdueRuns(Sweep(t, deadline, at), deadline) == {} && RunningRuns(Interrupt(t, at)) == {}
    ensures AllOk(t) ==> AllOk(Sweep(t, deadline, at)) && AllOk(Interrupt(t, at))
  {
    SweepKeeps(t, deadline, at);
    InterruptKeeps(t, at);
    hide AllOk, RowOk;
  }

  lemma SweepKeeps(t: Tables, deadline: Time, at: Time)
    ensures AllOk(t) ==> AllOk(Sweep(t, deadline, at))
  {
    hide AllOk;
    if AllOk(t) {
      forall r | r in t.runs ensures RowOk(Sweep(t, deadline, at).runs[r]) {
        RowIsOk(t, r);
      }
      RowsAllOk(Sweep(t, deadline, at));
    }
  }

  lemma InterruptKeeps(t: Tables, at: Time)
    ensures AllOk(t) ==> AllOk(Interrupt(t, at))
  {
    hide AllOk;
    if AllOk(t) {
      forall r | r in t.runs ensures RowOk(Interrupt(t, at).runs[r]) {
        RowIsOk(t, r);
      }
      RowsAllOk(Interrupt(t, at));
    }
  }

  lemma RowsAllOk(t: Tables)
    requires forall r :: r in t.runs ==> RowOk(t.runs[r])
    ensures AllOk(t)
  {
  }

  lemma DeletionsKeep(t: Tables, project: string, board: string)
    ensures RunsOf(WithoutProject(t, project), project) == {}
    ensures AllOk(t) ==> AllOk(WithoutProject(t, project)) && AllOk(WithoutBoard(t, project, board))
  {
    hide RowOk;
  }

  // ---------- the store ----------

  class Store {
    var projects: map<string, Project>
    var boards: BoardRows
    var runs: RunRows
    var artifacts: ArtifactRows

    function Now(): (t: Tables)
      reads this
    {
      Tables(projects, boards, runs, artifacts)
    }

    constructor ()
      ensures Now() == Tables(map[], map[], map[], map[])
    {
      projects, boards, runs, artifacts := map[], map[], map[], map[];
    }

    method CreateProject(id: string, p: Project)
      modifies this
      ensures Now() == old(Now()).(projects := old(projects)[id := p])
    {
      projects := projects[id := p];
    }

    method CreateBoard(id: string, b: Board)
      modifies this
      ensures Now() == old(Now()).(boards := old(boards)[id := b])
    {
      boards := boards[id := b];
    }

    method CreateRun(id: string, r: Run)
      modifies this
      ensures Now() == old(Now()).(runs := old(runs)[id := r])
    {
      runs := runs[id := r];
    }

    method GetRun(id: string) returns (r: Outcome<Run>)
      ensures r == if id in runs then Ok(runs[id]) else Err(NotFound)
    {
      r := if id in runs then Ok(runs[id]) else Err(NotFound);
    }

    method GetProject(id: string) returns (r: Outcome<Project>)
      ensures r == if id in projects then Ok(projects[id]) else Err(NotFound)
    {
      r := if id in projects then Ok(projects[id]) else Err(NotFound);
    }

    method GetBoard(id: string) returns (r: Outcome<Board>)
      ensures r == if id in boards then Ok(boards[id]) else Err(NotFound)
    {
      r := if id in boards then Ok(boards[id]) else Err(NotFound);
    }

    method ClaimRun(id: string, kid: string, jti: string, at: Time) returns (r: Outcome<Run>)
      modifies this
      ensures Now() == Claim(old(Now()), id, kid, jti, at)
      ensures r == if CanClaim(old(Now()), id) then Ok(runs[id]) else Err(Conflict)
      ensures OthersKept(old(Now()), Now(), id) && (old(AllOk(Now())) && kid != "" && jti != "" ==> AllOk(Now()))
    {
      hide AllOk, OthersKept, RowOk;
      ClaimKeeps(Now(), id, kid, jti, at);
      if id in runs && (runs[id].status == New || runs[id].status == RetryPending) {
        var row := runs[id];
        row := row.(status := InProgress, owner := kid, jti := jti, claimedAt := Some(at));
        if row.startedAt.None? {
          row := row.(startedAt := Some(at));
        }
        runs := runs[id := row.(updatedAt := at)];
        return Ok(runs[id]);
      }
      return Err(Conflict);
    }

    method UpdateRunProgress(id: string, progress: string, at: Time) returns (ok: Outcome<()>)
      modifies this
      ensures Now() == PostProgress(old(Now()), id, progress, at)
      ensures OthersKept(old(Now()), Now(), id) && (old(AllOk(Now())) ==> AllOk(Now()))
      ensures ok == if IsRunning(old(Now()), id) then Ok(()) else Err(Conflict)
    {
      hide AllOk, OthersKept, RowOk;
      ReportKeeps(Now(), id, progress, Completion(Done, None, "", None, [], None), at);
      if id in runs && (runs[id].status == InProgress || runs[id].status == Stopping) {
        runs := runs[id := runs[id].(progress := Some(progress), updatedAt := at)];
        return Ok(());
      }
      return Err(Conflict);
    }

    method CompleteRun(id: string, c: Completion, at: Time) returns (ok: Outcome<()>)
      modifies this
      ensures Now() == Complete(old(Now()), id, c, at)
      ensures OthersKept(old(Now()), Now(), id) && (old(AllOk(Now())) && (c.status == Done || c.status == Failed) ==> AllOk(Now()))
      ensures ok == if IsRunning(old(Now()), id) then Ok(()) else Err(Conflict)
    {
      hide AllOk, OthersKept, RowOk, Upserted, WithParsed;
      ReportKeeps(Now(), id, "", c, at);
      if !(id in runs && (runs[id].status == InProgress || runs[id].status == Stopping)) {
        return Err(Conflict);
      }
      var row := runs[id].(status := c.status, error := c.error, finishedAt := Some(at), updatedAt := at);
      if c.summary.Some? {
        row := row.(summary := c.summary);
      }
      runs := runs[id := row];
      if c.estimate.Some? {
        runs := runs[id := row.(estimate := c.estimate)];
      }
      artifacts := Inserted(artifacts, id, c.artifacts);
      boards := Reparsed(boards, c.parsed);
      return Ok(());
    }

    method RequestStop(id: string, at: Time) returns (ok: Outcome<()>)
      modifies this
      ensures Now() == Stop(old(Now()), id, at)
      ensures OthersKept(old(Now()), Now(), id) && (old(AllOk(Now())) ==> AllOk(Now()))
      ensures ok == if CanStop(old(Now()), id) then Ok(()) else Err(Conflict)
    {
      hide AllOk, OthersKept, RowOk;
      RequestKeeps(Now(), id, at);
      if id in runs && (runs[id].status == New || runs[id].status == RetryPending || runs[id].status == InProgress) {
        if runs[id].status == InProgress {
          runs := runs[id := runs[id].(status := Stopping, updatedAt := at)];
        } else {
          runs := runs[id := runs[id].(status := Failed, error := STOPPED_BEFORE_START, finishedAt := Some(at), updatedAt := at)];
        }
        return Ok(());
      }
      return Err(Conflict);
    }

    method RetryRun(id: string, at: Time) returns (ok: Outcome<()>)
      modifies this
      ensures Now() == Retry(old(Now()), id, at)
      ensures OthersKept(old(Now()), Now(), id) && (old(AllOk(Now())) ==> AllOk(Now()))
      ensures ok == if CanRetry(old(Now()), id) then Ok(()) else Err(Conflict)
    {
      hide AllOk, OthersKept, RowOk;
      RequestKeeps(Now(), id, at);
      if id in runs && (runs[id].status == Failed || runs[id].status == TimedOut) {
        runs := runs[id := runs[id].(status := RetryPending, owner := "", jti := "", claimedAt := None, finishedAt := None,
                                     error := "", progress := None, updatedAt := at)];
        return Ok(());
      }
      return Err(Conflict);
    }

    /** How many runs were timed out. */
    method SweepTimedOut(deadline: Time, at: Time) returns (n: nat)
      modifies this
      ensures Now() == Sweep(old(Now()), deadline, at)
      ensures n == |OverdueRuns(old(Now()), deadline)|
      ensures OverdueRuns(Now(), deadline) == {} && (old(AllOk(Now())) ==> AllOk(Now()))
    {
      hide AllOk, RowOk;
      SweepsKeep(Now(), deadline, at);
      n := |set id | id in runs && Overdue(runs[id], deadline)|;
      runs := map id | id in runs ::
        if Overdue(runs[id], deadline) then runs[id].(status := TimedOut, finishedAt := Some(at), updatedAt := at) else runs[id];
    }

    /** The desktop app at startup: whatever was being worked on is failed. */
    method FailInterrupted(at: Time) returns (n: nat)
      modifies this
      ensures Now() == Interrupt(old(Now()), at)
      ensures n == |RunningRuns(old(Now()))|
      ensures RunningRuns(Now()) == {} && (old(AllOk(Now())) ==> AllOk(Now()))
    {
      hide AllOk, RowOk;
      SweepsKeep(Now(), 0, at);
      n := |set id | id in runs && Running(runs[id].status)|;
      runs := map id | id in runs ::
        if Running(runs[id].status) then runs[id].(status := Failed, error := INTERRUPTED_ERROR, finishedAt := Some(at), updatedAt := at)
        else runs[id];
    }

    method DeleteProject(id: string) returns (ok: Outcome<()>)
      modifies this
      ensures Now() == if id in old(projects) then WithoutProject(old(Now()), id) else old(Now())
      ensures ok == if id in old(projects) then Ok(()) else Err(NotFound)
      ensures id !in Now().projects && (ok.Ok? ==> RunsOf(Now(), id) == {}) && (old(AllOk(Now())) ==> AllOk(Now()))
    {
      hide AllOk, RowOk;
      DeletionsKeep(Now(), id, "");
      if id !in projects {
        return Err(NotFound);
      }
      artifacts := map k | k in artifacts && !(k.0 in runs && runs[k.0].project == id) :: artifacts[k];
      runs := map r | r in runs && runs[r].project != id :: runs[r];
      boards := map b | b in boards && boards[b].project != id :: boards[b];
      projects := projects - {id};
      return Ok(());
    }

    /** A transaction: if there is no such version, its runs are not deleted either. */
    method DeleteBoard(project: string, board: string) returns (ok: Outcome<()>)
      modifies this
      ensures Now() == if HasBoard(old(Now()), project, board) then WithoutBoard(old(Now()), project, board) else old(Now())
      ensures ok == if HasBoard(old(Now()), project, board) then Ok(()) else Err(NotFound)
      ensures !HasBoard(Now(), project, board) && (old(AllOk(Now())) ==> AllOk(Now()))
    {
      hide AllOk, RowOk;
      DeletionsKeep(Now(), project, board);
      if !(board in boards && boards[board].project == project) {
        return Err(NotFound);
      }
      artifacts := map k | k in artifacts && !(k.0 in runs && runs[k.0].project == project && runs[k.0].board == board) :: artifacts[k];
      runs := map r | r in runs && !(runs[r].project == project && runs[r].board == board) :: runs[r];
      boards := boards - {board};
      return Ok(());
    }

    method CountBoardsSharingInput(key: string, except: string) returns (n: nat)
      ensures n == |Sharing(boards, key, except)|
    {
      n := |set b | b in boards && boards[b].inputKey == key && boards[b].project != except|;
    }

    /** The project's boards, each once; in what order is left open. */
    method ListBoards(project: string) returns (ids: seq<string>)
      ensures forall b :: b in ids <==> HasBoard(Now(), project, b)
      ensures forall i, j :: 0 <= i < j < |ids| ==> ids[i] != ids[j]
    {
      ids := InSomeOrder(set b | b in boards && boards[b].project == project);
    }

    /** Up to limit of the project's runs, newest first. */
    method ListRuns(project: string, limit: nat) returns (ids: seq<string>)
      ensures IsListing(Now(), project, limit, ids)
    {
      ids := NewestFirst(runs, RunsOf(Now(), project), limit);
    }
  }

  method Reparsed(boards: BoardRows, parsed: Option<ParsedBoard>) returns (r: BoardRows)
    ensures r == WithParsed(boards, parsed)
  {
    r := boards;
    if parsed.Some? && parsed.value.board in boards {
      var p := parsed.value;
      var b := boards[p.board].(layers := p.layers, nets := p.nets, sha := p.sha);
      if p.boardKey != "" {
        b := b.(boardKey := p.boardKey);
      }
      r := boards[p.board := b];
    }
  }

  /** Each artifact in turn, one of a name replacing an earlier one. */
  method Inserted(rows: ArtifactRows, run: string, added: seq<Named>) returns (r: ArtifactRows)
    ensures r == Upserted(rows, run, added)
  {
    r := rows;
    var k := 0;
    while k < |added|
      invariant 0 <= k <= |added| && r == Upserted(rows, run, added[..k])
    {
      assert added[..k + 1][..k] == added[..k];
      r := r[(run, added[k].name) := added[k].artifact];
      k := k + 1;
    }
    assert added[..k] == added;
  }

  method InSomeOrder(s: set<string>) returns (r: seq<string>)
    ensures forall x :: x in r <==> x in s
    ensures forall i, j :: 0 <= i < j < |r| ==> r[i] != r[j]
  {
    r := [];
    var left := s;
    while left != {}
      invariant left <= s && forall x :: x in r <==> x in s && x !in left
      invariant forall i, j :: 0 <= i < j < |r| ==> r[i] != r[j]
      decreases |left|
    {
      var x :| x in left;
      assert x !in r;
      left := left - {x};
      r := r + [x];
    }
  }
}
