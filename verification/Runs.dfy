/** The rows the server keeps and what each statement does to them (server/emi/types.go,
    server/emi/pgstore.go, server/local/sqlitestore.go). A missing text column is the empty
    string, as the server reads it. */
module Runs {
  import opened Options

  datatype RunStatus = New | RetryPending | InProgress | Stopping | Done | Failed | TimedOut

  predicate Claimable(s: RunStatus) {
    s == New || s == RetryPending
  }

  predicate Terminal(s: RunStatus) {
    s == Done || s == Failed || s == TimedOut
  }

  predicate Running(s: RunStatus) {
    s == InProgress || s == Stopping
  }

  /** Time in nanoseconds. */
  type Time = int

  datatype Run = Run(project: string, board: string, status: RunStatus, owner: string, jti: string,
                     claimedAt: Option<Time>, startedAt: Option<Time>, finishedAt: Option<Time>,
                     progress: Option<string>, summary: Option<string>, error: string, estimate: Option<string>,
                     createdAt: Time, updatedAt: Time)

  datatype Project = Project(org: string)

  datatype Board = Board(project: string, inputKey: string, boardKey: string, layers: int, nets: int, sha: string)

  datatype Artifact = Artifact(key: string, contentType: string, size: int)

  /** An artifact as a completion names it. */
  datatype Named = Named(name: string, artifact: Artifact)

  datatype ParsedBoard = ParsedBoard(board: string, boardKey: string, layers: int, nets: int, sha: string)

  datatype Completion = Completion(status: RunStatus, summary: Option<string>, error: string, estimate: Option<string>,
                                   artifacts: seq<Named>, parsed: Option<ParsedBoard>)

  type RunRows = map<string, Run>
  type BoardRows = map<string, Board>
  /** Artifacts by run and name. */
  type ArtifactRows = map<(string, string), Artifact>

  // ---------- what each statement makes of one row ----------

  function Created(project: string, board: string, at: Time): (r: Run) {
    Run(project, board, New, "", "", None, None, None, None, None, "", None, at, at)
  }

  function Claimed(r: Run, kid: string, jti: string, at: Time): (q: Run) {
    r.(status := InProgress, owner := kid, jti := jti, claimedAt := Some(at),
       startedAt := if r.startedAt.Some? then r.startedAt else Some(at), updatedAt := at)
  }

  function Progressed(r: Run, progress: string, at: Time): (q: Run) {
    r.(progress := Some(progress), updatedAt := at)
  }

  function Completed(r: Run, c: Completion, at: Time): (q: Run) {
    r.(status := c.status, summary := if c.summary.Some? then c.summary else r.summary, error := c.error,
       estimate := if c.estimate.Some? then c.estimate else r.estimate, finishedAt := Some(at), updatedAt := at)
  }

  const STOPPED_BEFORE_START := "stopped before a worker started it"

  function StopAsked(r: Run, at: Time): (q: Run) {
    if r.status == InProgress then r.(status := Stopping, updatedAt := at)
    else r.(status := Failed, error := STOPPED_BEFORE_START, finishedAt := Some(at), updatedAt := at)
  }

  function Retried(r: Run, at: Time): (q: Run) {
    r.(status := RetryPending, owner := "", jti := "", claimedAt := None, finishedAt := None, error := "",
       progress := None, updatedAt := at)
  }

  function TimedOutAt(r: Run, at: Time): (q: Run) {
    r.(status := TimedOut, finishedAt := Some(at), updatedAt := at)
  }

  const INTERRUPTED_ERROR := "interrupted: the app was closed while this run was in progress"

  function Interrupted(r: Run, at: Time): (q: Run) {
    r.(status := Failed, error := INTERRUPTED_ERROR, finishedAt := Some(at), updatedAt := at)
  }

  predicate Stoppable(s: RunStatus) {
    Claimable(s) || s == InProgress
  }

  predicate Retriable(s: RunStatus) {
    s == Failed || s == TimedOut
  }

  /** The sweep's condition on a row. */
  predicate Overdue(r: Run, deadline: Time) {
    Running(r.status) && r.claimedAt.Some? && r.claimedAt.value < deadline
  }

  // ---------- what the status says of the row ----------

  /** Claimable: nobody's, never claimed since queued. Running: somebody's, with a token id and a
      claim time. Finished exactly when terminal. */
  ghost predicate RowOk(r: Run) {
    && (Claimable(r.status) ==> r.owner == "" && r.jti == "" && r.claimedAt.None?)
    && (Running(r.status) ==> r.owner != "" && r.jti != "" && r.claimedAt.Some?)
    && (Terminal(r.status) <==> r.finishedAt.Some?)
  }

  /** Every statement keeps what the status says, under the guard it has. */
  lemma RowsStayOk(r: Run, kid: string, jti: string, c: Completion, text: string, at: Time)
    requires RowOk(r)
    ensures forall p, b :: RowOk(Created(p, b, at))
    ensures Claimable(r.status) && kid != "" && jti != "" ==> RowOk(Claimed(r, kid, jti, at))
    ensures Running(r.status) ==> RowOk(Progressed(r, text, at))
    ensures Running(r.status) && (c.status == Done || c.status == Failed) ==> RowOk(Completed(r, c, at))
    ensures Stoppable(r.status) ==> RowOk(StopAsked(r, at))
    ensures Retriable(r.status) ==> RowOk(Retried(r, at))
    ensures Running(r.status) ==> RowOk(TimedOutAt(r, at)) && RowOk(Interrupted(r, at))
  {
  }

  /** How far a run is from its end: every change of status but a retry takes it lower. */
  function Rank(s: RunStatus): (k: nat) {
    if Claimable(s) then 3 else if s == InProgress then 2 else if s == Stopping then 1 else 0
  }

  // ---------- artifacts ----------

  /** The completion's artifacts inserted in turn, a later one of a name replacing an earlier one. */
  function Upserted(rows: ArtifactRows, run: string, added: seq<Named>): (r: ArtifactRows) {
    if added == [] then rows
    else
      var n := |added| - 1;
      Upserted(rows, run, added[..n])[(run, added[n].name) := added[n].artifact]
  }

  /** Inserting touches no other run's artifacts, and loses none of this one's. */
  lemma {:induction false} UpsertedElsewhere(rows: ArtifactRows, run: string, added: seq<Named>, key: (string, string))
    ensures key.0 != run ==> (key in Upserted(rows, run, added) <==> key in rows)
    ensures key.0 != run && key in rows ==> Upserted(rows, run, added)[key] == rows[key]
    ensures key in rows ==> key in Upserted(rows, run, added)
  {
    if added != [] {
      UpsertedElsewhere(rows, run, added[..|added| - 1], key);
    }
  }

  lemma {:induction false} UpsertedNamed(rows: ArtifactRows, run: string, added: seq<Named>, i: nat)
    requires i < |added|
    ensures (run, added[i].name) in Upserted(rows, run, added)
  {
    if i < |added| - 1 {
      UpsertedNamed(rows, run, added[..|added| - 1], i);
    }
  }

  function Parsed(b: Board, p: ParsedBoard): (c: Board) {
    b.(boardKey := if p.boardKey == "" then b.boardKey else p.boardKey, layers := p.layers, nets := p.nets, sha := p.sha)
  }
}
