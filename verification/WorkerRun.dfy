/** What a worker sends the server about one run it takes on, whichever replies it gets and however
    the work ends (worker/emi_worker/runner.py). */
module WorkerRun {
  import opened Runs

  /** How a request ended for the worker: answered, refused because the run was reassigned, refused
      otherwise, or with no answer at all, in which case the server may or may not have acted on it. */
  datatype Reply = Answered | RunReassigned | ServerError | NoAnswer

  /** How the work itself ended. */
  datatype Work = Finished | StoppedOnRequest | StageError | ReassignedMeanwhile | Crashed

  /** The completions sent, in order, and whether the thread's loop was left to catch an exception. */
  datatype Sent = Sent(completions: seq<RunStatus>, escaped: bool)

  /** _execute, with what happens at each of its calls. The server gives the run to the worker when it
      mints the token; whether the worker, unless told that it lost the run, reports it as ended is
      decided by the reply to the claim that follows: exactly when that ends in an error or without
      an answer the run is left as it is, for the sweeper to end. A run is reported as done only for
      finished work, as failed for any other, and as both exactly when the reply to "done" was lost. */
  method Execute(minted: Reply, claimed: Reply, known: bool, work: Work, done: Reply) returns (r: Sent)
    ensures minted == Answered ==>
      (r.completions != [] || ToldLost(claimed, known, work) <==> claimed == Answered || claimed == RunReassigned)
    ensures r.completions != [] <==> minted == Answered && claimed == Answered && !ToldLost(claimed, known, work)
    ensures forall k :: 0 <= k < |r.completions| ==> r.completions[k] == Done || r.completions[k] == Failed
    ensures Done in r.completions <==> minted == Answered && claimed == Answered && known && work == Finished
    ensures |r.completions| > 1 <==> Done in r.completions && done == NoAnswer
    ensures |r.completions| > 1 ==> r.completions == [Done, Failed]
    ensures r.escaped <==> minted == NoAnswer || (minted == Answered && claimed != Answered && claimed != RunReassigned)
  {
    if minted == RunReassigned || minted == ServerError {
      return Sent([], false);
    }
    if minted == NoAnswer {
      return Sent([], true);
    }
    if claimed == RunReassigned {
      return Sent([], false);
    }
    if claimed != Answered {
      return Sent([], true);
    }
    var sent, lost := RunClaimed(known, work, done);
    if lost {
      sent := sent + [Failed];
    }
    return Sent(sent, false);
  }

  /** _run_claimed: lost when the reply to "done" never came, which only _execute catches. */
  method RunClaimed(known: bool, work: Work, done: Reply) returns (sent: seq<RunStatus>, lost: bool)
    ensures lost <==> known && work == Finished && done == NoAnswer
    ensures sent == if known && work == ReassignedMeanwhile then [] else if known && work == Finished then [Done] else [Failed]
  {
    if !known {
      return [Failed], false;
    }
    match work
    case StoppedOnRequest => return [Failed], false;
    case StageError => return [Failed], false;
    case ReassignedMeanwhile => return [], false;
    case Crashed => return [Failed], false;
    case Finished => return [Done], done == NoAnswer;
  }

  /** The worker was told that the run is no longer its own. */
  predicate ToldLost(claimed: Reply, known: bool, work: Work) {
    claimed == RunReassigned || (claimed == Answered && known && work == ReassignedMeanwhile)
  }
}
