/** The desktop store sweeps by comparing stored texts; it finds the runs a comparison of times
    would (server/local/sqlitestore.go). */
module TextSweep {
  import opened Runs
  import opened Stores
  import Timestamps

  predicate Storable(t: Time) {
    t >= 0 && Timestamps.YearOf(t) < 10_000
  }

  /** The runs whose stored claim time is, as text, before the stored deadline. */
  function OverdueByText(t: Tables, deadline: Time): (ids: set<string>)
    requires deadline >= 0
  {
    set id | id in t.runs && Running(t.runs[id].status) && t.runs[id].claimedAt.Some? && t.runs[id].claimedAt.value >= 0
      && Timestamps.TextLess(Timestamps.Ts(t.runs[id].claimedAt.value), Timestamps.Ts(deadline))
  }

  /** The textual sweep changes exactly the runs a sweep by time would. */
  lemma TextSweepIsTimeSweep(t: Tables, deadline: Time)
    requires Storable(deadline)
    requires forall id :: id in t.runs && t.runs[id].claimedAt.Some? ==> Storable(t.runs[id].claimedAt.value)
    ensures OverdueByText(t, deadline) == OverdueRuns(t, deadline)
  {
    hide Timestamps.TextLess, Timestamps.Ts, Timestamps.YearOf;
    forall id | id in t.runs && t.runs[id].claimedAt.Some?
      ensures Timestamps.TextLess(Timestamps.Ts(t.runs[id].claimedAt.value), Timestamps.Ts(deadline))
         <==> t.runs[id].claimedAt.value < deadline
    {
      Timestamps.TextOrder(t.runs[id].claimedAt.value, deadline);
    }
  }
}
