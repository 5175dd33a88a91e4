/** The worker's own care for its run token: when it is refreshed, and which token a request then
    carries (worker/emi_worker/client.py). Times are seconds on the worker's clock. */
module ClientTokens {
  import opened Options

  const REFRESH_MARGIN: real := 3600.0

  /** What asking for a refresh came back with. */
  datatype RefreshReply = Refreshed(token: string, expiresIn: int) | Reassigned | Failed

  /** How long before expiry the next refresh is due: an hour, or half a short life. */
  function Lead(expiresIn: int): (lead: real) {
    if REFRESH_MARGIN <= expiresIn as real / 2.0 then REFRESH_MARGIN else expiresIn as real / 2.0
  }

  function RefreshAt(expiresIn: int, now: real): (at: Option<real>) {
    if expiresIn <= 0 then None else Some(now + expiresIn as real - Lead(expiresIn))
  }

  /** A refresh falls due at half the token's life or an hour before its end, whichever is later: in the
      second half of it, and before its end. A token that has no life left is never refreshed. */
  lemma RefreshInTime(expiresIn: int, now: real)
    ensures RefreshAt(expiresIn, now).Some? <==> expiresIn > 0
    ensures expiresIn > 0 ==>
      var (at, half, end) := (RefreshAt(expiresIn, now).value, now + expiresIn as real / 2.0, now + expiresIn as real);
      half <= at < end && end - 3600.0 <= at && (at == half || at == end - 3600.0)
  {
  }

  class RunToken {
    const runId: string
    const jti: string
    var token: string
    var expiresIn: int
    var refreshAfter: Option<real>
    /** When the token in hand stops being accepted, by what the server said of it. */
    ghost var goodUntil: real

    /** A refresh is due while there is still life in the token, unless it never said how long. */
    ghost predicate Valid()
      reads this
    {
      expiresIn > 0 ==> refreshAfter == Some(goodUntil - Lead(expiresIn))
    }

    constructor (runId: string, jti: string, token: string, expiresIn: int, now: real)
      ensures Valid() && this.runId == runId && this.jti == jti && this.token == token && this.expiresIn == expiresIn
      ensures refreshAfter == RefreshAt(expiresIn, now) && goodUntil == now + expiresIn as real
    {
      this.runId, this.jti, this.token, this.expiresIn := runId, jti, token, expiresIn;
      refreshAfter := RefreshAt(expiresIn, now);
      goodUntil := now + expiresIn as real;
    }

    /** _schedule_refresh. */
    method ScheduleRefresh(now: real)
      modifies this
      ensures Valid() && token == old(token) && expiresIn == old(expiresIn)
      ensures refreshAfter == RefreshAt(expiresIn, now) && goodUntil == now + expiresIn as real
    {
      goodUntil := now + expiresIn as real;
      if expiresIn <= 0 {
        refreshAfter := None;
        return;
      }
      var half := expiresIn as real / 2.0;
      var lead := if REFRESH_MARGIN <= half then REFRESH_MARGIN else half;
      refreshAfter := Some(now + expiresIn as real - lead);
    }

    /** _bearer: the token to send, or none when the run is lost. The reply is what the server would
        answer a refresh with; it is asked only when one is due. A token sent is in date unless a
        refresh was due, failed, and the old token's own end has come. */
    method Bearer(now: real, reply: RefreshReply) returns (sent: Option<string>)
      requires Valid()
      modifies this
      ensures Valid()
      ensures var due := old(refreshAfter).Some? && now >= old(refreshAfter).value;
        && (sent.None? <==> due && reply.Reassigned?)
        && (sent.Some? ==> sent.value == token)
        && (token == if due && reply.Refreshed? then reply.token else old(token))
        && (goodUntil == if due && reply.Refreshed? then now + reply.expiresIn as real else old(goodUntil))
        && (expiresIn == if due && reply.Refreshed? then reply.expiresIn else old(expiresIn))
        && (old(expiresIn) > 0 && expiresIn > 0 ==> (now < goodUntil <==> !due || reply.Refreshed? || now < old(goodUntil)))
    {
      if refreshAfter.Some? && now >= refreshAfter.value {
        match reply {
          case Reassigned => return None;
          case Failed =>
          case Refreshed(t, e) =>
            token, expiresIn := t, e;
            ScheduleRefresh(now);
        }
      }
      return Some(token);
    }
  }
}
