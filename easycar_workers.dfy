/**
 * The two background loops of the bot (easycar/src/service/workers.rs), one iteration at
 * a time: `session_worker` sleeps until five minutes before the token expires and then
 * refreshes it; `scheduler` polls the nearest exam every fifteen seconds and announces it
 * when its id changes. The clock, the portal and the chat are parameters.
 */
module EasycarWorkers {

  import opened Wrappers
  import opened Session
  import Endpoint

  // ---- session_worker ----

  datatype SessionTick = SessionPanicked | Refreshed(slept: nat, nextExpire: int)

  /**
   * One iteration as written: sleep until the refresh instant (panicking if it is past),
   * then take the new expiry from a successful refresh, or `failedAt + 15 s` after a
   * failed one, `failedAt` being the clock reading in the error branch.
   */
  function SessionStep(expire: int, now: int, refreshed: Option<int>, failedAt: int): (t: SessionTick)
    ensures t.SessionPanicked? <==> expire - now < RefreshMargin
    ensures t.Refreshed? ==> t.slept == expire - now - RefreshMargin
    ensures t.Refreshed? && refreshed.Some? ==> t.nextExpire == refreshed.value
    ensures t.Refreshed? && refreshed.None? ==> t.nextExpire == failedAt + RefreshRetry
  {
    match RefreshSleep(expire, now)
    case None => SessionPanicked
    case Some(d) => Refreshed(d, if refreshed.Some? then refreshed.value else failedAt + RefreshRetry)
  }

  /**
   * As written, a failed refresh is never retried: whenever the loop comes round again
   * (at or after the failure), the sleep works out at 15 - 300 seconds or less and the
   * conversion panics.
   */
  lemma FailedRefreshPanicsNext(expire: int, now: int, failedAt: int, later: int,
                                refreshed: Option<int>, failedAgainAt: int)
    requires SessionStep(expire, now, None, failedAt).Refreshed?
    requires later >= failedAt
    ensures SessionStep(SessionStep(expire, now, None, failedAt).nextExpire, later, refreshed,
                        failedAgainAt) == SessionPanicked
  {
  }

  /** The retry the log message announces: the next refresh instant is 15 seconds after the failure. */
  function RetryingSessionStep(expire: int, now: int, refreshed: Option<int>, failedAt: int): (t: SessionTick)
    ensures t.SessionPanicked? <==> expire - now < RefreshMargin
    ensures t.Refreshed? ==> t.slept == expire - now - RefreshMargin
    ensures t.Refreshed? && refreshed.Some? ==> t.nextExpire == refreshed.value
    ensures t.Refreshed? && refreshed.None? ==> t.nextExpire - RefreshMargin == failedAt + RefreshRetry
  {
    match RefreshSleep(expire, now)
    case None => SessionPanicked
    case Some(d) =>
      Refreshed(d, if refreshed.Some? then refreshed.value else failedAt + RefreshRetry + RefreshMargin)
  }

  /**
   * With the retry, a loop that comes round within the retry period sleeps out the rest
   * of it and tries again, instead of panicking.
   */
  lemma FailedRefreshRetried(expire: int, now: int, failedAt: int, later: int,
                             refreshed: Option<int>, failedAgainAt: int)
    requires RetryingSessionStep(expire, now, None, failedAt).Refreshed?
    requires failedAt <= later <= failedAt + RefreshRetry
    ensures var next := RetryingSessionStep(RetryingSessionStep(expire, now, None, failedAt).nextExpire,
                                            later, refreshed, failedAgainAt);
      next.Refreshed? && next.slept == failedAt + RefreshRetry - later
  {
  }

  /** The two agree whenever the refresh succeeds. */
  lemma RetryAgreesOnSuccess(expire: int, now: int, v: int, failedAt: int)
    ensures RetryingSessionStep(expire, now, Some(v), failedAt) == SessionStep(expire, now, Some(v), failedAt)
  {
  }

  /** The worker's state: the expiry it is waiting for. */
  class SessionWorker {

    var expireDate: int

    constructor(expireDate: int)
      ensures this.expireDate == expireDate
    {
      this.expireDate := expireDate;
    }

    /** One turn of the loop as written: a failed refresh stores the failure instant plus 15 seconds. */
    method TickAsWritten(now: int, refreshed: Option<int>, failedAt: int) returns (t: SessionTick)
      modifies this
      ensures t == SessionStep(old(expireDate), now, refreshed, failedAt)
      ensures t.Refreshed? ==> expireDate == t.nextExpire
      ensures t.SessionPanicked? ==> expireDate == old(expireDate)
    {
      t := SessionStep(expireDate, now, refreshed, failedAt);
      if t.Refreshed? {
        expireDate := t.nextExpire;
      }
    }

    /** One turn of the loop, with the corrected retry on failure. */
    method Tick(now: int, refreshed: Option<int>, failedAt: int) returns (t: SessionTick)
      modifies this
      ensures t == RetryingSessionStep(old(expireDate), now, refreshed, failedAt)
      ensures t.Refreshed? ==> expireDate == t.nextExpire
      ensures t.SessionPanicked? ==> expireDate == old(expireDate)
    {
      t := RetryingSessionStep(expireDate, now, refreshed, failedAt);
      if t.Refreshed? {
        expireDate := t.nextExpire;
      }
    }
  }

  /** The worker starts from the client's expiry, and panics when the client has none. */
  method StartSessionWorker(initial: Option<int>) returns (w: SessionWorker?)
    ensures initial.None? <==> w == null
    ensures w != null ==> fresh(w) && w.expireDate == initial.value
  {
    if initial.None? {
      return null;
    }
    w := new SessionWorker(initial.value);
  }

  // ---- scheduler ----

  datatype Exam = Exam(id: string, date: string)

  /** `GetExamsError`, as far as the poller looks into it. */
  datatype ExamsError = EndpointErrors(errors: seq<Endpoint.GenericError>) | OtherError(message: string)

  datatype PollTick =
    | Announced(examId: string)
    | NoChange
    | Reported(refreshRequested: bool)
    | PollPanicked

  datatype Poll = Poll(tick: PollTick, lastExamId: string)

  /**
   * One tick: `nearest` is what `get_nearest_exams(1)` gave and `refreshOk` whether the
   * refresh an `invalid_token` error triggers succeeds.
   */
  function PollStep(last: string, nearest: Result<seq<Exam>, ExamsError>, refreshOk: bool): (p: Poll)
    ensures nearest.Err? || p.tick.PollPanicked? ==> p.lastExamId == last
    ensures p.tick.Announced? <==> nearest.Ok? && |nearest.value| > 0
                                   && nearest.value[|nearest.value| - 1].id != last
    ensures p.tick.Announced? ==> p.lastExamId == p.tick.examId
                                  && p.tick.examId == nearest.value[|nearest.value| - 1].id
    ensures p.tick.NoChange? ==> p.lastExamId == last
  {
    match nearest
    case Ok(v) =>
      if |v| == 0 then Poll(PollPanicked, last)
      else if v[|v| - 1].id == last then Poll(NoChange, last)
      else Poll(Announced(v[|v| - 1].id), v[|v| - 1].id)
    case Err(EndpointErrors(errors)) =>
      if |errors| == 0 then Poll(PollPanicked, last)
      else if errors[0].code == "invalid_token" then
        (if refreshOk then Poll(Reported(true), last) else Poll(PollPanicked, last))
      else Poll(Reported(false), last)
    case Err(OtherError(_)) => Poll(Reported(false), last)
  }

  /** Polling the same answer twice announces it at most once. */
  lemma PollIdempotent(last: string, nearest: Result<seq<Exam>, ExamsError>, refreshOk: bool)
    ensures var p := PollStep(last, nearest, refreshOk);
      PollStep(p.lastExamId, nearest, refreshOk) == Poll(if p.tick.PollPanicked? || p.tick.Reported?
                                                      then p.tick else NoChange, p.lastExamId)
  {
  }

  /** A refresh is requested exactly when the first endpoint error is `invalid_token`. */
  lemma RefreshOnlyOnInvalidToken(last: string, nearest: Result<seq<Exam>, ExamsError>)
    ensures PollStep(last, nearest, true).tick == Reported(true) <==>
              nearest.Err? && nearest.error.EndpointErrors? && |nearest.error.errors| > 0
              && nearest.error.errors[0].code == "invalid_token"
  {
  }

  /** An endpoint error with an empty list panics on `first().expect(..)`. */
  lemma EmptyErrorListPanics(last: string, refreshOk: bool)
    ensures PollStep(last, Err(EndpointErrors([])), refreshOk).tick == PollPanicked
  {
  }

  class Scheduler {

    var lastExamId: string

    constructor()
      ensures lastExamId == ""
    {
      lastExamId := "";
    }

    method Tick(nearest: Result<seq<Exam>, ExamsError>, refreshOk: bool) returns (t: PollTick)
      modifies this
      ensures PollStep(old(lastExamId), nearest, refreshOk) == Poll(t, lastExamId)
    {
      var p := PollStep(lastExamId, nearest, refreshOk);
      t := p.tick;
      lastExamId := p.lastExamId;
    }
  }

  /** The first exam ever seen is always announced, since the remembered id starts empty. */
  method FirstSightingAnnounced(e: Exam) returns (t: PollTick)
    requires e.id != ""
    ensures t == Announced(e.id)
  {
    var s := new Scheduler();
    t := s.Tick(Ok([e]), true);
  }
}
