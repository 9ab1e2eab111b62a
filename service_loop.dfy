/**
 * The rule every revision of the polling worker follows: remember the id of the last
 * announced exam, and announce the nearest exam only when its id differs from that.
 */
module ExamDedup {

  import opened Wrappers
  import opened Schedule

  /** The remembered id and every exam announced so far, oldest first. */
  datatype Dedup = Dedup(lastId: string, announced: seq<Exam>)

  function Initial(): (d: Dedup)
    ensures d.lastId == "" && d.announced == []
  {
    Dedup("", [])
  }

  /** The nearest practice exam of a schedule: the first one in day, hour and list order. */
  function Nearest(s: ExamSchedule): (r: Option<Exam>)
    ensures r.None? <==> AllPracticeExams(s) == []
    ensures r.Some? ==> r.value == AllPracticeExams(s)[0]
  {
    var all := AllPracticeExams(s);
    if all == [] then None else Some(all[0])
  }

  /** Looking at the nearest exam, if there is one. */
  function Observe(d: Dedup, nearest: Option<Exam>): (r: Dedup)
    ensures nearest.None? ==> r == d
    ensures nearest.Some? ==> r.lastId == nearest.value.id
    ensures |d.announced| <= |r.announced| <= |d.announced| + 1
    ensures r.announced[..|d.announced|] == d.announced
    ensures |r.announced| == |d.announced| + 1 <==> nearest.Some? && nearest.value.id != d.lastId
    ensures |r.announced| == |d.announced| + 1 ==> r.announced[|d.announced|] == nearest.value
  {
    if nearest.Some? && nearest.value.id != d.lastId then
      Dedup(nearest.value.id, d.announced + [nearest.value])
    else
      d
  }

  /** Seeing the same exam twice in a row announces it at most once. */
  lemma ObserveIdempotent(d: Dedup, nearest: Option<Exam>)
    ensures Observe(Observe(d, nearest), nearest) == Observe(d, nearest)
  {
  }

  /**
   * What the announcements look like at any moment: none while the remembered id is the
   * initial empty one, the latest one carries the remembered id, the first one has a
   * non-empty id, and no two consecutive ones share an id.
   */
  ghost predicate Consistent(d: Dedup)
  {
    (d.announced == [] ==> d.lastId == "")
    && (d.announced != [] ==> d.announced[|d.announced| - 1].id == d.lastId && d.announced[0].id != "")
    && (forall i :: 1 <= i < |d.announced| ==> d.announced[i - 1].id != d.announced[i].id)
  }

  lemma InitialConsistent()
    ensures Consistent(Initial())
  {
  }

  lemma ObservePreservesConsistent(d: Dedup, nearest: Option<Exam>)
    requires Consistent(d)
    ensures Consistent(Observe(d, nearest))
  {
    var r := Observe(d, nearest);
    if |r.announced| == |d.announced| + 1 {
      forall i | 1 <= i < |r.announced|
        ensures r.announced[i - 1].id != r.announced[i].id
      {
        if i < |d.announced| {
          assert r.announced[i - 1] == d.announced[i - 1] && r.announced[i] == d.announced[i];
        }
      }
    }
  }
}

/**
 * The polling worker of src/service.rs (`info_car_worker`): it logs in, reports the
 * token's expiry to the refresh timer, and then handles one message at a time. No error
 * inside the loop stops it: a failed schedule request or a failed login is only logged.
 * The portal's answers are parameters, one set per message.
 */
module ServiceLoop {

  import opened Wrappers
  import opened Session
  import opened Schedule
  import ScheduleLoops
  import opened ExamDedup

  datatype ClientMessage = GetSchedule | GetNewExams | RefreshToken

  /** A message together with the answers to the calls its branch makes. */
  datatype Delivery = Delivery(message: ClientMessage, refresh: AuthOutcome, login: AuthOutcome,
                               schedule: Result<ExamSchedule, string>)

  /**
   * The worker's state: the dedup memory, the client's token expiry, and what it has sent
   * to the refresh timer and to the bot so far.
   */
  datatype WorkerState = WorkerState(dedup: Dedup, tokenExpireDate: Option<int>,
                                     toRefresher: seq<int>, toBot: seq<ExamSchedule>)

  /** The expiry after the refresh branch: the refreshed one, else the one a fresh login set. */
  function ExpiryAfterRefresh(expire: Option<int>, refresh: AuthOutcome, login: AuthOutcome): Option<int>
  {
    var afterRefresh := ExpireAfter(expire, refresh);
    if refresh.AuthErr? then ExpireAfter(afterRefresh, login) else afterRefresh
  }

  /** One message; `None` is the `expect` panic on an unset expiry. */
  function Step(s: WorkerState, d: Delivery): (r: Option<WorkerState>)
    ensures r.Some? && d.message != GetNewExams ==> r.value.dedup == s.dedup
    ensures r.Some? && d.message != RefreshToken ==> r.value.tokenExpireDate == s.tokenExpireDate
    ensures r.Some? && d.message != RefreshToken ==> r.value.toRefresher == s.toRefresher
    ensures r.Some? && d.message != GetSchedule ==> r.value.toBot == s.toBot
    ensures r.None? <==> d.message == RefreshToken && ExpiryAfterRefresh(s.tokenExpireDate, d.refresh, d.login).None?
  {
    match d.message
    case RefreshToken =>
      var expire := ExpiryAfterRefresh(s.tokenExpireDate, d.refresh, d.login);
      if expire.None? then None
      else Some(s.(tokenExpireDate := expire, toRefresher := s.toRefresher + [expire.value]))
    case GetNewExams =>
      if d.schedule.Err? then Some(s)
      else Some(s.(dedup := Observe(s.dedup, Nearest(d.schedule.value))))
    case GetSchedule =>
      if d.schedule.Err? then Some(s)
      else Some(s.(toBot := s.toBot + [d.schedule.value]))
  }

  /** A failed schedule request is only logged: nothing changes. */
  lemma ScheduleErrorChangesNothing(s: WorkerState, d: Delivery)
    requires d.message != RefreshToken && d.schedule.Err?
    ensures Step(s, d) == Some(s)
  {
  }

  /**
   * A refresh always reports an expiry. When both the refresh and the login fail, the
   * login error is only logged and the previous expiry is reported again, or the worker
   * panics when there is none.
   */
  lemma RefreshReportsExpiry(s: WorkerState, d: Delivery)
    requires d.message == RefreshToken
    ensures Step(s, d).Some? ==> Step(s, d).value.toRefresher
                                 == s.toRefresher + [Step(s, d).value.tokenExpireDate.value]
    ensures d.refresh.AuthOk? ==> Step(s, d).Some? == d.refresh.expireDate.Some?
    ensures d.refresh.AuthErr? && d.login.AuthOk? ==> Step(s, d).Some? == d.login.expireDate.Some?
    ensures d.refresh.AuthErr? && d.login.AuthErr? ==>
              Step(s, d) == (if s.tokenExpireDate.None? then None
                             else Some(s.(toRefresher := s.toRefresher + [s.tokenExpireDate.value])))
  {
  }

  /** The same schedule seen twice in a row announces nothing the second time. */
  lemma SecondPollQuiet(s: WorkerState, d: Delivery)
    requires d.message == GetNewExams
    ensures Step(s, d).Some?
    ensures Step(Step(s, d).value, d) == Step(s, d)
  {
    if d.schedule.Ok? {
      ObserveIdempotent(s.dedup, Nearest(d.schedule.value));
    }
  }

  /** The messages one after another, until a panic (`None`) ends the worker. */
  function Run(s: WorkerState, ds: seq<Delivery>): Option<WorkerState>
  {
    if ds == [] then Some(s)
    else
      match Run(s, ds[..|ds| - 1])
      case None => None
      case Some(t) => Step(t, ds[|ds| - 1])
  }

  /** Once the worker has panicked, later messages are never handled. */
  lemma {:induction false} PanicIsFinal(s: WorkerState, ds: seq<Delivery>, i: nat)
    requires i <= |ds|
    requires Run(s, ds[..i]).None?
    ensures Run(s, ds).None?
    decreases |ds|
  {
    if i < |ds| {
      assert ds[..|ds| - 1][..i] == ds[..i];
      PanicIsFinal(s, ds[..|ds| - 1], i);
    } else {
      assert ds[..i] == ds;
    }
  }

  /** However many messages are handled, the dedup memory stays consistent. */
  lemma {:induction false} RunKeepsDedupConsistent(s: WorkerState, ds: seq<Delivery>)
    requires Consistent(s.dedup)
    requires Run(s, ds).Some?
    ensures Consistent(Run(s, ds).value.dedup)
    decreases |ds|
  {
    if ds != [] {
      var t := Run(s, ds[..|ds| - 1]);
      RunKeepsDedupConsistent(s, ds[..|ds| - 1]);
      var d := ds[|ds| - 1];
      if d.message == GetNewExams && d.schedule.Ok? {
        ObservePreservesConsistent(t.value.dedup, Nearest(d.schedule.value));
      }
    }
  }

  datatype Outcome = LoginFailed(error: string) | WorkerPanicked | Waiting(state: WorkerState)

  /** Before the loop: the login (`?`), then the expiry `expect`, then the first report. */
  function Started(login: AuthOutcome): (r: Outcome)
    ensures login.AuthErr? <==> r.LoginFailed?
    ensures r.Waiting? ==> r.state.dedup == Initial() && login.expireDate.Some?
                           && r.state.toRefresher == [login.expireDate.value] && r.state.toBot == []
  {
    match login
    case AuthErr(e) => LoginFailed(e)
    case AuthOk(expire) =>
      if expire.None? then WorkerPanicked
      else Waiting(WorkerState(Initial(), expire, [expire.value], []))
  }

  /** The whole worker over a finite run of messages. */
  function Worker(login: AuthOutcome, ds: seq<Delivery>): (r: Outcome)
  {
    match Started(login)
    case Waiting(s) => (match Run(s, ds) case None => WorkerPanicked case Some(t) => Waiting(t))
    case other => other
  }

  /** The announcements of a running worker never repeat an id back to back. */
  lemma WorkerAnnouncesChangesOnly(login: AuthOutcome, ds: seq<Delivery>)
    requires Worker(login, ds).Waiting?
    ensures Consistent(Worker(login, ds).state.dedup)
  {
    InitialConsistent();
    RunKeepsDedupConsistent(Started(login).state, ds);
  }

  /** One message, handled as the loop body does it. */
  method Handle(s: WorkerState, d: Delivery) returns (r: Option<WorkerState>)
    ensures r == Step(s, d)
  {
    match d.message {
      case RefreshToken =>
        var expire := ExpireAfter(s.tokenExpireDate, d.refresh);
        if d.refresh.AuthErr? {
          expire := ExpireAfter(expire, d.login);
        }
        if expire.None? {
          return None;
        }
        return Some(s.(tokenExpireDate := expire, toRefresher := s.toRefresher + [expire.value]));
      case GetNewExams =>
        if d.schedule.Err? {
          return Some(s);
        }
        var first := ScheduleLoops.FindFirstNonEmptyPracticeExam(d.schedule.value);
        var dedup := s.dedup;
        if first.Some? && first.value[0].id != dedup.lastId {
          dedup := Dedup(first.value[0].id, dedup.announced + [first.value[0]]);
        }
        return Some(s.(dedup := dedup));
      case GetSchedule =>
        if d.schedule.Err? {
          return Some(s);
        }
        return Some(s.(toBot := s.toBot + [d.schedule.value]));
    }
  }

  /** `info_car_worker` over the messages it receives, stopping only at a panic. */
  method InfoCarWorker(login: AuthOutcome, ds: seq<Delivery>) returns (r: Outcome)
    ensures r == Worker(login, ds)
  {
    if login.AuthErr? {
      return LoginFailed(login.error);
    }
    if login.expireDate.None? {
      return WorkerPanicked;
    }
    var s := WorkerState(Initial(), login.expireDate, [login.expireDate.value], []);
    ghost var start := s;
    var i := 0;
    while i < |ds|
      invariant 0 <= i <= |ds|
      invariant Run(start, ds[..i]) == Some(s)
    {
      assert ds[..i + 1][..i] == ds[..i];
      var next := Handle(s, ds[i]);
      if next.None? {
        PanicIsFinal(start, ds, i + 1);
        return WorkerPanicked;
      }
      s := next.value;
      i := i + 1;
    }
    assert ds[..i] == ds;
    return Waiting(s);
  }
}
