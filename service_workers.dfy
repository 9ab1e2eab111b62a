/**
 * The service object of src/service/workers.rs. `InfoCarService` owns the client, the
 * id of the last announced exam and the channels to the refresh timer and to the bot;
 * `handle_message` handles one message and reports an error instead of logging it,
 * and `start` logs in and then handles messages forever, printing each error and going on.
 * The portal's answers are parameters, one set per message.
 */
module ServiceWorkers {

  import opened Wrappers
  import opened Session
  import opened Schedule
  import opened ExamDedup

  datatype ClientMessage = GetSchedule | GetNewExams | RefreshToken | GetReservations

  /** A reservation listing; the bot receives it unchanged, so its fields are not modelled. */
  datatype ReservationList = ReservationList(reservationIds: seq<string>)

  datatype BotMessage = SendSchedule(exams: Option<seq<Exam>>) | SendReservations(reservations: Option<ReservationList>)

  datatype ServiceError = ClientLoginError(loginError: string) | GenericClientError(clientError: string) | NoExamsError

  datatype Handled = Done | Failed(error: ServiceError) | Panicked

  /** A message together with the answers to the calls its branch makes. */
  datatype Delivery = Delivery(message: ClientMessage, refresh: AuthOutcome, login: AuthOutcome,
                               schedule: Result<ExamSchedule, string>,
                               reservations: Result<ReservationList, string>)

  /** The service's state: dedup memory, the client's token expiry, and what it has sent. */
  datatype ServiceState = ServiceState(dedup: Dedup, tokenExpireDate: Option<int>,
                                       toRefresher: seq<int>, toBot: seq<BotMessage>)

  datatype Transition = Transition(handled: Handled, state: ServiceState)

  /** How many exams `GetSchedule` asks for. */
  const ScheduleLength: nat := 5

  /** `handle_message` on one message. */
  function Step(s: ServiceState, d: Delivery): (r: Transition)
    ensures r.handled.Failed? ==> r.state == s
    ensures r.handled.Done? && d.message != RefreshToken ==>
              r.state.tokenExpireDate == s.tokenExpireDate && r.state.toRefresher == s.toRefresher
    ensures r.handled.Done? && d.message != GetNewExams ==> r.state.dedup == s.dedup
    ensures r.handled.Panicked? ==> d.message == RefreshToken
  {
    match d.message
    case RefreshToken =>
      if d.refresh.AuthErr? && d.login.AuthErr? then
        Transition(Failed(ClientLoginError(d.login.error)), s)
      else
        var expire := if d.refresh.AuthOk? then d.refresh.expireDate else d.login.expireDate;
        if expire.None? then Transition(Panicked, s.(tokenExpireDate := expire))
        else Transition(Done, s.(tokenExpireDate := expire, toRefresher := s.toRefresher + [expire.value]))
    case GetNewExams =>
      if d.schedule.Err? then Transition(Failed(GenericClientError(d.schedule.error)), s)
      else
        (match FindNPracticeExams(d.schedule.value, 1)
         case None => Transition(Failed(NoExamsError), s)
         case Some(closest) =>
           Transition(Done, s.(dedup := Observe(s.dedup, Some(closest[|closest| - 1])))))
    case GetSchedule =>
      if d.schedule.Err? then Transition(Failed(GenericClientError(d.schedule.error)), s)
      else Transition(Done, s.(toBot := s.toBot + [SendSchedule(FindNPracticeExams(d.schedule.value, ScheduleLength))]))
    case GetReservations =>
      if d.reservations.Err? then Transition(Failed(GenericClientError(d.reservations.error)), s)
      else Transition(Done, s.(toBot := s.toBot + [SendReservations(Some(d.reservations.value))]))
  }

  /** Asking for one exam and popping it gives the schedule's nearest exam. */
  lemma PopOfOneIsNearest(s: ExamSchedule)
    requires FindNPracticeExams(s, 1).Some?
    ensures var v := FindNPracticeExams(s, 1).value; Some(v[|v| - 1]) == Nearest(s)
  {
    var v := FindNPracticeExams(s, 1).value;
    assert v == AllPracticeExams(s)[..1];
  }

  /** No practice exam in the window: `NoExamsError`, and the remembered id is kept. */
  lemma NoExamsLeavesIdUnchanged(s: ServiceState, d: Delivery)
    requires d.message == GetNewExams && d.schedule.Ok? && AllPracticeExams(d.schedule.value) == []
    ensures Step(s, d) == Transition(Failed(NoExamsError), s)
  {
  }

  /**
   * With an exam in the window, the remembered id becomes the nearest exam's id, and the
   * exam is announced exactly when that id differs from the remembered one.
   */
  lemma NearestExamAnnouncedOnChange(s: ServiceState, d: Delivery)
    requires d.message == GetNewExams && d.schedule.Ok? && AllPracticeExams(d.schedule.value) != []
    ensures var t := Step(s, d);
            var nearest := AllPracticeExams(d.schedule.value)[0];
            t.handled == Done && t.state.dedup.lastId == nearest.id
            && (t.state.dedup.announced == s.dedup.announced + [nearest] <==> nearest.id != s.dedup.lastId)
            && (t.state.dedup.announced == s.dedup.announced <==> nearest.id == s.dedup.lastId)
  {
    PopOfOneIsNearest(d.schedule.value);
  }

  /** The same schedule polled twice in a row: the second poll changes nothing. */
  lemma SecondPollQuiet(s: ServiceState, d: Delivery)
    requires d.message == GetNewExams
    ensures Step(Step(s, d).state, d) == Step(s, d).(state := Step(s, d).state)
    ensures Step(s, d).handled.Done? ==> Step(Step(s, d).state, d).state == Step(s, d).state
  {
    if d.schedule.Ok? && AllPracticeExams(d.schedule.value) != [] {
      PopOfOneIsNearest(d.schedule.value);
      ObserveIdempotent(s.dedup, Nearest(d.schedule.value));
    }
  }

  /**
   * A failed refresh falls back to a login; if that fails too, its error is returned
   * and nothing is sent to the refresh timer.
   */
  lemma RefreshFallsBackToLogin(s: ServiceState, d: Delivery)
    requires d.message == RefreshToken && d.refresh.AuthErr?
    ensures d.login.AuthErr? ==> Step(s, d) == Transition(Failed(ClientLoginError(d.login.error)), s)
    ensures d.login.AuthOk? && d.login.expireDate.Some? ==>
              Step(s, d).handled == Done && Step(s, d).state.toRefresher == s.toRefresher + [d.login.expireDate.value]
  {
  }

  /** `GetSchedule` sends at most five exams, the first ones of the schedule, or none. */
  lemma ScheduleAtMostFive(s: ServiceState, d: Delivery)
    requires d.message == GetSchedule && d.schedule.Ok?
    ensures |Step(s, d).state.toBot| == |s.toBot| + 1
    ensures Step(s, d).state.toBot[|s.toBot|].SendSchedule?
    ensures var exams := Step(s, d).state.toBot[|s.toBot|].exams;
            (exams.None? <==> AllPracticeExams(d.schedule.value) == [])
            && (exams.Some? ==>
                  1 <= |exams.value| <= 5 && exams.value == AllPracticeExams(d.schedule.value)[..|exams.value|])
  {
  }

  /** What `start`'s loop has done after some messages: the errors it printed, or a panic. */
  datatype Progress = Progress(state: ServiceState, printed: seq<ServiceError>, panicked: bool)

  function Run(s: ServiceState, ds: seq<Delivery>): (r: Progress)
    ensures |r.printed| <= |ds|
  {
    if ds == [] then Progress(s, [], false)
    else
      var before := Run(s, ds[..|ds| - 1]);
      if before.panicked then before
      else
        var t := Step(before.state, ds[|ds| - 1]);
        match t.handled
        case Panicked => Progress(t.state, before.printed, true)
        case Failed(e) => Progress(t.state, before.printed + [e], false)
        case Done => Progress(t.state, before.printed, false)
  }

  /** Only the expiry `expect` of a refresh can stop the loop: errors are printed and skipped. */
  lemma {:induction false} OnlyRefreshCanStop(s: ServiceState, ds: seq<Delivery>)
    requires forall i :: 0 <= i < |ds| ==> ds[i].message != RefreshToken
    ensures !Run(s, ds).panicked
    ensures Run(s, ds).state.tokenExpireDate == s.tokenExpireDate
    decreases |ds|
  {
    if ds != [] {
      OnlyRefreshCanStop(s, ds[..|ds| - 1]);
    }
  }

  /** However many messages are handled, the dedup memory stays consistent. */
  lemma {:induction false} RunKeepsDedupConsistent(s: ServiceState, ds: seq<Delivery>)
    requires Consistent(s.dedup)
    ensures Consistent(Run(s, ds).state.dedup)
    decreases |ds|
  {
    if ds != [] {
      var before := Run(s, ds[..|ds| - 1]);
      RunKeepsDedupConsistent(s, ds[..|ds| - 1]);
      if !before.panicked {
        var d := ds[|ds| - 1];
        if d.message == GetNewExams && d.schedule.Ok? {
          var found := FindNPracticeExams(d.schedule.value, 1);
          if found.Some? {
            ObservePreservesConsistent(before.state.dedup, Some(found.value[|found.value| - 1]));
          }
        }
      }
    }
  }

  datatype StartOutcome = StartLoginError(error: string) | StartPanicked | Running(printed: seq<ServiceError>)

  class InfoCarService {

    var lastExamId: string
    var announced: seq<Exam>
    var tokenExpireDate: Option<int>
    var toRefresher: seq<int>
    var toBot: seq<BotMessage>

    function State(): ServiceState
      reads this
    {
      ServiceState(Dedup(lastExamId, announced), tokenExpireDate, toRefresher, toBot)
    }

    /** `new`: a fresh client without a token, no exam remembered, nothing sent. */
    constructor()
      ensures lastExamId == "" && announced == []
      ensures tokenExpireDate.None? && toRefresher == [] && toBot == []
    {
      lastExamId := "";
      announced := [];
      tokenExpireDate := None;
      toRefresher := [];
      toBot := [];
    }

    method HandleMessage(d: Delivery) returns (h: Handled)
      modifies this
      ensures Step(old(State()), d) == Transition(h, State())
    {
      match d.message {
        case RefreshToken =>
          if d.refresh.AuthErr? {
            if d.login.AuthErr? {
              return Failed(ClientLoginError(d.login.error));
            }
            tokenExpireDate := d.login.expireDate;
          } else {
            tokenExpireDate := d.refresh.expireDate;
          }
          if tokenExpireDate.None? {
            return Panicked;
          }
          toRefresher := toRefresher + [tokenExpireDate.value];
        case GetNewExams =>
          if d.schedule.Err? {
            return Failed(GenericClientError(d.schedule.error));
          }
          var found := FindNPracticeExams(d.schedule.value, 1);
          if found.None? {
            return Failed(NoExamsError);
          }
          var closest := found.value[|found.value| - 1];
          if closest.id == lastExamId {
            return Done;
          }
          lastExamId := closest.id;
          announced := announced + [closest];
        case GetSchedule =>
          if d.schedule.Err? {
            return Failed(GenericClientError(d.schedule.error));
          }
          toBot := toBot + [SendSchedule(FindNPracticeExams(d.schedule.value, ScheduleLength))];
        case GetReservations =>
          if d.reservations.Err? {
            return Failed(GenericClientError(d.reservations.error));
          }
          toBot := toBot + [SendReservations(Some(d.reservations.value))];
      }
      return Done;
    }

    /**
     * `start`: log in (an error is returned), report the expiry (`expect` panics when
     * there is none), then handle every message, printing errors, until a panic.
     */
    method Start(login: AuthOutcome, ds: seq<Delivery>) returns (r: StartOutcome)
      modifies this
      ensures login.AuthErr? ==> r == StartLoginError(login.error) && State() == old(State())
      ensures login.AuthOk? && login.expireDate.None? ==> r == StartPanicked
      ensures login.AuthOk? && login.expireDate.Some? ==>
                var run := Run(old(State()).(tokenExpireDate := login.expireDate,
                                             toRefresher := old(State()).toRefresher + [login.expireDate.value]), ds);
                State() == run.state && r == (if run.panicked then StartPanicked else Running(run.printed))
    {
      if login.AuthErr? {
        return StartLoginError(login.error);
      }
      tokenExpireDate := login.expireDate;
      if tokenExpireDate.None? {
        return StartPanicked;
      }
      toRefresher := toRefresher + [tokenExpireDate.value];
      ghost var start := State();
      var printed := [];
      var i := 0;
      while i < |ds|
        invariant 0 <= i <= |ds|
        invariant Run(start, ds[..i]) == Progress(State(), printed, false)
      {
        assert ds[..i + 1][..i] == ds[..i];
        var h := HandleMessage(ds[i]);
        if h.Panicked? {
          RunPanicIsFinal(start, ds, i + 1);
          return StartPanicked;
        }
        if h.Failed? {
          printed := printed + [h.error];
        }
        i := i + 1;
      }
      assert ds[..i] == ds;
      return Running(printed);
    }
  }

  /** Once the loop has panicked, the rest of the messages change nothing. */
  lemma {:induction false} RunPanicIsFinal(s: ServiceState, ds: seq<Delivery>, i: nat)
    requires i <= |ds|
    requires Run(s, ds[..i]).panicked
    ensures Run(s, ds) == Run(s, ds[..i])
    decreases |ds|
  {
    if i < |ds| {
      assert ds[..|ds| - 1][..i] == ds[..i];
      RunPanicIsFinal(s, ds[..|ds| - 1], i);
    } else {
      assert ds[..i] == ds;
    }
  }

  /** An error a message's handler returns is printed, and the loop goes on to the next message. */
  lemma RunPrintsEachError(s: ServiceState, ds: seq<Delivery>, d: Delivery, e: ServiceError)
    requires !Run(s, ds).panicked
    requires Step(Run(s, ds).state, d).handled == Failed(e)
    ensures !Run(s, ds + [d]).panicked
    ensures Run(s, ds + [d]).printed == Run(s, ds).printed + [e]
    ensures Run(s, ds + [d]).state == Step(Run(s, ds).state, d).state
  {
    assert (ds + [d])[..|ds + [d]| - 1] == ds;
  }

  /** What has been printed stays printed: later messages only add to the output. */
  lemma {:induction false} PrintedOnlyGrows(s: ServiceState, ds: seq<Delivery>, more: seq<Delivery>)
    ensures Run(s, ds).printed <= Run(s, ds + more).printed
    decreases |more|
  {
    if more == [] {
      assert ds + more == ds;
    } else {
      var shorter := more[..|more| - 1];
      assert (ds + more)[..|ds + more| - 1] == ds + shorter;
      PrintedOnlyGrows(s, ds, shorter);
    }
  }
}
