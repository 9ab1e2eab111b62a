/**
 * The earliest polling worker (`info_car_worker` in src/main.rs). It handles refreshes
 * and new-exam polls exactly as the later src/service.rs worker does, has no bot channel,
 * and its `GetAvailableExams` branch is unimplemented: receiving it panics.
 */
module EarliestWorker {

  import opened Wrappers
  import opened Session
  import opened Schedule
  import opened ExamDedup
  import ServiceLoop

  datatype ClientMessage = GetAvailableExams | GetNewExams | RefreshToken

  datatype Delivery = Delivery(message: ClientMessage, refresh: AuthOutcome, login: AuthOutcome,
                               schedule: Result<ExamSchedule, string>)

  /** The same message for the later worker; only the two messages both revisions have. */
  function Later(d: Delivery): (r: ServiceLoop.Delivery)
    requires d.message != GetAvailableExams
    ensures r.message == (if d.message == GetNewExams then ServiceLoop.GetNewExams else ServiceLoop.RefreshToken)
    ensures r.refresh == d.refresh && r.login == d.login && r.schedule == d.schedule
  {
    var m := if d.message == GetNewExams then ServiceLoop.GetNewExams else ServiceLoop.RefreshToken;
    ServiceLoop.Delivery(m, d.refresh, d.login, d.schedule)
  }

  /** One message; `None` is a panic: the `todo!()` or the expiry `expect`. */
  function Step(s: ServiceLoop.WorkerState, d: Delivery): (r: Option<ServiceLoop.WorkerState>)
    ensures d.message == GetAvailableExams ==> r.None?
    ensures r.Some? ==> r.value.toBot == s.toBot
  {
    if d.message == GetAvailableExams then None else ServiceLoop.Step(s, Later(d))
  }

  function Run(s: ServiceLoop.WorkerState, ds: seq<Delivery>): Option<ServiceLoop.WorkerState>
  {
    if ds == [] then Some(s)
    else
      match Run(s, ds[..|ds| - 1])
      case None => None
      case Some(t) => Step(t, ds[|ds| - 1])
  }

  predicate Implemented(ds: seq<Delivery>)
  {
    forall i :: 0 <= i < |ds| ==> ds[i].message != GetAvailableExams
  }

  function LaterAll(ds: seq<Delivery>): (r: seq<ServiceLoop.Delivery>)
    requires Implemented(ds)
    ensures |r| == |ds|
    ensures forall i :: 0 <= i < |ds| ==> r[i] == Later(ds[i])
  {
    seq(|ds|, i requires 0 <= i < |ds| => Later(ds[i]))
  }

  /**
   * Without `GetAvailableExams`, the earliest worker goes through exactly the states the
   * src/service.rs worker goes through.
   */
  lemma {:induction false} AgreesWithServiceRevision(s: ServiceLoop.WorkerState, ds: seq<Delivery>)
    requires Implemented(ds)
    ensures Run(s, ds) == ServiceLoop.Run(s, LaterAll(ds))
    decreases |ds|
  {
    if ds != [] {
      var front := ds[..|ds| - 1];
      assert Implemented(front);
      assert LaterAll(ds)[..|ds| - 1] == LaterAll(front);
      AgreesWithServiceRevision(s, front);
    }
  }

  /** Receiving `GetAvailableExams` ends the worker, whatever came before. */
  lemma {:induction false} UnimplementedMessagePanics(s: ServiceLoop.WorkerState, ds: seq<Delivery>, i: nat)
    requires i < |ds| && ds[i].message == GetAvailableExams
    ensures Run(s, ds).None?
    decreases |ds|
  {
    if i + 1 < |ds| {
      assert ds[..|ds| - 1][i] == ds[i];
      UnimplementedMessagePanics(s, ds[..|ds| - 1], i);
    }
  }

  /** The whole worker over a finite run of messages; the start is the later worker's. */
  function Worker(login: AuthOutcome, ds: seq<Delivery>): ServiceLoop.Outcome
  {
    match ServiceLoop.Started(login)
    case Waiting(s) => (match Run(s, ds) case None => ServiceLoop.WorkerPanicked case Some(t) => ServiceLoop.Waiting(t))
    case other => other
  }

  /** `info_car_worker` over the messages it receives, stopping only at a panic. */
  method InfoCarWorker(login: AuthOutcome, ds: seq<Delivery>) returns (r: ServiceLoop.Outcome)
    ensures r == Worker(login, ds)
  {
    var started := ServiceLoop.Started(login);
    if !started.Waiting? {
      return started;
    }
    var s := started.state;
    var i := 0;
    while i < |ds|
      invariant 0 <= i <= |ds|
      invariant Run(started.state, ds[..i]) == Some(s)
    {
      assert ds[..i + 1][..i] == ds[..i];
      if ds[i].message == GetAvailableExams {
        UnimplementedMessagePanics(started.state, ds, i);
        return ServiceLoop.WorkerPanicked;
      }
      var next := ServiceLoop.Handle(s, Later(ds[i]));
      if next.None? {
        RunPanicIsFinal(started.state, ds, i + 1);
        return ServiceLoop.WorkerPanicked;
      }
      s := next.value;
      i := i + 1;
    }
    assert ds[..i] == ds;
    return started.(state := s);
  }

  lemma {:induction false} RunPanicIsFinal(s: ServiceLoop.WorkerState, ds: seq<Delivery>, i: nat)
    requires i <= |ds|
    requires Run(s, ds[..i]).None?
    ensures Run(s, ds).None?
    decreases |ds|
  {
    if i < |ds| {
      assert ds[..|ds| - 1][..i] == ds[..i];
      RunPanicIsFinal(s, ds[..|ds| - 1], i);
    } else {
      assert ds[..i] == ds;
    }
  }
}
