/**
 What every step of the supervisor keeps, whatever the interleaving: the shape of
 each service's state, the timing of restarts, and what a drain may rely on while
 it waits and while it stops services.
 */
module SupervisorInvariant {
  import opened Wrappers
  import opened SupervisorModel

  predicate StatusOk(sv: Service) {
    && (sv.ready <==> sv.status.Running?)
    && (sv.ready ==> sv.running)
    && (sv.status.Stopped? || sv.status.Starting? || sv.status.Restarting? ==> !sv.running)
  }

  ghost predicate DueBy(waits: seq<Wait>, t: nat) {
    forall j | 0 <= j < |waits| :: waits[j].due <= t
  }

  ghost predicate BadBy(bad: seq<nat>, t: nat) {
    forall k | 0 <= k < |bad| :: bad[k] <= t
  }

  ghost predicate AfterPrevious(waits: seq<Wait>, j: nat)
    requires 0 < j < |waits|
  {
    waits[j - 1].due <= waits[j].begun
  }

  /** Restarts since the last reset: the j-th waited its delay and its backoff, and
      each began only after the one before it had waited. */
  ghost predicate WaitsOk(c: Config, waits: seq<Wait>) {
    && (forall j | 0 <= j < |waits| ::
          waits[j].begun + c.restartDelay + Backoff(c, j) <= waits[j].due)
    && (forall j | 0 < j < |waits| :: AfterPrevious(waits, j))
  }

  ghost predicate RestartOk(c: Config, sv: Service, now: nat) {
    match sv.restarting
    case None => DueBy(sv.waits, now)
    case Some(AwaitStop) => DueBy(sv.waits, sv.restartBegun)
    case Some(AwaitDelay(until)) =>
      DueBy(sv.waits, sv.restartBegun) && sv.restartBegun + c.restartDelay <= until
    case Some(AwaitBackoff(until)) => DueBy(sv.waits, until)
    case Some(AwaitStarted(_)) => DueBy(sv.waits, now)
  }

  ghost predicate TimeOk(c: Config, sv: Service, now: nat) {
    && sv.healthySince <= now
    && sv.restartBegun <= now
    && BadBy(sv.bad, now)
    && (sv.healthySince != 0 ==> BadBy(sv.bad, sv.healthySince))
    && sv.level == |sv.waits|
    && WaitsOk(c, sv.waits)
    && RestartOk(c, sv, now)
  }

  /** The part of service i that a drain in progress relies on. */
  ghost predicate FlightOk(c: Config, sv: Service, i: nat, drain: Option<Drain>, polling: bool) {
    && (!polling ==> sv.polling.Idle?)
    && match drain
       case None => true
       case Some(AwaitPoll(_)) => true
       case Some(AwaitInFlight(starts, restarts)) =>
         && i < |starts| && i < |restarts|
         && (sv.starting.Some? ==> sv.startsDone < starts[i])
         && (sv.restarting.Some? ==> sv.restartsDone < restarts[i])
       case Some(AwaitStops(position, _)) =>
         && !InFlight(sv)
         && position < |DrainOrder(c)|
         && (i in DrainOrder(c)[..position] ==> !sv.ready && !sv.running && sv.failures == 0)
  }

  ghost predicate ServiceOk(c: Config, sv: Service, i: nat, now: nat, drain: Option<Drain>, polling: bool) {
    StatusOk(sv) && TimeOk(c, sv, now) && FlightOk(c, sv, i, drain, polling)
  }

  /** What a drain loop does: stop a service, wait for it, go on to the next. */
  function DrainTrace(order: seq<nat>): seq<DrainEvent> {
    if order == [] then []
    else
      var last := order[|order| - 1];
      DrainTrace(order[..|order| - 1]) + [Began(last), Settled(last)]
  }

  ghost predicate DrainOk(c: Config, s: System) {
    match s.drain
    case None => !s.draining
    case Some(AwaitPoll(ticket)) => s.draining && (s.polling ==> s.pollsDone == ticket)
    case Some(AwaitInFlight(starts, restarts)) =>
      s.draining && !s.polling && |starts| == |restarts| == |s.services|
    case Some(AwaitStops(position, log)) =>
      && s.draining && !s.polling
      && position < |DrainOrder(c)|
      && log == DrainTrace(DrainOrder(c)[..position]) + [Began(DrainOrder(c)[position])]
  }

  ghost predicate Inv(c: Config, s: System) {
    && ValidConfig(c)
    && |s.services| == |c.phases|
    && s.now >= 1
    && DrainOk(c, s)
    && (forall k | 0 <= k < |s.drained| :: s.drained[k] == DrainTrace(DrainOrder(c)))
    && (forall i | 0 <= i < |s.services| :: ServiceOk(c, s.services[i], i, s.now, s.drain, s.polling))
  }

  lemma InitOk(c: Config)
    requires ValidConfig(c)
    ensures Inv(c, Init(c))
  {
  }

  // ---------- Steps of one service ----------

  lemma BeginStartOk(c: Config, sv: Service, i: nat, now: nat, polling: bool)
    requires ServiceOk(c, sv, i, now, None, polling)
    ensures ServiceOk(c, BeginStart(sv), i, now, None, polling)
  {
  }

  lemma StartSettledOk(
      c: Config, sv: Service, i: nat, hasReady: bool, ok: bool, now: nat, drain: Option<Drain>, polling: bool)
    requires ServiceOk(c, sv, i, now, drain, polling) && sv.starting.Some?
    ensures ServiceOk(c, StartSettled(sv, hasReady, ok, now), i, now, drain, polling)
  {
  }

  lemma BeginRestartOk(c: Config, sv: Service, i: nat, now: nat, polling: bool)
    requires ServiceOk(c, sv, i, now, None, polling) && now >= 1
    ensures ServiceOk(c, BeginRestart(sv, now), i, now, None, polling)
  {
  }

  lemma LaunchRestartOk(c: Config, sv: Service, i: nat, now: nat, drain: Option<Drain>, polling: bool)
    requires ServiceOk(c, sv, i, now, drain, polling)
    requires sv.restarting.Some? && sv.restarting.value.AwaitBackoff? && sv.restarting.value.until <= now
    ensures ServiceOk(c, LaunchRestart(sv, drain.Some?), i, now, drain, polling)
  {
  }

  lemma WaitAdded(c: Config, waits: seq<Wait>, begun: nat, due: nat)
    requires WaitsOk(c, waits) && DueBy(waits, begun)
    requires begun + c.restartDelay + Backoff(c, |waits|) <= due
    ensures WaitsOk(c, waits + [Wait(begun, due)])
    ensures DueBy(waits + [Wait(begun, due)], due)
  {
    var waits' := waits + [Wait(begun, due)];
    forall j | 0 <= j < |waits'|
      ensures waits'[j].begun + c.restartDelay + Backoff(c, j) <= waits'[j].due <= due
    {
      if j < |waits| { assert waits'[j] == waits[j]; }
    }
    forall j | 0 < j < |waits'| ensures AfterPrevious(waits', j) {
      if j < |waits| { assert AfterPrevious(waits, j); }
    }
  }

  lemma BackedOffOk(c: Config, sv: Service, now: nat, due: nat)
    requires TimeOk(c, sv, now) && sv.restarting.Some?
    requires DueBy(sv.waits, sv.restartBegun)
    requires sv.restartBegun + c.restartDelay + Backoff(c, sv.level) <= due
    ensures TimeOk(c, BackedOff(sv, due), now)
  {
    WaitAdded(c, sv.waits, sv.restartBegun, due);
  }

  lemma BackedOffFlight(c: Config, sv: Service, i: nat, due: nat, drain: Option<Drain>, polling: bool)
    requires StatusOk(sv) && FlightOk(c, sv, i, drain, polling) && sv.restarting.Some?
    ensures StatusOk(BackedOff(sv, due)) && FlightOk(c, BackedOff(sv, due), i, drain, polling)
  {
  }

  lemma WaitingOk(c: Config, sv: Service, i: nat, now: nat, due: nat, drain: Option<Drain>, polling: bool)
    requires ServiceOk(c, sv, i, now, drain, polling) && sv.restarting.Some?
    requires DueBy(sv.waits, sv.restartBegun)
    requires sv.restartBegun + c.restartDelay + Backoff(c, sv.level) <= due
    ensures ServiceOk(c, BackedOff(sv, due), i, now, drain, polling)
  {
    BackedOffOk(c, sv, now, due);
    BackedOffFlight(c, sv, i, due, drain, polling);
  }

  lemma BackOffCases(c: Config, sv: Service, draining: bool, now: nat)
    ensures var due := now + Backoff(c, sv.level);
      BackOff(c, sv, draining, now) ==
        if due > now then BackedOff(sv, due) else LaunchRestart(BackedOff(sv, now), draining)
  {
  }

  lemma BackOffOk(c: Config, sv: Service, i: nat, now: nat, drain: Option<Drain>, polling: bool)
    requires ServiceOk(c, sv, i, now, drain, polling) && sv.restarting.Some?
    requires DueBy(sv.waits, sv.restartBegun) && sv.restartBegun + c.restartDelay <= now
    ensures ServiceOk(c, BackOff(c, sv, drain.Some?, now), i, now, drain, polling)
  {
    var due := now + Backoff(c, sv.level);
    WaitingOk(c, sv, i, now, due, drain, polling);
    BackOffCases(c, sv, drain.Some?, now);
    if due == now { LaunchRestartOk(c, BackedOff(sv, now), i, now, drain, polling); }
  }

  lemma RestartSettledOk(c: Config, sv: Service, i: nat, now: nat, drain: Option<Drain>, polling: bool)
    requires ServiceOk(c, sv, i, now, drain, polling) && RestartMayProceed(sv, now)
    ensures ServiceOk(c, RestartSettled(c, sv, drain.Some?, now), i, now, drain, polling)
  {
    match sv.restarting.value {
      case AwaitStop =>
        if c.restartDelay == 0 { BackOffOk(c, sv, i, now, drain, polling); }
      case AwaitDelay(_) => BackOffOk(c, sv, i, now, drain, polling);
      case AwaitBackoff(_) => LaunchRestartOk(c, sv, i, now, drain, polling);
      case AwaitStarted(_) =>
    }
  }

  lemma PollRestartOk(c: Config, sv: Service, i: nat, now: nat, drain: Option<Drain>)
    requires ServiceOk(c, sv, i, now, drain, true) && now >= 1
    ensures ServiceOk(c, PollRestart(sv, drain.Some?, now), i, now, drain, true)
  {
    if drain.None? { BeginRestartOk(c, sv, i, now, true); }
  }

  lemma UnhealthyOk(c: Config, sv: Service, i: nat, now: nat, drain: Option<Drain>)
    requires ServiceOk(c, sv, i, now, drain, true) && now >= 1
    requires drain.Some? ==> !drain.value.AwaitStops?
    ensures ServiceOk(c, Unhealthy(c, sv, drain.Some?, now), i, now, drain, true)
  {
    var sick := sv.(status := Degraded, ready := false, failures := sv.failures + 1,
                    healthySince := 0, bad := sv.bad + [now], polling := Idle);
    assert ServiceOk(c, sick, i, now, drain, true);
    PollRestartOk(c, sick, i, now, drain);
  }

  lemma HealthyOk(c: Config, sv: Service, i: nat, hasReady: bool, now: nat, drain: Option<Drain>)
    requires ServiceOk(c, sv, i, now, drain, true) && now >= 1
    requires drain.Some? ==> !drain.value.AwaitStops?
    ensures ServiceOk(c, Healthy(c, sv, hasReady, now), i, now, drain, true)
  {
  }

  lemma PollSettledOk(c: Config, sv: Service, i: nat, hasReady: bool, ok: bool, now: nat, drain: Option<Drain>)
    requires ServiceOk(c, sv, i, now, drain, true) && PollMayProceed(sv) && now >= 1
    requires drain.Some? ==> !drain.value.AwaitStops?
    ensures ServiceOk(c, PollSettled(c, sv, hasReady, ok, drain.Some?, now), i, now, drain, true)
  {
    if sv.polling.AwaitVerdict? {
      if ok { HealthyOk(c, sv, i, hasReady, now, drain); } else { UnhealthyOk(c, sv, i, now, drain); }
    }
  }

  lemma LaterOk(c: Config, sv: Service, i: nat, now: nat, later: nat, drain: Option<Drain>, polling: bool)
    requires ServiceOk(c, sv, i, now, drain, polling) && now <= later
    ensures ServiceOk(c, sv, i, later, drain, polling)
  {
  }

  // ---------- Steps of the system ----------

  lemma PutOk(c: Config, s: System, i: nat, sv: Service)
    requires Inv(c, s) && i < |s.services|
    requires ServiceOk(c, sv, i, s.now, s.drain, s.polling)
    ensures Inv(c, Put(s, i, sv))
  {
  }

  lemma PollBegunOk(c: Config, s: System)
    requires Inv(c, s)
    ensures Inv(c, PollBegun(s))
  {
    if !s.draining && !s.polling {
      forall i | 0 <= i < |s.services|
        ensures ServiceOk(c, BeginPoll(s.services[i], false, s.now), i, s.now, None, true)
      {
        var sv := s.services[i];
        assert ServiceOk(c, sv, i, s.now, None, true);
        if !sv.running { PollRestartOk(c, sv, i, s.now, None); }
      }
    }
  }

  lemma StopSteppedOk(c: Config, s: System, k: nat)
    requires Inv(c, s) && StopMayProceed(s, k)
    ensures Inv(c, StopStepped(s, k))
  {
    var i := s.stops[k].service;
    var sv := s.services[i];
    PutOk(c, s, i, EnterStop(sv));
    PutOk(c, s, i, FinishStop(sv));
  }

  lemma LaunchPhaseOk(c: Config, s: System, k: nat, position: nat, since: seq<nat>)
    requires Inv(c, s) && k < |s.boots|
    ensures Inv(c, LaunchPhase(c, s, k, position, since))
  {
    if !s.draining {
      forall i | 0 <= i < |s.services|
        ensures ServiceOk(c, BeginStart(s.services[i]), i, s.now, None, s.polling)
      {
        BeginStartOk(c, s.services[i], i, s.now, s.polling);
      }
    }
  }

  lemma DrainStopBeginOk(c: Config, s: System, position: nat, log: seq<DrainEvent>)
    requires ValidConfig(c) && |s.services| == |c.phases| && s.now >= 1
    requires s.draining && !s.polling
    requires forall k | 0 <= k < |s.drained| :: s.drained[k] == DrainTrace(DrainOrder(c))
    requires position < |DrainOrder(c)| && log == DrainTrace(DrainOrder(c)[..position])
    requires forall i | 0 <= i < |s.services| ::
      ServiceOk(c, s.services[i], i, s.now, Some(AwaitStops(position, [])), false)
    ensures Inv(c, DrainStopBegin(c, s, position, log))
  {
  }

  lemma DrainCollectOk(c: Config, s: System)
    requires ValidConfig(c) && |s.services| == |c.phases| && s.now >= 1
    requires s.draining && !s.polling
    requires forall k | 0 <= k < |s.drained| :: s.drained[k] == DrainTrace(DrainOrder(c))
    requires forall i | 0 <= i < |s.services| :: ServiceOk(c, s.services[i], i, s.now, None, false)
    ensures Inv(c, DrainCollect(c, s))
  {
    if !exists i :: 0 <= i < |s.services| && InFlight(s.services[i]) {
      DrainStopBeginOk(c, s, 0, []);
    }
  }

  lemma DrainSteppedOk(c: Config, s: System)
    requires Inv(c, s) && DrainMayProceed(c, s)
    ensures Inv(c, DrainStepped(c, s))
  {
    match s.drain.value {
      case AwaitPoll(_) => DrainCollectOk(c, s);
      case AwaitInFlight(_, _) => DrainStopBeginOk(c, s, 0, []);
      case AwaitStops(position, log) => DrainStoppedOk(c, s);
    }
  }

  /** Stopping the service at `position` makes it one of those already stopped. */
  lemma StoppedOk(c: Config, s: System, position: nat, log: seq<DrainEvent>, j: nat)
    requires Inv(c, s) && s.drain == Some(AwaitStops(position, log)) && j < |s.services|
    requires position + 1 < |DrainOrder(c)|
    ensures var i := DrainOrder(c)[position];
      ServiceOk(c, Put(s, i, FinishStop(s.services[i])).services[j], j, s.now,
                Some(AwaitStops(position + 1, [])), false)
  {
    var order := DrainOrder(c);
    assert ServiceOk(c, s.services[j], j, s.now, s.drain, s.polling);
    assert order[..position + 1] == order[..position] + [order[position]];
  }

  lemma TraceGrows(order: seq<nat>, position: nat)
    requires position < |order|
    ensures DrainTrace(order[..position + 1]) ==
            DrainTrace(order[..position]) + [Began(order[position])] + [Settled(order[position])]
  {
    assert order[..position + 1][..position] == order[..position];
  }

  lemma DrainStoppedOk(c: Config, s: System)
    requires Inv(c, s) && DrainMayProceed(c, s) && s.drain.value.AwaitStops?
    ensures Inv(c, DrainStepped(c, s))
  {
    var order := DrainOrder(c);
    var position := s.drain.value.position;
    var i := order[position];
    var s' := Put(s, i, FinishStop(s.services[i]));
    TraceGrows(order, position);
    if position + 1 < |order| {
      forall j | 0 <= j < |s'.services|
        ensures ServiceOk(c, s'.services[j], j, s'.now, Some(AwaitStops(position + 1, [])), false)
      {
        StoppedOk(c, s, position, s.drain.value.log, j);
      }
      DrainStopBeginOk(c, s', position + 1, s.drain.value.log + [Settled(i)]);
    } else {
      assert order[..position + 1] == order;
    }
  }

  lemma ServiceStepOk(c: Config, s: System, l: Label)
    requires Inv(c, s) && Enabled(c, s, l)
    requires l.CallStart? || l.StartStep? || l.CallRestart? || l.RestartStep? || l.PollStep?
    ensures Inv(c, Apply(c, s, l))
  {
    var i := l.i;
    var sv := s.services[i];
    match l {
      case CallStart(_) =>
        if !s.draining {
          BeginStartOk(c, sv, i, s.now, s.polling);
          PutOk(c, s, i, BeginStart(sv));
        }
      case StartStep(_, ok) =>
        StartSettledOk(c, sv, i, c.hasReady[i], ok, s.now, s.drain, s.polling);
        PutOk(c, s, i, StartSettled(sv, c.hasReady[i], ok, s.now));
      case CallRestart(_) =>
        if !s.draining {
          BeginRestartOk(c, sv, i, s.now, s.polling);
          PutOk(c, s, i, BeginRestart(sv, s.now));
        }
      case RestartStep(_) =>
        RestartSettledOk(c, sv, i, s.now, s.drain, s.polling);
        PutOk(c, s, i, RestartSettled(c, sv, s.draining, s.now));
      case PollStep(_, ok) =>
        PollSettledOk(c, sv, i, c.hasReady[i], ok, s.now, s.drain);
        PutOk(c, s, i, PollSettled(c, sv, c.hasReady[i], ok, s.draining, s.now));
    }
  }

  lemma TickOk(c: Config, s: System, ms: nat)
    requires Inv(c, s)
    ensures Inv(c, s.(now := s.now + ms))
  {
    forall i | 0 <= i < |s.services|
      ensures ServiceOk(c, s.services[i], i, s.now + ms, s.drain, s.polling)
    {
      LaterOk(c, s.services[i], i, s.now, s.now + ms, s.drain, s.polling);
    }
  }

  lemma CallStopOk(c: Config, s: System, i: nat)
    requires Inv(c, s) && i < |s.services| && Enabled(c, s, CallStop(i))
    ensures Inv(c, Apply(c, s, CallStop(i)))
  {
    PutOk(c, s, i, EnterStop(s.services[i]));
  }

  lemma PollDoneOk(c: Config, s: System)
    requires Inv(c, s) && Enabled(c, s, PollDone)
    ensures Inv(c, Apply(c, s, PollDone))
  {
  }

  lemma BootSteppedOk(c: Config, s: System, k: nat)
    requires Inv(c, s) && BootMayProceed(s, k)
    ensures Inv(c, BootStepped(c, s, k))
  {
    match s.boots[k] {
      case BootPending => LaunchPhaseOk(c, s.(draining := false), k, 0, StartsSettled(s));
      case BootPhase(position, _, since) => LaunchPhaseOk(c, s, k, position + 1, since);
    }
  }

  lemma DrainBegunOk(c: Config, s: System)
    requires Inv(c, s)
    ensures Inv(c, DrainBegun(c, s))
  {
    if s.drain.None? && !s.polling { DrainCollectOk(c, s.(draining := true)); }
  }

  lemma StepOk(c: Config, s: System, l: Label)
    requires Inv(c, s) && Enabled(c, s, l)
    ensures Inv(c, Apply(c, s, l))
  {
    match l {
      case Tick(ms) => TickOk(c, s, ms);
      case CallStart(_) => ServiceStepOk(c, s, l);
      case StartStep(_, _) => ServiceStepOk(c, s, l);
      case CallRestart(_) => ServiceStepOk(c, s, l);
      case RestartStep(_) => ServiceStepOk(c, s, l);
      case CallPoll => PollBegunOk(c, s);
      case PollStep(_, _) => ServiceStepOk(c, s, l);
      case PollDone => PollDoneOk(c, s);
      case CallStop(i) => CallStopOk(c, s, i);
      case StopStep(k) => StopSteppedOk(c, s, k);
      case CallStartAll =>
      case BootStep(k) => BootSteppedOk(c, s, k);
      case CallDrain => DrainBegunOk(c, s);
      case DrainStep => DrainSteppedOk(c, s);
    }
  }

  /** Every state of every run satisfies the invariant. */
  lemma {:induction false} RunOk(c: Config, run: seq<System>, k: nat)
    requires ValidConfig(c) && IsRun(c, run) && k < |run|
    ensures Inv(c, run[k])
  {
    if k == 0 {
      InitOk(c);
    } else {
      RunOk(c, run, k - 1);
      assert StepAt(c, run, k - 1);
      var l :| Enabled(c, run[k - 1], l) && run[k] == Apply(c, run[k - 1], l);
      StepOk(c, run[k - 1], l);
    }
  }
}
