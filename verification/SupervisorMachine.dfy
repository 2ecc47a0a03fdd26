/**
 The supervisor as an object whose fields each stretch of code between two awaits
 updates in place.  Every method is one step of the machine, so whatever order
 they are called in, the object stays in a reachable state.
 */
module SupervisorMachine {
  import opened Wrappers
  import opened SupervisorModel
  import opened SupervisorTheorems

  class ServiceSupervisor {
    const config: Config
    var services: seq<Service>
    var draining: bool
    var drain: Option<Drain>
    var polling: bool
    var pollsDone: nat
    var stops: seq<StopCall>
    var boots: seq<Boot>
    var now: nat
    var drained: seq<seq<DrainEvent>>

    ghost function State(): System
      reads this
    {
      System(services, draining, drain, polling, pollsDone, stops, boots, now, drained)
    }

    ghost predicate Valid()
      reads this
    {
      ValidConfig(config) && Reachable(config, State())
    }

    ghost predicate May(l: Label)
      reads this
    {
      Valid() && Enabled(config, State(), l)
    }

    constructor (config: Config)
      requires ValidConfig(config)
      ensures Valid() && this.config == config && State() == Init(config)
    {
      this.config := config;
      services := seq(|config.phases|, _ => FRESH);
      draining, drain, polling, pollsDone := false, None, false, 0;
      stops, boots, now, drained := [], [], 1, [];
      new;
      InitReachable(config);
    }

    method Set(i: nat, sv: Service)
      requires i < |services|
      modifies this`services
      ensures State() == Put(old(State()), i, sv)
    {
      services := services[i := sv];
    }

    method Transition(i: nat, status: Status, running: bool, ready: bool)
      requires i < |services|
      modifies this`services
      ensures State() == Put(old(State()), i, old(services)[i].(status := status, running := running, ready := ready))
    {
      services := services[i := services[i].(status := status, running := running, ready := ready)];
    }

    method Advance(ms: nat)
      requires May(Tick(ms))
      modifies this
      ensures Valid() && State() == Apply(config, old(State()), Tick(ms))
    {
      now := now + ms;
      StepReachable(config, old(State()), Tick(ms));
    }

    // ---------- start ----------

    /** Up to the first await of a start, unless one is already in flight. */
    method LaunchStart(i: nat)
      requires i < |services|
      modifies this`services
      ensures State() == Put(old(State()), i, BeginStart(old(services)[i]))
    {
      if services[i].starting.Some? {
        assert services[i := services[i]] == services;
        return;
      }
      Transition(i, Starting, false, false);
      Set(i, services[i].(starting := Some(AwaitStart)));
    }

    method Start(i: nat)
      requires May(CallStart(i))
      modifies this
      ensures Valid() && State() == Apply(config, old(State()), CallStart(i))
    {
      if !draining { LaunchStart(i); }
      StepReachable(config, old(State()), CallStart(i));
    }

    method StartedUp(i: nat, ready: bool)
      requires i < |services|
      modifies this`services
      ensures State() == Put(old(State()), i, FinishStart(old(services)[i], ready, now))
    {
      Transition(i, if ready then Running else Degraded, true, ready);
      Set(i, services[i].(failures := 0, healthySince := now, starting := None,
                          startsDone := services[i].startsDone + 1));
    }

    method StartFailed(i: nat)
      requires i < |services|
      modifies this`services
      ensures State() == Put(old(State()), i, FailStart(old(services)[i]))
    {
      Transition(i, Stopped, false, false);
      Set(i, services[i].(healthySince := 0, starting := None, startsDone := services[i].startsDone + 1));
    }

    /** The awaited start, health or readiness call of a start has settled. */
    method ResumeStart(i: nat, ok: bool)
      requires May(StartStep(i, ok))
      modifies this
      ensures Valid() && State() == Apply(config, old(State()), StartStep(i, ok))
    {
      match services[i].starting.value {
        case AwaitStart =>
          if ok { Set(i, services[i].(starting := Some(AwaitHealth))); } else { StartFailed(i); }
        case AwaitHealth =>
          if !ok { StartFailed(i); }
          else if config.hasReady[i] { Set(i, services[i].(starting := Some(AwaitReady))); }
          else { StartedUp(i, true); }
        case AwaitReady => StartedUp(i, ok);
      }
      StepReachable(config, old(State()), StartStep(i, ok));
    }

    // ---------- restart ----------

    method LaunchRestartOf(i: nat)
      requires i < |services|
      modifies this`services
      ensures State() == Put(old(State()), i, BeginRestart(old(services)[i], now))
    {
      if services[i].restarting.Some? {
        assert services[i := services[i]] == services;
        return;
      }
      Transition(i, Restarting, false, false);
      var sv := services[i];
      Set(i, sv.(restartCount := sv.restartCount + 1, healthySince := 0, restarting := Some(AwaitStop),
                 restartBegun := now, bad := sv.bad + [now]));
    }

    method Restart(i: nat)
      requires May(CallRestart(i))
      modifies this
      ensures Valid() && State() == Apply(config, old(State()), CallRestart(i))
    {
      if !draining { LaunchRestartOf(i); }
      StepReachable(config, old(State()), CallRestart(i));
    }

    /** After the backoff: start again unless a drain has begun. */
    method StartAgain(i: nat)
      requires i < |services|
      modifies this`services
      ensures State() == Put(old(State()), i, LaunchRestart(old(services)[i], draining))
    {
      var ticket := services[i].startsDone;
      if draining {
        Set(i, services[i].(restarting := None, restartsDone := services[i].restartsDone + 1));
      } else {
        LaunchStart(i);
        Set(i, services[i].(restarting := Some(AwaitStarted(ticket))));
      }
    }

    method BackOffFrom(i: nat)
      requires i < |services|
      modifies this`services
      ensures State() == Put(old(State()), i, BackOff(config, old(services)[i], draining, now))
    {
      var sv := services[i];
      var due := now + Backoff(config, sv.level);
      Set(i, sv.(level := sv.level + 1, waits := sv.waits + [Wait(sv.restartBegun, due)],
                 restarting := Some(AwaitBackoff(due))));
      if due == now { StartAgain(i); }
    }

    /** The restart's stop call, a delay, or its start has settled. */
    method ResumeRestart(i: nat)
      requires May(RestartStep(i))
      modifies this
      ensures Valid() && State() == Apply(config, old(State()), RestartStep(i))
    {
      match services[i].restarting.value {
        case AwaitStop =>
          if config.restartDelay > 0 {
            Set(i, services[i].(restarting := Some(AwaitDelay(now + config.restartDelay))));
          } else {
            BackOffFrom(i);
          }
        case AwaitDelay(_) => BackOffFrom(i);
        case AwaitBackoff(_) => StartAgain(i);
        case AwaitStarted(_) => Set(i, services[i].(restarting := None, restartsDone := services[i].restartsDone + 1));
      }
      StepReachable(config, old(State()), RestartStep(i));
    }

    // ---------- poll ----------

    method PollRestartOf(i: nat)
      requires i < |services|
      modifies this`services
      ensures State() == Put(old(State()), i, PollRestart(old(services)[i], draining, now))
    {
      var ticket := services[i].restartsDone;
      if draining {
        Set(i, services[i].(polling := Idle));
      } else {
        LaunchRestartOf(i);
        Set(i, services[i].(polling := AwaitRestart(ticket)));
      }
    }

    method PollOne(i: nat)
      requires i < |services|
      modifies this`services
      ensures State() == Put(old(State()), i, BeginPoll(old(services)[i], draining, now))
    {
      if draining || services[i].starting.Some? || services[i].restarting.Some? {
        Set(i, services[i].(polling := Idle));
      } else if !services[i].running {
        PollRestartOf(i);
      } else {
        Set(i, services[i].(polling := AwaitVerdict));
      }
    }

    method Poll()
      requires May(CallPoll)
      modifies this
      ensures Valid() && State() == Apply(config, old(State()), CallPoll)
    {
      if !draining && !polling {
        polling := true;
        for k := 0 to |services|
          invariant |services| == |old(services)| && draining == old(draining) && now == old(now)
          invariant State() == old(State()).(polling := true, services := services)
          invariant forall j | 0 <= j < k :: services[j] == BeginPoll(old(services)[j], false, now)
          invariant forall j | k <= j < |services| :: services[j] == old(services)[j]
        {
          PollOne(k);
        }
        assert services == PollBegun(old(State())).services;
      }
      StepReachable(config, old(State()), CallPoll);
    }

    method Sick(i: nat)
      requires i < |services|
      modifies this`services
      ensures State() == Put(old(State()), i, Unhealthy(config, old(services)[i], draining, now))
    {
      var sv := services[i];
      var failures := sv.failures + 1;
      Set(i, sv.(status := Degraded, ready := false, failures := failures, healthySince := 0,
                 bad := sv.bad + [now], polling := Idle));
      if failures >= config.threshold { PollRestartOf(i); }
    }

    method PolledReady(i: nat, ready: bool)
      requires i < |services|
      modifies this`services
      ensures State() == Put(old(State()), i, FinishPoll(old(services)[i], ready))
    {
      Transition(i, if ready then Running else Degraded, true, ready);
      Set(i, services[i].(failures := 0, polling := Idle));
    }

    method Well(i: nat)
      requires i < |services| == |config.hasReady|
      modifies this`services
      ensures State() == Put(old(State()), i, Healthy(config, old(services)[i], config.hasReady[i], now))
    {
      if services[i].healthySince == 0 { Set(i, services[i].(healthySince := now)); }
      var since := services[i].healthySince;
      if services[i].level > 0 && now >= since && now - since >= config.healthyReset {
        Set(i, services[i].(level := 0, waits := []));
      }
      if config.hasReady[i] { Set(i, services[i].(polling := AwaitReadiness)); } else { PolledReady(i, true); }
    }

    /** The health verdict, the readiness verdict or the restart of a polled service has settled. */
    method ResumePoll(i: nat, ok: bool)
      requires May(PollStep(i, ok))
      modifies this
      ensures Valid() && State() == Apply(config, old(State()), PollStep(i, ok))
    {
      match services[i].polling {
        case AwaitVerdict => if ok { Well(i); } else { Sick(i); }
        case AwaitReadiness => PolledReady(i, ok);
        case AwaitRestart(_) => Set(i, services[i].(polling := Idle));
      }
      StepReachable(config, old(State()), PollStep(i, ok));
    }

    method EndPoll()
      requires May(PollDone)
      modifies this
      ensures Valid() && State() == Apply(config, old(State()), PollDone)
    {
      polling, pollsDone := false, pollsDone + 1;
      StepReachable(config, old(State()), PollDone);
    }

    // ---------- stop ----------

    method Stop(i: nat)
      requires May(CallStop(i))
      modifies this
      ensures Valid() && State() == Apply(config, old(State()), CallStop(i))
    {
      var sv := services[i];
      if sv.starting.Some? || sv.restarting.Some? {
        stops := stops + [StopWaiting(i, StartsInSight(sv), RestartsInSight(sv))];
      } else {
        Transition(i, Draining, sv.running, false);
        stops := stops + [StopRunning(i)];
      }
      StepReachable(config, old(State()), CallStop(i));
    }

    method ResumeStop(k: nat)
      requires May(StopStep(k))
      modifies this
      ensures Valid() && State() == Apply(config, old(State()), StopStep(k))
    {
      var i := stops[k].service;
      if stops[k].StopWaiting? {
        Transition(i, Draining, services[i].running, false);
        stops := stops[k := StopRunning(i)];
      } else {
        Transition(i, Stopped, false, false);
        Set(i, services[i].(failures := 0));
        stops := stops[..k] + stops[k + 1..];
      }
      StepReachable(config, old(State()), StopStep(k));
    }

    // ---------- startAll ----------

    method StartAll()
      requires May(CallStartAll)
      modifies this
      ensures Valid() && State() == Apply(config, old(State()), CallStartAll)
    {
      boots := boots + [BootPending];
      StepReachable(config, old(State()), CallStartAll);
    }

    method StartPhase(k: nat, position: nat, since: seq<nat>)
      requires k < |boots| && |services| == |config.phases|
      modifies this`services, this`boots
      ensures State() == LaunchPhase(config, old(State()), k, position, since)
    {
      var phases := PhasesOf(config.phases);
      if position >= |phases| || draining {
        boots := boots[..k] + boots[k + 1..];
        return;
      }
      var p := phases[position];
      var starts: seq<nat> := [];
      for j := 0 to |services|
        invariant |services| == |old(services)| == |config.phases| && |starts| == j
        invariant State() == old(State()).(services := services)
        invariant forall i | 0 <= i < j ::
          services[i] == if config.phases[i] == p then BeginStart(old(services)[i]) else old(services)[i]
        invariant forall i | j <= i < |services| :: services[i] == old(services)[i]
        invariant forall i | 0 <= i < j ::
                starts[i] == if config.phases[i] == p then old(services)[i].startsDone + 1 else 0
      {
        starts := starts + [if config.phases[j] == p then services[j].startsDone + 1 else 0];
        if config.phases[j] == p { LaunchStart(j); }
      }
      boots := boots[k := BootPhase(position, starts, since)];
      ghost var spec := LaunchPhase(config, old(State()), k, position, since);
      assert services == spec.services;
      assert starts == spec.boots[k].starts;
    }

    method SettledStarts() returns (since: seq<nat>)
      ensures since == StartsSettled(State())
    {
      since := [];
      for k := 0 to |services|
        invariant |since| == k && forall i | 0 <= i < k :: since[i] == services[i].startsDone
      {
        since := since + [services[k].startsDone];
      }
    }

    method FirstPhase(k: nat)
      requires k < |boots| && |services| == |config.phases|
      modifies this`services, this`boots, this`draining
      ensures State() == LaunchPhase(config, old(State()).(draining := false), k, 0, StartsSettled(old(State())))
    {
      var since := SettledStarts();
      draining := false;
      StartPhase(k, 0, since);
    }

    /** A startAll call goes on: its drain has ended, or all starts of its phase have settled. */
    method ResumeStartAll(k: nat)
      requires May(BootStep(k))
      modifies this
      ensures Valid() && State() == Apply(config, old(State()), BootStep(k))
    {
      StepReachable(config, State(), BootStep(k));
      if boots[k].BootPending? {
        FirstPhase(k);
      } else {
        StartPhase(k, boots[k].position + 1, boots[k].since);
      }
    }

    // ---------- drainAll ----------

    method BeginStopAt(position: nat, log: seq<DrainEvent>)
      requires position < |DrainOrder(config)| && |services| == |config.phases|
      modifies this`services, this`drain
      ensures State() == DrainStopBegin(config, old(State()), position, log)
    {
      var i := DrainOrder(config)[position];
      Transition(i, Draining, services[i].running, false);
      drain := Some(AwaitStops(position, log + [Began(i)]));
    }

    method Collect()
      requires ValidConfig(config) && |services| == |config.phases|
      modifies this`services, this`drain
      ensures State() == DrainCollect(config, old(State()))
    {
      var starts: seq<nat>, restarts: seq<nat>, any := [], [], false;
      for j := 0 to |services|
        invariant |starts| == |restarts| == j
        invariant forall i | 0 <= i < j ::
          starts[i] == StartsInSight(services[i]) && restarts[i] == RestartsInSight(services[i])
        invariant any <==> exists i :: 0 <= i < j && InFlight(services[i])
      {
        var sv := services[j];
        if sv.starting.Some? || sv.restarting.Some? { any := true; }
        starts, restarts := starts + [StartsInSight(sv)], restarts + [RestartsInSight(sv)];
      }
      if any {
        ghost var spec := DrainCollect(config, State()).drain.value;
        assert starts == spec.starts && restarts == spec.restarts;
        drain := Some(AwaitInFlight(starts, restarts));
      } else {
        BeginStopAt(0, []);
      }
    }

    method DrainAll()
      requires May(CallDrain)
      modifies this
      ensures Valid() && State() == Apply(config, old(State()), CallDrain)
    {
      if drain.None? {
        draining := true;
        if polling { drain := Some(AwaitPoll(pollsDone)); } else { Collect(); }
      }
      StepReachable(config, old(State()), CallDrain);
    }

    /** The awaited poll, the operations in flight, or one stop of the drain has settled. */
    method ResumeDrain()
      requires May(DrainStep)
      modifies this
      ensures Valid() && State() == Apply(config, old(State()), DrainStep)
    {
      match drain.value {
        case AwaitPoll(_) => Collect();
        case AwaitInFlight(_, _) => BeginStopAt(0, []);
        case AwaitStops(position, log) => StopDone(position, log);
      }
      StepReachable(config, old(State()), DrainStep);
    }

    method StopDone(position: nat, log: seq<DrainEvent>)
      requires ValidConfig(config) && |services| == |config.phases| && DrainMayProceed(config, State())
      requires drain == Some(AwaitStops(position, log))
      modifies this
      ensures State() == DrainStepped(config, old(State()))
    {
      var order := DrainOrder(config);
      var i := order[position];
      Transition(i, Stopped, false, false);
      Set(i, services[i].(failures := 0));
      if position + 1 < |order| {
        BeginStopAt(position + 1, log + [Settled(i)]);
      } else {
        drain, draining, drained := None, false, drained + [log + [Settled(i)]];
      }
    }
  }
}
