/** With a failure threshold of one, every configuration has a run that breaks the bound. */
module SupervisorOneStrike {
  import opened Wrappers
  import opened SupervisorModel
  import opened SupervisorInvariant
  import opened SupervisorTheorems

  /** A reachable state that is not draining, with or without a poll. */
  ghost predicate At(c: Config, s: System, polling: bool) {
    ValidConfig(c) && Reachable(c, s) && |s.services| == |c.phases| && !s.draining && s.polling == polling
  }

  /** A step of the first service. */
  lemma Go(c: Config, s: System, polling: bool, l: Label, sv: Service) returns (s': System)
    requires At(c, s, polling) && Enabled(c, s, l)
    requires Apply(c, s, l) == Put(s, 0, sv)
    ensures At(c, s', polling) && s'.services[0] == sv && s'.now == s.now
  {
    StepReachable(c, s, l);
    s' := Apply(c, s, l);
  }

  lemma Pass(c: Config, s: System, polling: bool, ms: nat) returns (s': System)
    requires At(c, s, polling)
    ensures At(c, s', polling) && s'.services[0] == s.services[0] && s'.now == s.now + ms
  {
    StepReachable(c, s, Tick(ms));
    s' := Apply(c, s, Tick(ms));
  }

  /** What a settled start leaves alone. */
  predicate StartedFrom(sv: Service, sv': Service) {
    && sv'.running && sv'.failures == 0 && sv'.starting.None? && sv'.startsDone == sv.startsDone + 1
    && sv'.restarting == sv.restarting && sv'.restartsDone == sv.restartsDone && sv'.polling == sv.polling
  }

  /** A start that has just begun can go on to succeed. */
  lemma StartSucceeds(c: Config, s: System, polling: bool) returns (s': System)
    requires At(c, s, polling) && s.services[0].starting == Some(AwaitStart)
    ensures At(c, s', polling) && StartedFrom(s.services[0], s'.services[0])
  {
    var sv := s.services[0];
    var s1 := Go(c, s, polling, StartStep(0, true), sv.(starting := Some(AwaitHealth)));
    if c.hasReady[0] {
      var s2 := Go(c, s1, polling, StartStep(0, true), sv.(starting := Some(AwaitReady)));
      s' := Go(c, s2, polling, StartStep(0, true), FinishStart(s2.services[0], true, s2.now));
    } else {
      s' := Go(c, s1, polling, StartStep(0, true), FinishStart(s1.services[0], true, s1.now));
    }
  }

  lemma Up(c: Config) returns (s: System)
    requires ValidConfig(c)
    ensures At(c, s, false) && StartedFrom(FRESH, s.services[0])
  {
    InitReachable(c);
    var s1 := Go(c, Init(c), false, CallStart(0), BeginStart(FRESH));
    s := StartSucceeds(c, s1, false);
  }

  /** The restart has launched its start and waits for it; the poll still waits for a verdict. */
  predicate Relaunched(sv: Service) {
    && sv.starting == Some(AwaitStart) && sv.restarting == Some(AwaitStarted(sv.startsDone))
    && sv.polling.AwaitVerdict?
  }

  lemma Launch(c: Config, s: System) returns (s': System)
    requires At(c, s, true) && s.services[0].starting.None? && s.services[0].polling.AwaitVerdict?
    requires s.services[0].restarting.Some? && s.services[0].restarting.value.AwaitBackoff?
    ensures At(c, s', true) && Relaunched(s'.services[0])
  {
    var due := s.services[0].restarting.value.until;
    var s1 := Pass(c, s, true, due);
    s' := Go(c, s1, true, RestartStep(0), LaunchRestart(s1.services[0], false));
  }

  lemma BackOffAndLaunch(c: Config, s: System) returns (s': System)
    requires At(c, s, true) && s.services[0].starting.None? && s.services[0].polling.AwaitVerdict?
    requires RestartMayProceed(s.services[0], s.now)
    requires var stage := s.services[0].restarting.value;
      stage.AwaitDelay? || (stage.AwaitStop? && c.restartDelay == 0)
    ensures At(c, s', true) && Relaunched(s'.services[0])
  {
    var sv := s.services[0];
    var s1 := Go(c, s, true, RestartStep(0), BackOff(c, sv, false, s.now));
    BackOffCases(c, sv, false, s.now);
    if Backoff(c, sv.level) > 0 { s' := Launch(c, s1); } else { s' := s1; }
  }

  /** While a poll waits for its verdict a restart takes the service down and launches it again. */
  lemma Relaunch(c: Config) returns (s: System)
    requires ValidConfig(c)
    ensures At(c, s, true) && Relaunched(s.services[0])
  {
    var s0 := Up(c);
    StepReachable(c, s0, CallPoll);
    var s1 := Apply(c, s0, CallPoll);
    var s2 := Go(c, s1, true, CallRestart(0), BeginRestart(s1.services[0], s1.now));
    if c.restartDelay > 0 {
      var until := s2.now + c.restartDelay;
      var s3 := Go(c, s2, true, RestartStep(0), s2.services[0].(restarting := Some(AwaitDelay(until))));
      var s4 := Pass(c, s3, true, c.restartDelay);
      s := BackOffAndLaunch(c, s4);
    } else {
      s := BackOffAndLaunch(c, s2);
    }
  }

  /** A failed verdict joins the restart that is about to end, and nothing acts on it. */
  lemma OneStrikeFails(c: Config) returns (s: System)
    requires ValidConfig(c) && c.threshold == 1
    ensures Reachable(c, s) && !FailuresBounded(c, s)
  {
    var s0 := Relaunch(c);
    var s1 := StartSucceeds(c, s0, true);
    var sv := s1.services[0];
    var sick := Unhealthy(c, sv, false, s1.now);
    var s2 := Go(c, s1, true, PollStep(0, false), sick);
    assert sick.running && sick.failures == 1 && sick.polling == AwaitRestart(sv.restartsDone);
    var s3 := Go(c, s2, true, RestartStep(0), EndRestart(sick));
    s := Go(c, s3, true, PollStep(0, true), EndRestart(sick).(polling := Idle));
    assert MustBeBelow(s, 0);
  }

  /** For every configuration the failure bound holds of all reachable states exactly when the
      threshold is above one. */
  lemma FailuresBoundedIffAboveOne(c: Config)
    requires ValidConfig(c)
    ensures (forall s | Reachable(c, s) :: FailuresBounded(c, s)) <==> c.threshold >= 2
  {
    if c.threshold >= 2 {
      forall s | Reachable(c, s) ensures FailuresBounded(c, s) { FailuresBoundedFromTwo(c, s); }
    } else {
      var s := OneStrikeFails(c);
    }
  }
}
