/**
 The supervisor's promises, for every reachable state and every run: drain safety,
 the shape of a service's public state, the failure count, and restart backoff.
 */
module SupervisorTheorems {
  import opened Wrappers
  import opened SupervisorModel
  import opened SupervisorInvariant

  ghost predicate Reachable(c: Config, s: System) {
    exists run :: IsRun(c, run) && run[|run| - 1] == s
  }

  lemma InitReachable(c: Config)
    ensures Reachable(c, Init(c))
  {
    assert IsRun(c, [Init(c)]);
  }

  lemma StepReachable(c: Config, s: System, l: Label)
    requires Reachable(c, s) && Enabled(c, s, l)
    ensures Reachable(c, Apply(c, s, l))
  {
    var run :| IsRun(c, run) && run[|run| - 1] == s;
    var run' := run + [Apply(c, s, l)];
    assert Next(c, s, Apply(c, s, l));
    forall k: nat | k < |run'| - 1 ensures StepAt(c, run', k) {
      if k < |run| - 1 { assert StepAt(c, run, k); }
    }
    assert IsRun(c, run');
  }

  lemma ReachableOk(c: Config, s: System)
    requires ValidConfig(c) && Reachable(c, s)
    ensures Inv(c, s)
  {
    var run :| IsRun(c, run) && run[|run| - 1] == s;
    RunOk(c, run, |run| - 1);
  }

  // ---------- The drain order ----------

  ghost predicate Descending(c: Config, order: seq<nat>)
    requires Below(order, |c.phases|)
  {
    forall a, b | 0 <= a < b < |order| :: Above(c, order[a], order[b])
  }

  lemma {:induction false} InsertAboveHolds(c: Config, i: nat, rest: seq<nat>, x: nat)
    requires i < |c.phases| && Below(rest, |c.phases|)
    ensures x in InsertAbove(c, i, rest) <==> x == i || x in rest
  {
    if rest != [] && !Above(c, i, rest[0]) {
      InsertAboveHolds(c, i, rest[1..], x);
      assert rest == [rest[0]] + rest[1..];
    }
  }

  lemma ConsDescending(c: Config, first: nat, tail: seq<nat>)
    requires first < |c.phases| && Below(tail, |c.phases|) && Descending(c, tail)
    requires forall b | 0 <= b < |tail| :: Above(c, first, tail[b])
    ensures Below([first] + tail, |c.phases|) && Descending(c, [first] + tail)
  {
  }

  lemma {:induction false} InsertAboveSorts(c: Config, i: nat, rest: seq<nat>)
    requires i < |c.phases| && Below(rest, |c.phases|) && Descending(c, rest) && i !in rest
    ensures Descending(c, InsertAbove(c, i, rest))
  {
    if rest == [] {
    } else if Above(c, i, rest[0]) {
      ConsDescending(c, i, rest);
    } else {
      InsertAboveSorts(c, i, rest[1..]);
      var tail := InsertAbove(c, i, rest[1..]);
      forall b | 0 <= b < |tail| ensures Above(c, rest[0], tail[b]) {
        assert tail[b] in tail;
        InsertAboveHolds(c, i, rest[1..], tail[b]);
        assert i != rest[0];
      }
      ConsDescending(c, rest[0], tail);
    }
  }

  lemma {:induction false} DrainOrderToSorts(c: Config, n: nat)
    requires n <= |c.phases|
    ensures Descending(c, DrainOrderTo(c, n))
    ensures forall i: nat :: i in DrainOrderTo(c, n) <==> i < n
  {
    if n > 0 {
      DrainOrderToSorts(c, n - 1);
      var rest := DrainOrderTo(c, n - 1);
      InsertAboveSorts(c, n - 1, rest);
      forall i: nat ensures i in DrainOrderTo(c, n) <==> i < n { InsertAboveHolds(c, n - 1, rest, i); }
    }
  }

  /** The drain order holds every service exactly once, by strictly descending
      (phase, order). */
  lemma DrainOrderSorts(c: Config)
    ensures Descending(c, DrainOrder(c))
    ensures forall i: nat :: i in DrainOrder(c) <==> i < |c.phases|
  {
    DrainOrderToSorts(c, |c.phases|);
  }

  /** A drain trace stops one service at a time, each after the one before settled. */
  lemma {:induction false} DrainTraceShape(order: seq<nat>, j: nat)
    requires j < |order|
    ensures |DrainTrace(order)| == 2 * |order|
    ensures DrainTrace(order)[2 * j] == Began(order[j])
    ensures DrainTrace(order)[2 * j + 1] == Settled(order[j])
  {
    var front := order[..|order| - 1];
    if |front| > 0 {
      DrainTraceShape(front, if j < |front| then j else 0);
    } else {
      assert DrainTrace(front) == [];
    }
  }

  // ---------- What one step may do to one service ----------

  /** The stronger fact that carries the failure bound through every step. */
  predicate FailuresOk(c: Config, sv: Service, draining: bool) {
    && sv.failures <= c.threshold
    && (sv.running && !draining ==> sv.failures < c.threshold)
    && (sv.polling.AwaitVerdict? ==> sv.failures < c.threshold)
    && (sv.restarting.Some? && sv.running ==>
          sv.failures <= 1 && (sv.polling.AwaitVerdict? ==> sv.failures == 0))
  }

  predicate BeginsUndrained(sv: Service, sv': Service, draining: bool, draining': bool) {
    && sv.startsDone <= sv'.startsDone
    && StartsInSight(sv) <= StartsInSight(sv')
    && RestartsInSight(sv) <= RestartsInSight(sv')
    && (draining || draining' ==>
          StartsInSight(sv) == StartsInSight(sv') && RestartsInSight(sv) == RestartsInSight(sv'))
  }

  predicate RecordsBad(sv: Service, sv': Service, now: nat) {
    && sv.bad <= sv'.bad
    && (sv'.restartCount > sv.restartCount || sv'.failures > sv.failures ==> now in sv'.bad)
  }

  predicate ResetsWhenHealthy(c: Config, sv: Service, sv': Service, now: nat) {
    sv'.level < sv.level ==>
      sv'.level == 0 &&
      (c.healthyReset == 0 || (sv.healthySince > 0 && sv.healthySince + c.healthyReset <= now))
  }

  predicate KeepsFailuresOk(c: Config, sv: Service, sv': Service, draining: bool, draining': bool) {
    c.threshold >= 2 && (draining ==> draining') && FailuresOk(c, sv, draining) ==>
      FailuresOk(c, sv', draining')
  }

  predicate Lawful(c: Config, sv: Service, sv': Service, draining: bool, draining': bool, now: nat) {
    && BeginsUndrained(sv, sv', draining, draining')
    && RecordsBad(sv, sv', now)
    && ResetsWhenHealthy(c, sv, sv', now)
    && KeepsFailuresOk(c, sv, sv', draining, draining')
  }

  lemma StayLawful(c: Config, sv: Service, draining: bool, draining': bool, now: nat)
    ensures Lawful(c, sv, sv, draining, draining', now)
    ensures Lawful(c, sv, EnterStop(sv), draining, draining', now)
    ensures Lawful(c, sv, FinishStop(sv), draining, draining', now)
  {
  }

  lemma BeginStartLawful(c: Config, sv: Service, now: nat)
    ensures Lawful(c, sv, BeginStart(sv), false, false, now)
  {
  }

  lemma StartSettledLawful(c: Config, sv: Service, hasReady: bool, ok: bool, draining: bool, now: nat)
    requires sv.starting.Some?
    ensures Lawful(c, sv, StartSettled(sv, hasReady, ok, now), draining, draining, now)
  {
  }

  lemma BeginRestartLawful(c: Config, sv: Service, now: nat)
    ensures Lawful(c, sv, BeginRestart(sv, now), false, false, now)
  {
    assert now in sv.bad + [now];
  }

  lemma LaunchRestartLawful(c: Config, sv: Service, draining: bool, now: nat)
    requires sv.restarting.Some?
    ensures Lawful(c, sv, LaunchRestart(sv, draining), draining, draining, now)
  {
  }

  lemma BackOffLawful(c: Config, sv: Service, draining: bool, now: nat)
    requires sv.restarting.Some?
    ensures Lawful(c, sv, BackOff(c, sv, draining, now), draining, draining, now)
  {
    LaunchRestartLawful(c, BackedOff(sv, now), draining, now);
  }

  lemma RestartSettledLawful(c: Config, sv: Service, draining: bool, now: nat)
    requires RestartMayProceed(sv, now)
    ensures Lawful(c, sv, RestartSettled(c, sv, draining, now), draining, draining, now)
  {
    BackOffLawful(c, sv, draining, now);
    LaunchRestartLawful(c, sv, draining, now);
  }

  lemma BeginPollLawful(c: Config, sv: Service, now: nat)
    ensures Lawful(c, sv, BeginPoll(sv, false, now), false, false, now)
  {
    assert now in sv.bad + [now];
  }

  lemma HealthyLawful(c: Config, sv: Service, hasReady: bool, draining: bool, now: nat)
    requires sv.polling.AwaitVerdict?
    ensures Lawful(c, sv, Healthy(c, sv, hasReady, now), draining, draining, now)
  {
  }

  lemma UnhealthyLawful(c: Config, sv: Service, draining: bool, now: nat)
    requires sv.polling.AwaitVerdict?
    ensures Lawful(c, sv, Unhealthy(c, sv, draining, now), draining, draining, now)
  {
    assert now in sv.bad + [now];
    assert sv.bad + [now] <= sv.bad + [now] + [now];
    assert now in sv.bad + [now] + [now];
  }

  lemma PollSettledLawful(c: Config, sv: Service, hasReady: bool, ok: bool, draining: bool, now: nat)
    requires PollMayProceed(sv)
    ensures Lawful(c, sv, PollSettled(c, sv, hasReady, ok, draining, now), draining, draining, now)
  {
    match sv.polling {
      case AwaitVerdict =>
        HealthyLawful(c, sv, hasReady, draining, now);
        UnhealthyLawful(c, sv, draining, now);
      case AwaitReadiness =>
      case AwaitRestart(_) =>
    }
  }

  ghost predicate LawfulAt(c: Config, s: System, s': System, i: nat) {
    && i < |s.services| == |s'.services|
    && Lawful(c, s.services[i], s'.services[i], s.draining, s'.draining, s.now)
  }

  lemma DrainLawful(c: Config, s: System, i: nat)
    requires Inv(c, s) && DrainMayProceed(c, s) && i < |s.services|
    ensures LawfulAt(c, s, DrainStepped(c, s), i)
  {
    StayLawful(c, s.services[i], s.draining, true, s.now);
    StayLawful(c, s.services[i], s.draining, false, s.now);
    if s.drain.value.AwaitStops? {
      var position := s.drain.value.position;
      DrainOrderSorts(c);
      if position + 1 < |DrainOrder(c)| {
        assert Above(c, DrainOrder(c)[position], DrainOrder(c)[position + 1]);
      }
    }
  }

  /** A step of service j is lawful for every service. */
  lemma PutLawful(c: Config, s: System, j: nat, sv: Service, i: nat)
    requires i < |s.services| && j < |s.services|
    requires Lawful(c, s.services[j], sv, s.draining, s.draining, s.now)
    ensures LawfulAt(c, s, Put(s, j, sv), i)
  {
    StayLawful(c, s.services[i], s.draining, s.draining, s.now);
  }

  lemma ServiceStepLawful(c: Config, s: System, l: Label, i: nat)
    requires Inv(c, s) && Enabled(c, s, l) && i < |s.services|
    requires l.CallStart? || l.StartStep? || l.CallRestart? || l.RestartStep? || l.PollStep?
    ensures LawfulAt(c, s, Apply(c, s, l), i)
  {
    var j := l.i;
    var sv := s.services[j];
    StayLawful(c, s.services[i], s.draining, s.draining, s.now);
    match l {
      case CallStart(_) =>
        BeginStartLawful(c, sv, s.now);
        if !s.draining { PutLawful(c, s, j, BeginStart(sv), i); }
      case StartStep(_, ok) =>
        StartSettledLawful(c, sv, c.hasReady[j], ok, s.draining, s.now);
        PutLawful(c, s, j, StartSettled(sv, c.hasReady[j], ok, s.now), i);
      case CallRestart(_) =>
        BeginRestartLawful(c, sv, s.now);
        if !s.draining { PutLawful(c, s, j, BeginRestart(sv, s.now), i); }
      case RestartStep(_) =>
        RestartSettledLawful(c, sv, s.draining, s.now);
        PutLawful(c, s, j, RestartSettled(c, sv, s.draining, s.now), i);
      case PollStep(_, ok) =>
        PollSettledLawful(c, sv, c.hasReady[j], ok, s.draining, s.now);
        PutLawful(c, s, j, PollSettled(c, sv, c.hasReady[j], ok, s.draining, s.now), i);
    }
  }

  lemma BootStepLawful(c: Config, s: System, k: nat, i: nat)
    requires Inv(c, s) && BootMayProceed(s, k) && i < |s.services|
    ensures LawfulAt(c, s, BootStepped(c, s, k), i)
  {
    StayLawful(c, s.services[i], s.draining, BootStepped(c, s, k).draining, s.now);
    BeginStartLawful(c, s.services[i], s.now);
  }

  lemma CallDrainLawful(c: Config, s: System, i: nat)
    requires Inv(c, s) && i < |s.services|
    ensures LawfulAt(c, s, DrainBegun(c, s), i)
  {
    StayLawful(c, s.services[i], s.draining, DrainBegun(c, s).draining, s.now);
  }

  lemma PollBegunLawful(c: Config, s: System, i: nat)
    requires Inv(c, s) && i < |s.services|
    ensures LawfulAt(c, s, PollBegun(s), i)
  {
    StayLawful(c, s.services[i], s.draining, s.draining, s.now);
    BeginPollLawful(c, s.services[i], s.now);
  }

  lemma StopLawful(c: Config, s: System, l: Label, i: nat)
    requires Inv(c, s) && Enabled(c, s, l) && i < |s.services| && (l.CallStop? || l.StopStep?)
    ensures LawfulAt(c, s, Apply(c, s, l), i)
  {
    var j := if l.CallStop? then l.i else s.stops[l.k].service;
    var sv := s.services[j];
    StayLawful(c, sv, s.draining, s.draining, s.now);
    StayLawful(c, s.services[i], s.draining, s.draining, s.now);
    PutLawful(c, s, j, EnterStop(sv), i);
    PutLawful(c, s, j, FinishStop(sv), i);
  }

  /** The steps that touch no service. */
  lemma QuietStepLawful(c: Config, s: System, l: Label, i: nat)
    requires Inv(c, s) && Enabled(c, s, l) && i < |s.services|
    requires l.Tick? || l.PollDone? || l.CallStartAll?
    ensures LawfulAt(c, s, Apply(c, s, l), i)
  {
    StayLawful(c, s.services[i], s.draining, s.draining, s.now);
  }

  lemma StepLawful(c: Config, s: System, l: Label, i: nat)
    requires Inv(c, s) && Enabled(c, s, l) && i < |s.services|
    ensures LawfulAt(c, s, Apply(c, s, l), i)
  {
    if l.CallStart? || l.StartStep? || l.CallRestart? || l.RestartStep? || l.PollStep? {
      ServiceStepLawful(c, s, l, i);
    } else if l.CallPoll? {
      PollBegunLawful(c, s, i);
    } else if l.BootStep? {
      BootStepLawful(c, s, l.k, i);
    } else if l.CallDrain? {
      CallDrainLawful(c, s, i);
    } else if l.DrainStep? {
      DrainLawful(c, s, i);
    } else if l.CallStop? || l.StopStep? {
      StopLawful(c, s, l, i);
    } else {
      QuietStepLawful(c, s, l, i);
    }
  }

  lemma NextLawful(c: Config, s: System, s': System, i: nat)
    requires ValidConfig(c) && Reachable(c, s) && Next(c, s, s') && i < |s.services|
    ensures LawfulAt(c, s, s', i)
  {
    ReachableOk(c, s);
    var l :| Enabled(c, s, l) && s' == Apply(c, s, l);
    StepLawful(c, s, l, i);
  }

  // ---------- Drain safety ----------

  /** No start or restart begins in a step that leaves or enters a draining state. */
  lemma NoBeginWhileDraining(c: Config, s: System, s': System, i: nat)
    requires ValidConfig(c) && Reachable(c, s) && Next(c, s, s') && i < |s.services|
    requires s.draining || s'.draining
    ensures |s'.services| == |s.services|
    ensures StartsInSight(s'.services[i]) == StartsInSight(s.services[i])
    ensures RestartsInSight(s'.services[i]) == RestartsInSight(s.services[i])
  {
    NextLawful(c, s, s', i);
  }

  lemma RunSize(c: Config, run: seq<System>, k: nat)
    requires ValidConfig(c) && IsRun(c, run) && k < |run|
    ensures |run[k].services| == |c.phases|
  {
    RunOk(c, run, k);
  }

  lemma NoBeginAt(c: Config, run: seq<System>, k: nat, i: nat)
    requires ValidConfig(c) && IsRun(c, run) && k < |run| - 1 && i < |c.phases| && run[k].draining
    ensures |run[k].services| == |run[k + 1].services| == |c.phases|
    ensures StartsInSight(run[k + 1].services[i]) == StartsInSight(run[k].services[i])
    ensures RestartsInSight(run[k + 1].services[i]) == RestartsInSight(run[k].services[i])
  {
    RunSize(c, run, k);
    PrefixReachable(c, run, k);
    assert StepAt(c, run, k);
    NoBeginWhileDraining(c, run[k], run[k + 1], i);
  }

  /** From the call of drainAll to the end of its loop no start or restart begins. */
  lemma {:induction false} NoBeginDuringDrain(c: Config, run: seq<System>, a: nat, b: nat, i: nat)
    requires ValidConfig(c) && IsRun(c, run) && a <= b < |run| && i < |c.phases|
    requires forall k | a <= k <= b :: run[k].draining
    ensures |run[a].services| == |run[b].services| == |c.phases|
    ensures StartsInSight(run[b].services[i]) == StartsInSight(run[a].services[i])
    ensures RestartsInSight(run[b].services[i]) == RestartsInSight(run[a].services[i])
  {
    RunSize(c, run, a);
    if a < b {
      NoBeginDuringDrain(c, run, a, b - 1, i);
      NoBeginAt(c, run, b - 1, i);
    }
  }

  lemma PrefixReachable(c: Config, run: seq<System>, k: nat)
    requires IsRun(c, run) && k < |run|
    ensures Reachable(c, run[k])
  {
    var prefix := run[..k + 1];
    forall j: nat | j < |prefix| - 1 ensures StepAt(c, prefix, j) { assert StepAt(c, run, j); }
    assert IsRun(c, prefix);
  }

  /** When a drain ends, nothing is in flight, running, ready or counting failures, and its
      loop stopped every service once, in drain order, one after the other. */
  lemma DrainEndsQuiet(c: Config, s: System, s': System)
    requires ValidConfig(c) && Reachable(c, s) && Next(c, s, s')
    requires s.drain.Some? && s'.drain.None?
    ensures !s'.draining && !s'.polling
    ensures s'.drained == s.drained + [DrainTrace(DrainOrder(c))]
    ensures |s'.services| == |c.phases|
    ensures forall i | 0 <= i < |s'.services| ::
      !InFlight(s'.services[i]) && !s'.services[i].running && !s'.services[i].ready && s'.services[i].failures == 0
  {
    ReachableOk(c, s);
    var l :| Enabled(c, s, l) && s' == Apply(c, s, l);
    StepOk(c, s, l);
    DrainEndsOnlyInLoop(c, s, l);
    assert s'.drained[|s.drained|] == DrainTrace(DrainOrder(c));
    forall i | 0 <= i < |s'.services|
      ensures !InFlight(s'.services[i]) && !s'.services[i].running && !s'.services[i].ready &&
              s'.services[i].failures == 0
    {
      DrainEndStops(c, s, i);
    }
  }

  lemma DrainEndsOnlyInLoop(c: Config, s: System, l: Label)
    requires Inv(c, s) && Enabled(c, s, l)
    requires s.drain.Some? && Apply(c, s, l).drain.None?
    ensures l.DrainStep? && s.drain.value.AwaitStops?
    ensures s.drain.value.position == |DrainOrder(c)| - 1
    ensures |Apply(c, s, l).drained| == |s.drained| + 1 && Apply(c, s, l).drained[..|s.drained|] == s.drained
  {
  }

  lemma LastOrBefore(order: seq<nat>, i: nat)
    requires i in order
    ensures i == order[|order| - 1] || i in order[..|order| - 1]
  {
    assert order == order[..|order| - 1] + [order[|order| - 1]];
  }

  /** While the loop stops services nothing is in flight, and those before are stopped. */
  lemma StoppedSoFar(c: Config, s: System, i: nat)
    requires Inv(c, s) && s.drain.Some? && s.drain.value.AwaitStops? && i < |s.services|
    ensures !InFlight(s.services[i])
    ensures i in DrainOrder(c)[..s.drain.value.position] ==>
              !s.services[i].running && !s.services[i].ready && s.services[i].failures == 0
  {
    assert ServiceOk(c, s.services[i], i, s.now, s.drain, s.polling);
  }

  lemma LastStopServices(c: Config, s: System)
    requires ValidConfig(c) && |s.services| == |c.phases| && s.drain.Some? && s.drain.value.AwaitStops?
    requires s.drain.value.position == |DrainOrder(c)| - 1
    ensures var last := DrainOrder(c)[|DrainOrder(c)| - 1];
      DrainStepped(c, s).services == s.services[last := FinishStop(s.services[last])]
  {
  }

  lemma DrainEndStops(c: Config, s: System, i: nat)
    requires Inv(c, s) && s.drain.Some? && s.drain.value.AwaitStops? && i < |s.services|
    requires s.drain.value.position == |DrainOrder(c)| - 1
    ensures var sv := DrainStepped(c, s).services[i];
      !InFlight(sv) && !sv.running && !sv.ready && sv.failures == 0
  {
    DrainOrderSorts(c);
    LastOrBefore(DrainOrder(c), i);
    StoppedSoFar(c, s, i);
    LastStopServices(c, s);
  }

  // ---------- Public state ----------

  lemma StatusTheorem(c: Config, s: System, i: nat)
    requires ValidConfig(c) && Reachable(c, s) && i < |s.services|
    ensures s.services[i].ready <==> s.services[i].status.Running?
    ensures s.services[i].ready ==> s.services[i].running
    ensures s.services[i].status in {Stopped, Starting, Restarting} ==> !s.services[i].running
    ensures s.draining <==> s.drain.Some?
  {
    ReachableOk(c, s);
  }

  // ---------- Failure count ----------

  lemma StepFailuresOk(c: Config, s: System, s': System, i: nat)
    requires ValidConfig(c) && c.threshold >= 2 && Reachable(c, s) && Next(c, s, s') && i < |s.services|
    requires FailuresOk(c, s.services[i], s.draining)
    ensures |s'.services| == |s.services| && FailuresOk(c, s'.services[i], s'.draining)
  {
    NextLawful(c, s, s', i);
    if s.draining && !s'.draining {
      ReachableOk(c, s);
      var l :| Enabled(c, s, l) && s' == Apply(c, s, l);
      StepOk(c, s, l);
      DrainEndsOnlyInLoop(c, s, l);
      DrainEndStops(c, s, i);
    }
  }

  lemma FailuresOkAt(c: Config, run: seq<System>, k: nat, i: nat)
    requires ValidConfig(c) && c.threshold >= 2 && IsRun(c, run) && k < |run| - 1 && i < |run[k].services|
    requires FailuresOk(c, run[k].services[i], run[k].draining)
    ensures |run[k + 1].services| == |run[k].services|
    ensures FailuresOk(c, run[k + 1].services[i], run[k + 1].draining)
  {
    PrefixReachable(c, run, k);
    assert StepAt(c, run, k);
    StepFailuresOk(c, run[k], run[k + 1], i);
  }

  lemma {:induction false} RunFailuresOk(c: Config, run: seq<System>, k: nat, i: nat)
    requires ValidConfig(c) && c.threshold >= 2 && IsRun(c, run) && k < |run| && i < |c.phases|
    ensures |run[k].services| == |c.phases|
    ensures FailuresOk(c, run[k].services[i], run[k].draining)
  {
    if k > 0 {
      RunFailuresOk(c, run, k - 1, i);
      FailuresOkAt(c, run, k - 1, i);
    }
  }

  predicate MustBeBelow(s: System, i: nat)
    requires i < |s.services|
  {
    var sv := s.services[i];
    sv.running && !s.draining && sv.restarting.None? && sv.polling.Idle?
  }

  /** The count stays within the threshold, and below it for a running service that
      is neither draining nor restarting nor being polled. */
  ghost predicate FailuresBounded(c: Config, s: System) {
    forall i | 0 <= i < |s.services| ::
      && s.services[i].failures <= c.threshold
      && (MustBeBelow(s, i) ==> s.services[i].failures < c.threshold)
  }

  lemma FailuresBoundedFromTwo(c: Config, s: System)
    requires ValidConfig(c) && c.threshold >= 2 && Reachable(c, s)
    ensures FailuresBounded(c, s)
  {
    var run :| IsRun(c, run) && run[|run| - 1] == s;
    RunSize(c, run, |run| - 1);
    forall i | 0 <= i < |s.services| ensures FailuresOk(c, s.services[i], s.draining) {
      RunFailuresOk(c, run, |run| - 1, i);
    }
  }

  const ONE_STRIKE := Config([0], [false], 1, 0, 0, 0, 0)

  function Alone(sv: Service, polling: bool, pollsDone: nat): System {
    System([sv], false, None, polling, pollsDone, [], [], 1, [])
  }

  const UP := FRESH.(status := Running, running := true, ready := true, healthySince := 1, startsDone := 1)

  lemma OneStrikeStarts()
    ensures Reachable(ONE_STRIKE, Alone(UP, false, 0))
  {
    var c := ONE_STRIKE;
    InitReachable(c);
    assert Init(c) == Alone(FRESH, false, 0);
    StepReachable(c, Init(c), CallStart(0));
    var s1 := Alone(FRESH.(status := Starting, starting := Some(AwaitStart)), false, 0);
    assert Apply(c, Init(c), CallStart(0)) == s1;
    StepReachable(c, s1, StartStep(0, true));
    var s2 := Alone(FRESH.(status := Starting, starting := Some(AwaitHealth)), false, 0);
    assert Apply(c, s1, StartStep(0, true)) == s2;
    StepReachable(c, s2, StartStep(0, true));
    assert Apply(c, s2, StartStep(0, true)) == Alone(UP, false, 0);
  }

  /** A poll is waiting for a verdict while a restart has just started the service again. */
  const BACK_UP := UP.(level := 1, restartCount := 1, restarting := Some(AwaitStarted(1)), startsDone := 2,
                       polling := AwaitVerdict, restartBegun := 1, waits := [Wait(1, 1)], bad := [1])

  const POLLED := UP.(polling := AwaitVerdict)

  const DOWN := POLLED.(status := Restarting, running := false, ready := false, restartCount := 1,
                        healthySince := 0, restarting := Some(AwaitStop), restartBegun := 1, bad := [1])

  const LAUNCHED := DOWN.(status := Starting, level := 1, waits := [Wait(1, 1)],
                          restarting := Some(AwaitStarted(1)), starting := Some(AwaitStart))

  lemma OneStrikeGoesDown()
    ensures Reachable(ONE_STRIKE, Alone(DOWN, true, 0))
  {
    var c := ONE_STRIKE;
    OneStrikeStarts();
    StepReachable(c, Alone(UP, false, 0), CallPoll);
    assert Apply(c, Alone(UP, false, 0), CallPoll) == Alone(POLLED, true, 0);
    StepReachable(c, Alone(POLLED, true, 0), CallRestart(0));
    assert UP.bad + [1] == [1];
    assert Apply(c, Alone(POLLED, true, 0), CallRestart(0)) == Alone(DOWN, true, 0);
  }

  lemma OneStrikeBacksOff()
    ensures RestartSettled(ONE_STRIKE, DOWN, false, 1) == LAUNCHED
  {
    assert Backoff(ONE_STRIKE, 0) == 0;
    assert DOWN.waits + [Wait(1, 1)] == [Wait(1, 1)];
    assert BackedOff(DOWN, 1) == DOWN.(level := 1, waits := [Wait(1, 1)], restarting := Some(AwaitBackoff(1)));
  }

  lemma OneStrikeLaunches()
    ensures Reachable(ONE_STRIKE, Alone(LAUNCHED, true, 0))
  {
    var c := ONE_STRIKE;
    OneStrikeGoesDown();
    OneStrikeBacksOff();
    StepReachable(c, Alone(DOWN, true, 0), RestartStep(0));
    assert Apply(c, Alone(DOWN, true, 0), RestartStep(0)) == Alone(LAUNCHED, true, 0);
  }

  lemma OneStrikeRestarts()
    ensures Reachable(ONE_STRIKE, Alone(BACK_UP, true, 0))
  {
    var c := ONE_STRIKE;
    OneStrikeLaunches();
    StepReachable(c, Alone(LAUNCHED, true, 0), StartStep(0, true));
    var started := LAUNCHED.(starting := Some(AwaitHealth));
    assert Apply(c, Alone(LAUNCHED, true, 0), StartStep(0, true)) == Alone(started, true, 0);
    StepReachable(c, Alone(started, true, 0), StartStep(0, true));
    assert Apply(c, Alone(started, true, 0), StartStep(0, true)) == Alone(BACK_UP, true, 0);
  }

  const SICK := BACK_UP.(status := Degraded, ready := false, failures := 1, healthySince := 0,
                         bad := [1, 1], polling := AwaitRestart(0))

  const LEFT := SICK.(restarting := None, restartsDone := 1, polling := Idle)

  lemma OneStrikeJoins()
    ensures Reachable(ONE_STRIKE, Alone(SICK, true, 0))
  {
    var c := ONE_STRIKE;
    OneStrikeRestarts();
    StepReachable(c, Alone(BACK_UP, true, 0), PollStep(0, false));
    assert BACK_UP.bad + [1] == [1, 1];
    assert Apply(c, Alone(BACK_UP, true, 0), PollStep(0, false)) == Alone(SICK, true, 0);
  }

  lemma OneStrikeLeaves()
    ensures Reachable(ONE_STRIKE, Alone(LEFT, false, 1))
  {
    var c := ONE_STRIKE;
    OneStrikeJoins();
    StepReachable(c, Alone(SICK, true, 0), RestartStep(0));
    var ended := SICK.(restarting := None, restartsDone := 1);
    assert Apply(c, Alone(SICK, true, 0), RestartStep(0)) == Alone(ended, true, 0);
    StepReachable(c, Alone(ended, true, 0), PollStep(0, true));
    assert Apply(c, Alone(ended, true, 0), PollStep(0, true)) == Alone(LEFT, true, 0);
    StepReachable(c, Alone(LEFT, true, 0), PollDone);
  }

  /** With a threshold of one the bound fails: a verdict that arrives after the restart
      has started the service, and before the restart's own promise settles, joins that
      restart, so nothing ever acts on it. */
  lemma OneStrikeOvershoots() returns (s: System)
    ensures Reachable(ONE_STRIKE, s) && !FailuresBounded(ONE_STRIKE, s)
    ensures s.services[0].failures > ONE_STRIKE.threshold
  {
    var c := ONE_STRIKE;
    OneStrikeLeaves();
    StepReachable(c, Alone(LEFT, false, 1), CallPoll);
    var polled := Alone(LEFT.(polling := AwaitVerdict), true, 1);
    assert Apply(c, Alone(LEFT, false, 1), CallPoll) == polled;
    StepReachable(c, polled, PollStep(0, false));
    s := Apply(c, polled, PollStep(0, false));
    assert s.services[0].failures == 2;
  }

  // ---------- Restart backoff ----------

  /** Delay and backoff of the first n restarts after a reset. */
  function TotalWait(c: Config, n: nat): nat {
    if n == 0 then 0 else TotalWait(c, n - 1) + c.restartDelay + Backoff(c, n - 1)
  }

  lemma {:induction false} WaitsAddUp(c: Config, waits: seq<Wait>, n: nat)
    requires WaitsOk(c, waits) && 0 < n <= |waits|
    ensures waits[0].begun + TotalWait(c, n) <= waits[n - 1].due
  {
    if n > 1 {
      WaitsAddUp(c, waits, n - 1);
      assert AfterPrevious(waits, n - 1);
    } else {
      assert TotalWait(c, 0) == 0;
    }
  }

  lemma {:induction false} DoubledIsPower(base: nat, n: nat)
    ensures Doubled(base, n) == base * Pow2(n)
  {
    if n > 0 { DoubledIsPower(base, n - 1); }
  }

  /** The n-th wait covers the delay and min(base * 2^n, max). */
  ghost predicate LongEnough(c: Config, w: Wait, n: nat) {
    w.due - w.begun >= c.restartDelay + Min(c.backoffBase * Pow2(n), c.backoffMax)
  }

  lemma WaitAt(c: Config, waits: seq<Wait>, n: nat)
    requires WaitsOk(c, waits) && n < |waits|
    ensures LongEnough(c, waits[n], n)
  {
    DoubledIsPower(c.backoffBase, n);
  }

  lemma ServiceTime(c: Config, s: System, i: nat)
    requires ValidConfig(c) && Reachable(c, s) && i < |s.services|
    ensures TimeOk(c, s.services[i], s.now)
  {
    ReachableOk(c, s);
    assert ServiceOk(c, s.services[i], i, s.now, s.drain, s.polling);
  }

  /** Restart n (from 0) since the level was last zeroed ran at least its delay plus
      min(base * 2^n, max), and the n restarts together at least the sum. */
  lemma BackoffTheorem(c: Config, s: System, i: nat)
    requires ValidConfig(c) && Reachable(c, s) && i < |s.services|
    ensures var sv := s.services[i];
      && |sv.waits| == sv.level
      && (forall n: nat | n < sv.level :: LongEnough(c, sv.waits[n], n))
      && (sv.level > 0 && (sv.restarting.None? || sv.restarting.value.AwaitStarted?) ==>
            sv.waits[0].begun + TotalWait(c, sv.level) <= sv.waits[sv.level - 1].due <= s.now)
  {
    var sv := s.services[i];
    ServiceTime(c, s, i);
    forall n: nat | n < sv.level ensures LongEnough(c, sv.waits[n], n) { WaitAt(c, sv.waits, n); }
    if sv.level > 0 { WaitsAddUp(c, sv.waits, sv.level); }
  }

  /** Unhealthy verdicts and restarts are all on record, with the time they happened. */
  lemma BadIsRecorded(c: Config, s: System, s': System, i: nat)
    requires ValidConfig(c) && Reachable(c, s) && Next(c, s, s') && i < |s.services|
    ensures |s'.services| == |s.services|
    ensures s.services[i].bad <= s'.services[i].bad
    ensures (s'.services[i].restartCount > s.services[i].restartCount ||
             s'.services[i].failures > s.services[i].failures) ==> s.now in s'.services[i].bad
  {
    NextLawful(c, s, s', i);
  }

  /** The backoff level only ever drops to zero, at a time with no unhealthy verdict
      and no restart in the preceding healthyReset. */
  lemma ResetOnlyAfterHealth(c: Config, s: System, s': System, i: nat)
    requires ValidConfig(c) && Reachable(c, s) && Next(c, s, s') && i < |s.services|
    requires |s'.services| == |s.services| && s'.services[i].level < s.services[i].level
    ensures s'.services[i].level == 0
    ensures forall t | t in s.services[i].bad :: t + c.healthyReset <= s.now
  {
    ReachableOk(c, s);
    NextLawful(c, s, s', i);
    assert ServiceOk(c, s.services[i], i, s.now, s.drain, s.polling);
  }
}
