/** startAll: phases in ascending order, each begun only after the one before has started. */
module SupervisorBoots {
  import opened Wrappers
  import opened SupervisorModel
  import opened SupervisorInvariant
  import opened SupervisorTheorems

  // ---------- The phases ----------

  ghost predicate StrictlyAscending(xs: seq<nat>) { forall i, j | 0 <= i < j < |xs| :: xs[i] < xs[j] }

  lemma {:induction false} InsertPhaseSorts(p: nat, rest: seq<nat>)
    requires StrictlyAscending(rest)
    ensures StrictlyAscending(InsertPhase(p, rest))
    ensures forall x: nat :: x in InsertPhase(p, rest) <==> x == p || x in rest
  {
    if rest != [] && p > rest[0] {
      InsertPhaseSorts(p, rest[1..]);
      var tail := InsertPhase(p, rest[1..]);
      assert rest == [rest[0]] + rest[1..];
      forall j | 0 <= j < |tail| ensures rest[0] < tail[j] { assert tail[j] in tail; }
    }
  }

  /** The phases of a boot: exactly the services' phases, each once, ascending. */
  lemma {:induction false} PhasesTheorem(phases: seq<nat>)
    ensures StrictlyAscending(PhasesOf(phases))
    ensures forall x: nat :: x in PhasesOf(phases) <==> x in phases
  {
    if phases != [] {
      PhasesTheorem(phases[1..]);
      InsertPhaseSorts(phases[0], PhasesOf(phases[1..]));
      assert phases == [phases[0]] + phases[1..];
    }
  }

  /** No service's phase lies between two neighbours, or above the last. */
  lemma NoPhaseBetween(phases: seq<nat>, position: nat, i: nat)
    requires position < |PhasesOf(phases)| && i < |phases|
    requires position + 1 < |PhasesOf(phases)| ==> phases[i] < PhasesOf(phases)[position + 1]
    ensures phases[i] <= PhasesOf(phases)[position]
  {
    PhasesTheorem(phases);
    var all := PhasesOf(phases);
    assert phases[i] in all;
    var j :| 0 <= j < |all| && all[j] == phases[i];
    assert j <= position;
  }

  // ---------- What a boot under way has seen ----------

  /** One service, seen from a boot whose current phase is `current`. */
  ghost predicate SeenOk(phase: nat, current: nat, sv: Service, start: nat, since: nat) {
    && since <= sv.startsDone
    && (phase < current ==> since < sv.startsDone)
    && (phase == current ==> since < start <= StartsInSight(sv))
  }

  ghost predicate BootOk(c: Config, services: seq<Service>, b: Boot) {
    b.BootPhase? ==>
      && b.position < |PhasesOf(c.phases)|
      && |b.starts| == |b.since| == |services| == |c.phases|
      && forall i | 0 <= i < |services| ::
           SeenOk(c.phases[i], PhasesOf(c.phases)[b.position], services[i], b.starts[i], b.since[i])
  }

  ghost predicate BootsOk(c: Config, s: System) { forall k | 0 <= k < |s.boots| :: BootOk(c, s.services, s.boots[k]) }

  /** Starts only ever settle: what a boot has seen stays true. */
  lemma BootStays(c: Config, s: System, s': System, b: Boot)
    requires |s.services| == |s'.services| && BootOk(c, s.services, b)
    requires forall i: nat | i < |s.services| :: LawfulAt(c, s, s', i)
    ensures BootOk(c, s'.services, b)
  {
    if b.BootPhase? {
      forall i | 0 <= i < |s'.services|
        ensures SeenOk(c.phases[i], PhasesOf(c.phases)[b.position], s'.services[i], b.starts[i], b.since[i])
      {
        assert LawfulAt(c, s, s', i);
      }
    }
  }

  /** Before a phase is launched every service of an earlier phase has started. */
  ghost predicate MayLaunch(c: Config, services: seq<Service>, position: nat, since: seq<nat>) {
    && |since| == |services| == |c.phases|
    && forall i | 0 <= i < |services| ::
         && since[i] <= services[i].startsDone
         && (position < |PhasesOf(c.phases)| && c.phases[i] < PhasesOf(c.phases)[position] ==>
               since[i] < services[i].startsDone)
         && (position >= |PhasesOf(c.phases)| ==> since[i] < services[i].startsDone)
  }

  lemma FirstPhaseMayLaunch(c: Config, s: System)
    requires ValidConfig(c) && |s.services| == |c.phases|
    ensures MayLaunch(c, s.services, 0, StartsSettled(s))
  {
    PhasesTheorem(c.phases);
    var all := PhasesOf(c.phases);
    assert c.phases[0] in all;
    forall i | 0 <= i < |s.services| ensures c.phases[i] >= all[0] {
      assert c.phases[i] in all;
      var j :| 0 <= j < |all| && all[j] == c.phases[i];
      assert j == 0 || all[0] < all[j];
    }
  }

  /** When every start of a phase has settled the next may be launched, and after the last
      phase every service has started. */
  lemma NextPhaseMayLaunch(c: Config, s: System, k: nat)
    requires |s.services| == |c.phases| && BootMayProceed(s, k) && s.boots[k].BootPhase?
    requires BootOk(c, s.services, s.boots[k])
    ensures MayLaunch(c, s.services, s.boots[k].position + 1, s.boots[k].since)
  {
    var b, all := s.boots[k], PhasesOf(c.phases);
    forall i | 0 <= i < |s.services|
      ensures b.since[i] <= s.services[i].startsDone
      ensures (b.position + 1 < |all| ==> c.phases[i] < all[b.position + 1]) ==> b.since[i] < s.services[i].startsDone
    {
      assert SeenOk(c.phases[i], all[b.position], s.services[i], b.starts[i], b.since[i]);
      if b.position + 1 < |all| ==> c.phases[i] < all[b.position + 1] { NoPhaseBetween(c.phases, b.position, i); }
    }
  }

  lemma LaunchedOk(c: Config, s: System, k: nat, position: nat, since: seq<nat>)
    requires k < |s.boots| && |s.services| == |c.phases| && MayLaunch(c, s.services, position, since)
    requires position < |PhasesOf(c.phases)| && !s.draining
    ensures var s' := LaunchPhase(c, s, k, position, since);
      s'.boots[k].BootPhase? && BootOk(c, s'.services, s'.boots[k])
  {
  }

  /** Launching a phase, or ending the call, leaves every boot in order. */
  lemma LaunchBoots(c: Config, from: System, k: nat, position: nat, since: seq<nat>)
    requires k < |from.boots| && |from.services| == |c.phases| && MayLaunch(c, from.services, position, since)
    requires forall j | 0 <= j < |from.boots| ::
      BootOk(c, LaunchPhase(c, from, k, position, since).services, from.boots[j])
    ensures BootsOk(c, LaunchPhase(c, from, k, position, since))
  {
    if position < |PhasesOf(c.phases)| && !from.draining { LaunchedOk(c, from, k, position, since); }
  }

  lemma BootSteppedBoots(c: Config, s: System, k: nat)
    requires ValidConfig(c) && |s.services| == |c.phases| && BootMayProceed(s, k) && BootOk(c, s.services, s.boots[k])
    requires forall j | 0 <= j < |s.boots| :: BootOk(c, BootStepped(c, s, k).services, s.boots[j])
    ensures BootsOk(c, BootStepped(c, s, k))
  {
    match s.boots[k] {
      case BootPending =>
        FirstPhaseMayLaunch(c, s);
        LaunchBoots(c, s.(draining := false), k, 0, StartsSettled(s));
      case BootPhase(position, _, since) =>
        NextPhaseMayLaunch(c, s, k);
        LaunchBoots(c, s, k, position + 1, since);
    }
  }

  lemma BootsStay(c: Config, s: System, l: Label)
    requires Inv(c, s) && BootsOk(c, s) && Enabled(c, s, l)
    ensures forall j | 0 <= j < |s.boots| :: BootOk(c, Apply(c, s, l).services, s.boots[j])
  {
    var s' := Apply(c, s, l);
    StepOk(c, s, l);
    forall i: nat | i < |s.services| ensures LawfulAt(c, s, s', i) { StepLawful(c, s, l, i); }
    forall j | 0 <= j < |s.boots| ensures BootOk(c, s'.services, s.boots[j]) { BootStays(c, s, s', s.boots[j]); }
  }

  lemma StepBoots(c: Config, s: System, l: Label)
    requires Inv(c, s) && BootsOk(c, s) && Enabled(c, s, l)
    ensures BootsOk(c, Apply(c, s, l))
  {
    BootsStay(c, s, l);
    if l.BootStep? { BootSteppedBoots(c, s, l.k); } else { BootsUntouched(c, s, l); }
  }

  lemma BootsUntouched(c: Config, s: System, l: Label)
    requires Enabled(c, s, l) && !l.BootStep?
    ensures Apply(c, s, l).boots == if l.CallStartAll? then s.boots + [BootPending] else s.boots
  {
  }

  lemma {:induction false} RunBoots(c: Config, run: seq<System>, k: nat)
    requires ValidConfig(c) && IsRun(c, run) && k < |run|
    ensures BootsOk(c, run[k])
  {
    if k > 0 {
      RunBoots(c, run, k - 1);
      RunOk(c, run, k - 1);
      assert StepAt(c, run, k - 1);
      NextBoots(c, run[k - 1], run[k]);
    }
  }

  lemma NextBoots(c: Config, s: System, s': System)
    requires Inv(c, s) && BootsOk(c, s) && Next(c, s, s')
    ensures BootsOk(c, s')
  {
    var l :| Enabled(c, s, l) && s' == Apply(c, s, l);
    StepBoots(c, s, l);
  }

  /** In every reachable state, each startAll under way has seen a start settle for every
      service of the phases before its current one, and the start it awaits for each service of
      the current phase is in flight or has settled. */
  lemma BootTheorem(c: Config, s: System, k: nat, i: nat)
    requires ValidConfig(c) && Reachable(c, s) && k < |s.boots| && s.boots[k].BootPhase? && i < |c.phases|
    ensures var b := s.boots[k];
      && b.position < |PhasesOf(c.phases)| && |b.since| == |b.starts| == |s.services| == |c.phases|
      && (c.phases[i] < PhasesOf(c.phases)[b.position] ==> b.since[i] < s.services[i].startsDone)
      && (c.phases[i] == PhasesOf(c.phases)[b.position] ==>
            b.since[i] < b.starts[i] && (b.starts[i] <= s.services[i].startsDone || s.services[i].starting.Some?))
  {
    var run :| IsRun(c, run) && run[|run| - 1] == s;
    RunBoots(c, run, |run| - 1);
    assert BootOk(c, s.services, s.boots[k]);
    var b := s.boots[k];
    assert SeenOk(c.phases[i], PhasesOf(c.phases)[b.position], s.services[i], b.starts[i], b.since[i]);
  }

  /** What launching a phase does: ends the call when there is none left or a drain has begun,
      else begins exactly the services of that phase. */
  ghost predicate Launches(c: Config, s: System, s': System, k: nat, position: nat, i: nat)
    requires k < |s.boots| && i < |s.services| == |s'.services| == |c.phases|
  {
    var all := PhasesOf(c.phases);
    if position < |all| && !s.draining then
      && k < |s'.boots| && s'.boots[k].BootPhase? && s'.boots[k].position == position
      && (c.phases[i] == all[position] ==> s'.services[i].starting.Some?)
      && (c.phases[i] != all[position] ==> s'.services[i] == s.services[i])
    else s'.boots == Without(s.boots, k) && s'.services[i] == s.services[i]
  }

  lemma LaunchEffect(c: Config, s: System, k: nat, position: nat, since: seq<nat>, i: nat)
    requires k < |s.boots| && i < |s.services| == |c.phases|
    ensures var s' := LaunchPhase(c, s, k, position, since);
      |s'.services| == |c.phases| && Launches(c, s, s', k, position, i)
  {
  }

  /** Every service up to the boot's phase, or every service if that phase is the last. */
  lemma SettledSince(c: Config, s: System, k: nat, i: nat)
    requires ValidConfig(c) && Reachable(c, s) && BootMayProceed(s, k) && s.boots[k].BootPhase? && i < |c.phases|
    ensures var b, all := s.boots[k], PhasesOf(c.phases);
      && b.position < |all| && |b.since| == |s.services| == |c.phases|
      && (c.phases[i] <= all[b.position] || b.position + 1 == |all| ==> b.since[i] < s.services[i].startsDone)
  {
    BootTheorem(c, s, k, i);
    var b, all := s.boots[k], PhasesOf(c.phases);
    if b.position + 1 == |all| { NoPhaseBetween(c.phases, b.position, i); }
  }

  /** startAll goes on from a phase only when every start it awaits there has settled: by then
      every service up to that phase, and after the last phase every service, has had a start
      settle since the call began. It then begins exactly the services of the next phase. */
  lemma NextPhaseTheorem(c: Config, s: System, k: nat, i: nat)
    requires ValidConfig(c) && Reachable(c, s) && Enabled(c, s, BootStep(k)) && s.boots[k].BootPhase? && i < |c.phases|
    ensures
      var b, all, s' := s.boots[k], PhasesOf(c.phases), Apply(c, s, BootStep(k));
      && b.position < |all| && |b.since| == |s.services| == |s'.services| == |c.phases|
      && (c.phases[i] <= all[b.position] || b.position + 1 == |all| ==> b.since[i] < s.services[i].startsDone)
      && Launches(c, s, s', k, b.position + 1, i)
  {
    var b := s.boots[k];
    SettledSince(c, s, k, i);
    LaunchEffect(c, s, k, b.position + 1, b.since, i);
  }

  /** startAll leaves its wait only when no drain is on; it clears draining and begins exactly the
      services of the lowest phase. */
  lemma FirstPhaseTheorem(c: Config, s: System, k: nat, i: nat)
    requires ValidConfig(c) && Enabled(c, s, BootStep(k)) && s.boots[k].BootPending? && i < |c.phases|
    ensures
      var s' := Apply(c, s, BootStep(k));
      && s.drain.None? && !s'.draining && |s'.services| == |s.services| == |c.phases|
      && PhasesOf(c.phases) != [] && PhasesOf(c.phases)[0] <= c.phases[i]
      && s'.boots[k].BootPhase? && s'.boots[k].position == 0 && s'.boots[k].since == StartsSettled(s)
      && (c.phases[i] == PhasesOf(c.phases)[0] ==> s'.services[i].starting.Some?)
      && (c.phases[i] != PhasesOf(c.phases)[0] ==> s'.services[i] == s.services[i])
  {
    PhasesTheorem(c.phases);
    var all := PhasesOf(c.phases);
    assert c.phases[i] in all;
    var j :| 0 <= j < |all| && all[j] == c.phases[i];
    assert j == 0 || all[0] < all[j];
    LaunchEffect(c, s.(draining := false), k, 0, StartsSettled(s), i);
  }
}
