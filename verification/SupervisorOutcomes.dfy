/** What each step of the supervisor does to the services, said of their fields. */
module SupervisorOutcomes {
  import opened Wrappers
  import opened SupervisorModel
  import opened SupervisorInvariant
  import opened SupervisorTheorems

  /** Only service i changes, and nothing of the supervisor but its services. */
  ghost predicate Only(s: System, s': System, i: nat) {
    && i < |s.services| == |s'.services|
    && (forall j | 0 <= j < |s.services| && j != i :: s'.services[j] == s.services[j])
    && s' == s.(services := s'.services)
  }

  /** The fields that only starts, restarts and polls in progress use. */
  predicate SameProgress(sv: Service, sv': Service) {
    && sv'.starting == sv.starting && sv'.startsDone == sv.startsDone
    && sv'.restarting == sv.restarting && sv'.restartsDone == sv.restartsDone
  }

  predicate SamePublic(sv: Service, sv': Service) {
    && sv'.status == sv.status && sv'.running == sv.running && sv'.ready == sv.ready && sv'.failures == sv.failures
  }

  // ---------- start ----------

  /** start() begins a start exactly when not draining and none is in flight. */
  lemma CallStartTheorem(c: Config, s: System, i: nat)
    requires Enabled(c, s, CallStart(i))
    ensures
      var s' := Apply(c, s, CallStart(i));
      var sv, sv' := s.services[i], s'.services[i];
      && Only(s, s', i)
      && (StartsInSight(sv') == StartsInSight(sv) + 1 <==> !s.draining && sv.starting.None?)
      && (s.draining || sv.starting.Some? ==> sv' == sv)
      && (!s.draining && sv.starting.None? ==>
            sv'.starting == Some(AwaitStart) && sv'.status == Starting && !sv'.running && !sv'.ready)
  {
    var s' := Apply(c, s, CallStart(i));
    assert s' == s.(services := s'.services);
  }

  /** A start goes on from start to health to ready; any false or thrown answer of the first two
      ends it STOPPED, and it ends RUNNING exactly when the last answer asked for is true. */
  lemma StartStepTheorem(c: Config, s: System, i: nat, ok: bool)
    requires Enabled(c, s, StartStep(i, ok))
    ensures
      var s' := Apply(c, s, StartStep(i, ok));
      var sv, sv' := s.services[i], s'.services[i];
      var last := sv.starting.value.AwaitReady? || (sv.starting.value.AwaitHealth? && !c.hasReady[i]);
      && Only(s, s', i)
      && (!last && ok ==>
            && SamePublic(sv, sv') && sv'.startsDone == sv.startsDone
            && sv'.starting == Some(if sv.starting.value.AwaitStart? then AwaitHealth else AwaitReady))
      && (last || !ok ==> sv'.starting.None? && sv'.startsDone == sv.startsDone + 1)
      && (!ok && !sv.starting.value.AwaitReady? ==>
            sv'.status == Stopped && !sv'.running && !sv'.ready && sv'.failures == sv.failures)
      && (last && (ok || sv.starting.value.AwaitReady?) ==>
            && sv'.running && sv'.ready == ok && sv'.status == (if ok then Running else Degraded)
            && sv'.failures == 0 && sv'.healthySince == s.now)
      && sv'.restarting == sv.restarting && sv'.polling == sv.polling && sv'.level == sv.level
  {
    var s' := Apply(c, s, StartStep(i, ok));
    assert s' == s.(services := s'.services);
  }

  // ---------- restart ----------

  /** restart() begins a restart exactly when not draining and none is in flight. */
  lemma CallRestartTheorem(c: Config, s: System, i: nat)
    requires Enabled(c, s, CallRestart(i))
    ensures
      var s' := Apply(c, s, CallRestart(i));
      var sv, sv' := s.services[i], s'.services[i];
      && Only(s, s', i)
      && (RestartsInSight(sv') == RestartsInSight(sv) + 1 <==> !s.draining && sv.restarting.None?)
      && (s.draining || sv.restarting.Some? ==> sv' == sv)
      && (!s.draining && sv.restarting.None? ==>
            && sv'.restarting == Some(AwaitStop) && sv'.status == Restarting && !sv'.running && !sv'.ready
            && sv'.restartCount == sv.restartCount + 1 && sv'.failures == sv.failures && sv'.level == sv.level)
  {
    var s' := Apply(c, s, CallRestart(i));
    assert s' == s.(services := s'.services);
  }

  /** The backoff of a restart at this level. */
  function WaitOf(c: Config, level: nat): nat { Min(c.backoffBase * Pow2(level), c.backoffMax) }

  /** The start that ends a restart: none while draining, else a new one or the one in flight. */
  predicate Relaunched(sv: Service, sv': Service, draining: bool) {
    if draining then
      && sv'.restarting.None? && sv'.restartsDone == sv.restartsDone + 1
      && sv'.starting == sv.starting && SamePublic(sv, sv')
    else
      && sv'.restarting == Some(AwaitStarted(sv.startsDone)) && sv'.restartsDone == sv.restartsDone
      && sv'.starting.Some? && (sv.starting.Some? ==> sv'.starting == sv.starting && SamePublic(sv, sv'))
      && (sv.starting.None? ==> sv'.starting == Some(AwaitStart) && sv'.status == Starting && !sv'.running)
  }

  /** After its stop a restart waits exactly the delay, then exactly min(base * 2^level, max) with
      the level raised by one, then starts the service unless draining, and ends with that start. */
  lemma RestartStepTheorem(c: Config, s: System, i: nat)
    requires Enabled(c, s, RestartStep(i))
    ensures
      var s' := Apply(c, s, RestartStep(i));
      var sv, sv' := s.services[i], s'.services[i];
      var stage := sv.restarting.value;
      var wait := WaitOf(c, sv.level);
      && Only(s, s', i) && sv'.polling == sv.polling
      && (stage.AwaitStop? && c.restartDelay > 0 ==>
            sv' == sv.(restarting := Some(AwaitDelay(s.now + c.restartDelay))))
      && (stage.AwaitDelay? || (stage.AwaitStop? && c.restartDelay == 0) ==>
            && sv'.level == sv.level + 1
            && (wait > 0 ==> sv'.restarting == Some(AwaitBackoff(s.now + wait)) && SamePublic(sv, sv'))
            && (wait == 0 ==> Relaunched(sv, sv', s.draining)))
      && (stage.AwaitBackoff? ==> sv'.level == sv.level && Relaunched(sv, sv', s.draining))
      && (stage.AwaitStarted? ==> sv' == sv.(restarting := None, restartsDone := sv.restartsDone + 1))
      && (stage.AwaitDelay? || stage.AwaitBackoff? ==> stage.until <= s.now)
  {
    var s' := Apply(c, s, RestartStep(i));
    assert s' == s.(services := s'.services);
    DoubledIsPower(c.backoffBase, s.services[i].level);
  }

  // ---------- poll ----------

  /** A poll skips a service with a start or restart in flight, restarts one that is not
      running, and asks every other for its health. */
  lemma CallPollTheorem(c: Config, s: System, i: nat)
    requires Enabled(c, s, CallPoll) && i < |s.services|
    ensures
      var s' := Apply(c, s, CallPoll);
      && |s'.services| == |s.services|
      && (s.draining || s.polling ==> s' == s)
      && (!s.draining && !s.polling ==>
            var sv, sv' := s.services[i], s'.services[i];
            && s'.polling
            && (InFlight(sv) ==> sv' == sv.(polling := Idle))
            && (!InFlight(sv) && sv.running ==> sv' == sv.(polling := AwaitVerdict))
            && (!InFlight(sv) && !sv.running ==>
                  && sv'.restarting == Some(AwaitStop) && sv'.status == Restarting
                  && sv'.polling == AwaitRestart(sv.restartsDone) && sv'.failures == sv.failures))
  {
  }

  /** A failed verdict adds one failure, and begins a restart exactly when the failures reach the
      threshold, no drain is on and no restart is in flight; else the service stays up, DEGRADED. */
  lemma FailedVerdictTheorem(c: Config, s: System, i: nat)
    requires Enabled(c, s, PollStep(i, false)) && s.services[i].polling.AwaitVerdict?
    ensures
      var s' := Apply(c, s, PollStep(i, false));
      var sv, sv' := s.services[i], s'.services[i];
      var strikes := sv.failures + 1 >= c.threshold;
      var restarts := strikes && !s.draining && sv.restarting.None?;
      && Only(s, s', i)
      && sv'.failures == sv.failures + 1 && !sv'.ready && sv'.healthySince == 0
      && sv'.starting == sv.starting && sv'.level == sv.level
      && RestartsInSight(sv') == RestartsInSight(sv) + (if restarts then 1 else 0)
      && (restarts ==> sv'.restarting == Some(AwaitStop) && sv'.status == Restarting && !sv'.running
                       && sv'.restartCount == sv.restartCount + 1)
      && (!restarts ==> sv'.status == Degraded && sv'.running == sv.running && SameProgress(sv, sv')
                        && sv'.restartCount == sv.restartCount)
      && sv'.polling == (if strikes && !s.draining then AwaitRestart(sv.restartsDone) else Idle)
  {
    var s' := Apply(c, s, PollStep(i, false));
    assert s' == s.(services := s'.services);
  }

  /** A healthy verdict begins no restart. It zeroes the backoff level exactly when the service
      has been healthy for healthyReset, and ends the poll unless readiness is still to be asked. */
  lemma HealthyVerdictTheorem(c: Config, s: System, i: nat)
    requires Enabled(c, s, PollStep(i, true)) && s.services[i].polling.AwaitVerdict?
    ensures
      var s' := Apply(c, s, PollStep(i, true));
      var sv, sv' := s.services[i], s'.services[i];
      var since := if sv.healthySince == 0 then s.now else sv.healthySince;
      && Only(s, s', i) && SameProgress(sv, sv') && sv'.restartCount == sv.restartCount && sv'.healthySince == since
      && sv'.level == (if since + c.healthyReset <= s.now then 0 else sv.level)
      && (c.hasReady[i] ==> sv'.polling == AwaitReadiness && SamePublic(sv, sv'))
      && (!c.hasReady[i] ==>
            sv'.polling == Idle && sv'.failures == 0 && sv'.status == Running && sv'.running && sv'.ready)
  {
    var s' := Apply(c, s, PollStep(i, true));
    assert s' == s.(services := s'.services);
  }

  /** The readiness answer ends a healthy poll: failures are forgotten, and the service is RUNNING
      exactly when ready. The end of an awaited restart only ends the poll. */
  lemma PollEndTheorem(c: Config, s: System, i: nat, ok: bool)
    requires Enabled(c, s, PollStep(i, ok)) && !s.services[i].polling.AwaitVerdict?
    ensures
      var s' := Apply(c, s, PollStep(i, ok));
      var sv, sv' := s.services[i], s'.services[i];
      && Only(s, s', i) && SameProgress(sv, sv') && sv'.polling == Idle && sv'.level == sv.level
      && (sv.polling.AwaitReadiness? ==>
            && sv'.failures == 0 && sv'.running && sv'.ready == ok
            && sv'.status == (if ok then Running else Degraded))
      && (sv.polling.AwaitRestart? ==> sv' == sv.(polling := Idle))
  {
    var s' := Apply(c, s, PollStep(i, ok));
    assert s' == s.(services := s'.services);
  }

  // ---------- stop and drain ----------

  /** stop() with nothing in flight marks the service DRAINING at once; otherwise it waits for
      exactly the operations in flight and changes no service. */
  lemma CallStopTheorem(c: Config, s: System, i: nat)
    requires Enabled(c, s, CallStop(i))
    ensures
      var s' := Apply(c, s, CallStop(i));
      var sv := s.services[i];
      && |s'.services| == |s.services|
      && (InFlight(sv) ==>
            s' == s.(stops := s.stops + [StopWaiting(i, StartsInSight(sv), RestartsInSight(sv))]))
      && (!InFlight(sv) ==>
            && s'.stops == s.stops + [StopRunning(i)]
            && s'.services == s.services[i := sv.(status := Draining, ready := false)])
  {
  }

  /** A waiting stop goes on only when those operations have settled; a settled stop leaves the
      service STOPPED, not running, not ready and with no failures. */
  lemma StopStepTheorem(c: Config, s: System, k: nat)
    requires Enabled(c, s, StopStep(k))
    ensures
      var s' := Apply(c, s, StopStep(k));
      var i := s.stops[k].service;
      && i < |s.services| == |s'.services|
      && var sv, sv' := s.services[i], s'.services[i];
         && (forall j | 0 <= j < |s.services| && j != i :: s'.services[j] == s.services[j])
         && SameProgress(sv, sv')
         && (s.stops[k].StopWaiting? ==>
               && s.stops[k].starts <= sv.startsDone && s.stops[k].restarts <= sv.restartsDone
               && sv'.status == Draining && !sv'.ready && s'.stops[k] == StopRunning(i))
         && (s.stops[k].StopRunning? ==>
               sv'.status == Stopped && !sv'.running && !sv'.ready && sv'.failures == 0)
  {
  }

  /** drainAll() joins a drain in progress; otherwise it sets draining, and waits for a poll, or
      for what is in flight, before it stops the first service of the drain order. */
  lemma CallDrainTheorem(c: Config, s: System)
    requires Enabled(c, s, CallDrain)
    ensures
      var s' := Apply(c, s, CallDrain);
      && (s.drain.Some? ==> s' == s)
      && (s.drain.None? ==> s'.draining && s'.drain.Some?)
      && (s.drain.None? && s.polling ==> s'.drain == Some(AwaitPoll(s.pollsDone)) && s'.services == s.services)
      && (s.drain.None? && !s.polling && (exists i :: 0 <= i < |s.services| && InFlight(s.services[i])) ==>
            s'.drain.value.AwaitInFlight? && s'.services == s.services)
      && (s.drain.None? && !s.polling && !(exists i :: 0 <= i < |s.services| && InFlight(s.services[i])) ==>
            var first := DrainOrder(c)[0];
            && s'.drain == Some(AwaitStops(0, [Began(first)]))
            && s'.services[first] == s.services[first].(status := Draining, ready := false))
  {
    assert [] + [Began(DrainOrder(c)[0])] == [Began(DrainOrder(c)[0])];
  }

  /** A drain waits for the poll it found and then for every operation it found in flight; then
      each step stops the service at its position and begins the next, or ends the drain. */
  lemma DrainStepTheorem(c: Config, s: System)
    requires Enabled(c, s, DrainStep)
    ensures
      var s' := Apply(c, s, DrainStep);
      var order := DrainOrder(c);
      && |s'.services| == |s.services|
      && (s.drain.value.AwaitPoll? ==> s.drain.value.ticket < s.pollsDone)
      && (s.drain.value.AwaitInFlight? ==>
            && s'.drain == Some(AwaitStops(0, [Began(order[0])]))
            && s'.services == s.services[order[0] := Entered(s.services[order[0]])])
      && (s.drain.value.AwaitStops? ==>
            var at, log := s.drain.value.position, s.drain.value.log;
            && at < |order|
            && (at + 1 < |order| ==>
                  && s'.drain == Some(AwaitStops(at + 1, log + [Settled(order[at])] + [Began(order[at + 1])]))
                  && var stopped := s.services[order[at] := Left(s.services[order[at]])];
                     s'.services == stopped[order[at + 1] := Entered(stopped[order[at + 1]])])
            && (at + 1 == |order| ==>
                  && s'.drain.None? && !s'.draining && s'.drained == s.drained + [log + [Settled(order[at])]]
                  && s'.services == s.services[order[at] := Left(s.services[order[at]])]))
  {
    assert [] + [Began(DrainOrder(c)[0])] == [Began(DrainOrder(c)[0])];
  }

  function Entered(sv: Service): Service { sv.(status := Draining, ready := false) }

  function Left(sv: Service): Service { sv.(status := Stopped, running := false, ready := false, failures := 0) }
}
