/**
 The service supervisor as a machine whose steps are the stretches of code
 between two awaits.  Every call (start, stop, restart, poll, startAll, drainAll)
 and every settled promise is one step, so any interleaving of pending calls is
 a run of this machine.  A promise and the field that publishes it are cleared in
 the same step: the publisher registers the first continuation on its promise.
 */
module SupervisorModel {
  import opened Wrappers

  datatype Status = Stopped | Starting | Running | Degraded | Restarting | Draining

  /** `phases[i]` and `hasReady[i]` describe the i-th service; its order is i. */
  datatype Config = Config(
    phases: seq<nat>,
    hasReady: seq<bool>,
    threshold: nat,
    restartDelay: nat,
    backoffBase: nat,
    backoffMax: nat,
    healthyReset: nat)

  predicate ValidConfig(c: Config) {
    |c.phases| > 0 && |c.hasReady| == |c.phases| && c.threshold >= 1
  }

  /** What an in-flight start operation is waiting for. */
  datatype StartStage = AwaitStart | AwaitHealth | AwaitReady

  /** What an in-flight restart operation is waiting for; `AwaitStarted(t)` waits
      for the service's t-th start operation. */
  datatype RestartStage =
    | AwaitStop
    | AwaitDelay(until: nat)
    | AwaitBackoff(until: nat)
    | AwaitStarted(ticket: nat)

  /** Where the current poll stands for one service. */
  datatype PollStage = Idle | AwaitVerdict | AwaitReadiness | AwaitRestart(ticket: nat)

  /** History: one restart, from its first step to the end of its backoff. */
  datatype Wait = Wait(begun: nat, due: nat)

  /**
   `starting` and `restarting` stand for the two promise fields; `startsDone` and
   `restartsDone` number the operations, so that a waiter can name the one it waits
   for.  `restartBegun`, `waits` and `bad` are history: the time the restart in
   flight began, the restarts since the backoff level was last zeroed, and the
   times of all unhealthy verdicts and restarts.
   */
  datatype Service = Service(
    status: Status,
    running: bool,
    ready: bool,
    failures: nat,
    restartCount: nat,
    level: nat,
    healthySince: nat,
    starting: Option<StartStage>,
    startsDone: nat,
    restarting: Option<RestartStage>,
    restartsDone: nat,
    polling: PollStage,
    restartBegun: nat,
    waits: seq<Wait>,
    bad: seq<nat>)

  datatype DrainEvent = Began(service: nat) | Settled(service: nat)

  /** `AwaitInFlight` holds, per service, how many operations must have settled. */
  datatype Drain =
    | AwaitPoll(ticket: nat)
    | AwaitInFlight(starts: seq<nat>, restarts: seq<nat>)
    | AwaitStops(position: nat, log: seq<DrainEvent>)

  datatype StopCall =
    | StopWaiting(service: nat, starts: nat, restarts: nat)
    | StopRunning(service: nat)

  /** A startAll call: waiting for a drain, or for the starts of one phase. `since` is history:
      how many starts of each service had settled when the call began its first phase. */
  datatype Boot = BootPending | BootPhase(position: nat, starts: seq<nat>, since: seq<nat>)

  /** `drained` is history: what each finished drain loop did. */
  datatype System = System(
    services: seq<Service>,
    draining: bool,
    drain: Option<Drain>,
    polling: bool,
    pollsDone: nat,
    stops: seq<StopCall>,
    boots: seq<Boot>,
    now: nat,
    drained: seq<seq<DrainEvent>>)

  const FRESH := Service(Stopped, false, false, 0, 0, 0, 0, None, 0, None, 0, Idle, 0, [], [])

  function Init(c: Config): System {
    System(seq(|c.phases|, _ => FRESH), false, None, false, 0, [], [], 1, [])
  }

  // ---------- One service: start ----------

  function BeginStart(sv: Service): Service {
    if sv.starting.Some? then sv
    else sv.(status := Starting, running := false, ready := false, starting := Some(AwaitStart))
  }

  function FailStart(sv: Service): Service {
    sv.(status := Stopped, running := false, ready := false, healthySince := 0,
        starting := None, startsDone := sv.startsDone + 1)
  }

  function FinishStart(sv: Service, ready: bool, now: nat): Service {
    sv.(status := if ready then Running else Degraded, running := true, ready := ready,
        failures := 0, healthySince := now,
        starting := None, startsDone := sv.startsDone + 1)
  }

  /** `ok` is the settled value of the awaited call; a throw counts as false. */
  function StartSettled(sv: Service, hasReady: bool, ok: bool, now: nat): Service
    requires sv.starting.Some?
  {
    match sv.starting.value
    case AwaitStart => if ok then sv.(starting := Some(AwaitHealth)) else FailStart(sv)
    case AwaitHealth =>
      if !ok then FailStart(sv)
      else if hasReady then sv.(starting := Some(AwaitReady))
      else FinishStart(sv, true, now)
    case AwaitReady => FinishStart(sv, ok, now)
  }

  // ---------- One service: restart ----------

  function Pow2(n: nat): nat {
    if n == 0 then 1 else 2 * Pow2(n - 1)
  }

  /** base * 2^n, by doubling. */
  function Doubled(base: nat, n: nat): nat {
    if n == 0 then base else 2 * Doubled(base, n - 1)
  }

  function Min(a: nat, b: nat): nat { if a < b then a else b }

  function Backoff(c: Config, level: nat): nat {
    Min(Doubled(c.backoffBase, level), c.backoffMax)
  }

  function BeginRestart(sv: Service, now: nat): Service {
    if sv.restarting.Some? then sv
    else sv.(status := Restarting, running := false, ready := false,
             restartCount := sv.restartCount + 1, healthySince := 0,
             restarting := Some(AwaitStop), restartBegun := now, bad := sv.bad + [now])
  }

  function EndRestart(sv: Service): Service {
    sv.(restarting := None, restartsDone := sv.restartsDone + 1)
  }

  function LaunchRestart(sv: Service, draining: bool): Service {
    if draining then EndRestart(sv)
    else BeginStart(sv).(restarting := Some(AwaitStarted(sv.startsDone)))
  }

  function BackedOff(sv: Service, due: nat): Service {
    sv.(level := sv.level + 1, waits := sv.waits + [Wait(sv.restartBegun, due)],
        restarting := Some(AwaitBackoff(due)))
  }

  function BackOff(c: Config, sv: Service, draining: bool, now: nat): Service {
    var due := now + Backoff(c, sv.level);
    if due > now then BackedOff(sv, due) else LaunchRestart(BackedOff(sv, due), draining)
  }

  predicate RestartMayProceed(sv: Service, now: nat) {
    sv.restarting.Some? &&
    match sv.restarting.value
    case AwaitStop => true
    case AwaitDelay(until) => until <= now
    case AwaitBackoff(until) => until <= now
    case AwaitStarted(ticket) => ticket < sv.startsDone
  }

  function RestartSettled(c: Config, sv: Service, draining: bool, now: nat): Service
    requires RestartMayProceed(sv, now)
  {
    match sv.restarting.value
    case AwaitStop =>
      if c.restartDelay > 0 then sv.(restarting := Some(AwaitDelay(now + c.restartDelay)))
      else BackOff(c, sv, draining, now)
    case AwaitDelay(_) => BackOff(c, sv, draining, now)
    case AwaitBackoff(_) => LaunchRestart(sv, draining)
    case AwaitStarted(_) => EndRestart(sv)
  }

  // ---------- One service: poll ----------

  /** The service's share of a poll awaits restart(), which does nothing while draining. */
  function PollRestart(sv: Service, draining: bool, now: nat): Service {
    if draining then sv.(polling := Idle)
    else BeginRestart(sv, now).(polling := AwaitRestart(sv.restartsDone))
  }

  function BeginPoll(sv: Service, draining: bool, now: nat): Service {
    if draining || sv.starting.Some? || sv.restarting.Some? then sv.(polling := Idle)
    else if !sv.running then PollRestart(sv, draining, now)
    else sv.(polling := AwaitVerdict)
  }

  function Unhealthy(c: Config, sv: Service, draining: bool, now: nat): Service {
    var sv' := sv.(status := Degraded, ready := false, failures := sv.failures + 1,
                   healthySince := 0, bad := sv.bad + [now], polling := Idle);
    if sv.failures + 1 >= c.threshold then PollRestart(sv', draining, now) else sv'
  }

  function FinishPoll(sv: Service, ready: bool): Service {
    sv.(status := if ready then Running else Degraded, running := true, ready := ready,
        failures := 0, polling := Idle)
  }

  function Healthy(c: Config, sv: Service, hasReady: bool, now: nat): Service {
    var since := if sv.healthySince == 0 then now else sv.healthySince;
    var sv' := sv.(healthySince := since);
    var sv'' := if sv.level > 0 && now >= since && now - since >= c.healthyReset
                then sv'.(level := 0, waits := []) else sv';
    if hasReady then sv''.(polling := AwaitReadiness) else FinishPoll(sv'', true)
  }

  predicate PollMayProceed(sv: Service) {
    sv.polling.AwaitVerdict? || sv.polling.AwaitReadiness? ||
    (sv.polling.AwaitRestart? && sv.polling.ticket < sv.restartsDone)
  }

  function PollSettled(c: Config, sv: Service, hasReady: bool, ok: bool, draining: bool, now: nat): Service
    requires PollMayProceed(sv)
  {
    match sv.polling
    case AwaitVerdict => if ok then Healthy(c, sv, hasReady, now) else Unhealthy(c, sv, draining, now)
    case AwaitReadiness => FinishPoll(sv, ok)
    case AwaitRestart(_) => sv.(polling := Idle)
  }

  // ---------- One service: stop ----------

  function EnterStop(sv: Service): Service { sv.(status := Draining, ready := false) }

  function FinishStop(sv: Service): Service {
    sv.(status := Stopped, running := false, ready := false, failures := 0)
  }

  function StartsInSight(sv: Service): nat { sv.startsDone + if sv.starting.Some? then 1 else 0 }

  function RestartsInSight(sv: Service): nat { sv.restartsDone + if sv.restarting.Some? then 1 else 0 }

  predicate InFlight(sv: Service) { sv.starting.Some? || sv.restarting.Some? }

  // ---------- Orders ----------

  /** (phase, order) of service i is above that of service j. */
  predicate Above(c: Config, i: nat, j: nat)
    requires i < |c.phases| && j < |c.phases|
  {
    c.phases[i] > c.phases[j] || (c.phases[i] == c.phases[j] && i > j)
  }

  predicate Below(order: seq<nat>, n: nat) {
    forall k | 0 <= k < |order| :: order[k] < n
  }

  function InsertAbove(c: Config, i: nat, rest: seq<nat>): (order: seq<nat>)
    requires i < |c.phases| && Below(rest, |c.phases|)
    ensures |order| == |rest| + 1 && Below(order, |c.phases|)
  {
    if rest == [] || Above(c, i, rest[0]) then [i] + rest
    else [rest[0]] + InsertAbove(c, i, rest[1..])
  }

  /** Services 0..n-1, highest (phase, order) first. */
  function DrainOrderTo(c: Config, n: nat): (order: seq<nat>)
    requires n <= |c.phases|
    ensures |order| == n && Below(order, |c.phases|)
  {
    if n == 0 then [] else InsertAbove(c, n - 1, DrainOrderTo(c, n - 1))
  }

  function DrainOrder(c: Config): (order: seq<nat>)
    ensures |order| == |c.phases| && Below(order, |c.phases|)
  {
    DrainOrderTo(c, |c.phases|)
  }

  function InsertPhase(p: nat, rest: seq<nat>): seq<nat> {
    if rest == [] || p < rest[0] then [p] + rest
    else if p == rest[0] then rest
    else [rest[0]] + InsertPhase(p, rest[1..])
  }

  /** The distinct phases, ascending. */
  function PhasesOf(phases: seq<nat>): seq<nat> {
    if phases == [] then [] else InsertPhase(phases[0], PhasesOf(phases[1..]))
  }

  // ---------- The whole supervisor ----------

  datatype Label =
    | Tick(ms: nat)
    | CallStart(i: nat)
    | StartStep(i: nat, ok: bool)
    | CallRestart(i: nat)
    | RestartStep(i: nat)
    | CallPoll
    | PollStep(i: nat, ok: bool)
    | PollDone
    | CallStop(i: nat)
    | StopStep(k: nat)
    | CallStartAll
    | BootStep(k: nat)
    | CallDrain
    | DrainStep

  function Put(s: System, i: nat, sv: Service): System
    requires i < |s.services|
  {
    s.(services := s.services[i := sv])
  }

  function Without<T>(xs: seq<T>, k: nat): seq<T>
    requires k < |xs|
  {
    xs[..k] + xs[k + 1..]
  }

  predicate StopMayProceed(s: System, k: nat) {
    k < |s.stops| && s.stops[k].service < |s.services| &&
    (s.stops[k].StopWaiting? ==>
       var sv := s.services[s.stops[k].service];
       s.stops[k].starts <= sv.startsDone && s.stops[k].restarts <= sv.restartsDone)
  }

  function StopStepped(s: System, k: nat): System
    requires StopMayProceed(s, k)
  {
    var i := s.stops[k].service;
    if s.stops[k].StopWaiting? then
      Put(s, i, EnterStop(s.services[i])).(stops := s.stops[k := StopRunning(i)])
    else
      Put(s, i, FinishStop(s.services[i])).(stops := Without(s.stops, k))
  }

  /** Starts the services of the phase at `position`, or ends the call. */
  function LaunchPhase(c: Config, s: System, k: nat, position: nat, since: seq<nat>): System
    requires k < |s.boots| && |s.services| == |c.phases|
  {
    var phases := PhasesOf(c.phases);
    if position >= |phases| || s.draining then s.(boots := Without(s.boots, k))
    else
      var p := phases[position];
      s.(services := seq(|s.services|, i requires 0 <= i < |s.services| =>
           if c.phases[i] == p then BeginStart(s.services[i]) else s.services[i]),
         boots := s.boots[k := BootPhase(position, seq(|s.services|, i requires 0 <= i < |s.services| =>
           if c.phases[i] == p then s.services[i].startsDone + 1 else 0), since)])
  }

  function StartsSettled(s: System): seq<nat> {
    seq(|s.services|, i requires 0 <= i < |s.services| => s.services[i].startsDone)
  }

  predicate BootMayProceed(s: System, k: nat) {
    k < |s.boots| &&
    match s.boots[k]
    case BootPending => s.drain.None?
    case BootPhase(_, starts, _) =>
      |starts| == |s.services| &&
      forall i | 0 <= i < |starts| :: starts[i] <= s.services[i].startsDone
  }

  function BootStepped(c: Config, s: System, k: nat): System
    requires BootMayProceed(s, k) && |s.services| == |c.phases|
  {
    match s.boots[k]
    case BootPending => LaunchPhase(c, s.(draining := false), k, 0, StartsSettled(s))
    case BootPhase(position, _, since) => LaunchPhase(c, s, k, position + 1, since)
  }

  function DrainStopBegin(c: Config, s: System, position: nat, log: seq<DrainEvent>): System
    requires position < |DrainOrder(c)| && |s.services| == |c.phases|
  {
    var i := DrainOrder(c)[position];
    Put(s, i, EnterStop(s.services[i])).(drain := Some(AwaitStops(position, log + [Began(i)])))
  }

  function DrainCollect(c: Config, s: System): System
    requires ValidConfig(c) && |s.services| == |c.phases|
  {
    if exists i :: 0 <= i < |s.services| && InFlight(s.services[i]) then
      s.(drain := Some(AwaitInFlight(
        seq(|s.services|, i requires 0 <= i < |s.services| => StartsInSight(s.services[i])),
        seq(|s.services|, i requires 0 <= i < |s.services| => RestartsInSight(s.services[i])))))
    else DrainStopBegin(c, s, 0, [])
  }

  function DrainBegun(c: Config, s: System): System
    requires ValidConfig(c) && |s.services| == |c.phases|
  {
    if s.drain.Some? then s
    else
      var s' := s.(draining := true);
      if s.polling then s'.(drain := Some(AwaitPoll(s.pollsDone))) else DrainCollect(c, s')
  }

  predicate DrainMayProceed(c: Config, s: System) {
    s.drain.Some? &&
    match s.drain.value
    case AwaitPoll(ticket) => ticket < s.pollsDone
    case AwaitInFlight(starts, restarts) =>
      |starts| == |restarts| == |s.services| &&
      forall i | 0 <= i < |s.services| ::
        starts[i] <= s.services[i].startsDone && restarts[i] <= s.services[i].restartsDone
    case AwaitStops(position, _) => position < |DrainOrder(c)|
  }

  function DrainStepped(c: Config, s: System): System
    requires ValidConfig(c) && |s.services| == |c.phases| && DrainMayProceed(c, s)
  {
    match s.drain.value
    case AwaitPoll(_) => DrainCollect(c, s)
    case AwaitInFlight(_, _) => DrainStopBegin(c, s, 0, [])
    case AwaitStops(position, log) =>
      var i := DrainOrder(c)[position];
      var s' := Put(s, i, FinishStop(s.services[i]));
      var log' := log + [Settled(i)];
      if position + 1 < |DrainOrder(c)| then DrainStopBegin(c, s', position + 1, log')
      else s'.(drain := None, draining := false, drained := s.drained + [log'])
  }

  function PollBegun(s: System): System {
    if s.draining || s.polling then s
    else s.(polling := true,
            services := seq(|s.services|, i requires 0 <= i < |s.services| =>
              BeginPoll(s.services[i], s.draining, s.now)))
  }

  predicate Enabled(c: Config, s: System, l: Label) {
    && ValidConfig(c)
    && |s.services| == |c.phases|
    && match l
       case Tick(_) => true
       case CallStart(i) => i < |s.services|
       case StartStep(i, _) => i < |s.services| && s.services[i].starting.Some?
       case CallRestart(i) => i < |s.services|
       case RestartStep(i) => i < |s.services| && RestartMayProceed(s.services[i], s.now)
       case CallPoll => true
       case PollStep(i, _) => i < |s.services| && s.polling && PollMayProceed(s.services[i])
       case PollDone => s.polling && forall i | 0 <= i < |s.services| :: s.services[i].polling.Idle?
       case CallStop(i) => i < |s.services|
       case StopStep(k) => StopMayProceed(s, k)
       case CallStartAll => true
       case BootStep(k) => BootMayProceed(s, k)
       case CallDrain => true
       case DrainStep => DrainMayProceed(c, s)
  }

  function Apply(c: Config, s: System, l: Label): System
    requires Enabled(c, s, l)
  {
    match l
    case Tick(ms) => s.(now := s.now + ms)
    case CallStart(i) => if s.draining then s else Put(s, i, BeginStart(s.services[i]))
    case StartStep(i, ok) => Put(s, i, StartSettled(s.services[i], c.hasReady[i], ok, s.now))
    case CallRestart(i) => if s.draining then s else Put(s, i, BeginRestart(s.services[i], s.now))
    case RestartStep(i) => Put(s, i, RestartSettled(c, s.services[i], s.draining, s.now))
    case CallPoll => PollBegun(s)
    case PollStep(i, ok) =>
      Put(s, i, PollSettled(c, s.services[i], c.hasReady[i], ok, s.draining, s.now))
    case PollDone => s.(polling := false, pollsDone := s.pollsDone + 1)
    case CallStop(i) =>
      var sv := s.services[i];
      if InFlight(sv) then
        s.(stops := s.stops + [StopWaiting(i, StartsInSight(sv), RestartsInSight(sv))])
      else Put(s, i, EnterStop(sv)).(stops := s.stops + [StopRunning(i)])
    case StopStep(k) => StopStepped(s, k)
    case CallStartAll => s.(boots := s.boots + [BootPending])
    case BootStep(k) => BootStepped(c, s, k)
    case CallDrain => DrainBegun(c, s)
    case DrainStep => DrainStepped(c, s)
  }

  ghost predicate Next(c: Config, s: System, s': System) {
    exists l :: Enabled(c, s, l) && s' == Apply(c, s, l)
  }

  ghost predicate StepAt(c: Config, run: seq<System>, k: nat)
    requires k < |run| - 1
  {
    Next(c, run[k], run[k + 1])
  }

  /** Every finite run of the supervisor: any steps, in any order they are enabled. */
  ghost predicate IsRun(c: Config, run: seq<System>) {
    && |run| > 0
    && run[0] == Init(c)
    && forall k: nat | k < |run| - 1 :: StepAt(c, run, k)
  }
}
