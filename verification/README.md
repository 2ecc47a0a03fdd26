# Verified models of the Tiangong desktop host and its release tooling

This project models, in Dafny, the parts of the repository whose correctness rests on state,
ordering or arithmetic, and proves what they promise for all inputs and all runs.

| component | files |
|---|---|
| service supervisor | `SupervisorModel.dfy`, `SupervisorInvariant.dfy`, `SupervisorTheorems.dfy`, `SupervisorBoots.dfy`, `SupervisorOneStrike.dfy`, `SupervisorOutcomes.dfy`, `SupervisorMachine.dfy` |
| workspace-root change and profile rebinding | `ProfileRebind.dfy`, `WorkspaceChange.dfy` |
| CI shards | `ShardPlan.dfy`, `ShardBalance.dfy`, `ShardReports.dfy` |
| versions and release bindings | `Texts.dfy`, `Semver.dfy`, `SemverOrder.dfy`, `ReleaseBindings.dfy` |
| canonical JSON | `Sequences.dfy`, `KeyedSort.dfy`, `CanonicalJson.dfy`, `CanonicalJsonTheorems.dfy` |
| updater | `Updater.dfy` |
| conversation folding | `Picking.dfy`, `Folding.dfy` |
| autonomy facts | `AutonomyFacts.dfy` |
| capability dictionary | `Dictionary.dfy` |
| generated mirrors | `MirrorSync.dfy`, `MirrorSyncRuns.dfy` |
| line endings | `Newlines.dfy` |

`dafny verify dfyconfig.toml` checks everything.

## How the source is read

**Supervisor.** A step is the code between two awaits, so every interleaving of start, stop,
restart, poll, startAll and drainAll is a run. A settled promise and the clearing of the field that
publishes it are one step, because the publisher registers the first continuation on its own promise.
startAll's wait for a drain and its clearing of the draining flag are one step. A start that a
restart waits for settles in its own step, before the restart does. Times of restarts and of
unhealthy verdicts are kept as history. `ServiceSupervisor` is the object whose methods are those
steps; each ends in exactly the state the machine's step gives, so the object is always in a
reachable state and every theorem applies to it.

**Workspace change.** The environment aliases, the globals and the two files are one host. The
faults of a change say where a child process dies, whether services start, whether the preference is
written, and what others write to the profile in between. Reading and replacing the profile is one
atomic step. Queued requests run one at a time.

**Updater.** Signature checks, hashes, URL origins, lower-casing and the reading of manifest fields
are functions of the platform. A request ends with any thrown error recorded, as the window's
handlers do (app/main.js:4971-4978).

**Canonical JSON.** Texts are sequences of 16-bit code units; numbers are integers.

**Folding.** Roles and ids are taken after trimming; redaction of contents, names and ids is a
parameter. **Facts.** The wrapped recorder stores the reported ids in its event.

**Mirrors.** A workspace is a map from paths to contents. A sorted listing, case folding, digests and
the marker's JSON are functions of the platform; a marker is assumed to read back. Equal SHA-256
means equal content.

**Line endings.** Texts are code points; a byte order mark is the first of them.

## Where the code and its promise part

- The failure bound holds for a configuration exactly when its threshold is above one
  (`FailuresBoundedIffAboveOne`), and with one the count itself can pass the threshold: a
  poll verdict that arrives after a restart has started the service, but before the restart's own
  promise settles, joins that restart and is never acted on (app/service-supervisor.js:236, 287-297).
- A change commits without looking at the profile again after the services have started. What
  somebody writes to it in between stays under the commit, so root, aliases and preference move and
  the profile is foreign (`LateWriteIsCommittedOver`, exact condition in `ProfileFollows`;
  app/main.js:1350-1359).
- The comment on `recordError` says a failed check never voids an update that is being applied or is
  committed. A check first overwrites those phases with CHECKING, so its failure turns them into ERROR
  (`FailedCheckPhase`, at an input in `CommittedIsDemoted`; app/secure-updater.js:151-155, 168).
- The comment in the fold says a dropped result is represented by a later answer or by the
  checkpoint. When a second call follows the first without an answer in between, the first result
  is in neither place (`FirstOfTwoIsLost`, exact condition in `LostResultTheorem`).
- Folding is idempotent unless redaction, for instance cutting ids at 200 characters, gives an
  unfinished call the id of an orphan result (`FoldTwiceTheorem`, at an input in `LongIdsClash`).
- A colon in a run id lets a request be recorded twice (`ColonInRunRepeats`). A report can never add
  a duplicate, whatever the journal, exactly when it has no request id or its run id has no colon
  (`RunIdTheorem`; for one journal `RecordTheorem`, for a run `RunTheorem`). A colon in a recorded
  request id hides other requests (`ColonInRequestHides`).
- A directory target whose own name has a suffix never gets a marker, so its check keeps failing
  unless the marker was already right (`WriteThenCheck`, at an input in `SuffixedNeverPasses`;
  scripts/sync-generated-sources.py:67).
- Normalising is not idempotent on a text that starts with two byte order marks
  (`IdempotenceTheorem`), since one pass drops one mark.
- Loading a dictionary in which an alias leads to a later row with a missing target ends in a KeyError
  rather than a DictionaryError (`Load` with error `KeyMissing`, exactly when the chain of the first
  bad row breaks; at an input in `DanglingAliasIsKeyMissing`).

## Model

| member | source | states |
|---|---|---|
| `SupervisorInvariant.StepOk` | app/service-supervisor.js:140-387 | every step of every interleaving keeps the invariant on statuses, restart times and drains |
| `SupervisorInvariant.RunOk` | app/service-supervisor.js:188-387 | every state of every run satisfies that invariant |
| `SupervisorTheorems.DrainOrderSorts` | app/service-supervisor.js:359-361 | the drain order holds every service once, by strictly descending (phase, order) |
| `SupervisorTheorems.DrainTraceShape` | app/service-supervisor.js:362-375 | a drain loop's log begins and settles one service before it begins the next |
| `SupervisorTheorems.NoBeginWhileDraining` | app/service-supervisor.js:188-203 | no start or restart begins in a step into, out of or within a draining state |
| `SupervisorTheorems.NoBeginDuringDrain` | app/service-supervisor.js:232-270 | over any stretch of a run that stays draining, no service gains a start or a restart |
| `SupervisorTheorems.DrainEndsQuiet` | app/service-supervisor.js:347-387 | when a drain ends nothing is in flight, running, ready or counting failures, and its loop stopped every service once in drain order |
| `SupervisorTheorems.StatusTheorem` | app/service-supervisor.js:112-121 | in every reachable state ready holds exactly when RUNNING, ready implies running, and STOPPED, STARTING, RESTARTING imply not running |
| `SupervisorTheorems.FailuresBoundedFromTwo` | app/service-supervisor.js:287-297 | for thresholds of two and more, failures stay within the threshold and below it for a running service that is not draining, restarting or mid-poll |
| `SupervisorTheorems.OneStrikeOvershoots` | app/service-supervisor.js:287-297 | a run with threshold one in which the count passes the threshold |
| `SupervisorOneStrike.OneStrikeFails` | app/service-supervisor.js:287-297 | every configuration with threshold one has a run that breaks the bound |
| `SupervisorOneStrike.FailuresBoundedIffAboveOne` | app/service-supervisor.js:287-297 | for every configuration the bound holds of all reachable states exactly when its threshold is above one |
| `SupervisorTheorems.BackoffTheorem` | app/service-supervisor.js:251-264 | the n-th restart since a reset waited the delay plus min(base·2^n, max), counting n from 0, and n restarts took at least the sum |
| `SupervisorTheorems.WaitsAddUp` | app/service-supervisor.js:251-264 | consecutive waits add up |
| `SupervisorTheorems.BadIsRecorded` | app/service-supervisor.js:232-270 | every restart and every new failure leaves its time on record |
| `SupervisorTheorems.ResetOnlyAfterHealth` | app/service-supervisor.js:298-302 | the backoff level drops only to zero, and only when no unhealthy verdict or restart lies in the preceding healthyResetMs |
| `SupervisorBoots.PhasesTheorem` | app/service-supervisor.js:196 | the phases of a startAll are exactly the services' phases, each once, ascending |
| `SupervisorBoots.BootTheorem` | app/service-supervisor.js:193-203 | in every reachable state a startAll under way has seen a start settle for every service of an earlier phase, and what it awaits in its phase is in flight or settled |
| `SupervisorBoots.NextPhaseTheorem` | app/service-supervisor.js:197-201 | startAll leaves a phase only when every start there has settled, then begins exactly the next phase's services; after the last phase every service has had a start settle since the call began |
| `SupervisorBoots.FirstPhaseTheorem` | app/service-supervisor.js:193-201 | startAll goes on only with no drain on, clears draining and begins exactly the services of the lowest phase |
| `SupervisorOutcomes.CallStartTheorem` | app/service-supervisor.js:188-191 | a start begins exactly when not draining and none is in flight |
| `SupervisorOutcomes.StartStepTheorem` | app/service-supervisor.js:140-186 | a start asks start, health and ready in turn, ends STOPPED on a false start or health, and ends RUNNING exactly when the last answer is true |
| `SupervisorOutcomes.CallRestartTheorem` | app/service-supervisor.js:232-245 | a restart begins exactly when not draining and none is in flight |
| `SupervisorOutcomes.RestartStepTheorem` | app/service-supervisor.js:246-270 | a restart waits exactly the delay and exactly min(base·2^level, max), raises the level by one, and starts the service exactly when not draining |
| `SupervisorOutcomes.CallPollTheorem` | app/service-supervisor.js:272-279 | a poll skips a service with an operation in flight, restarts one that is not running, and asks every other for its health |
| `SupervisorOutcomes.FailedVerdictTheorem` | app/service-supervisor.js:286-296 | a failed verdict adds one failure and begins a restart exactly when the failures reach the threshold, not draining and none is in flight; else the service stays up, DEGRADED |
| `SupervisorOutcomes.HealthyVerdictTheorem` | app/service-supervisor.js:297-302 | a healthy verdict begins no restart and zeroes the backoff level exactly after healthyResetMs of health |
| `SupervisorOutcomes.PollEndTheorem` | app/service-supervisor.js:303-317 | the readiness answer zeroes the failures and makes the service RUNNING exactly when true |
| `SupervisorOutcomes.CallStopTheorem` | app/service-supervisor.js:205-210 | stop() waits for exactly the operations in flight, or marks the service DRAINING at once |
| `SupervisorOutcomes.StopStepTheorem` | app/service-supervisor.js:209-230 | a waiting stop goes on only when those have settled, and a settled stop leaves the service STOPPED with no failures |
| `SupervisorOutcomes.CallDrainTheorem` | app/service-supervisor.js:347-358 | drainAll() joins a drain, or sets draining and waits for a poll, then for what is in flight |
| `SupervisorOutcomes.DrainStepTheorem` | app/service-supervisor.js:358-387 | each step of the loop stops the service at its position and begins the next, or ends the drain |
| `SupervisorMachine.ServiceSupervisor.constructor` | app/service-supervisor.js:55-99 | a new supervisor is the machine's initial state |
| `SupervisorMachine.ServiceSupervisor.Start` | app/service-supervisor.js:188-191 | start() is the machine's step and keeps the object reachable |
| `SupervisorMachine.ServiceSupervisor.ResumeStart` | app/service-supervisor.js:140-186 | each settled await of a start is the machine's step |
| `SupervisorMachine.ServiceSupervisor.Restart` | app/service-supervisor.js:232-245 | restart() up to its first await is the machine's step |
| `SupervisorMachine.ServiceSupervisor.ResumeRestart` | app/service-supervisor.js:246-270 | each settled await of a restart is the machine's step |
| `SupervisorMachine.ServiceSupervisor.Poll` | app/service-supervisor.js:319-333 | poll() begins every service's share at once, as the machine's step |
| `SupervisorMachine.ServiceSupervisor.ResumePoll` | app/service-supervisor.js:272-317 | each settled await of a polled service is the machine's step |
| `SupervisorMachine.ServiceSupervisor.EndPoll` | app/service-supervisor.js:326-332 | the poll ends when every share has |
| `SupervisorMachine.ServiceSupervisor.Stop` | app/service-supervisor.js:205-210 | stop() waits for what is in flight, as the machine's step |
| `SupervisorMachine.ServiceSupervisor.ResumeStop` | app/service-supervisor.js:210-230 | each settled await of a stop is the machine's step |
| `SupervisorMachine.ServiceSupervisor.StartAll` | app/service-supervisor.js:193-194 | startAll() first waits for a drain |
| `SupervisorMachine.ServiceSupervisor.ResumeStartAll` | app/service-supervisor.js:194-203 | startAll goes phase by phase, as the machine's step |
| `SupervisorMachine.ServiceSupervisor.DrainAll` | app/service-supervisor.js:347-358 | drainAll() up to its first await is the machine's step |
| `SupervisorMachine.ServiceSupervisor.ResumeDrain` | app/service-supervisor.js:358-387 | each settled await of a drain is the machine's step |
| `ProfileRebind.ProfileFile.Replace` | scripts/rebind-source-execution-profile.py:119-131 | compare and swap |
| `ProfileRebind.ProfileFile.Apply` | scripts/rebind-source-execution-profile.py:134-143 | file and answer after apply or rollback |
| `ProfileRebind.ReboundTheorem` | scripts/rebind-source-execution-profile.py:134-143 | the script writes exactly when the transaction validates and the file holds the content to replace, and succeeds exactly then or when the file already holds the other |
| `ProfileRebind.ScriptsKeepForeign` | scripts/rebind-source-execution-profile.py:95-143 | through any chain of applies, rollbacks and outside writes the file is what others last wrote, or both are among the transaction's two contents |
| `ProfileRebind.RollbackUndoesApply` | scripts/rebind-source-execution-profile.py:134-143 | a rollback restores the file whether or not the apply took effect |
| `ProfileRebind.PreparedValidates` | scripts/rebind-source-execution-profile.py:74-116 | a prepared transaction validates exactly when the written profile reads back with the new workspace and the same authority |
| `WorkspaceChange.WorkspaceHost.CommittedRoot` | app/main.js:1136-1173 | settles the committed root from alias, preference or default |
| `WorkspaceChange.WorkspaceHost.ApplyChange` | app/main.js:1289-1421 | state and reply after a change with any faults |
| `WorkspaceChange.SettleTheorem` | app/main.js:1136-1173 | the committed root is the known one, else the usable alias, else the usable preference, else the default |
| `WorkspaceChange.ReplyTheorem` | app/main.js:1289-1421 | each reply exactly: conflict, unchanged, committed when the profile part, the services and the preference all succeed, and else rolled back, with the profile left exactly when a prepared transaction is not confirmed undone |
| `WorkspaceChange.FaultlessCommits` | app/main.js:1289-1372 | with nothing going wrong a change commits exactly unless the profile in place cannot be rebound |
| `WorkspaceChange.AllOrNothing` | app/main.js:1289-1421 | after any faults either all aliases, mode, root and preference moved and the revision rose by one, or all are as before, services stay down when the profile could not be rolled back, and with no usable workspace at all only unusable aliases are cleared |
| `WorkspaceChange.ProfileFollows` | app/main.js:1327-1400 | whatever others write, a commit follows an apply that rebound exactly the profile that was read, and leaves that content exactly when nobody writes other content while services start; a completed rollback leaves exactly the profile that was read; without a transaction the change never writes the file |
| `WorkspaceChange.LateWriteIsCommittedOver` | app/main.js:1350-1359 | a change that commits over foreign profile content |
| `WorkspaceChange.UndisturbedProfile` | app/main.js:1374-1400 | when nobody else writes the profile, a change that does not commit leaves it as it was unless the rollback gave no answer |
| `WorkspaceChange.ForeignProfileSurvives` | app/main.js:1327-1400 | foreign content written before the apply stays and stops the commit; written after it, it stays under a commit, and a rollback reports and keeps it with services stopped |
| `WorkspaceChange.ChangeCounts` | app/main.js:1289-1372 | the revision moves by one on a commit, which only the current revision can make |
| `WorkspaceChange.TurnTheorem` | app/main.js:1423-1452 | a valid request enters the queue with its own or the current revision, and a run does the oldest request's change |
| `WorkspaceChange.QueueTheorem` | app/main.js:1423-1452 | over any session the revision counts the commits, no two commits carried the same revision, the pending counter is the number of unanswered requests, and requests run in the order they entered |
| `ShardPlan.ModuleTheorem` | scripts/ci-pytest-shards.py:39 | a test's module is the part before the first "::", or all of a node id without one |
| `ShardPlan.ModuleOfTest` | scripts/ci-pytest-shards.py:39 | a path without "::" that does not end in a colon is the module of its tests |
| `ShardPlan.AcceptTheorem` | scripts/ci-pytest-shards.py:32-41 | a collection is partitioned exactly when the count is 1 to 16, node ids are there, not empty and distinct, and there is a module for every shard |
| `ShardPlan.Partition` | scripts/ci-pytest-shards.py:31-52 | the loops compute the specified partition or the first failing check |
| `ShardPlan.GroupSizes` | scripts/ci-pytest-shards.py:37-39 | modules in order of appearance with their sizes |
| `ShardPlan.PlaceAll` | scripts/ci-pytest-shards.py:42-48 | each module goes to the first least loaded shard |
| `ShardPlan.Distribute` | scripts/ci-pytest-shards.py:49-52 | each shard receives its modules' tests in collection order |
| `ShardPlan.ScheduleSorts` | scripts/ci-pytest-shards.py:45 | the schedule lists every module once, strictly by size descending, then path |
| `ShardBalance.BalanceTheorem` | scripts/ci-pytest-shards.py:31-52 | against any assignment that keeps modules whole, no shard exceeds (4/3 − 1/(3m)), and so (3/2 − 1/(2m)), times its heaviest shard, and no shard is empty |
| `ShardBalance.HeavyJobsFit` | scripts/ci-pytest-shards.py:42-48 | a job above a third of the best makespan is placed within it |
| `ShardBalance.PlaceBound` | scripts/ci-pytest-shards.py:42-48 | the bound holds of every shard after every prefix of the schedule |
| `ShardReports.ValidateReport` | scripts/ci-pytest-shards.py:79-109 | accepts exactly the reports that ran their own shard cleanly |
| `ShardReports.ValidTheorem` | scripts/ci-pytest-shards.py:79-109 | a report is valid exactly when sealed, in a slot of its count, and its own shard ran in full |
| `ShardReports.RanTheorem` | scripts/ci-pytest-shards.py:88-109 | running in full: selected, started and finished are the part, with one complete lifecycle per test |
| `ShardReports.LifecycleTheorem` | scripts/ci-pytest-shards.py:95-105 | setup and teardown once each, passed or skipped, and the call once exactly when the setup passed |
| `ShardReports.Aggregate` | scripts/ci-pytest-shards.py:230-251 | succeeds exactly on consistent reports, which executed the collection exactly once; the final comparison is never what fails |
| `ShardReports.UnionTheorem` | scripts/ci-pytest-shards.py:230-251 | consistent reports execute the collection exactly once and fill all slots |
| `ShardReports.ShardsKeepModules` | scripts/ci-pytest-shards.py:49-52 | each shard is a subsequence of the collection and no module is split |
| `ShardReports.FileStaysWhole` | scripts/ci-pytest-shards.py:49-52 | tests of one file run on one shard |
| `Texts.CompareTextIsLess` | app/lib/release-binding.js:16-20 | comparing unit by unit is order by the first difference |
| `Semver.ParseRender` | app/lib/release-binding.js:14-36 | every well-formed version's text parses to that version |
| `Semver.RenderParse` | app/lib/release-binding.js:14-36 | every text that parses is the text of a well-formed version |
| `Semver.AlphabetTheorem` | app/lib/release-binding.js:14 | the characters of versions |
| `SemverOrder.NumericTextIsValue` | app/lib/release-binding.js:22-25 | length-then-text comparison of digit strings is integer order |
| `SemverOrder.ComparesPrecedence` | app/lib/release-binding.js:38-69 | on valid versions the comparator is precedence by numeric value, as section 11 of Semantic Versioning 2.0.0 defines it |
| `SemverOrder.BuildIsIgnored` | app/lib/release-binding.js:38-69 | build metadata never matters (section 10 of Semantic Versioning 2.0.0) |
| `SemverOrder.SemverPreorder` | app/lib/release-binding.js:38-69 | on all strings the comparator is sign-antisymmetric and transitive, with invalid strings below valid ones |
| `ReleaseBindings.BindingsOrder` | app/lib/release-binding.js:208-214 | the binding comparator is a total preorder that ties only on equal paths |
| `ReleaseBindings.SortTheorem` | app/lib/release-binding.js:228 | the result is a descending permutation |
| `ReleaseBindings.VerifiedElements` | app/lib/release-binding.js:216-227 | for every list, exactly the bindings read from the first candidate of each path up to letter case, each path once |
| `ReleaseBindings.VerifiedWithoutTwins` | app/lib/release-binding.js:216-227 | without case twins, exactly the bindings the candidates supply |
| `ReleaseBindings.DiscoveryTheorem` | app/lib/release-binding.js:208-229 | for every list the result is ordered by version descending, then time, hash and path, with exactly the first candidate of each path |
| `ReleaseBindings.ChosenTheorem` | app/lib/release-binding.js:208-229 | the first binding's version has the highest precedence among all supplied bindings with valid versions |
| `ReleaseBindings.DiscoveryIgnoresOrder` | app/lib/release-binding.js:216-229 | without case twins, the whole result is independent of candidate order |
| `ReleaseBindings.Discover` | app/lib/release-binding.js:216-229 | the loop computes the specified discovery |
| `CanonicalJsonTheorems.CanonicalReads` | app/secure-updater.js:15-19 | parsing a canonical text, whatever follows it, gives the value in normal form |
| `CanonicalJsonTheorems.RoundTrip` | app/secure-updater.js:15-19 | the parser inverts the printer |
| `CanonicalJsonTheorems.PrintNormal` | app/secure-updater.js:15-19 | printing sees only the normal form |
| `CanonicalJsonTheorems.CanonicalTheorem` | app/secure-updater.js:15-19 | two values print the same exactly when they are equal up to the order of object members (key sorting as in section 3.2.3 of RFC 8785) |
| `CanonicalJsonTheorems.UnitText` | app/secure-updater.js:16 | which units stand as they are, which become a backslash and a letter, and which four hex digits |
| `CanonicalJsonTheorems.PlainTextPrints` | app/secure-updater.js:16 | text that needs no escape stands as it is |
| `CanonicalJsonTheorems.PairPrints` | app/secure-updater.js:16 | a surrogate pair stands as it is |
| `CanonicalJsonTheorems.NatText` | app/secure-updater.js:16 | numbers have no leading zeros |
| `CanonicalJsonTheorems.WordText` | app/secure-updater.js:16-18 | the words and the empty collections |
| `CanonicalJsonTheorems.ObjectText` | app/secure-updater.js:18 | members are printed by ascending key, whichever way they were listed |
| `KeyedSort.SortAscends` | app/secure-updater.js:18 | distinct keys come out strictly ascending |
| `KeyedSort.ReorderTheorem` | scripts/sync-generated-sources.py:101-106 | every reordering sorts to the same listing exactly when no two different entries share a key |
| `KeyedSort.SortStable` | scripts/sync-generated-sources.py:103 | sorting keeps the order among entries of one key |
| `KeyedSort.AscendingUnique` | app/secure-updater.js:18 | ascending listings of the same members are the same listing |
| `Updater.SecureUpdater.Check` | app/secure-updater.js:159-187 | state after a check, and the state an error is then recorded in |
| `Updater.SecureUpdater.Download` | app/secure-updater.js:189-221 | state after a download; a failure changes nothing |
| `Updater.SecureUpdater.RecordError` | app/secure-updater.js:149-157 | an error keeps only the phases of a ready asset |
| `Updater.SecureUpdater.Serve` | app/main.js:4971-4978 | a request with its error recorded is one step of the machine |
| `Updater.VerifyTheorem` | app/secure-updater.js:79-105 | a manifest is accepted exactly when genuine, not older, not expired and not below the floor |
| `Updater.CheckTheorem` | app/secure-updater.js:159-187 | an accepted manifest becomes the available one, with the phase Downloaded exactly when a ready download is of its release and else Available; any other check changes only phase and error |
| `Updater.DownloadStepTheorem` | app/secure-updater.js:189-221 | a package is kept and ready exactly when one is available and the bytes have its target's length and hash |
| `Updater.MetadataTheorem` | app/secure-updater.js:91-97 | over any run the highest metadata version never falls and climbs through exactly the accepted manifests |
| `Updater.AcceptedAgain` | app/secure-updater.js:79-105 | after any later run an accepted manifest is accepted again exactly until it expires or a newer one was accepted |
| `Updater.ReadyTheorem` | app/secure-updater.js:159-187 | a ready download stays ready through a run exactly when every manifest accepted on the way is of its release |
| `Updater.DownloadTheorem` | app/secure-updater.js:159-221 | over any run a ready download has the length and hash of a target of some accepted manifest whose release equals the available one |
| `Updater.FailedCheckPhase` | app/secure-updater.js:149-170 | exactly when a failed check keeps the phase |
| `Updater.UnreachableDemotes` | app/secure-updater.js:149-170 | a failed fetch turns every update being applied or committed into an error, though recording an error alone would not |
| `Updater.CommittedIsDemoted` | app/secure-updater.js:149-170 | such an updater |
| `Folding.MessagesForContext` | readable-python-source/life-bootstrap/tiangong_life_runtime_fixes.py:508-575 | the loop computes the fold |
| `Folding.PendingCalls` | readable-python-source/life-bootstrap/tiangong_life_runtime_fixes.py:551-558 | the loop keeps the identifiable pending calls |
| `Folding.FoldTheorem` | readable-python-source/life-bootstrap/tiangong_life_runtime_fixes.py:485-575 | the fold keeps, in order, exactly the surviving messages: no completed call or paired result, every identifiable pending call with empty arguments, every orphan result |
| `Folding.FoldTwiceTheorem` | readable-python-source/life-bootstrap/tiangong_life_runtime_fixes.py:485-575 | folding twice is folding once exactly when redaction makes no pending id equal to an orphan's |
| `Folding.LongIdsClash` | readable-python-source/life-bootstrap/tiangong_life_runtime_fixes.py:485-575 | with ids cut at 200 characters, a conversation that a second fold changes |
| `Folding.FaithfulIdsFold` | readable-python-source/life-bootstrap/tiangong_life_runtime_fixes.py:485-575 | with ids left alone the fold is idempotent and leaves no completed exchange |
| `Folding.ToolFollowup` | readable-python-source/life-bootstrap/tiangong_life_runtime_fixes.py:599-637 | the backward scan computes the follow-up ids |
| `Folding.CheckpointTheorem` | readable-python-source/life-bootstrap/tiangong_life_runtime_fixes.py:599-649 | the merged checkpoint lists exactly the results awaiting an answer, keeps what the active run said and defaults status and next action |
| `Folding.DroppedResultTheorem` | readable-python-source/life-bootstrap/tiangong_life_runtime_fixes.py:508-649 | a dropped result is followed by a user or assistant message or is in the checkpoint |
| `Folding.LostResultTheorem` | readable-python-source/life-bootstrap/tiangong_life_runtime_fixes.py:508-649 | exactly when a dropped result is neither followed by a surviving message nor in the checkpoint |
| `Folding.FirstOfTwoIsLost` | readable-python-source/life-bootstrap/tiangong_life_runtime_fixes.py:559-574 | a conversation in which that happens |
| `AutonomyFacts.LifeSystem.Cache` | readable-python-source/life-bootstrap/tiangong_life_runtime_fixes.py:746-768 | the cache built on first use is the journal's |
| `AutonomyFacts.LifeSystem.RecordedEvent` | readable-python-source/life-bootstrap/tiangong_life_runtime_fixes.py:771-784 | the lookup over keys and prefixes |
| `AutonomyFacts.LifeSystem.Record` | readable-python-source/life-bootstrap/tiangong_life_runtime_fixes.py:1466-1490 | a known report changes nothing, another adds one fact, and the cache stays the journal's |
| `AutonomyFacts.CacheTheorem` | readable-python-source/life-bootstrap/tiangong_life_runtime_fixes.py:746-768 | the cache holds exactly the keys of the journal's facts, each with a fact of that key |
| `AutonomyFacts.LookupTheorem` | readable-python-source/life-bootstrap/tiangong_life_runtime_fixes.py:731-784 | for all journals and reports the cache finds a fact exactly when one has the same execution id or a request key that starts with the report's prefix |
| `AutonomyFacts.LookupByIds` | readable-python-source/life-bootstrap/tiangong_life_runtime_fixes.py:731-784 | with colon-free run ids that is a shared id or a request id that extends this one past a colon |
| `AutonomyFacts.LookupIsScan` | readable-python-source/life-bootstrap/tiangong_life_runtime_fixes.py:731-784 | with colon-free ids the lookup is a scan of the journal |
| `AutonomyFacts.RecordTheorem` | readable-python-source/life-bootstrap/tiangong_life_runtime_fixes.py:1466-1490 | one report keeps the journal free of duplicates exactly when the cache catches every fact it shares an id with, and ends up known exactly when it is not taken for another |
| `AutonomyFacts.RunIdTheorem` | readable-python-source/life-bootstrap/tiangong_life_runtime_fixes.py:779-783 | a report can never add a duplicate, whatever the journal, exactly when it has no request id or a colon-free run id |
| `AutonomyFacts.RunTheorem` | readable-python-source/life-bootstrap/tiangong_life_runtime_fixes.py:1466-1490 | over any run nothing is rewritten and only reports are added; no two facts share an id exactly when the cache caught every report, as it does with colon-free run ids; with colon-free request ids every identified report ends up known |
| `AutonomyFacts.ColonInRequestHides` | readable-python-source/life-bootstrap/tiangong_life_runtime_fixes.py:779-783 | a colon in a recorded request id hides another request |
| `AutonomyFacts.ColonInRunRepeats` | readable-python-source/life-bootstrap/tiangong_life_runtime_fixes.py:779-783 | a colon in a run id lets a request be recorded twice |
| `Dictionary.LocalTheorem` | src/capability_dictionary/__init__.py:177-192 | a row's local error is its first failing check, and none exactly when all pass |
| `Dictionary.MethodNameTheorem` | src/capability_dictionary/__init__.py:188-189 | a method binding is "_action_" and word characters |
| `Dictionary.DependencyNameTheorem` | src/capability_dictionary/__init__.py:190-192 | a dependency is "python:" or "executable:" and name characters |
| `Dictionary.FollowAliases` | src/capability_dictionary/__init__.py:193-200 | the visited set decides exactly whether a chain ends, repeats or breaks |
| `Dictionary.CanonicalAction` | scripts/build-ontology-coverage.py:49-55 | the lineage walk decides the same and finds the canonical action |
| `Dictionary.LoadRow` | src/capability_dictionary/__init__.py:176-200 | a row loads exactly when its local checks pass and its chain ends, and otherwise with which error |
| `Dictionary.Load` | src/capability_dictionary/__init__.py:176-200 | loading succeeds exactly when every row is acceptable and otherwise stops at the first that is not, with its first failing local check, else a cycle exactly when its chain repeats, a missing key exactly when it breaks |
| `Dictionary.DanglingAliasIsKeyMissing` | src/capability_dictionary/__init__.py:187-200 | a dictionary whose first row is reported with a missing key before the row with the missing target is checked |
| `Dictionary.AcceptedTheorem` | src/capability_dictionary/__init__.py:176-200 | in an accepted dictionary every chain reaches a non-alias in fewer steps than there are rows |
| `Dictionary.FindDrift` | scripts/build-dictionary.py:37-46 | finds no drift exactly when every alias agrees with its target on every field |
| `Dictionary.AgreeFields` | scripts/build-dictionary.py:41-46 | the compared fields |
| `Dictionary.AgreesWithCanonical` | scripts/build-dictionary.py:37-46 | one-step agreement carries to the canonical action |
| `Dictionary.DriftTheorem` | scripts/build-ontology-coverage.py:87-88 | checking aliases against targets is checking them against canonical actions |
| `Dictionary.OwnReasonsTheorem` | src/capability_dictionary/__init__.py:109-133 | the reasons of an action that is no alias, exactly |
| `Dictionary.ReasonsTheorem` | src/capability_dictionary/__init__.py:109-133 | the reasons of an action are exactly what is wrong with the actions along its chain |
| `Dictionary.ReadyTheorem` | src/capability_dictionary/__init__.py:109-135 | an action is ready exactly when it is in the dictionary and every action along its chain is active, not disabled by default, implemented, executable by the host and lacks no dependency |
| `Dictionary.ReadinessTheorem` | src/capability_dictionary/__init__.py:109-149 | with no runtime, an alias has exactly its canonical action's reasons and is ready exactly when that action is |
| `Dictionary.HostedReadinessTheorem` | src/capability_dictionary/__init__.py:109-149 | with a runtime, an alias is ready exactly when its canonical action is and every alias on the way is executable |
| `MirrorSync.IncludedTheorem` | scripts/sync-generated-sources.py:15-47 | which files are left out, exactly |
| `MirrorSync.SuffixTheorem` | scripts/sync-generated-sources.py:47 | a name's suffix starts at its last dot, neither its first nor its last character |
| `MirrorSync.HashedTheorem` | scripts/sync-generated-sources.py:101-107 | the tree hash covers the path and content digest of exactly the included files, by folded path |
| `MirrorSync.TreeHashTheorem` | scripts/sync-generated-sources.py:88-107 | when no two different rows share a folded path the tree hash is independent of row order |
| `MirrorSync.ListingTheorem` | scripts/sync-generated-sources.py:88-107 | the hashed listing is the same for every order of the rows exactly when no two different rows share a folded path |
| `MirrorSync.CaseTwinsShuffle` | scripts/sync-generated-sources.py:88-107 | case twins keep their listing order, so the hashed listing depends on it |
| `MirrorSync.MatchTheorem` | scripts/sync-generated-sources.py:155-201 | what a check accepts, spelled out with the marker's id and tree hash |
| `MirrorSync.NothingWrong` | scripts/sync-generated-sources.py:155-201 | a target matches exactly when no failure applies to it |
| `MirrorSyncRuns.Workspace.Write` | scripts/sync-generated-sources.py:134-180 | the files after write mode, and exactly the missing sources reported |
| `MirrorSyncRuns.Workspace.WriteTarget` | scripts/sync-generated-sources.py:155-180 | the files after one target is written |
| `MirrorSyncRuns.Workspace.Check` | scripts/sync-generated-sources.py:134-202 | check mode reports exactly what is wrong |
| `MirrorSyncRuns.Workspace.CheckTarget` | scripts/sync-generated-sources.py:155-201 | exactly what is wrong with one target |
| `MirrorSyncRuns.WriteThenCheck` | scripts/sync-generated-sources.py:134-202 | after a write a check reports nothing, exactly unless a suffixed directory target lacks its marker |
| `MirrorSyncRuns.SuffixedNeverPasses` | scripts/sync-generated-sources.py:66-82 | a mapping whose check fails after every write |
| `MirrorSyncRuns.SyncTheorem` | scripts/sync-generated-sources.py:134-202 | after a write each target holds exactly the source's included files, a second write changes nothing, and sources, ignored files and everything else are unchanged |
| `MirrorSyncRuns.ReportTheorem` | scripts/sync-generated-sources.py:134-202 | a check reports nothing exactly when every target matches |
| `Newlines.ValidatorTheorem` | scripts/verify_cross_platform_source.py:178-189 | the validator reports nothing exactly when every line end is the policy's |
| `Newlines.ReportTheorem` | scripts/verify_cross_platform_source.py:178-189 | each report exactly: a lone CR, a CRLF where LF is due, a lone LF where CRLF is due |
| `Newlines.UnchangedTheorem` | scripts/normalize_source_text.py:18-28 | normalising changes nothing exactly when there is no byte order mark and nothing to report |
| `Newlines.OutputValidates` | scripts/normalize_source_text.py:18-28 | what is written always validates |
| `Newlines.IdempotenceTheorem` | scripts/normalize_source_text.py:18-28 | normalising twice is normalising once exactly when the text does not start with two byte order marks |
| `Newlines.LinesTheorem` | scripts/normalize_source_text.py:18-28 | the lines stay the same and are joined with the policy's line end |
| `Newlines.NormalizeTree` | scripts/normalize_source_text.py:11-29 | the number of changed files is the number that did not conform |

## Left out

- Supervisor: callbacks that call back into the supervisor, a delay function that rejects, error texts, the monitor timer, unknown service names and definition checks.
- Supervisor: that a service is STOPPED after stop(), which a poll in flight can undo.
- Workspace change: salvage of a damaged preference, path canonicalisation, a stop of services that throws, and work between awaits of one change, which runs as one queue step.
- Updater: applying an update, marking it healthy, seeding the last known good installer, concurrent requests, failures to write the state file, and a stored metadata version that is not a number.
- Canonical JSON: fractions, and integers so large that JSON.stringify prints an exponent or rounds.
- Release bindings: reading and verifying a manifest, which is a function of the platform.
- CI shards: running pytest, Git identity, and the report fields compared only for equality, which stand as one field.
- Folding: the redaction rules themselves, projection of the active run, and a `tool_calls` value that is neither a list nor iterable.
- Autonomy facts: a journal that cannot be read, after which the cache starts empty, and learning candidates.
- Dictionary: applications, skills, profile budgets, row fields that are absent altogether, and the descriptive parts of a readiness answer.
- Mirrors: file operations that raise, empty directories, targets skipped because Git ignores them; targets are taken to be apart from each other and from sources, with the kind their source needs.
- Line endings: text that is not valid UTF-8, and which files count as text.
- The rest of the desktop host, the preload scripts, the shell and the gate runners are I/O or would only add easy members.
