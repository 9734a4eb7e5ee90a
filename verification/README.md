# hadron-desktop: a verified model of its protocols

This project models, in Dafny, the parts of hadron-desktop whose behaviour
comes from interleavings, crashes, partial failures and string grammars, and
proves what they promise.

* **The update daemon** (`UpdateDaemon`, `UpdateProtocol`, `UpdateRuns`,
  `UpdateTrust`, `UpdateAnswers`, `UpdateWitness`, `Delivery`, `UpdateService`,
  `ServiceRuns`). One daemon owns the single A/B update job of a system.
  `UpdateDaemon` has the fields and the lock-held regions as a class, each method
  tied to a function of the state before. `UpdateProtocol` is the state machine built from those
  functions: calls, job goroutines, kairos-agent's own steps (also after the
  daemon that started it is gone), failing writes, crashes, restarts and boots
  interleave freely. One invariant is kept by every step; `UpdateRuns` and
  `UpdateTrust` draw the promises over whole runs from it, and `UpdateAnswers`
  says, on the fields alone, what each call is answered and leaves. `UpdateWitness`
  holds the runs in which a promise breaks. `UpdateService` puts the bus
  service with its idle exit around the same machine; `ServiceRuns` shows that
  every run of it is a run of the daemon and that it exits only after the quiet
  time.
* **Release names** (`ImageRef`, `ImageName`, `Release`, `ReleaseOrder`, `Policy`,
  `ReleaseTags`). The reference grammar, its printer, the version order and the
  classifier that decides which images are trusted by name; `ImageName`,
  `ReleaseOrder` and `ReleaseTags` say what they accept and how they order it in
  terms of the texts.
* **The session broker** (`SessionBroker`, `BrokerAnswers`). Pause, resume, close,
  generations and execution slots, and what each call is told, by the steps of the
  run.
* **The multi-file patch** (`Replacement`, `PatchFiles`). Plans in memory, then
  backups, atomic replacement and rollback over a file system in which every
  operation may fail.
* **Fast forms and their simple counterparts** (`ByteRing`, `Terminal`,
  `Splash`, `SplashRuns`, `StageText`, `StageKey`, `StageChanges`,
  `StageCovered`). The ring buffer against an unbounded log, the differential
  renderer against a console that reads the bytes it writes (CUP and SGR of
  ECMA-48, sections 8.3.21 and 8.3.117), and the worklist of the stage key against
  reachability.
* **Bearer rotation** (`Bearer`, `Rotation`, `RotationRuns`, `RotationHistory`,
  `RotationWitness`). The verifier, the two-file rotation with its rollback as
  a class, and histories of provisionings, rotations and crashes over time.

`Text`, `Arith` and `Wrappers` hold the string operations, the facts about
division, counting and concatenation and the Option and Result types the others
share; `AtomicFiles` is a directory whose files are replaced through temporary
ones, with every operation fallible.

Methods stand where the source changes state or loops; each is specified by a
function, and the lemmas about that function state what the code is for, in terms
other than the function's own wherever it decides something.
Environment answers (the registry, the release list, the file system, clocks,
kairos-agent) are parameters of the step that receives them, so every statement
holds for all of them.

## Where the code and its descriptions part

* `RebootPrevious` is described as refusing while an install waits for its
  reboot (update/daemon.go:716-723). A daemon that could not read the release
  file is unmanaged and does not look at the marker (update/daemon.go:195-213),
  so after an install it lets the call through. `UpdateRuns.PreviousAfterUpgrade`
  gives the exact condition.
* `Reboot` promises that no install starts until the reboot fails
  (update/daemon.go:694-697). It does not look at the flag it sets; with two
  calls outstanding the one that fails clears the flag for the other.
  `UpdateWitness.InstallBesideRestart` is the run, `UpdateRuns.FlagRun` the exact
  condition, `UpdateRuns.FlagCoversRestarts` the promise for calls made one at
  a time.
* Reboot-pending is not always left by a boot only. A daemon that cannot look at
  the marker calls itself reboot-pending, and if there is none the next one is
  idle (`UpdateRuns.UnreadableMarkerIsForgotten`); a daemon whose release file no
  longer loads is unmanaged although marker and install are there
  (`UpdateWitness.PreviousOfferedAfterInstall`). These are the only two ways
  (`UpdateRuns.RestartEndsPending`, `UpdateRuns.PendingWithoutMarker`). With a
  marker or an install every managed daemon refuses further installs until a boot
  (`UpdateRuns.PendingUntilBoot`).
* The check of `rebooting` inside `run` (update/daemon.go:513-515) never fires:
  an inspecting job and the flag exclude each other
  (`UpdateRuns.NoInstallWhileRebooting`).
* The second look at the generation in `guard` is there so that a call cannot
  start executing after a pause (agent/internal/session/service.go:323-328). A
  pause may land after the second look, and a call without a slot has none:
  `SessionBroker.BeginsWhilePaused` and `SessionBroker.BeginsWhilePausedWithoutSlot`
  are the runs, `SessionBroker.BeginsCancelledExactly` says when it happens. Such
  a call runs with a cancelled generation and is told of the pause
  (`SessionBroker.PauseInterruptsInFlight`).
* The periodic repaint of the splash (splash/main.c:293-297) marks cells with
  byte 1. A cell whose own text begins with that byte can hide behind its mark;
  `SplashRuns.MaskedCellSurvives` is such a cell, `SplashRuns.ForcedRepaint` says
  exactly when.
* A failed rotation is meant to be rolled back. A file whose snapshot could not be
  read is removed instead (agent/internal/provision/state.go:483-488, 534-547;
  `RotationRuns.UnreadableSnapshotRemoves`), and a rename whose directory could
  not be synced counts as a failed write that has changed the file
  (agent/internal/provision/state.go:614-621). `RotationRuns.FailureRestores` and
  `RotationRuns.AgreeAfter` say exactly when the call is undone and when the files
  agree.
* An admin rotation is meant to leave at most the current and the outgoing digest
  valid. That holds of each file, and of both services together while the files
  agree. Between the two writes, and after a crash there, the root helper still
  accepts the digests of before: `RotationWitness.ThreeAccepted` and
  `RotationWitness.FourAccepted` are histories with three and four.
  `RotationRuns.TwoThroughoutExactly` gives the exact condition of one call: no
  earlier overlap may be running.
* The key of a stage is meant to cover the values of the ARGs it uses. An ARG that
  only a `--from=` or `,from=` reference names is not hashed, although it decides
  which stage is covered (tools/stage-key.py:128, 138-141;
  `StageChanges.ReferenceOnlyArg`); `StageChanges.CoveredAlikeExactly` and
  `StageChanges.NamedValuesDecide` give the condition. The bytes hashed do not say
  where a value ends, so different values can share a key
  (`StageChanges.ValuesCollide`), which `StageChanges.ValuesMatter` excludes for
  values without a line end.
* A `Patch` does not keep set-id and sticky bits: files are rewritten with their
  permission bits only, on success and on rollback
  (agent/internal/files/service.go:696-725, 742-754). `PatchFiles.Patch` says
  which files, `PatchFiles.SpecialSurvives` when the bits survive.

## Model

| member | source | states |
|---|---|---|
| UpdateDaemon.MarkerRoundTrip | update/daemon.go:622-667 | The word written into the reboot marker is read back whatever the source after it |
| UpdateDaemon.WriteRunFile | update/daemon.go:628-650 | Whichever operation fails, the file holds its old contents or all of the new ones, the result says which, and a temporary file is left only if its removal failed |
| UpdateDaemon.WriteMarker | update/daemon.go:622-626 | The marker on disk is the old one or the whole new one, whatever fails on the way |
| UpdateDaemon.Daemon.constructor | update/daemon.go:195-213 | A new daemon is unmanaged, reboot-pending with the marker's word, or idle, and shows the release last seen |
| UpdateDaemon.Daemon.SetLocked | update/daemon.go:267-280 | State and detail change together and exactly one status event is queued with a deliverer for it |
| UpdateDaemon.Daemon.SetLatestLocked | update/daemon.go:118-128 | The newest release is remembered in memory even when its file cannot be written |
| UpdateDaemon.Daemon.BeginCheck | update/daemon.go:357-378 | A check is ignored, refused or started, with reboot-pending kept through a background refresh |
| UpdateDaemon.Daemon.EndCheck | update/daemon.go:379-408 | A check's answer is recorded only if its job is still the current one; `UpdateAnswers.CheckAnswered` says what it becomes |
| UpdateDaemon.Daemon.BeginApply | update/daemon.go:467-497 | An install starts only from a managed, idle, not restarting daemon with a valid reference and digest |
| UpdateDaemon.Daemon.PassGate | update/daemon.go:499-541 | An install passes only as the current job, for the reviewed digest, with the marker down first |
| UpdateDaemon.Daemon.OutputLine | update/daemon.go:608-620 | A line of kairos-agent becomes the detail and one progress event |
| UpdateDaemon.Daemon.FinishAfterError | update/daemon.go:561-566 | A failed upgrade leaves reboot-pending with the word failed, never idle |
| UpdateDaemon.Daemon.FinishAfterInstall | update/daemon.go:582-594 | A finished upgrade ends its job in reboot-pending with the word installed |
| UpdateDaemon.Daemon.Cancel | update/daemon.go:669-692 | Cancel ends a check or inspection and restores the state before it, an error becoming idle, and refuses otherwise |
| UpdateDaemon.Daemon.BeginReboot | update/daemon.go:694-705 | A reboot is refused during an install job and otherwise raises the flag |
| UpdateDaemon.Daemon.BeginRebootPrevious | update/daemon.go:721-741 | The previous system is refused while restarting, installing or waiting for a reboot, each with its own answer |
| UpdateDaemon.Daemon.RestartReturnedError | update/daemon.go:706-711 | A restart that failed takes the flag down and changes nothing else |
| UpdateProtocol.StepInv | update/daemon.go:161-742 | Every step of every interleaving, crashes and boots included, keeps the invariant that links state, job, goroutines, marker, installs and slots |
| UpdateProtocol.StartInv | update/daemon.go:195-213 | A restarted daemon that knows only the run directory is consistent with whatever its predecessor left behind |
| UpdateProtocol.EvaluateReturnInv | update/daemon.go:499-541 | The gate keeps the invariant for every registry answer and every failing write |
| UpdateProtocol.AgentInv | update/daemon.go:543-550 | kairos-agent's renames and exits keep the invariant also when its daemon is dead or restarted |
| UpdateAnswers.CheckStarts | update/daemon.go:357-378 | In every run a check does nothing on an unmanaged system, is refused beside a job, leaves reboot-pending as it is, and from rest becomes the job |
| UpdateAnswers.CheckAnswered | update/daemon.go:379-408 | In every run, when the answer of the current check comes the update is announced exactly if there is no pin and something listed is newer than the installed version, else the system is up to date; the newest tag is remembered; an error keeps it and is shown |
| UpdateAnswers.CheckRecords | update/daemon.go:118-128 | The newest tag goes to its file unless it is known already or the write fails |
| UpdateAnswers.PendingCheckAnswered | update/daemon.go:379-392 | A check under reboot-pending changes the newest tag and nothing else |
| UpdateAnswers.ApplyAccepted | update/daemon.go:467-497 | In every run an install is accepted exactly from rest, up to date, update available and error included, on a managed system with the restart flag off, for a well-formed reference and digest; then it is the job, else nothing changes |
| UpdateAnswers.ApplyRefused | update/daemon.go:467-497 | Each refusal has its reason |
| UpdateAnswers.EvaluationAnswered | update/daemon.go:499-541 | In every run the current job goes on to kairos-agent exactly when registry and list answered, the image is the one reviewed, no agent image, a published release or overridden, and the marker was written; otherwise it ends in an error and nothing was written |
| UpdateAnswers.ReleasesInstall | update/daemon.go:467-541 | In every run an Apply from rest for a published release without advanced mode, resolved to the digest given, with no failing marker write, crash or Cancel, reaches an enabled start of kairos-agent |
| UpdateAnswers.PinAfterInstall | update/daemon.go:569-581 | In every run an install of the newest listed release clears the pin, any other saves its reference, and a failed write keeps it |
| UpdateAnswers.OutcomeRecorded | update/daemon.go:548-567 | The marker then says installed exactly when kairos-agent returned without error, else failed, for the same source |
| UpdateAnswers.InstallEnds | update/daemon.go:551-594 | An install ends in reboot-pending with the word and detail that say how kairos-agent ended |
| UpdateAnswers.GoroutineGoesOn | update/daemon.go:357-742 | In no reachable state is a goroutine stuck: each has a next step, if need be after kairos-agent has exited, which it can |
| UpdateAnswers.CancelAnswered | update/daemon.go:669-692 | In every run Cancel succeeds exactly while checking or inspecting, and a refused one changes nothing |
| UpdateAnswers.RestartAnswered | update/daemon.go:694-742 | In every run a reboot gets through exactly when no install job runs, the previous system exactly when moreover no restart was asked and none is waited for |
| UpdateAnswers.PreviousRefused | update/daemon.go:724-741 | Each refusal of the previous system has its reason |
| UpdateAnswers.RestartRemembers | update/daemon.go:195-213 | A new process of the same boot shows the newest release that was written down |
| UpdateAnswers.RestartInventsNothing | update/daemon.go:195-213 | And only a strict tag that the file holds |
| UpdateAnswers.EventsTellState | update/daemon.go:238-280 | In every run, while a process lives, every change of what Status shows is announced by exactly one event with the new values, and there are no other events than those and the lines of kairos-agent |
| UpdateRuns.OneUpgradePerBoot | update/daemon.go:208-212 | In every run, between two starts of kairos-agent the machine boots, however often the daemon dies |
| UpdateRuns.PassiveSlotWithinBoot | update/daemon.go:543-550 | Within a boot the passive slot holds what it held at boot or the image active at boot, which is never lost |
| UpdateRuns.PendingUntilBoot | update/daemon.go:478-487 | Once a marker or install exists, every managed daemon of that boot is applying or reboot-pending and refuses every Apply |
| UpdateRuns.PendingForLife | update/daemon.go:357-408 | A reboot-pending process keeps that state and its word until it ends, whatever clients and late goroutines do |
| UpdateRuns.RestartedState | update/daemon.go:195-213 | A restarted daemon is reboot-pending exactly when its release file loads and a marker exists or could not be looked at, and unmanaged exactly when the release file does not load |
| UpdateRuns.RestartEndsPending | update/daemon.go:195-213 | In any run, the restart of a reboot-pending daemon in the same boot ends that state exactly if the release file no longer loads, or there is no marker and that could be seen |
| UpdateRuns.PendingWithoutMarker | update/daemon.go:655-667 | In any run, a process that is reboot-pending without a marker was started when the marker could not be looked at, in a boot without an install |
| UpdateRuns.UnreadableMarkerIsForgotten | update/daemon.go:655-667 | A reboot-pending daemon without a marker, and the restart that ends the state without a boot |
| UpdateRuns.MarkerNeverOverstates | update/daemon.go:521-567 | Installed is shown or stored only after this boot's upgrade returned without error; a restart shows the truth or the weaker started |
| UpdateRuns.BusyExactlyWithJob | update/daemon.go:319-321 | A state is busy exactly while a job is set, and the job's goroutine stands where the state says |
| UpdateRuns.NoCancelAfterGate | update/daemon.go:535-537 | No Cancel succeeds once the upgrade may have started, nor later in that boot |
| UpdateRuns.CancelReturnsToBeforeJob | update/daemon.go:669-692 | A successful Cancel restores what the job's own call found, however long ago, except that an error becomes idle |
| UpdateRuns.CancelledGoroutineIsInert | update/daemon.go:507-512 | A cancelled goroutine that resumes later, even beside a newer job, changes no state, file or slot and never starts kairos-agent |
| UpdateRuns.NoInstallWhileRebooting | update/daemon.go:478-515 | With the restart flag on there is no inspection or install and none can start |
| UpdateRuns.FlagRun | update/daemon.go:697-742 | In every run the flag is on only while a restart is outstanding, and misses one exactly after a failure beside another call |
| UpdateRuns.FlagCoversRestarts | update/daemon.go:694-713 | With restarts asked one at a time, no install starts between a restart request and its failure |
| UpdateRuns.TwoRestartsUncover | update/daemon.go:697-713 | From any idle daemon, with two outstanding restarts the failing one uncovers the other: Apply is answered as if none was asked |
| UpdateWitness.InstallBesideRestart | update/daemon.go:694-713 | A run in which kairos-agent starts while a restart call is outstanding |
| UpdateRuns.PreviousAfterUpgrade | update/daemon.go:724-741 | After an install in this boot the previous system is offered exactly by an unmanaged daemon without a restart outstanding |
| UpdateWitness.PreviousOfferedAfterInstall | update/daemon.go:195-213 | Every run with an install goes on to one where a daemon that died and lost its release file lets RebootPrevious through to the backend |
| UpdateWitness.SomeInstall | update/daemon.go:467-541 | There is a run in which kairos-agent is started |
| UpdateTrust.UpgradesAreReviewed | update/daemon.go:423-519 | Whatever kairos-agent installs was asked for by an earlier Apply at exactly that digest; unless that call asked for advanced mode and it was on, it has the name of a release listed by that install's own evaluation, by the release file of the same process; an agent image never |
| UpdateTrust.RequestsAreApplyCalls | update/daemon.go:467-497 | No request exists that no client made |
| UpdateTrust.CallbacksSeeEveryEventOnce | update/daemon.go:266-309 | In every run each early callback has received a prefix of its events in queue order, and all of them once delivery rests |
| Delivery.OneDeliverer | update/daemon.go:272-309 | In every interleaving of registrations, events and deliverers at most one deliverer runs, nothing is queued without one, and after a new event one does |
| Delivery.DeliveryEnds | update/daemon.go:283-309 | If nothing more is queued the deliverer stops after the moves counted, with every early callback served in full |
| Delivery.EarlyCallbacksMissNothing | update/daemon.go:283-309 | A callback registered before the first event receives every event of its kind once and in order |
| Delivery.PushInv | update/daemon.go:272-280 | Queueing, also from inside a callback, starts a deliverer exactly when none runs |
| Delivery.TakeBatchInv | update/daemon.go:283-297 | Taking a batch and the callback lists under the lock loses and repeats nothing |
| Delivery.AdvanceInv | update/daemon.go:298-308 | Each call settles one event for one callback |
| Delivery.RegisterInv | update/daemon.go:217-230 | Registering at any time leaves what is owed to the others alone |
| ServiceRuns.ProjectsToRun | update/dbus.go:480-632 | The daemon in any run of the bus service makes a run of the update protocol that ends in the same state |
| ServiceRuns.OneUpgradePerBoot | update/dbus.go:576-589 | However often the service exits and comes back, between two starts of kairos-agent the machine boots |
| UpdateService.SysStep | update/dbus.go:379-435 | The calls counted, the network slot and the exit decision stay consistent in every interleaving with daemon jobs |
| ServiceRuns.LastIsLastActivity | update/dbus.go:392-425 | The quiet time runs from the last activity, which reading Status is not |
| ServiceRuns.ClosesOnlyWhenQuiet | update/dbus.go:427-435 | Exit is decided only when no call is in progress and the quiet time is over since every activity before |
| ServiceRuns.ClosesWhenQuiet | update/dbus.go:427-435 | When nothing runs and the quiet time is over since the last activity other than Status, the service exits |
| UpdateService.NothingRunsAfterClosing | update/dbus.go:407-435 | Once the service decides to exit, no call is in progress or gets in and no job runs or starts |
| UpdateService.ClosingProcessIsInert | update/dbus.go:679-686 | Whatever goroutines of an exiting process still do leaves files, slots and pin to its successor |
| UpdateService.OneNetworkCall | update/dbus.go:381-390 | At most one network-bound call is admitted, and the counter is the number of calls in progress |
| ServiceRuns.CallGetsIn | update/dbus.go:407-421 | In every run a call is counted and gets in exactly unless this process has decided to exit |
| ServiceRuns.NetworkCallAnswered | update/dbus.go:381-390 | A network-bound call goes on exactly when no other is at the network, and frees it when it is done |
| ServiceRuns.CallReachesDaemon | update/dbus.go:448-618 | A call that got in reaches its own method of the daemon, and waits exactly for what it began there |
| ImageRef.AcceptedExactly | update/ref.go:17-79 | The accepted strings are exactly the printed forms of well-formed references |
| ImageRef.PrintedParsesBack | update/ref.go:69-79 | Every well-formed reference parses back to itself |
| ImageRef.ParsedPrintsBack | update/ref.go:29-66 | An accepted string is exactly what its result prints |
| ImageRef.PrintingIsInjective | update/ref.go:69-79 | No two references print alike |
| ImageName.NameExactly | update/ref.go:19 | A repository name is accepted exactly when it is woven of runs of lower-case letters and digits and the separators of the grammar |
| Release.ParseSemverLoop | update/release.go:135-152 | The array-filling loop accepts exactly the versions of the recursive definition, with the same numbers |
| Release.NewerIsStrictWeakOrder | update/release.go:154-186 | Newer is irreflexive, asymmetric, transitive, with transitive equivalence, over all strings |
| Release.EquivalenceClasses | update/release.go:157-186 | Unparseable strings are lowest and alike; versions are equivalent exactly when they parse alike |
| Release.NewestRelease | update/main.go:503-520 | The fold returns a listed version nothing listed is newer than, and nothing exactly when no tag parses |
| Release.HeadAgreesWithFold | update/github.go:100-103 | The head of the sorted list and the fold's pick are equivalent and nothing listed beats either |
| ReleaseOrder.NewerInNumbers | update/release.go:157-186 | For versions written in decimal, whatever their prefix and build metadata, newer is greater by major, then minor, then patch number; of one core a release beats its prereleases, and those compare as strings |
| ReleaseOrder.VersionReads | update/release.go:135-152 | Every version written in decimal parses as its numbers and prerelease |
| ReleaseOrder.OnlyVersionsRead | update/release.go:135-152 | And what parses is a prefix or none, three runs of digits with the values read, joined by dots, and then nothing, a dash or a plus |
| ReleaseOrder.StringLessIsBefore | update/release.go:176-186 | Strings compare as in a dictionary, by their first difference |
| Policy.LineTagIsInjective | update/release.go:48-54 | No two published images of desktop flavors share a tag |
| Policy.LineRefIsTrusted | update/policy.go:54-85 | The reference of a published release is trusted as that flavor, line and version |
| Policy.TrustedIsLineRef | update/policy.go:54-85 | A trusted image bears the reference its verdict names, of a published release |
| Policy.ClassifyInvertsLineRef | update/policy.go:54-109 | Apart from agent images, trusted means exactly being the reference built for the verdict's flavor, line and tag |
| Policy.OnlyReleasesWithoutAdvanced | update/daemon.go:423-447 | Without advanced mode only published releases pass, and an agent image never |
| Policy.EvaluateExactly | update/daemon.go:423-447 | An image may be installed exactly when registry and list answered, it is no agent image by label or tag, and its reference is a published release's or advanced mode was asked for and is on; it is trusted exactly in the first case |
| Policy.UntrustedByLabels | update/policy.go:54-85 | What is said of an image that is no release is what its labels name, when they name a desktop flavor and a strict version |
| ReleaseTags.StrictTagExactly | update/policy.go:39 | The strict tags are exactly v and three numbers in decimal without leading zeros, joined by dots |
| ReleaseTags.TrustedExactly | update/policy.go:54-85 | A reference is trusted by name exactly when it has the release repository, no digest, and a tag of a desktop flavor, vm or not, and a published strict version |
| SessionBroker.Broker.Enter | agent/internal/session/service.go:192-206 | The gate answers closed before paused and hands out the current generation otherwise |
| SessionBroker.Broker.Pause | agent/internal/session/service.go:213-227 | A pause cancels the current generation once and is idempotent |
| SessionBroker.Broker.Resume | agent/internal/session/service.go:232-244 | A resume makes a new generation only from a paused, open broker |
| SessionBroker.Broker.Close | agent/internal/session/service.go:249-266 | A close ends the broker and every generation for good |
| SessionBroker.GenerationsCancelled | agent/internal/session/service.go:192-266 | In every interleaving superseded generations are cancelled and the current one exactly when paused or closed |
| SessionBroker.PausedMeansCancelled | agent/internal/session/service.go:292-337 | While paused every call past the gate carries a cancelled generation, and a second look turns it away |
| SessionBroker.BeginsCancelledExactly | agent/internal/session/service.go:311-333 | A call begins its tool under a cancelled generation exactly when a pause or close fell between its last look at its generation and that moment |
| SessionBroker.BeginsWhilePaused | agent/internal/session/service.go:323-333 | A run in which a call with a slot begins in a paused broker |
| SessionBroker.BeginsWhilePausedWithoutSlot | agent/internal/session/service.go:292-333 | A run in which a call without a slot, which never looks twice, does |
| SessionBroker.SlotsReturned | agent/internal/session/service.go:292-337 | Slots in use are exactly the calls holding one, never above the limit, all back when the calls are answered |
| SessionBroker.ReleaseNeverBlocks | agent/internal/session/service.go:292-337 | A call that holds a slot can always give it back |
| SessionBroker.PauseInterruptsInFlight | agent/internal/session/service.go:342-366 | A call in flight at a pause stays cancelled after any resume and is not blamed on a deadline unless its caller gave up |
| SessionBroker.ServedHaveIdentity | agent/internal/session/service.go:342-355 | Every served result names the identity it ran under |
| BrokerAnswers.ControlFollowsCalls | agent/internal/session/service.go:208-266 | In every run the broker is closed once Close was called, and until then paused exactly while a pause was not followed by a resume |
| BrokerAnswers.ArrivalAnswered | agent/internal/session/service.go:192-206 | In every run an arriving call is turned away exactly by a closed or a paused broker, each with its own answer |
| BrokerAnswers.LookAnswered | agent/internal/session/service.go:311-333 | In every run a call with a slot is turned away by its second look exactly when a pause or close fell between its arrival and that look |
| BrokerAnswers.QueueLeft | agent/internal/session/service.go:303-322 | In every run a queued call leaves without a slot only when its caller has gone, told of a deadline, or when a pause or close fell since its arrival, told of the pause |
| BrokerAnswers.ReturnAnswered | agent/internal/session/service.go:335-366 | In every run a call is told what its tool answered, unless that is a deadline or internal error, a pause or close fell between its arrival and its return, and its caller is still there; exactly then it is told that it was paused |
| BrokerAnswers.CallGoesOn | agent/internal/session/service.go:292-337 | In no reachable state is a call that was let in stuck |
| Replacement.ReplaceAllIsExact | agent/internal/files/service.go:658-694 | Replace-all rewrites exactly the counted leftmost non-overlapping occurrences and nothing between them |
| Replacement.ReplaceAllLength | agent/internal/files/service.go:658-694 | The new length is the old one plus count times the difference |
| Replacement.SingleOccurrence | agent/internal/files/service.go:658-694 | For a single occurrence both forms of replacement agree |
| Replacement.CutUnique | agent/internal/files/service.go:658-694 | There is only one way to cut a text at its leftmost occurrences, and it has count cuts |
| Replacement.EditsExactly | agent/internal/files/service.go:658-694 | When each edit in turn cuts what the one before left, once or if it replaces all more often, the edits apply, their result is the last text and their total the number of cuts |
| Replacement.EditsMade | agent/internal/files/service.go:658-694 | And edits apply only then |
| PatchFiles.ReplaceFile | agent/internal/files/service.go:217-270 | Whatever fails, the path holds its old or its new contents and only temporary files are left over |
| PatchFiles.FindDuplicate | agent/internal/files/service.go:615-640 | Two inputs that name one file are always found |
| PatchFiles.PlanEdits | agent/internal/files/service.go:658-694 | Planning succeeds exactly when every edit applies within the limit, with the rewritten text and the true total |
| PatchFiles.PlanFile | agent/internal/files/service.go:640-694 | A planned file is a regular file read as it is, and without an I/O error only the limits refuse it |
| PatchFiles.PlanAll | agent/internal/files/service.go:640-694 | All files are planned within 128 replacements and 8 MiB before anything is written, or refused for a reason |
| PatchFiles.RollbackPatch | agent/internal/files/service.go:742-754 | Every restore is tried and exactly the failed paths are reported |
| PatchFiles.CleanupBackups | agent/internal/files/service.go:758-762 | Cleaning up removes backups only |
| PatchFiles.ApplyPlans | agent/internal/files/service.go:696-725 | Success leaves all planned bytes, failure all original bytes but for the reported paths |
| PatchFiles.Patch | agent/internal/files/service.go:607-725 | All or nothing for every pattern of failures, the reported total is the true one, no other file is touched, and exactly the first files, as many as were rewritten, lose their set-id and sticky bits |
| PatchFiles.SpecialSurvives | agent/internal/files/service.go:696-725 | Set-id and sticky bits survive exactly on files that had none or were not rewritten |
| ByteRing.Ring.constructor | agent/internal/process/manager.go:498-504 | A new ring stands for the empty log; a capacity that is not positive becomes the default |
| ByteRing.Ring.Write | agent/internal/process/manager.go:506-517 | Writing any number of bytes, also more than fit, appends them to the log the ring stands for |
| ByteRing.Ring.ReadFrom | agent/internal/process/manager.go:521-540 | A read from any cursor is what the unbounded log would give after forgetting all but the last capacity bytes |
| ByteRing.LostExactly | agent/internal/process/manager.go:521-540 | For every cursor, loss is reported exactly when an unread byte was overwritten or the cursor is negative, and every other byte is returned |
| ByteRing.PollsConcatenate | agent/internal/process/manager.go:492-540 | Over any sequence of writes and polls, what the polls got is the log without exactly the bytes overwritten before they were polled, and a loss was reported exactly when there are such bytes |
| ByteRing.FinalPollCatchesUp | agent/internal/process/manager.go:492-540 | A last poll has read everything written, or some poll reported a loss |
| ByteRing.CapWriter.Write | agent/internal/process/manager.go:655-672 | The capped writer always accepts everything, keeps a prefix and knows whether it dropped anything |
| Terminal.ScanOfSpell | splash/main.c:221-231 | A console reads back the control sequences and glyphs from their bytes |
| Splash.Grid.constructor | splash/main.c:90-96 | A new grid is blank |
| Splash.Grid.Clear | splash/main.c:97-101 | Clearing makes every cell read as a space in the default colour |
| Splash.Grid.Set | splash/main.c:102-107 | Setting changes the one cell inside the grid, to at most three bytes, and nothing outside it |
| Splash.Grid.ForceRepaint | splash/main.c:296-297 | The mark replaces the first byte of every cell and leaves the rest |
| Splash.FlushGrid | splash/main.c:215-236 | The bytes written are the moves, colours and texts of exactly the changed cells in order, and prev takes those cells over |
| SplashRuns.FlushPaints | splash/main.c:215-236 | A console that interprets the bytes changes exactly at the cells that differ, whatever its cursor and colour were |
| SplashRuns.FlushShows | splash/main.c:212-236 | The console shows the frame after a flush if and only if it showed prev wherever prev equals the frame; prev then reads as the frame |
| SplashRuns.FlushIsSparse | splash/main.c:215-236 | A flush writes one text for each cell that changed, sets a colour only when it is not the one set last, and writes nothing when nothing changed |
| SplashRuns.ForcedRepaint | splash/main.c:293-298 | A forced flush repairs every possible console contents if and only if no cell reads as its marked predecessor |
| SplashRuns.MaskedCellSurvives | splash/main.c:293-298 | A cell that does, and stray text over it that survives a forced frame |
| SplashRuns.DrawFrame | splash/main.c:293-298 | The end of a turn of the loop, on the grids, is one step of the run |
| SplashRuns.FrameShows | splash/main.c:293-298 | A frame shows if the console was in step, or if it is forced |
| SplashRuns.RepairedWithinFifteen | splash/main.c:293-298 | Fifteen frames repair anything that was written on the console |
| SplashRuns.ConsoleFollows | splash/main.c:241-300 | Over a whole run the console shows the last frame if nothing else ever wrote, or not during the last fifteen frames |
| SplashRuns.FourteenAreTooFew | splash/main.c:293-298 | A run in which stray text survives fourteen frames |
| StageKey.Closure | tools/stage-key.py:120-131 | On every stage graph, cyclic or with repeated references, the worklist ends with exactly the stages reached, each once |
| StageKey.OrderOfSet | tools/stage-key.py:136 | Two worklist results hash in the same order exactly when they hold the same stages |
| StageKey.AscendingUnique | tools/stage-key.py:136 | An ascending order is determined by its elements |
| StageKey.BuiltFromUnique | tools/stage-key.py:120-136 | The hashed order is a function of stages and target alone |
| StageKey.HashInput | tools/stage-key.py:116-150 | The bytes hashed are the lines and context of exactly the stages the target is built from, in that order, then the values of exactly the ARGs they name, in order; an unknown stage is an error |
| StageText.ExpandDependsOnNamed | tools/stage-key.py:71-72 | An expansion depends on the values of the variables named and on no others |
| StageText.VariableRead | tools/stage-key.py:28 | For every name, values and rest, ${NAME}, $NAME and either brace alone expand to the value, are found as that name, and the rest is read on |
| StageText.TextCopied | tools/stage-key.py:71-72 | Text before a dollar sign is copied and names nothing |
| StageText.LoneDollarCopied | tools/stage-key.py:28 | So is a dollar sign that no name follows |
| StageText.ReferenceRead | tools/stage-key.py:26 | Either mark followed by a reference makes exactly that reference, and the rest is read on |
| StageText.NoMarkNoReference | tools/stage-key.py:26 | Text in which no mark begins makes none |
| StageText.ArgNameExactly | tools/stage-key.py:25 | A line declares an ARG exactly when it is ARG, white space, the name, and then the end or an equals sign |
| StageCovered.EdgeExactly | tools/stage-key.py:120-131 | A stage names another exactly when its base or a reference of its lines, with the variables put in and in lower case, is the name of the other |
| StageCovered.UsedExactly | tools/stage-key.py:134-144 | The ARGs hashed are exactly those a covered stage declares in a line or names in its base |
| StageCovered.FromVariable | tools/stage-key.py:120-144 | In every Dockerfile a covered stage with base ${NAME}rest has the stage that the value of NAME selects covered and NAME hashed |
| StageCovered.ChosenDesktopIsCovered | Dockerfile:4549 | With a stage FROM ${DESKTOP}-rootfs the key covers the rootfs of the desktop chosen and no other, and hashes the choice |
| StageCovered.LinesAppend | tools/stage-key.py:139-145 | The bytes of lines are those of the first ones and then of the others |
| StageCovered.OneLine | tools/stage-key.py:142-145 | Of one line they are the line, a line end, and what it copies from the context |
| StageChanges.OthersDoNotMatter | tools/stage-key.py:4-13 | A change to stages the target is not built from, and to values of ARGs those do not name, leaves the bytes hashed, provided their references stand for what they stood for |
| StageChanges.NamedValuesDecide | tools/stage-key.py:120-131 | References keep what they stand for when the values of every variable they name agree |
| StageChanges.CoveredAlikeExactly | tools/stage-key.py:120-131 | Exactly when two sets of values make a file cover the same stages |
| StageChanges.ReferenceOnlyArg | tools/stage-key.py:124-140 | A Dockerfile in which the value of an ARG that is hashed nowhere decides which stage is covered |
| StageChanges.ReferenceOnlyArgChangesBytes | tools/stage-key.py:124-145 | And the bytes that are hashed |
| StageChanges.ValuesCollide | tools/stage-key.py:146-150 | Two sets of values with the same bytes |
| StageChanges.ValuesMatter | tools/stage-key.py:146-150 | Among values without a line end the bytes change exactly when a value does |
| StageChanges.OneValueMatters | tools/stage-key.py:146-150 | When one value changes the bytes change, whatever the values hold |
| Bearer.DigestFormat | agent/internal/auth/token.go:81-97 | A digest passes exactly when it is sha256: and 64 lower-case hexadecimal digits |
| Bearer.DigestsAreValid | agent/internal/auth/token.go:107-112 | Every bearer's digest is valid, and two bearers share one exactly on a collision of the hash |
| Bearer.ClassOfBearer | agent/internal/auth/token.go:138-165 | A bearer has one class, whatever order the prefixes are tried in |
| Bearer.BearerFormat | agent/internal/auth/token.go:138-165 | A bearer is hdn_u_ or hdn_a_ and 43 characters of base64url |
| Bearer.HexDigits | agent/internal/auth/token.go:107-112 | A digest spells each byte as two hexadecimal digits, the high one first |
| Bearer.VerifyExactly | agent/internal/auth/token.go:369-408 | A bearer is let through exactly when it is of the class asked for and its digest is the current one of that class, or the previous one until it expires; each error has its cause; the scope is that of the class and the user the first 16 digits of the digest |
| Bearer.ValidateExactly | agent/internal/auth/token.go:233-256 | A configuration is let in exactly when its current digest is one and it has no previous, or another digest with a time of at most a day from now |
| Bearer.WindowIsBounded | agent/internal/auth/token.go:233-256 | A validated configuration accepts its current digest alone from a day later on |
| Rotation.StateDir.WriteFile | agent/internal/provision/state.go:568-623 | Whichever operation fails, the path holds its old contents or all of the new ones; an error leaves the new ones only if the sync of the directory failed; a temporary file is left only if its removal failed |
| Rotation.StateDir.Rollback | agent/internal/provision/state.go:534-547 | The rollback goes through every snapshot whatever fails |
| Rotation.StateDir.Rotate | agent/internal/provision/state.go:426-513 | The call leaves, and passes through, exactly the contents of its specification for every pattern of faults |
| RotationRuns.RotateOldOrPlanned | agent/internal/provision/state.go:480-497 | At every instant of a call a file holds its old contents, the planned ones, or is gone |
| RotationRuns.RollbackLeaves | agent/internal/provision/state.go:534-547 | What each file holds after a failed call, from what its snapshot, write, restore and removal did |
| RotationRuns.FailureRestores | agent/internal/provision/state.go:420-425 | A failed call leaves every file as it was if and only if each planned file was put back |
| RotationRuns.RotateSucceedsExactly | agent/internal/provision/state.go:426-513 | Exactly when a call of either class succeeds, reports a failed write or reports a failed reload; before, nothing is changed |
| RotationRuns.RefusedFor | agent/internal/provision/state.go:426-468 | Which refusal comes before, by the first thing that is wrong |
| RotationRuns.UnreadableSnapshotRemoves | agent/internal/provision/state.go:483-488 | A failed call whose rollback removes the gateway's file |
| RotationRuns.SuccessInstalls | agent/internal/provision/state.go:452-521 | A successful call makes its digest current, keeps the outgoing one for the overlap, and changes nothing else |
| RotationRuns.OverlapIsHonoured | agent/internal/provision/serviceconfig.go:66-93 | After a success a service accepts the new digest always, the outgoing one through the last whole second of the overlap, and no other |
| RotationRuns.AgreeAfter | agent/internal/provision/state.go:469-503 | Exactly when gateway and root helper hold the same admin rotation after a call |
| RotationRuns.RollbackKeepsAgreement | agent/internal/provision/state.go:420-503 | Whenever restoring succeeds, both files agree after any call and a failed call changed nothing |
| RotationRuns.AdminWindow | agent/internal/provision/state.go:489-497 | A successful admin call has the files apart exactly between its two writes, and brings any files together |
| RotationHistory.HistoryInv | agent/internal/provision/state.go:225-547 | Over all histories every stored previous digest has a reason: it was current, or handed in, at most a day before it expires |
| RotationHistory.AlwaysLoads | agent/internal/provision/serviceconfig.go:75-93 | No history, failed, rolled back or cut short, leaves a rotation a service refuses to load |
| RotationRuns.AtMostThreeDuring | agent/internal/provision/state.go:489-497 | At every instant of a call that began in agreement gateway and root helper together accept at most three admin digests |
| RotationRuns.AgreeingAcceptTwo | agent/internal/provision/state.go:469-480 | While the files agree both services accept the same admin digests, at most two |
| RotationRuns.AcceptedInWindow | agent/internal/provision/state.go:489-497 | Exactly which admin digests each service accepts between the two writes |
| RotationRuns.TwoWithoutOverlap | agent/internal/provision/state.go:489-503 | From agreement and without a running overlap, no instant of any call, failed or cut short, accepts more than two admin digests |
| RotationRuns.TwoThroughoutExactly | agent/internal/provision/state.go:489-497 | A successful admin call accepts no more than two at any instant if and only if no earlier overlap is running |
| RotationRuns.FourAfterTwoCrashes | agent/internal/provision/state.go:489-497 | What the two services accept after two admin calls that died between their writes |
| RotationWitness.ThreeAccepted | agent/internal/provision/state.go:489-497 | A history of one provisioning and one call cut short after which three different admin digests are accepted |
| RotationWitness.FourAccepted | agent/internal/provision/state.go:489-497 | The same with a second such call, and four |
| RotationHistory.ServicesStart | agent/internal/auth/token.go:311-329 | After any history both services build their verifiers from their files |
| RotationHistory.AcceptedWasCurrent | agent/internal/auth/token.go:369-408 | By each file at most two digests are accepted, and one that is not its current one was the gateway's current, or handed in by provisioning, within the last 24 hours |
| RotationHistory.RootAcceptsWhatGatewayHeld | agent/internal/provision/state.go:469-497 | What the root helper accepts was the gateway's current digest; while the files agree, it is now or was within 24 hours |
| RotationHistory.ProvisioningKeepsTrust | agent/internal/provision/state.go:219-357 | Provisioning over persisted state keeps the rotation of every class the configuration names no digest for, at every instant and whatever fails |
| RotationHistory.ProvisionsExactly | agent/internal/provision/state.go:219-345 | Exactly when provisioning gets to write |
| RotationHistory.ProvisioningAdopts | agent/internal/provision/state.go:331-377 | A class for which the configuration names a digest is given exactly what was named |
| RotationHistory.ProvisioningMints | agent/internal/provision/state.go:331-357 | The first provisioning without a user digest makes the generated one current, and an admin bearer is never generated |
| Rotation.ValidatePairMirrors | agent/internal/provision/config.go:551-576 | A provisioned pair with a digest is checked exactly as a service will check it |
| RotationHistory.AgreesAtRest | agent/internal/provision/state.go:426-547 | Over any sequence of provisionings and rotations with working restores the gateway and the root helper agree at rest |

## Left out

- UpdateDaemon.Daemon.PassGate: the text of an error is abstract, and the status event carries it as such.
- UpdateDaemon.Daemon.EndCheck: the cache of the release list and its lifetime are not modelled; the list is any list the step receives.
- UpdateDaemon.Daemon.constructor: reading and parsing the release file is a parameter, a result or an error.
- UpdateProtocol.StepInv: a crash inside a lock-held region is represented by the region with its failing writes followed by a crash; job identity is a fresh number instead of a pointer; the pin and the advanced switch are read at the step that needs them.
- UpdateProtocol.AgentInv: a kairos-agent that outlives its daemon goes on, which is more than systemd allows; its image write before the renames is one step.
- UpdateService.NothingRunsAfterClosing: the exit on a lost bus connection, polkit and the checks of a caller's credentials only refuse calls and are not modelled further.
- Release.HeadAgreesWithFold: the stable sort is represented by any list with the same elements that is sorted with Newer.
- Release.ParseSemverLoop: numbers are 64-bit as strconv.Atoi has them; white space is ASCII only.
- SessionBroker.PausedMeansCancelled: cancelling is a flag of a generation; the merged context sees it in a step of its own, which may come late.
- SessionBroker.ServedHaveIdentity: what executors do with a cancelled context is any answer.
- PatchFiles.Patch: fsync, ownership, symbolic links in parent directories and two paths for one file beyond the cleaned name are not modelled; backup names are assumed new, as their process id and time make them.
- PatchFiles.WriteNew: a failed backup may leave a file of that name, as in the source.
- ByteRing.Ring.Write: the total is unbounded, an overflow of its 64 bits is not modelled.
- Terminal.ScanOfSpell: what stands between two control sequences is one glyph in one cell; UTF-8 decoding, wide characters and scrolling are not modelled, and other sequences are ignored.
- SplashRuns.ConsoleFollows: a frame's colours are below 16, as the palette has them; texts hold no ESC; the picture a frame holds is any picture.
- UpdateDaemon.WriteRunFile: file modes are not modelled; a temporary file never has the name of another file.
- StageKey.HashInput: white space is ASCII, lower case and the bytes of context files are any function; a missing context file, which stops the program, and the splitting of the Dockerfile into stages and global ARGs are left out.
- Bearer.VerifyExactly: SHA-256 is any function to 32 bytes; that comparisons take constant time is not stated; a payload is well formed when it is 43 base64url characters.
- Rotation.StateDir.Rotate: one rotation runs at a time; JSON encoding is exact or the file counts as corrupt; the new bearer is printed by the caller of a successful call only.
- RotationHistory.AlwaysLoads: the clock does not run backwards, generated digests are new, and no time of validity lies in the first second of the year 1.
- RotationHistory.AgreesAtRest: of the files a provisioning writes only the gateway's and the root helper's configuration are modelled; the others only decide whether it gets that far.
- The root helper and the control plane repeat the broker's protocol and are not modelled.
- fill, clear_rect and the graphical splash, the wallpapers, fonts and icons.
- The installer, picker, tray, progress views and menus.
- The computer-use adapter, the browser script, mDNS, TLS generation, HTTP and MCP transport, process spawning and cgroups.
- Reading, searching and writing single files of the files tool.
