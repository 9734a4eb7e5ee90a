/** The update daemon on its machine: the daemon's memory and goroutines, the
    run directory, kairos-agent and the A/B slots, under crashes of the daemon
    and boots of the machine. Every lock-held region of update/daemon.go is one
    step, a function of UpdateDaemon; what happens between two regions, and
    everything the environment does, are steps of their own. */
module UpdateProtocol {
  import opened Wrappers
  import opened ImageRef
  import opened Release
  import opened Policy
  import opened Delivery
  import opened UpdateDaemon

  // ---------------------------------------------------------------------
  // State
  // ---------------------------------------------------------------------

  /** The images in the two slots; a slot can be empty between two renames. */
  datatype Slots = Slots(active: Option<string>, passive: Option<string>)

  /** How far a kairos-agent run has come: active renamed to passive, then the
      new image renamed to active. */
  datatype Phase = Running | Moved | Swapped

  /** A kairos-agent run started in this boot, for which Apply call and on
      which grounds. It outlives the daemon that started it until it exits. */
  datatype Install = Install(owner: nat, source: string, grounds: Grounds, phase: Phase, exit: Option<bool>)

  /** What the install was decided on: the reference and digest of the Apply
      call, the release and the list the image was classified against, and
      whether advanced mode overrode the policy. */
  datatype Grounds = Grounds(ref: Ref, digest: string, rel: Rel, listed: seq<string>, override: bool)

  /** Where the goroutine of an Apply stands. */
  datatype RunPc =
    | Evaluating(ref: string, digest: string, advanced: bool)
    | Ready(plan: Plan, grounds: Grounds)
    | Upgrading(plan: Plan)
    | Returned(plan: Plan, ok: bool)
    | Recorded(plan: Plan, ok: bool)
    | Pinned(plan: Plan, note: string)

  datatype Task = CheckTask(pending: bool) | RunTask(pc: RunPc) | RestartTask

  /** The arguments an Apply call was accepted with. */
  datatype Request = Request(ref: string, digest: string, advanced: bool)

  datatype Core = Core(
    up: bool,                    // a daemon process runs
    m: Mem,                      // its memory
    tasks: map<nat, Task>,       // its goroutines between two regions
    nextId: nat,
    run: RunDir,
    pin: Option<string>,
    slots: Slots,
    // history of this boot
    booted: Slots,               // the slots as the boot found them
    installs: seq<Install>,      // the kairos-agent runs started
    // history of all boots
    requests: map<nat, Request>, // the accepted Apply calls
    // history of this daemon process
    outstanding: set<nat>,       // restart calls that have not failed
    uncovered: bool)             // a restart call failed while another was outstanding

  datatype Action =
    | Start(loaded: Result<Rel, string>, latestUnreadable: bool, markerUnreadable: bool)
    | Crash
    | Boot
    | Register(progress: bool)
    | Deliver(worker: nat)
    | CheckCall(amb: Ambient)
    | CheckReturn(id: nat, published: Result<seq<string>, string>, amb: Ambient, latestFails: bool)
    | ApplyCall(request: Request, amb: Ambient)
    | EvaluateReturn(id: nat, resolved: Result<ImageInfo, string>, published: Result<seq<string>, string>,
                     enabled: bool, why: string, amb: Ambient, markerFails: bool, latestFails: bool)
    | UpgradeCall(id: nat)
    | OutputLine(id: nat, line: string)
    | AgentMove(i: nat)
    | AgentSwap(i: nat)
    | AgentExit(i: nat, ok: bool)
    | UpgradeReturn(id: nat)
    | RecordOutcome(id: nat, markerFails: bool)
    | UpdatePin(id: nat, note: string)
    | FinishRun(id: nat, amb: Ambient)
    | CancelCall(amb: Ambient)
    | RebootCall
    | PreviousCall
    | RestartReturn(id: nat, ok: bool)

  // ---------------------------------------------------------------------
  // Steps
  // ---------------------------------------------------------------------

  function DoStart(c: Core, loaded: Result<Rel, string>, latestUnreadable: bool, markerUnreadable: bool): Core {
    c.(up := true, m := NewMem(loaded, c.run, latestUnreadable, markerUnreadable), tasks := map[],
       outstanding := {}, uncovered := false)
  }

  /** The process and its goroutines are gone; kairos-agent may live on. */
  function DoCrash(c: Core): Core {
    c.(up := false, tasks := map[], outstanding := {}, uncovered := false)
  }

  /** The run directory is a tmpfs; no process survives. */
  function DoBoot(c: Core): Core {
    DoCrash(c).(run := RunDir(None, None), booted := c.slots, installs := [])
  }

  function DoCheckCall(c: Core, amb: Ambient): Core {
    match CheckAnswer(c.m)
    case CheckStarted(pending) =>
      c.(m := CheckBegin(c.m, c.nextId, amb), tasks := c.tasks[c.nextId := CheckTask(pending)], nextId := c.nextId + 1)
    case _ => c
  }

  function DoCheckReturn(c: Core, id: nat, published: Result<seq<string>, string>, amb: Ambient, fails: bool): Core
    requires id in c.tasks && c.tasks[id].CheckTask?
  {
    var pending := c.tasks[id].pending;
    c.(m := CheckEnd(c.m, id, pending, published, amb),
       run := CheckEndFile(c.m, c.run, id, pending, published, fails),
       tasks := c.tasks - {id})
  }

  function DoApplyCall(c: Core, r: Request, amb: Ambient): Core {
    if ApplyAnswer(c.m, r.ref, r.digest).Some? then c
    else
      c.(m := ApplyBegin(c.m, c.nextId, amb),
         tasks := c.tasks[c.nextId := RunTask(Evaluating(r.ref, r.digest, r.advanced))],
         requests := c.requests[c.nextId := r],
         nextId := c.nextId + 1)
  }

  predicate AtEvaluation(c: Core, id: nat) {
    c.up && id in c.tasks && c.tasks[id].RunTask? && c.tasks[id].pc.Evaluating?
  }

  /** The registry answers about the reference it was asked about. */
  predicate AnswersFor(ref: string, resolved: Result<ImageInfo, string>) {
    resolved.Ok? ==> ParseRef(ref) == Ok(resolved.value.ref)
  }

  function Decision(c: Core, pc: RunPc, resolved: Result<ImageInfo, string>, published: Result<seq<string>, string>,
                    enabled: bool, why: string): Result<Evaluation, string>
    requires pc.Evaluating?
  {
    match Evaluate(resolved, published, c.m.rel, pc.advanced, enabled)
    case Ok(e) => Ok(e)
    case Err(_) => Err(why)
  }

  function DoEvaluateReturn(c: Core, id: nat, ev: Result<Evaluation, string>, override: bool, amb: Ambient,
                            markerFails: bool, latestFails: bool): Core
    requires AtEvaluation(c, id)
  {
    var pc := c.tasks[id].pc;
    var passes := GatePasses(c.m, id, pc.ref, pc.digest, ev, markerFails);
    c.(m := Gate(c.m, id, pc.ref, pc.digest, ev, amb, markerFails),
       run := GateFiles(c.m, c.run, id, pc.ref, pc.digest, ev, markerFails, latestFails),
       tasks := if passes then
                  c.tasks[id := RunTask(Ready(PlanOf(pc.ref, ev.value),
                                              Grounds(ev.value.info.ref, pc.digest, c.m.rel, ev.value.published,
                                                      override)))]
                else c.tasks - {id})
  }

  function DoUpgradeCall(c: Core, id: nat): Core
    requires id in c.tasks && c.tasks[id].RunTask? && c.tasks[id].pc.Ready?
  {
    var pc := c.tasks[id].pc;
    c.(tasks := c.tasks[id := RunTask(Upgrading(pc.plan))],
       installs := c.installs + [Install(id, pc.plan.source, pc.grounds, Running, None)])
  }

  function DoAgentMove(c: Core, i: nat): Core
    requires i < |c.installs|
  {
    c.(installs := c.installs[i := c.installs[i].(phase := Moved)], slots := Slots(None, c.slots.active))
  }

  function DoAgentSwap(c: Core, i: nat): Core
    requires i < |c.installs|
  {
    c.(installs := c.installs[i := c.installs[i].(phase := Swapped)],
       slots := c.slots.(active := Some(c.installs[i].source)))
  }

  function DoAgentExit(c: Core, i: nat, ok: bool): Core
    requires i < |c.installs|
  {
    c.(installs := c.installs[i := c.installs[i].(exit := Some(ok))])
  }

  /** The kairos-agent run of a goroutine has exited. */
  predicate Exited(c: Core, id: nat, ok: bool) {
    exists i :: 0 <= i < |c.installs| && c.installs[i].owner == id && c.installs[i].exit == Some(ok)
  }

  function DoUpgradeReturn(c: Core, id: nat): Core
    requires id in c.tasks && c.tasks[id].RunTask? && c.tasks[id].pc.Upgrading?
  {
    c.(tasks := c.tasks[id := RunTask(Returned(c.tasks[id].pc.plan, Exited(c, id, true)))])
  }

  function DoRecordOutcome(c: Core, id: nat, fails: bool): Core
    requires id in c.tasks && c.tasks[id].RunTask? && c.tasks[id].pc.Returned?
  {
    var pc := c.tasks[id].pc;
    var text := MarkerText(if pc.ok then INSTALLED else FAILED, pc.plan.source);
    c.(tasks := c.tasks[id := RunTask(Recorded(pc.plan, pc.ok))],
       run := if fails then c.run else c.run.(marker := Some(text)))
  }

  function DoUpdatePin(c: Core, id: nat, note: string): Core
    requires id in c.tasks && c.tasks[id].RunTask? && c.tasks[id].pc.Recorded?
  {
    var plan := c.tasks[id].pc.plan;
    c.(tasks := c.tasks[id := RunTask(Pinned(plan, note))],
       pin := if note != "" then c.pin else if plan.clearPin then None else Some(plan.ref + "\n"))
  }

  predicate AtFinish(c: Core, id: nat) {
    && c.up && id in c.tasks && c.tasks[id].RunTask?
    && (c.tasks[id].pc.Pinned? || (c.tasks[id].pc.Recorded? && !c.tasks[id].pc.ok))
  }

  function DoFinishRun(c: Core, id: nat, amb: Ambient): Core
    requires AtFinish(c, id)
  {
    var pc := c.tasks[id].pc;
    c.(m := if pc.Pinned? then FinishInstalled(c.m, pc.note, amb) else FinishFailed(c.m, amb), tasks := c.tasks - {id})
  }

  function DoCancelCall(c: Core, amb: Ambient): Core
    requires CancelAnswer(c.m).None? ==> c.m.job.Some?
  {
    c.(m := CancelJob(c.m, amb))
  }

  function DoRestartCall(c: Core, answer: Option<Refusal>): Core {
    if answer.Some? then c
    else
      c.(m := RestartBegin(c.m), tasks := c.tasks[c.nextId := RestartTask], nextId := c.nextId + 1,
         outstanding := c.outstanding + {c.nextId}, uncovered := false)
  }

  function DoRestartReturn(c: Core, id: nat, ok: bool): Core {
    if ok then c.(tasks := c.tasks - {id})
    else
      c.(m := RestartFailed(c.m), tasks := c.tasks - {id}, outstanding := c.outstanding - {id},
         uncovered := c.outstanding - {id} != {})
  }

  function DoRegister(c: Core, progress: bool): Core {
    c.(m := c.m.(q := if progress then RegisterProgress(c.m.q) else RegisterChange(c.m.q)))
  }

  function DoDeliver(c: Core, w: nat): Core
    requires w < |c.m.q.workers|
  {
    c.(m := c.m.(q := if c.m.q.workers[w].AtLock? then TakeBatch(c.m.q, w) else Advance(c.m.q, w)))
  }

  predicate PcRun(c: Core, id: nat) {
    c.up && id in c.tasks && c.tasks[id].RunTask?
  }

  predicate Enabled(c: Core, a: Action) {
    match a
    case Start(_, _, _) => !c.up
    case Crash => c.up
    case Boot => true
    case Register(_) => c.up
    case Deliver(w) => c.up && w < |c.m.q.workers|
    case CheckCall(_) => c.up
    case CheckReturn(id, _, _, _) => c.up && id in c.tasks && c.tasks[id].CheckTask?
    case ApplyCall(_, _) => c.up
    case EvaluateReturn(id, resolved, _, _, _, _, _, _) =>
      AtEvaluation(c, id) && AnswersFor(c.tasks[id].pc.ref, resolved)
    case UpgradeCall(id) => PcRun(c, id) && c.tasks[id].pc.Ready?
    case OutputLine(id, _) => PcRun(c, id) && c.tasks[id].pc.Upgrading?
    case AgentMove(i) =>
      i < |c.installs| && c.installs[i].exit.None? && c.installs[i].phase.Running? && c.slots.active.Some?
    case AgentSwap(i) => i < |c.installs| && c.installs[i].exit.None? && c.installs[i].phase.Moved?
    case AgentExit(i, ok) => i < |c.installs| && c.installs[i].exit.None? && (ok ==> c.installs[i].phase.Swapped?)
    case UpgradeReturn(id) =>
      PcRun(c, id) && c.tasks[id].pc.Upgrading? && (Exited(c, id, true) || Exited(c, id, false))
    case RecordOutcome(id, _) => PcRun(c, id) && c.tasks[id].pc.Returned?
    case UpdatePin(id, _) => PcRun(c, id) && c.tasks[id].pc.Recorded? && c.tasks[id].pc.ok
    case FinishRun(id, _) => AtFinish(c, id)
    case CancelCall(_) => c.up && (CancelAnswer(c.m).None? ==> c.m.job.Some?)
    case RebootCall => c.up
    case PreviousCall => c.up
    case RestartReturn(id, _) => c.up && id in c.tasks && c.tasks[id].RestartTask?
  }

  function Next(c: Core, a: Action): Core
    requires Enabled(c, a)
  {
    match a
    case Start(loaded, l, k) => DoStart(c, loaded, l, k)
    case Crash => DoCrash(c)
    case Boot => DoBoot(c)
    case Register(progress) => DoRegister(c, progress)
    case Deliver(w) => DoDeliver(c, w)
    case CheckCall(amb) => DoCheckCall(c, amb)
    case CheckReturn(id, published, amb, fails) => DoCheckReturn(c, id, published, amb, fails)
    case ApplyCall(r, amb) => DoApplyCall(c, r, amb)
    case EvaluateReturn(id, resolved, published, enabled, why, amb, markerFails, latestFails) =>
      var pc := c.tasks[id].pc;
      DoEvaluateReturn(c, id, Decision(c, pc, resolved, published, enabled, why), pc.advanced && enabled, amb,
                       markerFails, latestFails)
    case UpgradeCall(id) => DoUpgradeCall(c, id)
    case OutputLine(id, line) => c.(m := ProgressLine(c.m, line))
    case AgentMove(i) => DoAgentMove(c, i)
    case AgentSwap(i) => DoAgentSwap(c, i)
    case AgentExit(i, ok) => DoAgentExit(c, i, ok)
    case UpgradeReturn(id) => DoUpgradeReturn(c, id)
    case RecordOutcome(id, fails) => DoRecordOutcome(c, id, fails)
    case UpdatePin(id, note) => DoUpdatePin(c, id, note)
    case FinishRun(id, amb) => DoFinishRun(c, id, amb)
    case CancelCall(amb) => DoCancelCall(c, amb)
    case RebootCall => DoRestartCall(c, RebootAnswer(c.m))
    case PreviousCall => DoRestartCall(c, PreviousAnswer(c.m))
    case RestartReturn(id, ok) => DoRestartReturn(c, id, ok)
  }

  /** A machine that has just booted, with any slots and any pin. */
  predicate Init(c: Core) {
    && !c.up && c.tasks == map[] && c.run == RunDir(None, None)
    && c.booted == c.slots && c.installs == [] && c.requests == map[]
    && c.outstanding == {} && !c.uncovered
  }

  // ---------------------------------------------------------------------
  // The invariant
  // ---------------------------------------------------------------------

  /** The state a job's goroutine stands for. */
  function TaskState(t: Task): Option<State> {
    match t
    case CheckTask(pending) => if pending then None else Some(Checking)
    case RunTask(pc) => if pc.Evaluating? then Some(Inspecting) else Some(Applying)
    case RestartTask => None
  }

  predicate PastGate(t: Task) {
    t.RunTask? && !t.pc.Evaluating?
  }

  /** A job may start from these states only. */
  predicate CanStartJob(s: State) {
    s.Idle? || s.UpToDate? || s.UpdateAvailable? || s.Error?
  }

  /** State, job and goroutines fit together. */
  ghost predicate Linked(c: Core) {
    && (!c.up ==> c.tasks == map[])
    && (forall id :: id in c.tasks ==> id < c.nextId)
    && (c.up ==>
          && (c.m.state.Unmanaged? <==> !c.m.managed)
          && (c.m.job.None? ==> !BusyState(c.m.state))
          && (c.m.job.Some? ==>
                && c.m.job.value.id in c.tasks
                && TaskState(c.tasks[c.m.job.value.id]) == Some(c.m.state)
                && CanStartJob(c.m.job.value.prev))
          && (forall id :: id in c.tasks && PastGate(c.tasks[id]) ==> Holds(c.m, id))
          && (c.m.rebooting ==> !c.m.state.Inspecting? && !c.m.state.Applying?))
  }

  /** From the gate on there is a marker, and a managed daemon knows it. */
  ghost predicate Marked(c: Core) {
    && (c.installs != [] ==> c.run.marker.Some?)
    && (c.up && c.m.state.Applying? ==> c.run.marker.Some?)
    && (c.up && c.m.managed && c.run.marker.Some? ==> c.m.state.Applying? || c.m.state.RebootPending?)
  }

  /** How the kairos-agent runs of this boot fit the goroutine that is past the
      gate, if there is one. */
  ghost predicate RunsFit(installs: seq<Install>, id: nat, pc: RunPc) {
    match pc
    case Evaluating(_, _, _) => true
    case Ready(_, _) => installs == []
    case Upgrading(plan) => |installs| == 1 && installs[0].owner == id && installs[0].source == plan.source
    case Returned(_, ok) => |installs| == 1 && installs[0].exit == Some(ok)
    case Recorded(_, ok) => |installs| == 1 && installs[0].exit == Some(ok)
    case Pinned(_, _) => |installs| == 1 && installs[0].exit == Some(true)
  }

  ghost predicate OneInstall(c: Core) {
    && |c.installs| <= 1
    && (c.up ==> forall id :: id in c.tasks && PastGate(c.tasks[id]) ==> RunsFit(c.installs, id, c.tasks[id].pc))
  }

  /** The slots are what the boot found, changed by the one run as far as it came. */
  ghost predicate SlotsFit(c: Core) {
    if c.installs == [] then c.slots == c.booted
    else
      match c.installs[0].phase
      case Running => c.slots == c.booted && c.installs[0].exit != Some(true)
      case Moved => c.slots == Slots(None, c.booted.active) && c.booted.active.Some? && c.installs[0].exit != Some(true)
      case Swapped => c.slots == Slots(Some(c.installs[0].source), c.booted.active) && c.booted.active.Some?
  }

  /** A pending word claims an outcome only if that is how the run ended. */
  predicate WordTrue(word: string, installs: seq<Install>) {
    && KnownWord(word)
    && (word == INSTALLED ==> |installs| > 0 && installs[0].exit == Some(true))
    && (word == FAILED ==> |installs| > 0 && installs[0].exit == Some(false))
  }

  ghost predicate Truthful(c: Core) {
    && (c.run.marker.Some? ==> WordTrue(MarkerWord(c.run.marker.value), c.installs))
    && (c.up && c.m.state.RebootPending? ==> WordTrue(c.m.pending, c.installs))
  }

  ghost predicate Inv(c: Core) {
    Linked(c) && Marked(c) && OneInstall(c) && SlotsFit(c) && Truthful(c)
  }

  // ---------------------------------------------------------------------
  // Every step keeps it
  // ---------------------------------------------------------------------

  lemma InitInv(c: Core)
    requires Init(c)
    ensures Inv(c)
  {
  }

  lemma StartInv(c: Core, loaded: Result<Rel, string>, l: bool, k: bool)
    requires Inv(c) && !c.up
    ensures Inv(DoStart(c, loaded, l, k))
  {
    hide MarkerWord, StrictTag, PendingDetail;
  }

  lemma CrashAndBootInv(c: Core)
    requires Inv(c)
    ensures Inv(DoCrash(c)) && Inv(DoBoot(c))
  {
    hide MarkerWord;
  }

  lemma QueueStepInv(c: Core, q: Queue<Status>)
    requires Inv(c)
    ensures Inv(c.(m := c.m.(q := q)))
  {
    hide MarkerWord;
  }

  lemma CheckCallInv(c: Core, amb: Ambient)
    requires Inv(c) && c.up
    ensures Inv(DoCheckCall(c, amb))
  {
    hide MarkerWord, Push, StatusOf;
  }

  lemma CheckReturnInv(c: Core, id: nat, published: Result<seq<string>, string>, amb: Ambient, fails: bool)
    requires Inv(c) && c.up && id in c.tasks && c.tasks[id].CheckTask?
    ensures Inv(DoCheckReturn(c, id, published, amb, fails))
  {
    hide MarkerWord, Push, StatusOf, Newer, Newest;
  }

  lemma ApplyCallInv(c: Core, r: Request, amb: Ambient)
    requires Inv(c) && c.up
    ensures Inv(DoApplyCall(c, r, amb))
  {
    hide MarkerWord, Push, StatusOf, ParseRef, IsDigest;
  }

  lemma EvaluateReturnInv(c: Core, id: nat, ev: Result<Evaluation, string>, override: bool, amb: Ambient,
                          markerFails: bool, latestFails: bool)
    requires Inv(c) && AtEvaluation(c, id)
    ensures Inv(DoEvaluateReturn(c, id, ev, override, amb, markerFails, latestFails))
  {
    hide MarkerWord, MarkerText, Push, StatusOf, Newest, SourceOf;
    if ev.Ok? { MarkerRoundTrip(STARTED, SourceOf(ev.value)); }
  }

  lemma UpgradeCallInv(c: Core, id: nat)
    requires Inv(c) && PcRun(c, id) && c.tasks[id].pc.Ready?
    ensures Inv(DoUpgradeCall(c, id))
  {
    hide MarkerWord;
  }

  /** kairos-agent's own steps, whether or not its daemon still lives. */
  lemma AgentInv(c: Core, a: Action)
    requires Inv(c) && (a.AgentMove? || a.AgentSwap? || a.AgentExit?) && Enabled(c, a)
    ensures Inv(Next(c, a))
  {
    hide MarkerWord;
  }

  lemma OutputLineInv(c: Core, line: string)
    requires Inv(c)
    ensures Inv(c.(m := ProgressLine(c.m, line)))
  {
    hide MarkerWord, Push;
  }

  lemma UpgradeReturnInv(c: Core, id: nat)
    requires Inv(c) && PcRun(c, id) && c.tasks[id].pc.Upgrading? && (Exited(c, id, true) || Exited(c, id, false))
    ensures Inv(DoUpgradeReturn(c, id))
  {
    hide MarkerWord;
  }

  lemma RecordOutcomeInv(c: Core, id: nat, fails: bool)
    requires Inv(c) && PcRun(c, id) && c.tasks[id].pc.Returned?
    ensures Inv(DoRecordOutcome(c, id, fails))
  {
    hide MarkerWord, MarkerText;
    var pc := c.tasks[id].pc;
    MarkerRoundTrip(if pc.ok then INSTALLED else FAILED, pc.plan.source);
  }

  lemma UpdatePinInv(c: Core, id: nat, note: string)
    requires Inv(c) && PcRun(c, id) && c.tasks[id].pc.Recorded? && c.tasks[id].pc.ok
    ensures Inv(DoUpdatePin(c, id, note))
  {
    hide MarkerWord;
  }

  lemma FinishRunInv(c: Core, id: nat, amb: Ambient)
    requires Inv(c) && AtFinish(c, id)
    ensures Inv(DoFinishRun(c, id, amb))
  {
    hide MarkerWord, Push, StatusOf, PendingDetail;
  }

  lemma CancelCallInv(c: Core, amb: Ambient)
    requires Inv(c) && c.up
    ensures CancelAnswer(c.m).None? ==> c.m.job.Some?
    ensures Inv(DoCancelCall(c, amb))
  {
    hide MarkerWord, Push, StatusOf;
  }

  lemma RestartInv(c: Core, id: nat, ok: bool)
    requires Inv(c) && c.up
    ensures Inv(DoRestartCall(c, RebootAnswer(c.m)))
    ensures Inv(DoRestartCall(c, PreviousAnswer(c.m)))
    ensures id in c.tasks && c.tasks[id].RestartTask? ==> Inv(DoRestartReturn(c, id, ok))
  {
    hide MarkerWord;
  }

  lemma StepInv(c: Core, a: Action)
    requires Inv(c) && Enabled(c, a)
    ensures Inv(Next(c, a))
  {
    hide Inv, DoStart, DoCrash, DoBoot, DoCheckCall, DoCheckReturn, DoApplyCall, DoEvaluateReturn, DoUpgradeCall,
         DoAgentMove, DoAgentSwap, DoAgentExit, DoUpgradeReturn, DoRecordOutcome, DoUpdatePin, DoFinishRun,
         DoCancelCall, DoRestartCall, DoRestartReturn, Evaluate, TakeBatch, Advance, ProgressLine;
    match a
    case Start(loaded, l, k) => StartInv(c, loaded, l, k);
    case Crash => CrashAndBootInv(c);
    case Boot => CrashAndBootInv(c);
    case Register(progress) => QueueStepInv(c, DoRegister(c, progress).m.q);
    case Deliver(w) => QueueStepInv(c, DoDeliver(c, w).m.q);
    case CheckCall(amb) => CheckCallInv(c, amb);
    case CheckReturn(id, published, amb, fails) => CheckReturnInv(c, id, published, amb, fails);
    case ApplyCall(r, amb) => ApplyCallInv(c, r, amb);
    case EvaluateReturn(id, resolved, published, enabled, why, amb, markerFails, latestFails) =>
      var pc := c.tasks[id].pc;
      EvaluateReturnInv(c, id, Decision(c, pc, resolved, published, enabled, why), pc.advanced && enabled, amb,
                        markerFails, latestFails);
    case UpgradeCall(id) => UpgradeCallInv(c, id);
    case OutputLine(id, line) => OutputLineInv(c, line);
    case AgentMove(i) => AgentInv(c, a);
    case AgentSwap(i) => AgentInv(c, a);
    case AgentExit(i, ok) => AgentInv(c, a);
    case UpgradeReturn(id) => UpgradeReturnInv(c, id);
    case RecordOutcome(id, fails) => RecordOutcomeInv(c, id, fails);
    case UpdatePin(id, note) => UpdatePinInv(c, id, note);
    case FinishRun(id, amb) => FinishRunInv(c, id, amb);
    case CancelCall(amb) => CancelCallInv(c, amb);
    case RebootCall => RestartInv(c, 0, true);
    case PreviousCall => RestartInv(c, 0, true);
    case RestartReturn(id, ok) => RestartInv(c, id, ok);
  }
}
