/** What the daemon answers and becomes in every step of every run, said on its
    fields: which calls it accepts, what a check announces, what is installed, what
    the pin is afterwards, and what the events tell. */
module UpdateAnswers {
  import opened Wrappers
  import opened Text
  import opened ImageRef
  import opened Release
  import opened Policy
  import Delivery
  import opened UpdateDaemon
  import opened UpdateProtocol
  import opened UpdateRuns
  import opened UpdateTrust

  /** Nothing runs, and no install waits for its reboot. */
  predicate AtRest(s: State) {
    s in {Idle, UpToDate, UpdateAvailable, State.Error}
  }

  predicate InJob(s: State) {
    s in {Checking, Inspecting, Applying}
  }

  // ---------------------------------------------------------------------
  // Check
  // ---------------------------------------------------------------------

  /** A check does nothing on an unmanaged system and is refused beside a job;
      reboot-pending stays as it is under it; from rest it becomes the job. */
  lemma CheckStarts(cs: seq<Core>, acts: seq<Action>, k: nat)
    requires IsRun(cs, acts) && k < |acts| && acts[k].CheckCall?
    ensures var (c, n) := (cs[k], cs[k + 1]);
            && (n == c <==> !c.m.managed || InJob(c.m.state))
            && (c.m.managed && c.m.state.RebootPending? ==>
                  n.m == c.m && n.tasks == c.tasks[c.nextId := CheckTask(true)])
            && (c.m.managed && AtRest(c.m.state) ==>
                  && n.m.state == Checking && n.m.detail == ""
                  && n.m.job == Some(Job(c.nextId, c.m.state, c.m.detail))
                  && n.tasks == c.tasks[c.nextId := CheckTask(false)])
  {
    RunStep(cs, acts, k);
    RunInv(cs, acts, k);
    hide IsRun, Delivery.Push, StatusOf, Marked, OneInstall, SlotsFit, Truthful;
  }

  /** Nothing listed that is sorted newest first is newer than something unless the
      first is. */
  lemma NewestDecides(l: seq<string>, v: string)
    requires NewestFirst(l)
    ensures (l != [] && Newer(l[0], v)) <==> exists t :: t in l && Newer(t, v)
    ensures !Newer("", v)
  {
    EmptyIsNoVersion();
    assert !Newer("", v);
    hide ParseSemver, Newer;
    if t :| t in l && Newer(t, v) {
      var i :| 0 <= i < |l| && l[i] == t;
      assert i > 0 ==> !Newer(l[i], l[0]);
      NewerIsStrictWeakOrder(t, v, l[0]);
      NewerIsStrictWeakOrder(t, l[0], v);
      NewerIsStrictWeakOrder(v, l[0], t);
      NewerIsStrictWeakOrder(l[0], t, v);
      NewerIsStrictWeakOrder(t, v, t);
      NewerIsStrictWeakOrder(v, l[0], v);
    }
  }

  /** A check that is still the job when its answer comes ends it. With a list, the
      newest tag is remembered, and the update is announced exactly when there is no
      pin and something listed is newer than the installed version. Without one, the
      state is an error and the newest tag known stays. */
  lemma CheckAnswered(cs: seq<Core>, acts: seq<Action>, k: nat)
    requires IsRun(cs, acts) && k < |acts| && acts[k].CheckReturn?
    requires cs[k].m.job.Some? && cs[k].m.job.value.id == acts[k].id
    requires acts[k].published.Ok? ==> NewestFirst(acts[k].published.value)
    ensures var (a, m, n) := (acts[k], cs[k].m, cs[k + 1].m);
            && n.job == None
            && (a.published.Ok? ==>
                  var l := a.published.value;
                  && n.latest == (if l == [] then "" else l[0]) && n.detail == ""
                  && (n.state == UpdateAvailable <==> a.amb.pin == "" && exists t :: t in l && Newer(t, m.rel.version))
                  && (n.state == UpToDate <==> n.state != UpdateAvailable))
            && (a.published.Err? ==>
                  n.state == State.Error && n.latest == m.latest
                  && n.detail == "could not check for updates: " + a.published.error)
  {
    RunStep(cs, acts, k);
    RunInv(cs, acts, k);
    var a := acts[k];
    assert TaskState(cs[k].tasks[a.id]) == Some(cs[k].m.state);
    assert !cs[k].tasks[a.id].pending;
    hide IsRun, Inv, Newer, Delivery.Push, StatusOf, CheckEndFile;
    if a.published.Ok? { NewestDecides(a.published.value, cs[k].m.rel.version); }
  }

  /** The newest tag also goes to its file, unless it is known already or the write
      fails. */
  lemma CheckRecords(cs: seq<Core>, acts: seq<Action>, k: nat)
    requires IsRun(cs, acts) && k < |acts| && acts[k].CheckReturn? && acts[k].published.Ok?
    requires Enabled(cs[k], acts[k]) ==> cs[k].tasks[acts[k].id] == CheckTask(true)
                                         || (cs[k].m.job.Some? && cs[k].m.job.value.id == acts[k].id)
    ensures var (a, c, n) := (acts[k], cs[k], cs[k + 1]);
            && n.run.marker == c.run.marker
            && n.run.latest == if a.latestFails || n.m.latest == c.m.latest then c.run.latest
                               else Some(n.m.latest + "\n")
  {
    RunStep(cs, acts, k);
    hide IsRun, Newer, Delivery.Push, StatusOf, Newest;
  }

  /** A check under reboot-pending only refreshes the newest tag. */
  lemma PendingCheckAnswered(cs: seq<Core>, acts: seq<Action>, k: nat)
    requires IsRun(cs, acts) && k < |acts| && acts[k].CheckReturn?
    requires Enabled(cs[k], acts[k]) ==> cs[k].tasks[acts[k].id] == CheckTask(true)
    ensures var (a, m, n) := (acts[k], cs[k].m, cs[k + 1].m);
            && n.state == m.state && n.pending == m.pending && n.detail == m.detail && n.job == m.job
            && n.latest == (if a.published.Err? then m.latest
                            else if a.published.value == [] then "" else a.published.value[0])
  {
    RunStep(cs, acts, k);
    hide IsRun, Newer, Delivery.Push, StatusOf, CheckEndFile;
  }

  // ---------------------------------------------------------------------
  // Apply
  // ---------------------------------------------------------------------

  /** An install is accepted exactly from rest, on a managed system, with the restart
      flag off, for a reference and a digest that are ones. Then it is the job, and
      inspecting; else nothing changes. */
  lemma ApplyAccepted(cs: seq<Core>, acts: seq<Action>, k: nat)
    requires IsRun(cs, acts) && k < |acts| && acts[k].ApplyCall?
    ensures var (r, c, n) := (acts[k].request, cs[k], cs[k + 1]);
            var accepted := ParseRef(r.ref).Ok? && IsDigest(r.digest)
                            && c.m.managed && !c.m.rebooting && AtRest(c.m.state);
            && (!accepted ==> n == c)
            && (accepted ==>
                  && n.m.state == Inspecting && n.m.detail == ""
                  && n.m.job == Some(Job(c.nextId, c.m.state, c.m.detail))
                  && n.nextId == c.nextId + 1
                  && n.tasks == c.tasks[c.nextId := RunTask(Evaluating(r.ref, r.digest, r.advanced))]
                  && n.run == c.run && n.pin == c.pin && n.slots == c.slots && n.m.latest == c.m.latest)
  {
    RunStep(cs, acts, k);
    RunInv(cs, acts, k);
    ApplyStep(cs[k], acts[k].request, acts[k].amb);
    hide IsRun, Inv, DoApplyCall, ParseRef, IsDigest;
  }

  lemma ApplyStep(c: Core, r: Request, amb: Ambient)
    requires Inv(c) && c.up
    ensures var n := DoApplyCall(c, r, amb);
            var accepted := ParseRef(r.ref).Ok? && IsDigest(r.digest)
                            && c.m.managed && !c.m.rebooting && AtRest(c.m.state);
            && (!accepted ==> n == c)
            && (accepted ==>
                  && n.m.state == Inspecting && n.m.detail == ""
                  && n.m.job == Some(Job(c.nextId, c.m.state, c.m.detail))
                  && n.nextId == c.nextId + 1
                  && n.tasks == c.tasks[c.nextId := RunTask(Evaluating(r.ref, r.digest, r.advanced))]
                  && n.run == c.run && n.pin == c.pin && n.slots == c.slots && n.m.latest == c.m.latest)
  {
    assert c.m.state.Unmanaged? <==> !c.m.managed;
    hide Inv, ParseRef, IsDigest, Delivery.Push, StatusOf;
  }

  /** Each refusal has its reason. */
  lemma ApplyRefused(m: Mem, ref: string, digest: string)
    requires ParseRef(ref).Ok? && IsDigest(digest)
    ensures var a := ApplyAnswer(m, ref, digest);
            && (a == Some(ErrUnmanaged) <==> !m.managed)
            && (a == Some(ErrRebooting) <==> m.managed && m.rebooting)
            && (a == Some(ErrRebootPending) <==>
                  m.managed && !m.rebooting && m.state == RebootPending && m.pending == "installed")
            && (a == Some(ErrUnfinishedPending) <==>
                  m.managed && !m.rebooting && m.state == RebootPending && m.pending != "installed")
            && (a == Some(ErrBusy) <==> m.managed && !m.rebooting && InJob(m.state))
  {
    hide ParseRef, IsDigest;
  }

  /** What an evaluation must have found for an install by reference and digest. */
  ghost predicate MayInstall(resolved: Result<ImageInfo, string>, published: Result<seq<string>, string>, rel: Rel,
                             digest: string, override: bool) {
    && resolved.Ok? && published.Ok?
    && resolved.value.digest == digest
    && resolved.value.Label(LABEL_FLAVOR) != AGENT && !("agent-" <= resolved.value.ref.tag)
    && (override || IsRelease(resolved.value.ref, rel, published.value))
  }

  /** The evaluation of the current job goes on to the install exactly when the image
      may be installed, is the one reviewed, and the marker is down. Otherwise the
      job ends in an error and nothing was written. */
  lemma EvaluationAnswered(cs: seq<Core>, acts: seq<Action>, k: nat)
    requires IsRun(cs, acts) && k < |acts| && acts[k].EvaluateReturn?
    requires cs[k].m.job.Some? && cs[k].m.job.value.id == acts[k].id
    ensures var (a, c, n) := (acts[k], cs[k], cs[k + 1]);
            && AtEvaluation(c, a.id)
            && var pc := c.tasks[a.id].pc;
               var installs := MayInstall(a.resolved, a.published, c.m.rel, pc.digest, pc.advanced && a.enabled)
                               && !a.markerFails;
               && (installs ==>
                     && n.m.state == Applying && n.m.job == c.m.job && Enabled(n, UpgradeCall(a.id))
                     && n.run.marker
                        == Some("started oci:" + a.resolved.value.ref.Repo() + "@" + a.resolved.value.digest + "\n")
                     && n.m.latest == (if a.published.value == [] || a.published.value[0] == "" then c.m.latest
                                       else a.published.value[0]))
               && (!installs ==>
                     && n.m.state == State.Error && n.m.job == None && a.id !in n.tasks
                     && n.run == c.run && n.m.latest == c.m.latest)
  {
    RunStep(cs, acts, k);
    RunInv(cs, acts, k);
    var (a, c) := (acts[k], cs[k]);
    GateDecides(c, a);
    var pc := c.tasks[a.id].pc;
    GateStep(c, a.id, Decision(c, pc, a.resolved, a.published, a.enabled, a.why), pc.advanced && a.enabled, a.amb,
             a.markerFails, a.latestFails);
    hide IsRun, Inv, DoEvaluateReturn, Decision, MayInstall, Enabled;
  }

  lemma GateDecides(c: Core, a: Action)
    requires Inv(c) && Enabled(c, a) && a.EvaluateReturn? && Holds(c.m, a.id)
    ensures !c.m.rebooting
    ensures var pc := c.tasks[a.id].pc;
            var ev := Decision(c, pc, a.resolved, a.published, a.enabled, a.why);
            && (ev.Ok? && ev.value.info.digest == pc.digest <==>
                  MayInstall(a.resolved, a.published, c.m.rel, pc.digest, pc.advanced && a.enabled))
            && (ev.Ok? ==>
                  && a.resolved.Ok? && a.published.Ok? && ev.value.published == a.published.value
                  && MarkerText(STARTED, SourceOf(ev.value))
                     == "started oci:" + a.resolved.value.ref.Repo() + "@" + a.resolved.value.digest + "\n")
  {
    var pc := c.tasks[a.id].pc;
    if a.resolved.Ok? { ParsedPrintsBack(pc.ref); }
    EvaluateExactly(a.resolved, a.published, c.m.rel, pc.advanced, a.enabled);
    assert TaskState(c.tasks[a.id]) == Some(c.m.state);
    hide Evaluate, ParseRef, IsRelease, Delivery.Push, StatusOf, Marked, OneInstall, SlotsFit, Truthful, Next;
    if Decision(c, pc, a.resolved, a.published, a.enabled, a.why).Ok? { StartedText(a.resolved.value); }
  }

  lemma StartedText(info: ImageInfo)
    ensures forall verdict, published ::
              MarkerText(STARTED, SourceOf(Evaluation(info, verdict, published)))
              == "started oci:" + info.ref.Repo() + "@" + info.digest + "\n"
  {
  }

  /** The gate, on a decision. */
  lemma GateStep(c: Core, id: nat, ev: Result<Evaluation, string>, override: bool, amb: Ambient, markerFails: bool,
                 latestFails: bool)
    requires AtEvaluation(c, id) && Holds(c.m, id) && !c.m.rebooting
    ensures var n := DoEvaluateReturn(c, id, ev, override, amb, markerFails, latestFails);
            var installs := ev.Ok? && ev.value.info.digest == c.tasks[id].pc.digest && !markerFails;
            && (installs ==>
                  && n.m.state == Applying && n.m.job == c.m.job && Enabled(n, UpgradeCall(id))
                  && n.run.marker == Some(MarkerText(STARTED, SourceOf(ev.value)))
                  && n.m.latest == (if Newest(ev.value.published) == "" then c.m.latest
                                    else Newest(ev.value.published)))
            && (!installs ==>
                  && n.m.state == State.Error && n.m.job == None && id !in n.tasks
                  && n.run == c.run && n.m.latest == c.m.latest)
  {
    hide Delivery.Push, StatusOf, Newest, MarkerText, SourceOf, PlanOf, AnswersFor, Exited;
  }

  // ---------------------------------------------------------------------
  // From Apply to the install
  // ---------------------------------------------------------------------

  /** Apply call id is the job and still evaluates. */
  predicate Waits(c: Core, id: nat, r: Request, rel: Rel) {
    && AtEvaluation(c, id) && c.tasks[id].pc == Evaluating(r.ref, r.digest, r.advanced)
    && c.m.job.Some? && c.m.job.value.id == id && c.m.rel == rel
  }

  lemma WaitsOn(c: Core, a: Action, id: nat, r: Request, rel: Rel)
    requires Inv(c) && Enabled(c, a) && Waits(c, id, r, rel)
    requires !a.Crash? && !a.Boot? && !a.CancelCall? && !(a.EvaluateReturn? && a.id == id)
    ensures Waits(Next(c, a), id, r, rel)
  {
    assert TaskState(c.tasks[id]) == Some(c.m.state);
    hide MarkerText, Delivery.Push, StatusOf, ParseRef, Evaluate, GateError, Newest, SourceOf, PlanOf, Exited, IsDigest,
         Delivery.TakeBatch, Delivery.Advance, PendingDetail, StrictTag, MarkerWord, NewMem, GateFiles, Decision,
         SetState, Truthful, SlotsFit, OneInstall;
  }

  lemma {:induction false} WaitsLong(cs: seq<Core>, acts: seq<Action>, i: nat, j: nat, id: nat, r: Request, rel: Rel)
    requires IsRun(cs, acts) && i <= j < |cs| && Waits(cs[i], id, r, rel)
    requires forall n :: i <= n < j ==>
               && !acts[n].Crash? && !acts[n].Boot? && !acts[n].CancelCall?
               && !(acts[n].EvaluateReturn? && acts[n].id == id)
    ensures Waits(cs[j], id, r, rel)
    decreases j
  {
    hide Waits, Enabled, Next, Inv;
    if i < j {
      WaitsLong(cs, acts, i, j - 1, id, r, rel);
      RunStep(cs, acts, j - 1);
      RunInv(cs, acts, j - 1);
      WaitsOn(cs[j - 1], acts[j - 1], id, r, rel);
    }
  }

  /** An ordinary update gets through: an Apply from rest, whatever happens beside it
      short of a Cancel or the end of the process, starts kairos-agent once the
      registry resolves the reference to the digest given and the release list names
      it, if the marker can be written. Advanced mode is not needed. */
  lemma ReleasesInstall(cs: seq<Core>, acts: seq<Action>, i: nat, j: nat)
    requires IsRun(cs, acts) && i < j < |acts|
    requires acts[i].ApplyCall? && ParseRef(acts[i].request.ref).Ok? && IsDigest(acts[i].request.digest)
    requires cs[i].m.managed && !cs[i].m.rebooting && AtRest(cs[i].m.state)
    requires acts[j].EvaluateReturn? && acts[j].id == cs[i].nextId
    requires forall n :: i < n < j ==> !acts[n].Crash? && !acts[n].Boot? && !acts[n].CancelCall?
                                       && !(acts[n].EvaluateReturn? && acts[n].id == cs[i].nextId)
    requires acts[j].resolved.Ok? && acts[j].published.Ok? && !acts[j].markerFails
    requires acts[j].resolved.value.digest == acts[i].request.digest
    requires acts[j].resolved.value.Label(LABEL_FLAVOR) != AGENT && !("agent-" <= acts[j].resolved.value.ref.tag)
    requires IsRelease(acts[j].resolved.value.ref, cs[i].m.rel, acts[j].published.value)
    ensures Enabled(cs[j + 1], UpgradeCall(cs[i].nextId))
  {
    var (id, r) := (cs[i].nextId, acts[i].request);
    ApplyWaits(cs, acts, i);
    hide IsRun, Waits, IsRelease, Enabled, AtRest, ParseRef, IsDigest;
    WaitsLong(cs, acts, i + 1, j, id, r, cs[i].m.rel);
    EvaluationInstalls(cs, acts, j, id, r, cs[i].m.rel);
  }

  lemma ApplyWaits(cs: seq<Core>, acts: seq<Action>, i: nat)
    requires IsRun(cs, acts) && i < |acts| && acts[i].ApplyCall?
    requires ParseRef(acts[i].request.ref).Ok? && IsDigest(acts[i].request.digest)
    requires cs[i].m.managed && !cs[i].m.rebooting && AtRest(cs[i].m.state)
    ensures Waits(cs[i + 1], cs[i].nextId, acts[i].request, cs[i].m.rel)
  {
    hide IsRun, ParseRef, IsDigest, AtRest, Waits, Inv;
    RunStep(cs, acts, i);
    RunInv(cs, acts, i);
    AcceptedWaits(cs[i], acts[i].request, acts[i].amb);
    hide DoApplyCall;
  }

  lemma AcceptedWaits(c: Core, r: Request, amb: Ambient)
    requires Inv(c) && c.up && ParseRef(r.ref).Ok? && IsDigest(r.digest)
    requires c.m.managed && !c.m.rebooting && AtRest(c.m.state)
    ensures Waits(DoApplyCall(c, r, amb), c.nextId, r, c.m.rel)
  {
    hide Inv, ParseRef, IsDigest, DoApplyCall;
    ApplyStep(c, r, amb);
    ApplyKeepsRelease(c, r, amb);
  }

  lemma EvaluationInstalls(cs: seq<Core>, acts: seq<Action>, j: nat, id: nat, r: Request, rel: Rel)
    requires IsRun(cs, acts) && j < |acts| && acts[j].EvaluateReturn? && acts[j].id == id
    requires Waits(cs[j], id, r, rel)
    requires acts[j].resolved.Ok? && acts[j].published.Ok? && !acts[j].markerFails
    requires acts[j].resolved.value.digest == r.digest
    requires acts[j].resolved.value.Label(LABEL_FLAVOR) != AGENT && !("agent-" <= acts[j].resolved.value.ref.tag)
    requires IsRelease(acts[j].resolved.value.ref, rel, acts[j].published.value)
    ensures Enabled(cs[j + 1], UpgradeCall(id))
  {
    hide IsRun, IsRelease, Enabled;
    EvaluationAnswered(cs, acts, j);
  }

  lemma ApplyKeepsRelease(c: Core, r: Request, amb: Ambient)
    ensures DoApplyCall(c, r, amb).m.rel == c.m.rel && DoApplyCall(c, r, amb).up == c.up
  {
    hide ParseRef, IsDigest, Delivery.Push, StatusOf;
  }

  // ---------------------------------------------------------------------
  // After the install
  // ---------------------------------------------------------------------

  /** The plan a goroutine past the gate carries. */
  function PlanAt(t: Task): Option<Plan> {
    match t
    case RunTask(Ready(plan, _)) => Some(plan)
    case RunTask(Upgrading(plan)) => Some(plan)
    case RunTask(Returned(plan, _)) => Some(plan)
    case RunTask(Recorded(plan, _)) => Some(plan)
    case RunTask(Pinned(plan, _)) => Some(plan)
    case _ => None
  }

  predicate Carries(c: Core, id: nat, plan: Plan) {
    c.up && id in c.tasks && PlanAt(c.tasks[id]) == Some(plan)
  }

  lemma CarriesStep(c: Core, a: Action, id: nat, plan: Plan)
    requires Enabled(c, a) && Carries(Next(c, a), id, plan)
    ensures (a.EvaluateReturn? && a.id == id && IsReady(Next(c, a), id)) || Carries(c, id, plan)
  {
    hide MarkerText, Delivery.Push, StatusOf, ParseRef, Evaluate, GateError, Newest, SourceOf, PlanOf, Exited, IsDigest,
         Delivery.TakeBatch, Delivery.Advance, PendingDetail, StrictTag, MarkerWord, NewMem, GateFiles, Decision, Gate,
         SetState, CheckEnd, CheckBegin, ApplyBegin, CancelJob, CheckEndFile;
  }

  /** The evaluation a plan comes from. */
  lemma {:induction false} PlanFrom(cs: seq<Core>, acts: seq<Action>, k: nat, id: nat, plan: Plan) returns (j: nat)
    requires IsRun(cs, acts) && k < |cs| && Carries(cs[k], id, plan)
    ensures j < k && acts[j].EvaluateReturn? && acts[j].id == id
    ensures IsReady(cs[j + 1], id) && Carries(cs[j + 1], id, plan)
  {
    hide Enabled, Next, Carries;
    FirstCarriesNothing(cs[0], id, plan);
    RunStep(cs, acts, k - 1);
    CarriesStep(cs[k - 1], acts[k - 1], id, plan);
    if Carries(cs[k - 1], id, plan) {
      j := PlanFrom(cs, acts, k - 1, id, plan);
    } else {
      j := k - 1;
    }
  }

  lemma FirstCarriesNothing(c: Core, id: nat, plan: Plan)
    requires Init(c)
    ensures !Carries(c, id, plan)
  {
  }

  /** The image is the newest release listed, of some flavor and line. */
  ghost predicate IsNewestRelease(ref: Ref, rel: Rel, published: seq<string>) {
    published != []
    && exists f, l :: Published(f, l, published[0], published) && LineRef(rel, f, l, published[0]) == Ok(ref)
  }

  /** The pin after an install: unless it cannot be written, it is gone if the image
      was the newest release listed by the install's own evaluation, and else the
      reference the Apply call gave. */
  lemma PinAfterInstall(cs: seq<Core>, acts: seq<Action>, k: nat) returns (i: nat, j: nat)
    requires IsRun(cs, acts) && k < |acts| && acts[k].UpdatePin?
    ensures i < j < k && acts[i].ApplyCall? && acts[j].EvaluateReturn?
    ensures cs[i].nextId == acts[j].id == acts[k].id && acts[j].resolved.Ok? && acts[j].published.Ok?
    ensures cs[k + 1].pin
         == if acts[k].note != "" then cs[k].pin
            else if IsNewestRelease(acts[j].resolved.value.ref, cs[j].m.rel, acts[j].published.value) then None
            else Some(acts[i].request.ref + "\n")
  {
    RunStep(cs, acts, k);
    var id := acts[k].id;
    var plan := PlanAt(cs[k].tasks[id]).value;
    PinStep(cs[k], id, acts[k].note);
    hide IsRun, Carries, Next, DoUpdatePin, Enabled, PlanOf, Decision, ParseRef, IsNewestRelease, IsReady, PlanAt;
    j := PlanFrom(cs, acts, k, id, plan);
    RunStep(cs, acts, j);
    RequestedRun(cs, acts, j);
    PlanIsDecided(cs[j], acts[j], plan);
    RequestsAreApplyCalls(cs, acts, j, id);
    i :| 0 <= i < j && acts[i].ApplyCall? && cs[i].nextId == id && acts[i].request == cs[j].requests[id];
  }

  lemma PinStep(c: Core, id: nat, note: string)
    requires Enabled(c, UpdatePin(id, note))
    ensures PlanAt(c.tasks[id]).Some? && Carries(c, id, PlanAt(c.tasks[id]).value)
    ensures var plan := PlanAt(c.tasks[id]).value;
            Next(c, UpdatePin(id, note)).pin
            == if note != "" then c.pin else if plan.clearPin then None else Some(plan.ref + "\n")
  {
  }

  lemma PlanIsDecided(c: Core, a: Action, plan: Plan)
    requires Enabled(c, a) && a.EvaluateReturn? && IsReady(Next(c, a), a.id) && Carries(Next(c, a), a.id, plan)
    requires Requested(c)
    ensures a.resolved.Ok? && a.published.Ok? && a.id in c.requests
    ensures plan.ref == c.requests[a.id].ref
    ensures plan.clearPin <==> IsNewestRelease(a.resolved.value.ref, c.m.rel, a.published.value)
  {
    GateWasPassed(c, a);
    PinDecision(c, a);
    hide Next, Decision, PlanOf, IsNewestRelease, ParseRef;
  }

  lemma PinDecision(c: Core, a: Action)
    requires Enabled(c, a) && a.EvaluateReturn?
    requires Decision(c, c.tasks[a.id].pc, a.resolved, a.published, a.enabled, a.why).Ok?
    ensures a.resolved.Ok? && a.published.Ok?
    ensures var pc := c.tasks[a.id].pc;
            var plan := PlanOf(pc.ref, Decision(c, pc, a.resolved, a.published, a.enabled, a.why).value);
            && plan.ref == pc.ref
            && (plan.clearPin <==> IsNewestRelease(a.resolved.value.ref, c.m.rel, a.published.value))
  {
    var pc := c.tasks[a.id].pc;
    ParsedPrintsBack(pc.ref);
    EvaluateExactly(a.resolved, a.published, c.m.rel, pc.advanced, a.enabled);
    hide ParseRef, Evaluate, Next, IsNewestRelease, IsRelease, SourceOf;
    EvaluatedNewest(a.resolved.value, a.published.value, c.m.rel, pc.advanced, a.enabled);
  }

  lemma EvaluatedNewest(info: ImageInfo, listed: seq<string>, rel: Rel, advanced: bool, enabled: bool)
    requires info.ref.WellFormed() && Evaluate(Ok(info), Ok(listed), rel, advanced, enabled).Ok?
    ensures var v := Evaluate(Ok(info), Ok(listed), rel, advanced, enabled).value.verdict;
            v.trusted && v.version == Newest(listed) <==> IsNewestRelease(info.ref, rel, listed)
  {
    var v := Evaluate(Ok(info), Ok(listed), rel, advanced, enabled).value.verdict;
    hide ParseRef, Published, LineRef, TrustedName, Labelled;
    if v.trusted && v.version == Newest(listed) {
      TrustedIsLineRef(info, rel, listed);
      PublishedIsListed(v.flavor, v.gpu, v.version, listed);
    }
    if IsNewestRelease(info.ref, rel, listed) {
      var f, l :| Published(f, l, listed[0], listed) && LineRef(rel, f, l, listed[0]) == Ok(info.ref);
      LineRefIsTrusted(info, rel, listed, f, l, listed[0]);
    }
  }

  lemma PublishedIsListed(f: string, l: string, t: string, listed: seq<string>)
    requires Published(f, l, t, listed)
    ensures listed != [] && t in listed
  {
  }

  /** The word in the marker after kairos-agent returned is installed exactly when it
      returned without an error, and failed otherwise, with the same source; if that
      cannot be written the marker stays. */
  lemma OutcomeRecorded(cs: seq<Core>, acts: seq<Action>, k: nat)
    requires IsRun(cs, acts) && k < |acts| && acts[k].RecordOutcome?
    ensures |cs[k].installs| == 1 && cs[k].installs[0].exit.Some?
    ensures var (a, c, n) := (acts[k], cs[k], cs[k + 1]);
            var run := c.installs[0];
            && PlanAt(c.tasks[a.id]).Some?
            && n.run.latest == c.run.latest
            && (a.markerFails ==> n.run.marker == c.run.marker)
            && (!a.markerFails ==>
                  n.run.marker == Some((if run.exit == Some(true) then "installed" else "failed") + " "
                                       + PlanAt(c.tasks[a.id]).value.source + "\n"))
  {
    RunStep(cs, acts, k);
    RunInv(cs, acts, k);
    assert PastGate(cs[k].tasks[acts[k].id]);
    assert RunsFit(cs[k].installs, acts[k].id, cs[k].tasks[acts[k].id].pc);
    hide IsRun, Inv;
  }

  /** An install ends in reboot-pending, with the word that says how kairos-agent
      ended; after a success the detail is the note, or else kairos-agent's last
      line. */
  lemma InstallEnds(cs: seq<Core>, acts: seq<Action>, k: nat)
    requires IsRun(cs, acts) && k < |acts| && acts[k].FinishRun?
    ensures |cs[k].installs| == 1
    ensures var (c, n) := (cs[k], cs[k + 1]);
            && n.m.state == RebootPending && n.m.job == None && acts[k].id !in n.tasks
            && n.m.pending == (if c.installs[0].exit == Some(true) then "installed" else "failed")
            && n.m.latest == c.m.latest && n.run == c.run && n.pin == c.pin
            && (c.installs[0].exit == Some(true) ==>
                  c.tasks[acts[k].id].RunTask? && c.tasks[acts[k].id].pc.Pinned?
                  && var note := c.tasks[acts[k].id].pc.note;
                     n.m.detail == if note != "" then note else c.m.detail)
            && (c.installs[0].exit != Some(true) ==> n.m.detail == "The update failed; restart before trying again.")
  {
    RunStep(cs, acts, k);
    RunInv(cs, acts, k);
    assert PastGate(cs[k].tasks[acts[k].id]);
    assert RunsFit(cs[k].installs, acts[k].id, cs[k].tasks[acts[k].id].pc);
    hide IsRun, Inv, Delivery.Push, StatusOf;
  }

  /** The step that goroutine id makes next. */
  predicate StepOf(a: Action, id: nat) {
    match a
    case CheckReturn(i, _, _, _) => i == id
    case EvaluateReturn(i, _, _, _, _, _, _, _) => i == id
    case UpgradeCall(i) => i == id
    case UpgradeReturn(i) => i == id
    case RecordOutcome(i, _) => i == id
    case UpdatePin(i, _) => i == id
    case FinishRun(i, _) => i == id
    case RestartReturn(i, _) => i == id
    case _ => false
  }

  /** No goroutine is stuck: each has a next step, if need be after kairos-agent has
      exited, which it can at any time. */
  lemma GoroutineGoesOn(cs: seq<Core>, acts: seq<Action>, k: nat, id: nat)
    requires IsRun(cs, acts) && k < |cs| && cs[k].up && id in cs[k].tasks
    ensures (exists a :: StepOf(a, id) && Enabled(cs[k], a))
            || (|cs[k].installs| == 1 && cs[k].installs[0].owner == id && Enabled(cs[k], AgentExit(0, false)))
  {
    hide *;
    RunInv(cs, acts, k);
    TaskGoesOn(cs[k], id);
  }

  lemma TaskGoesOn(c: Core, id: nat)
    requires Inv(c) && c.up && id in c.tasks
    ensures (exists a :: StepOf(a, id) && Enabled(c, a))
            || (|c.installs| == 1 && c.installs[0].owner == id && Enabled(c, AgentExit(0, false)))
  {
    if c.tasks[id].RunTask? {
      InstallGoesOn(c, id);
    } else {
      hide Inv;
      var check, restart := CheckReturn(id, Err(""), Ambient("", false), false), RestartReturn(id, true);
      assert StepOf(check, id) && StepOf(restart, id);
      assert Enabled(c, check) || Enabled(c, restart);
    }
  }

  lemma InstallGoesOn(c: Core, id: nat)
    requires Inv(c) && c.up && id in c.tasks && c.tasks[id].RunTask?
    ensures (exists a :: StepOf(a, id) && Enabled(c, a))
            || (|c.installs| == 1 && c.installs[0].owner == id && Enabled(c, AgentExit(0, false)))
  {
    if c.tasks[id].pc.Upgrading? {
      assert PastGate(c.tasks[id]) && RunsFit(c.installs, id, c.tasks[id].pc);
      hide Inv;
      UpgradeGoesOn(c, id);
    } else {
      hide Inv, Exited;
      var a := OwnStep(c.tasks[id].pc, id);
      assert StepOf(a, id) && Enabled(c, a);
    }
  }

  lemma UpgradeGoesOn(c: Core, id: nat)
    requires c.up && id in c.tasks && c.tasks[id].RunTask? && c.tasks[id].pc.Upgrading?
    requires RunsFit(c.installs, id, c.tasks[id].pc)
    ensures (StepOf(UpgradeReturn(id), id) && Enabled(c, UpgradeReturn(id)))
            || (|c.installs| == 1 && c.installs[0].owner == id && Enabled(c, AgentExit(0, false)))
  {
    if c.installs[0].exit.Some? { assert Exited(c, id, c.installs[0].exit.value); }
  }

  function OwnStep(pc: RunPc, id: nat): Action {
    match pc
    case Evaluating(_, _, _) => EvaluateReturn(id, Err(""), Err(""), false, "", Ambient("", false), false, false)
    case Ready(_, _) => UpgradeCall(id)
    case Upgrading(_) => UpgradeReturn(id)
    case Returned(_, _) => RecordOutcome(id, false)
    case Recorded(_, ok) => if ok then UpdatePin(id, "") else FinishRun(id, Ambient("", false))
    case Pinned(_, _) => FinishRun(id, Ambient("", false))
  }

  // ---------------------------------------------------------------------
  // Cancel, Reboot and RebootPrevious
  // ---------------------------------------------------------------------

  /** Cancel succeeds exactly while checking or inspecting; otherwise nothing changes. */
  lemma CancelAnswered(cs: seq<Core>, acts: seq<Action>, k: nat)
    requires IsRun(cs, acts) && k < |acts| && acts[k].CancelCall?
    ensures var (c, n) := (cs[k], cs[k + 1]);
            && (CancelAnswer(c.m) == None <==> c.m.state in {Checking, Inspecting})
            && (CancelAnswer(c.m) == Some(ErrNotCancellable) <==> c.m.state == Applying)
            && (CancelAnswer(c.m).Some? ==> n == c)
            && (CancelAnswer(c.m) == None ==>
                  c.m.job.Some? && n.m.job == None && n.tasks == c.tasks && n.run == c.run
                  && n.m.latest == c.m.latest && n.m.pending == c.m.pending && n.pin == c.pin)
  {
    RunStep(cs, acts, k);
    RunInv(cs, acts, k);
    hide IsRun, Delivery.Push, StatusOf, Marked, OneInstall, SlotsFit, Truthful;
  }

  /** A reboot is let through exactly when no install job runs; the previous system
      exactly when moreover no restart was asked and none is waited for. Both raise
      the flag, and a refusal changes nothing. */
  lemma RestartAnswered(cs: seq<Core>, acts: seq<Action>, k: nat)
    requires IsRun(cs, acts) && k < |acts| && (acts[k].RebootCall? || acts[k].PreviousCall?)
    ensures var (c, n) := (cs[k], cs[k + 1]);
            var through := c.m.state !in {Inspecting, Applying}
                           && (acts[k].PreviousCall? ==> !c.m.rebooting && c.m.state != RebootPending);
            && (!through ==> n == c)
            && (through ==>
                  && n.m == c.m.(rebooting := true) && n.tasks == c.tasks[c.nextId := RestartTask]
                  && n.outstanding == c.outstanding + {c.nextId} && n.run == c.run)
  {
    RunStep(cs, acts, k);
    hide IsRun;
  }

  /** Why the previous system is refused. */
  lemma PreviousRefused(m: Mem)
    ensures var a := PreviousAnswer(m);
            && (a == Some(ErrRebooting) <==> m.rebooting)
            && (a == Some(ErrBusy) <==> !m.rebooting && m.state in {Inspecting, Applying})
            && (a == Some(ErrPreviousAfterInstall) <==>
                  !m.rebooting && m.state == RebootPending && m.pending == "installed")
            && (a == Some(ErrUnfinishedPending) <==>
                  !m.rebooting && m.state == RebootPending && m.pending != "installed")
  {
  }

  // ---------------------------------------------------------------------
  // A new process
  // ---------------------------------------------------------------------

  lemma TagHasNoSpace(tag: string)
    requires StrictTag(tag)
    ensures TrimSpace(tag + "\n") == tag
  {
    forall c | c in tag ensures !IsSpace(c) { StrictTagAlphabet(tag, c); }
    hide StrictTag;
    var s := tag + "\n";
    assert TrimLeft(s) == s by { assert s[0] == tag[0] && tag[0] in tag; }
    TrimRightKeeps(s, |tag|);
    var t := TrimRight(s);
    assert IsSpace(s[|s| - 1]);
    assert |t| == |tag|;
    assert t == s[..|tag|] == tag;
  }

  /** A new process of the same boot remembers the newest release that was written
      down, and shows what its release file names. */
  lemma RestartRemembers(cs: seq<Core>, acts: seq<Action>, k: nat, tag: string)
    requires IsRun(cs, acts) && k < |acts| && acts[k].Start? && acts[k].loaded.Ok?
    requires cs[k].run.latest == Some(tag + "\n") && StrictTag(tag)
    ensures var m := cs[k + 1].m;
            && m.latest == (if acts[k].latestUnreadable then "" else tag)
            && m.rel == acts[k].loaded.value && m.managed && m.job == None && !m.rebooting
  {
    RunStep(cs, acts, k);
    TagHasNoSpace(tag);
    EmptyIsNoTag();
    hide IsRun, StrictTag, TrimSpace, MarkerWord, PendingDetail;
  }

  /** It shows nothing else: what it shows is a strict tag that the file holds. */
  lemma RestartInventsNothing(cs: seq<Core>, acts: seq<Action>, k: nat)
    requires IsRun(cs, acts) && k < |acts| && acts[k].Start?
    ensures var (c, m) := (cs[k], cs[k + 1].m);
            m.latest != "" ==> StrictTag(m.latest) && !acts[k].latestUnreadable
                               && c.run.latest.Some? && TrimSpace(c.run.latest.value) == m.latest
  {
    RunStep(cs, acts, k);
    hide IsRun, StrictTag, TrimSpace, MarkerWord, PendingDetail;
  }

  lemma EmptyIsNoTag()
    ensures !StrictTag("") && TrimSpace("") == ""
  {
  }

  // ---------------------------------------------------------------------
  // What the events tell
  // ---------------------------------------------------------------------

  /** What the step read of the pin file and the advanced switch. */
  function AmbOf(a: Action): Option<Ambient> {
    match a
    case CheckCall(amb) => Some(amb)
    case CheckReturn(_, _, amb, _) => Some(amb)
    case ApplyCall(_, amb) => Some(amb)
    case EvaluateReturn(_, _, _, _, _, amb, _, _) => Some(amb)
    case FinishRun(_, amb) => Some(amb)
    case CancelCall(amb) => Some(amb)
    case _ => None
  }

  /** The status an event carries is the daemon's after the step, field by field. */
  predicate Tells(s: Status, m: Mem, amb: Ambient) {
    && s.state == m.state && s.detail == m.detail && s.latest == m.latest && s.installed == m.rel.version
    && s.pending == (if m.state == RebootPending then m.pending else "")
    && s.pin == amb.pin && s.advanced == amb.advanced
  }

  /** The queue of n after that of c: nothing was queued and what a status shows is
      the same, or one event was, which tells the new state or the line. */
  predicate Announced(c: Mem, n: Mem, amb: Option<Ambient>) {
    || (n.q.queued == c.q.queued && n.state == c.state && n.detail == c.detail && n.latest == c.latest)
    || (|n.q.queued| == |c.q.queued| + 1 && n.q.queued[..|c.q.queued|] == c.q.queued
        && match n.q.queued[|c.q.queued|]
           case Change(s) => amb.Some? && Tells(s, n, amb.value)
           case Progress(line) => n.detail == line && n.state == c.state && n.latest == c.latest)
  }

  lemma SetStateAnnounces(c: Mem, m: Mem, s: State, detail: string, amb: Ambient)
    requires m.q == c.q
    ensures Announced(c, SetState(m, s, detail, amb), Some(amb))
  {
  }

  lemma SameAnnounces(c: Mem, n: Mem, amb: Option<Ambient>)
    requires n.q.queued == c.q.queued && n.state == c.state && n.detail == c.detail && n.latest == c.latest
    ensures Announced(c, n, amb)
  {
  }

  lemma CheckAnnounces(m: Mem, id: nat, pending: bool, listed: Result<seq<string>, string>, amb: Ambient)
    ensures Announced(m, CheckBegin(m, id, amb), Some(amb))
    ensures Announced(m, CheckEnd(m, id, pending, listed, amb), Some(amb))
  {
    hide SetState, Newer, Newest;
    SetStateAnnounces(m, m.(job := Some(Job(id, m.state, m.detail))), Checking, "", amb);
    match listed
    case Err(why) => SetStateAnnounces(m, m.(job := None), State.Error, "could not check for updates: " + why, amb);
    case Ok(published) =>
      var n := m.(job := None, latest := Newest(published));
      SetStateAnnounces(m, n, UpdateAvailable, "", amb);
      SetStateAnnounces(m, n, UpToDate, "", amb);
  }

  lemma GateAnnounces(m: Mem, id: nat, ref: string, digest: string, ev: Result<Evaluation, string>, amb: Ambient,
                      fails: bool)
    ensures Announced(m, Gate(m, id, ref, digest, ev, amb, fails), Some(amb))
  {
    hide SetState, Newest;
    match GateError(m, ref, digest, ev)
    case Some(why) => SetStateAnnounces(m, m.(job := None), State.Error, why, amb);
    case None =>
      SetStateAnnounces(m, m.(job := None), State.Error, NO_MARKER, amb);
      if Holds(m, id) {
        var l := Newest(ev.value.published);
        SetStateAnnounces(m, if l != "" then m.(latest := l) else m, Applying, "", amb);
      }
  }

  lemma JobAnnounces(m: Mem, id: nat, note: string, amb: Ambient)
    ensures Announced(m, ApplyBegin(m, id, amb), Some(amb))
    ensures Announced(m, FinishFailed(m, amb), Some(amb)) && Announced(m, FinishInstalled(m, note, amb), Some(amb))
    ensures (CancelAnswer(m).None? ==> m.job.Some?) ==> Announced(m, CancelJob(m, amb), Some(amb))
  {
    hide SetState;
    SetStateAnnounces(m, m.(job := Some(Job(id, m.state, m.detail))), Inspecting, "", amb);
    SetStateAnnounces(m, m.(job := None, pending := FAILED), RebootPending, PendingDetail(FAILED), amb);
    SetStateAnnounces(m, m.(job := None, pending := INSTALLED), RebootPending, if note != "" then note else m.detail,
                      amb);
    if CancelAnswer(m).None? && m.job.Some? {
      var (s, detail) := BeforeJob(m.job.value);
      SetStateAnnounces(m, m.(job := None), s, detail, amb);
    }
  }

  lemma StepAnnounces(c: Core, a: Action)
    requires Enabled(c, a) && !a.Start? && !a.Crash? && !a.Boot?
    ensures Announced(c.m, Next(c, a).m, AmbOf(a))
  {
    hide Announced, Delivery.TakeBatch, Delivery.Advance, CheckBegin, CheckEnd, Gate, GateFiles, ApplyBegin,
         ProgressLine, FinishFailed, FinishInstalled, CancelJob, Evaluate, MarkerText, PlanOf, ParseRef, StrictTag,
         MarkerWord;
    SameAnnounces(c.m, c.m, AmbOf(a));
    match a
    case Register(_) => SameAnnounces(c.m, Next(c, a).m, None);
    case Deliver(w) =>
      DeliveryQueuesNothing(c.m.q, w);
      SameAnnounces(c.m, Next(c, a).m, None);
    case CheckCall(amb) => CheckAnnounces(c.m, c.nextId, false, Err(""), amb);
    case CheckReturn(id, published, amb, _) => CheckAnnounces(c.m, id, c.tasks[id].pending, published, amb);
    case ApplyCall(_, amb) => JobAnnounces(c.m, c.nextId, "", amb);
    case EvaluateReturn(id, resolved, published, enabled, why, amb, markerFails, _) =>
      var pc := c.tasks[id].pc;
      GateAnnounces(c.m, id, pc.ref, pc.digest, Decision(c, pc, resolved, published, enabled, why), amb, markerFails);
    case OutputLine(_, line) => LineAnnounces(c.m, line);
    case FinishRun(id, amb) => JobAnnounces(c.m, 0, if c.tasks[id].pc.Pinned? then c.tasks[id].pc.note else "", amb);
    case CancelCall(amb) => JobAnnounces(c.m, 0, "", amb);
    case RebootCall => SameAnnounces(c.m, Next(c, a).m, None);
    case PreviousCall => SameAnnounces(c.m, Next(c, a).m, None);
    case RestartReturn(_, _) => SameAnnounces(c.m, Next(c, a).m, None);
    case _ =>
  }

  lemma LineAnnounces(m: Mem, line: string)
    ensures Announced(m, ProgressLine(m, line), None)
  {
  }

  lemma DeliveryQueuesNothing(q: Delivery.Queue<Status>, w: nat)
    requires w < |q.workers|
    ensures q.workers[w].AtLock? ==> Delivery.TakeBatch(q, w).queued == q.queued
    ensures q.workers[w].Calling? ==> Delivery.Advance(q, w).queued == q.queued
  {
  }

  /** While a process lives, every change of what a status shows is announced by
      exactly one event with the new values, and there are no other events than those
      and kairos-agent's lines. */
  lemma EventsTellState(cs: seq<Core>, acts: seq<Action>, k: nat)
    requires IsRun(cs, acts) && k < |acts| && !acts[k].Start? && !acts[k].Crash? && !acts[k].Boot?
    ensures Announced(cs[k].m, cs[k + 1].m, AmbOf(acts[k]))
  {
    hide IsRun, Announced, Next, Enabled;
    RunStep(cs, acts, k);
    StepAnnounces(cs[k], acts[k]);
  }
}
