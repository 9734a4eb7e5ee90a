/** What kairos-agent is started with, and what the callbacks see, over whole
    runs of the update protocol. */
module UpdateTrust {
  import opened Wrappers
  import opened ImageRef
  import opened Release
  import opened Policy
  import Delivery
  import opened UpdateDaemon
  import opened UpdateProtocol
  import opened UpdateRuns

  /** The image's name is the one of a published release. */
  ghost predicate NamesRelease(g: Grounds) {
    IsRelease(g.ref, g.rel, g.listed)
  }

  /** A goroutine that evaluates works for the Apply call recorded under its id. */
  ghost predicate Requested(c: Core) {
    && (forall id :: id in c.requests ==> id < c.nextId)
    && (forall id :: AtEvaluation(c, id) ==>
          var pc := c.tasks[id].pc; id in c.requests && c.requests[id] == Request(pc.ref, pc.digest, pc.advanced))
  }

  lemma RequestedStep(c: Core, a: Action)
    requires Requested(c) && Enabled(c, a)
    ensures Requested(Next(c, a))
  {
    hide MarkerText, Delivery.Push, StatusOf, ParseRef, Evaluate, GateError, Newest, SourceOf, PlanOf, Exited,
         IsDigest, SetState, Delivery.TakeBatch, Delivery.Advance, PendingDetail, StrictTag, MarkerWord, NewMem,
         Gate, GateFiles, CheckEnd, CheckEndFile, CheckBegin, CancelJob, ApplyBegin;
  }

  lemma {:induction false} RequestedRun(cs: seq<Core>, acts: seq<Action>, k: nat)
    requires IsRun(cs, acts) && k < |cs|
    ensures Requested(cs[k])
  {
    hide Enabled, Next;
    if k > 0 {
      hide Requested;
      RequestedRun(cs, acts, k - 1);
      RequestedStep(cs[k - 1], acts[k - 1]);
    }
  }

  predicate IsReady(c: Core, id: nat) {
    c.up && id in c.tasks && c.tasks[id].RunTask? && c.tasks[id].pc.Ready?
  }

  /** A goroutine becomes ready by its own evaluation only, and while it is, its
      process and so the release it knows stay the same. */
  lemma ReadyStep(c: Core, a: Action, id: nat)
    requires Enabled(c, a) && IsReady(Next(c, a), id)
    ensures c.up && c.m.rel == Next(c, a).m.rel
    ensures (a.EvaluateReturn? && a.id == id) || (IsReady(c, id) && c.tasks[id] == Next(c, a).tasks[id])
  {
    hide MarkerText, Delivery.Push, StatusOf, ParseRef, Evaluate, GateError, Newest, SourceOf, PlanOf, Exited,
         IsDigest, Delivery.TakeBatch, Delivery.Advance, PendingDetail, StrictTag, MarkerWord, NewMem, GateFiles,
         Decision;
    if a.EvaluateReturn? {
      var pc := c.tasks[a.id].pc;
      GateKeepsRelease(c.m, a.id, pc.ref, pc.digest, Decision(c, pc, a.resolved, a.published, a.enabled, a.why), a.amb,
                       a.markerFails);
      hide Gate, GatePasses;
    } else {
      hide Gate;
    }
  }

  lemma GateKeepsRelease(m: Mem, id: nat, ref: string, digest: string, ev: Result<Evaluation, string>, amb: Ambient,
                         fails: bool)
    ensures Gate(m, id, ref, digest, ev, amb, fails).rel == m.rel
  {
    hide Delivery.Push, StatusOf, GateError, Newest;
  }

  /** The evaluation that made a goroutine ready, in the same process. */
  lemma {:induction false} ReadyFrom(cs: seq<Core>, acts: seq<Action>, k: nat, id: nat) returns (j: nat)
    requires IsRun(cs, acts) && k < |cs| && IsReady(cs[k], id)
    ensures j < k && acts[j].EvaluateReturn? && acts[j].id == id
    ensures IsReady(cs[j + 1], id) && cs[j + 1].tasks[id] == cs[k].tasks[id]
    ensures cs[j].m.rel == cs[k].m.rel
  {
    hide Enabled, Next;
    ReadyStep(cs[k - 1], acts[k - 1], id);
    if acts[k - 1].EvaluateReturn? && acts[k - 1].id == id {
      j := k - 1;
    } else {
      j := ReadyFrom(cs, acts, k - 1, id);
    }
  }

  /** What an evaluation that lets its goroutine through has found. */
  lemma EvaluationFinds(c: Core, a: Action)
    requires Enabled(c, a) && a.EvaluateReturn? && IsReady(Next(c, a), a.id)
    ensures ParseRef(c.tasks[a.id].pc.ref).Ok? && a.resolved.Ok? && a.published.Ok?
    ensures var pc, ready := c.tasks[a.id].pc, Next(c, a).tasks[a.id].pc;
            var g := ready.grounds;
            && g == Grounds(a.resolved.value.ref, pc.digest, c.m.rel, a.published.value, pc.advanced && a.enabled)
            && ParseRef(pc.ref) == Ok(g.ref)
            && a.resolved.value.digest == pc.digest
            && ready.plan.source == "oci:" + g.ref.Repo() + "@" + pc.digest
            && a.resolved.value.Label(LABEL_FLAVOR) != AGENT
            && (g.override || NamesRelease(g))
  {
    GateWasPassed(c, a);
    DecisionFinds(c, c.tasks[a.id].pc, a.resolved, a.published, a.enabled, a.why);
    hide ParseRef, Newest, NamesRelease, Decision, Next, Enabled;
  }

  /** A goroutine is ready after its evaluation only if that passed the gate. */
  lemma GateWasPassed(c: Core, a: Action)
    requires Enabled(c, a) && a.EvaluateReturn? && IsReady(Next(c, a), a.id)
    ensures var pc := c.tasks[a.id].pc;
            var ev := Decision(c, pc, a.resolved, a.published, a.enabled, a.why);
            && ev.Ok? && ev.value.info.digest == pc.digest
            && Next(c, a).tasks[a.id].pc
               == Ready(PlanOf(pc.ref, ev.value),
                        Grounds(ev.value.info.ref, pc.digest, c.m.rel, ev.value.published, pc.advanced && a.enabled))
  {
    hide ParseRef, Newest, GateFiles, Gate, Evaluate, PlanOf;
  }

  /** What a decision to install is based on. */
  lemma DecisionFinds(c: Core, pc: RunPc, resolved: Result<ImageInfo, string>, published: Result<seq<string>, string>,
                      enabled: bool, why: string)
    requires pc.Evaluating? && AnswersFor(pc.ref, resolved) && Decision(c, pc, resolved, published, enabled, why).Ok?
    ensures resolved.Ok? && published.Ok? && ParseRef(pc.ref).Ok?
    ensures var e := Decision(c, pc, resolved, published, enabled, why).value;
            && e.info == resolved.value && e.published == published.value
            && ParseRef(pc.ref) == Ok(e.info.ref) && e.info.Label(LABEL_FLAVOR) != AGENT
            && ((pc.advanced && enabled)
                || NamesRelease(Grounds(e.info.ref, pc.digest, c.m.rel, e.published, pc.advanced && enabled)))
  {
    hide ParseRef, Classify, LineRef, Published;
    ParsedPrintsBack(pc.ref);
    OnlyReleasesWithoutAdvanced(resolved, published, c.m.rel, pc.advanced, enabled);
  }

  lemma RequestStep(c: Core, a: Action, id: nat)
    requires Enabled(c, a) && id in Next(c, a).requests
    ensures (id in c.requests && c.requests[id] == Next(c, a).requests[id])
            || (a.ApplyCall? && c.nextId == id && a.request == Next(c, a).requests[id])
  {
    hide MarkerText, StatusOf, ParseRef, Evaluate, Newest, Exited, IsDigest, Gate, GateFiles, CheckEnd, CheckBegin,
         ApplyBegin, CancelJob, Delivery.TakeBatch, Delivery.Advance, NewMem;
  }

  /** Every recorded request is that of an Apply call the run made. */
  lemma {:induction false} RequestsAreApplyCalls(cs: seq<Core>, acts: seq<Action>, k: nat, id: nat)
    requires IsRun(cs, acts) && k < |cs| && id in cs[k].requests
    ensures exists i :: 0 <= i < k && acts[i].ApplyCall? && cs[i].nextId == id && acts[i].request == cs[k].requests[id]
  {
    hide Enabled, Next;
    if k > 0 {
      RequestStep(cs[k - 1], acts[k - 1], id);
      if id in cs[k - 1].requests && cs[k - 1].requests[id] == cs[k].requests[id] {
        RequestsAreApplyCalls(cs, acts, k - 1, id);
      }
    }
  }

  /** Whenever kairos-agent is started, step i was an Apply call and step j, after
      it and in the same process, its evaluation: the registry had resolved the
      reference asked for to exactly the digest given, and that is the source.
      Unless the call asked for advanced mode and it was on, the reference is the
      one a release is pushed under that the answer of step j lists, by the
      release this process was loaded with. An agent image is never installed. */
  lemma UpgradesAreReviewed(cs: seq<Core>, acts: seq<Action>, k: nat) returns (i: nat, j: nat)
    requires IsRun(cs, acts) && k < |acts| && acts[k].UpgradeCall?
    ensures i < j < k && acts[i].ApplyCall? && acts[j].EvaluateReturn?
    ensures cs[i].nextId == acts[j].id == acts[k].id
    ensures |cs[k + 1].installs| == |cs[k].installs| + 1 && acts[j].resolved.Ok?
    ensures var r := acts[i].request;
            var started := cs[k + 1].installs[|cs[k].installs|];
            var g := started.grounds;
            && cs[k + 1].installs == cs[k].installs + [started]
            && ParseRef(r.ref) == Ok(g.ref)
            && started.source == "oci:" + g.ref.Repo() + "@" + r.digest
            && acts[j].resolved.value.ref == g.ref && acts[j].resolved.value.digest == r.digest
            && acts[j].resolved.value.Label(LABEL_FLAVOR) != AGENT
            && acts[j].published == Ok(g.listed)
            && g.rel == cs[j].m.rel == cs[k].m.rel
            && (g.override <==> r.advanced && acts[j].enabled)
            && (g.override || NamesRelease(g))
  {
    hide Init, Inv, ParseRef, NamesRelease, IsRun;
    var id := acts[k].id;
    RunStep(cs, acts, k);
    assert IsReady(cs[k], id);
    j := ReadyFrom(cs, acts, k, id);
    RunStep(cs, acts, j);
    EvaluationFinds(cs[j], acts[j]);
    RequestedRun(cs, acts, j);
    RequestsAreApplyCalls(cs, acts, j, id);
    i :| 0 <= i < j && acts[i].ApplyCall? && cs[i].nextId == id && acts[i].request == cs[j].requests[id];
    hide Next, Enabled;
  }

  lemma RunStep(cs: seq<Core>, acts: seq<Action>, k: nat)
    requires IsRun(cs, acts) && k < |acts|
    ensures |cs| == |acts| + 1
    ensures Enabled(cs[k], acts[k]) && cs[k + 1] == Next(cs[k], acts[k])
  {
    hide Enabled, Next, Init;
  }

  // ---------------------------------------------------------------------
  // Callbacks
  // ---------------------------------------------------------------------

  lemma SetStateKeepsQueue(m: Mem, s: State, detail: string, amb: Ambient)
    requires Delivery.Inv(m.q)
    ensures Delivery.Inv(SetState(m, s, detail, amb).q)
  {
    hide Delivery.Inv, Delivery.Push, StatusOf;
    Delivery.PushInv(m.q, Delivery.Change(StatusOf(m.(state := s, detail := detail), amb)));
  }

  lemma CheckKeepsQueue(m: Mem, id: nat, pending: bool, listed: Result<seq<string>, string>, amb: Ambient)
    requires Delivery.Inv(m.q)
    ensures Delivery.Inv(CheckBegin(m, id, amb).q) && Delivery.Inv(CheckEnd(m, id, pending, listed, amb).q)
  {
    hide Delivery.Inv, Delivery.Push, StatusOf, Newer, Newest, SetState;
    SetStateKeepsQueue(m.(job := Some(Job(id, m.state, m.detail))), Checking, "", amb);
    match listed
    case Err(why) => SetStateKeepsQueue(m.(job := None), Error, "could not check for updates: " + why, amb);
    case Ok(published) =>
      var n := m.(latest := Newest(published));
      Delivery.PushInv(n.q, Delivery.Change(StatusOf(n, amb)));
      SetStateKeepsQueue(n.(job := None), UpdateAvailable, "", amb);
      SetStateKeepsQueue(n.(job := None), UpToDate, "", amb);
  }

  lemma GateKeepsQueue(m: Mem, id: nat, ref: string, digest: string, ev: Result<Evaluation, string>, amb: Ambient,
                       markerFails: bool)
    requires Delivery.Inv(m.q)
    ensures Delivery.Inv(Gate(m, id, ref, digest, ev, amb, markerFails).q)
  {
    hide Delivery.Inv, SetState, Newest;
    var bare := m.(job := None);
    match GateError(m, ref, digest, ev)
    case Some(why) => SetStateKeepsQueue(bare, Error, why, amb);
    case None =>
      SetStateKeepsQueue(bare, Error, NO_MARKER, amb);
      if Holds(m, id) {
        var l := Newest(ev.value.published);
        SetStateKeepsQueue(if l != "" then m.(latest := l) else m, Applying, "", amb);
      }
  }

  lemma CallsKeepQueue(m: Mem, id: nat, line: string, amb: Ambient)
    requires Delivery.Inv(m.q)
    ensures Delivery.Inv(ApplyBegin(m, id, amb).q)
    ensures Delivery.Inv(ProgressLine(m, line).q)
    ensures Delivery.Inv(FinishFailed(m, amb).q) && Delivery.Inv(FinishInstalled(m, line, amb).q)
    ensures (CancelAnswer(m).None? ==> m.job.Some?) ==> Delivery.Inv(CancelJob(m, amb).q)
  {
    hide Delivery.Inv, SetState, Delivery.Push, PendingDetail;
    Delivery.PushInv(m.q, Delivery.Progress(line));
    forall n: Mem, s, detail | n.q == m.q
      ensures Delivery.Inv(SetState(n, s, detail, amb).q)
    {
      SetStateKeepsQueue(n, s, detail, amb);
    }
  }

  lemma DeliveryStep(c: Core, a: Action)
    requires Enabled(c, a) && (c.up ==> Delivery.Inv(c.m.q))
    ensures Next(c, a).up ==> Delivery.Inv(Next(c, a).m.q)
  {
    hide Delivery.Inv, Delivery.Push, Delivery.TakeBatch, Delivery.Advance, Delivery.RegisterChange,
         Delivery.RegisterProgress, CheckBegin, CheckEnd, Gate, GateFiles, ApplyBegin, ProgressLine, FinishFailed,
         FinishInstalled, CancelJob, Evaluate, MarkerText, PlanOf, ParseRef, StrictTag, MarkerWord;
    match a
    case Start(_, _, _) => Delivery.EmptyInv<Status>();
    case Register(_) => Delivery.RegisterInv(c.m.q);
    case Deliver(w) =>
      if c.m.q.workers[w].AtLock? { Delivery.TakeBatchInv(c.m.q, w); } else { Delivery.AdvanceInv(c.m.q, w); }
    case CheckCall(amb) => CheckKeepsQueue(c.m, c.nextId, false, Err(""), amb);
    case CheckReturn(id, published, amb, _) => CheckKeepsQueue(c.m, id, c.tasks[id].pending, published, amb);
    case ApplyCall(_, amb) => CallsKeepQueue(c.m, c.nextId, "", amb);
    case EvaluateReturn(id, resolved, published, enabled, why, amb, markerFails, _) =>
      var pc := c.tasks[id].pc;
      GateKeepsQueue(c.m, id, pc.ref, pc.digest, Decision(c, pc, resolved, published, enabled, why), amb, markerFails);
    case OutputLine(_, line) => CallsKeepQueue(c.m, 0, line, Ambient("", false));
    case FinishRun(id, amb) =>
      CallsKeepQueue(c.m, 0, if c.tasks[id].pc.Pinned? then c.tasks[id].pc.note else "", amb);
    case CancelCall(amb) => CallsKeepQueue(c.m, 0, "", amb);
    case _ =>
  }

  lemma {:induction false} DeliveryRun(cs: seq<Core>, acts: seq<Action>, k: nat)
    requires IsRun(cs, acts) && k < |cs|
    ensures cs[k].up ==> Delivery.Inv(cs[k].m.q)
  {
    hide Enabled, Next, Delivery.Inv;
    if k > 0 {
      DeliveryRun(cs, acts, k - 1);
      DeliveryStep(cs[k - 1], acts[k - 1]);
    }
  }

  /** In every state of every run: at most one deliverer runs, nothing is queued
      without one, and a callback registered before the daemon's first event has
      received a prefix, in queue order, of the events of its kind; all of them
      once no deliverer runs. */
  lemma CallbacksSeeEveryEventOnce(cs: seq<Core>, acts: seq<Action>, k: nat, cb: nat)
    requires IsRun(cs, acts) && k < |cs| && cs[k].up
    ensures var q := cs[k].m.q;
            && |q.workers| <= 1
            && (q.events != [] ==> |q.workers| == 1)
            && (cb < q.earlyChange ==>
                  && cb < |q.onChange|
                  && q.onChange[cb] <= Delivery.Only(q.queued, false)
                  && (q.workers == [] ==> q.onChange[cb] == Delivery.Only(q.queued, false)))
            && (cb < q.earlyProgress ==>
                  && cb < |q.onProgress|
                  && q.onProgress[cb] <= Delivery.Only(q.queued, true)
                  && (q.workers == [] ==> q.onProgress[cb] == Delivery.Only(q.queued, true)))
  {
    hide Enabled, Next, Init, Delivery.Served;
    DeliveryRun(cs, acts, k);
    Delivery.EarlyCallbacksMissNothing(cs[k].m.q, cb);
  }
}
