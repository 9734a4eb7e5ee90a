/** What holds over whole runs of the update protocol, with any number of
    daemon crashes, restarts and boots. */
module UpdateRuns {
  import opened Wrappers
  import opened Text
  import opened ImageRef
  import opened Release
  import opened Policy
  import Delivery
  import opened UpdateDaemon
  import opened UpdateProtocol

  ghost predicate IsRun(cs: seq<Core>, acts: seq<Action>) {
    && |cs| == |acts| + 1
    && Init(cs[0])
    && forall i :: 0 <= i < |acts| ==> Enabled(cs[i], acts[i]) && cs[i + 1] == Next(cs[i], acts[i])
  }

  lemma {:induction false} RunInv(cs: seq<Core>, acts: seq<Action>, k: nat)
    requires IsRun(cs, acts) && k < |cs|
    ensures Inv(cs[k])
  {
    hide Inv, Enabled, Next;
    if k == 0 {
      InitInv(cs[0]);
    } else {
      RunInv(cs, acts, k - 1);
      StepInv(cs[k - 1], acts[k - 1]);
    }
  }

  /** A run goes on with any step that is enabled where it ends. */
  lemma RunGoesOn(cs: seq<Core>, acts: seq<Action>, a: Action)
    requires IsRun(cs, acts) && Enabled(cs[|acts|], a)
    ensures IsRun(cs + [Next(cs[|acts|], a)], acts + [a])
  {
    hide Enabled, Next, Init;
  }

  /** No step from i up to k is a boot. */
  ghost predicate SameBoot(acts: seq<Action>, i: nat, k: nat) {
    i <= k <= |acts| && forall j :: i <= j < k ==> !acts[j].Boot?
  }

  /** Nor a crash of the daemon. */
  ghost predicate SameLife(acts: seq<Action>, i: nat, k: nat) {
    i <= k <= |acts| && forall j :: i <= j < k ==> !acts[j].Boot? && !acts[j].Crash?
  }

  // ---------------------------------------------------------------------
  // One kairos-agent run per boot, and what it does to the slots
  // ---------------------------------------------------------------------

  /** Within a boot kairos-agent runs are only added, a marker stays, and the
      boot's record of the slots does not change. */
  lemma StepWithinBoot(c: Core, a: Action)
    requires Enabled(c, a) && !a.Boot?
    ensures |c.installs| <= |Next(c, a).installs|
    ensures c.run.marker.Some? ==> Next(c, a).run.marker.Some?
    ensures Next(c, a).booted == c.booted
  {
    hide MarkerText, Delivery.Push, StatusOf, ParseRef, Evaluate, GateError, Newest, SourceOf, NewMem, Exited;
  }

  lemma {:induction false} WithinBoot(cs: seq<Core>, acts: seq<Action>, i: nat, k: nat)
    requires IsRun(cs, acts) && SameBoot(acts, i, k)
    ensures |cs[i].installs| <= |cs[k].installs|
    ensures cs[i].run.marker.Some? ==> cs[k].run.marker.Some?
    ensures cs[k].booted == cs[i].booted
    decreases k
  {
    hide Enabled, Next, Init;
    if i < k {
      WithinBoot(cs, acts, i, k - 1);
      StepWithinBoot(cs[k - 1], acts[k - 1]);
    }
  }

  lemma FirstUpgrade(c: Core, id: nat)
    requires Inv(c) && Enabled(c, UpgradeCall(id))
    ensures c.installs == []
  {
    hide Linked, SlotsFit, Truthful, Marked;
    assert RunsFit(c.installs, id, c.tasks[id].pc);
  }

  /** kairos-agent is started at most once per boot: between two starts the
      machine boots, however often the daemon crashes and restarts. */
  lemma OneUpgradePerBoot(cs: seq<Core>, acts: seq<Action>, i: nat, k: nat)
    requires IsRun(cs, acts) && i < k < |acts|
    requires acts[i].UpgradeCall? && acts[k].UpgradeCall?
    ensures exists j :: i < j < k && acts[j].Boot?
  {
    hide Init, Inv;
    assert Enabled(cs[i], acts[i]) && Enabled(cs[k], acts[k]);
    assert cs[i + 1].installs != [];
    RunInv(cs, acts, k);
    FirstUpgrade(cs[k], acts[k].id);
    if forall j :: i < j < k ==> !acts[j].Boot? {
      WithinBoot(cs, acts, i + 1, k);
      assert false;
    }
  }

  /** Where a boot left the machine: the first state, or one after a boot. */
  ghost predicate JustBooted(acts: seq<Action>, i: nat) {
    i == 0 || (i <= |acts| && acts[i - 1].Boot?)
  }

  lemma BootedRecord(cs: seq<Core>, acts: seq<Action>, i: nat)
    requires IsRun(cs, acts) && i <= |acts| && JustBooted(acts, i)
    ensures cs[i].booted == cs[i].slots && cs[i].installs == []
  {
    if i > 0 {
      assert cs[i] == Next(cs[i - 1], acts[i - 1]);
    }
  }

  /** Within one boot the passive slot only ever holds what it held at boot or
      the image that was active at boot, and that image is never lost. */
  lemma PassiveSlotWithinBoot(cs: seq<Core>, acts: seq<Action>, i: nat, k: nat)
    requires IsRun(cs, acts) && JustBooted(acts, i) && SameBoot(acts, i, k)
    ensures cs[k].slots.passive in {cs[i].slots.passive, cs[i].slots.active}
    ensures cs[i].slots.active in {cs[k].slots.active, cs[k].slots.passive}
  {
    hide Enabled, Next, Init, Linked, Marked, Truthful;
    BootedRecord(cs, acts, i);
    WithinBoot(cs, acts, i, k);
    RunInv(cs, acts, k);
  }

  // ---------------------------------------------------------------------
  // Reboot-pending
  // ---------------------------------------------------------------------

  /** Once there is a marker, every managed daemon of that boot is applying or
      reboot-pending: only a boot leads back to a state that installs. */
  lemma PendingUntilBoot(cs: seq<Core>, acts: seq<Action>, i: nat, k: nat)
    requires IsRun(cs, acts) && SameBoot(acts, i, k)
    requires cs[i].run.marker.Some? || cs[i].installs != []
    requires cs[k].up && cs[k].m.managed
    ensures cs[k].m.state.Applying? || cs[k].m.state.RebootPending?
    ensures forall r: Request :: ApplyAnswer(cs[k].m, r.ref, r.digest).Some?
  {
    hide Enabled, Next, Init, Linked, SlotsFit, Truthful, ParseRef, IsDigest;
    RunInv(cs, acts, i);
    WithinBoot(cs, acts, i, k);
    RunInv(cs, acts, k);
  }

  lemma PendingStep(c: Core, a: Action)
    requires Inv(c) && Enabled(c, a) && !a.Boot? && !a.Crash? && c.up && c.m.state.RebootPending?
    ensures Next(c, a).up && Next(c, a).m.state.RebootPending? && Next(c, a).m.pending == c.m.pending
  {
    hide SlotsFit, Truthful, Marked, MarkerText, Delivery.Push, StatusOf, ParseRef, Evaluate, GateError, Newest,
         SourceOf, NewMem, Exited, Delivery.TakeBatch, Delivery.Advance;
    assert forall id :: AtFinish(c, id) ==> PastGate(c.tasks[id]);
  }

  /** A daemon process that is reboot-pending stays so, with the same word,
      until it ends; no call of a client and no late goroutine changes it. */
  lemma {:induction false} PendingForLife(cs: seq<Core>, acts: seq<Action>, i: nat, k: nat)
    requires IsRun(cs, acts) && SameLife(acts, i, k)
    requires cs[i].up && cs[i].m.state.RebootPending?
    ensures cs[k].up && cs[k].m.state.RebootPending? && cs[k].m.pending == cs[i].m.pending
    decreases k
  {
    hide Enabled, Next, Init, Inv;
    if i < k {
      PendingForLife(cs, acts, i, k - 1);
      RunInv(cs, acts, k - 1);
      PendingStep(cs[k - 1], acts[k - 1]);
    }
  }

  /** Without a marker the state can be left by a mere restart: a daemon that
      could not read the run directory when it started calls itself
      reboot-pending, and the next one, which can, is idle. */
  lemma UnreadableMarkerIsForgotten(c: Core, rel: Rel)
    requires Init(c)
    ensures var pending := DoStart(c, Ok(rel), false, true);
            var restarted := DoStart(DoCrash(pending), Ok(rel), false, false);
            && pending.m.state.RebootPending? && pending.m.pending == STARTED
            && restarted.m.state.Idle?
  {
    hide StrictTag;
  }

  /** A restarted daemon is reboot-pending exactly when its release file loads and
      a marker exists or could not be looked at; when the release file does not
      load it is unmanaged, whatever the marker. */
  lemma RestartedState(c: Core, loaded: Result<Rel, string>, latestUnreadable: bool, markerUnreadable: bool)
    requires Inv(c) && !c.up
    ensures var m := DoStart(c, loaded, latestUnreadable, markerUnreadable).m;
            && (m.state.RebootPending? <==> loaded.Ok? && (c.run.marker.Some? || markerUnreadable))
            && (m.state.Unmanaged? <==> loaded.Err?)
            && (m.state.Idle? <==> !m.state.RebootPending? && !m.state.Unmanaged?)
            && (c.installs != [] ==> m.state.RebootPending? || m.state.Unmanaged?)
  {
    hide StrictTag, MarkerWord;
  }

  /** When a reboot-pending daemon dies and the next one of the same boot starts,
      the state is lost exactly if the release file no longer loads, or if there
      is no marker and this time that could be seen. */
  lemma RestartEndsPending(cs: seq<Core>, acts: seq<Action>, i: nat)
    requires IsRun(cs, acts) && i + 2 <= |acts|
    requires cs[i].up && cs[i].m.state.RebootPending? && acts[i].Crash? && acts[i + 1].Start?
    ensures var start := acts[i + 1];
            !cs[i + 2].m.state.RebootPending? <==>
              start.loaded.Err? || (cs[i].run.marker.None? && !start.markerUnreadable)
  {
    assert cs[i + 1] == Next(cs[i], acts[i]) && Enabled(cs[i + 1], acts[i + 1]);
    assert cs[i + 2] == Next(cs[i + 1], acts[i + 1]);
    RunInv(cs, acts, i + 1);
    hide Inv, Init, IsRun, StrictTag, MarkerWord;
    var start := acts[i + 1];
    RestartedState(cs[i + 1], start.loaded, start.latestUnreadable, start.markerUnreadable);
  }

  predicate PendingUnmarked(c: Core) {
    c.up && c.m.state.RebootPending? && c.run.marker.None?
  }

  predicate StartedBlind(a: Action) {
    a.Start? && a.loaded.Ok? && a.markerUnreadable
  }

  lemma PendingUnmarkedStep(c: Core, a: Action)
    requires Inv(c) && Enabled(c, a) && PendingUnmarked(Next(c, a))
    ensures StartedBlind(a) || (PendingUnmarked(c) && !a.Boot? && !a.Crash?)
  {
    hide Truthful, SlotsFit, MarkerText, Delivery.Push, StatusOf, ParseRef, Evaluate, GateError, Newest, SourceOf,
         Exited, Delivery.TakeBatch, Delivery.Advance, PendingDetail, StrictTag, MarkerWord, Decision;
    if a.EvaluateReturn? {
      var pc := c.tasks[a.id].pc;
      GateIsNotPending(c.m, a.id, pc.ref, pc.digest, Decision(c, pc, a.resolved, a.published, a.enabled, a.why), a.amb,
                       a.markerFails);
      hide Gate;
    } else {
      hide Gate;
    }
  }

  lemma GateIsNotPending(m: Mem, id: nat, ref: string, digest: string, ev: Result<Evaluation, string>, amb: Ambient,
                         fails: bool)
    ensures Gate(m, id, ref, digest, ev, amb, fails).state.RebootPending? ==> m.state.RebootPending?
  {
    hide Delivery.Push, StatusOf, GateError, Newest;
  }

  /** A process that is reboot-pending without a marker was started, and has run
      since, in a moment in which the marker could not be looked at: nothing else
      makes a daemon pending in a boot in which nothing was installed. */
  lemma {:induction false} PendingWithoutMarker(cs: seq<Core>, acts: seq<Action>, k: nat) returns (i: nat)
    requires IsRun(cs, acts) && k < |cs| && PendingUnmarked(cs[k])
    ensures i < k && StartedBlind(acts[i]) && SameLife(acts, i, k) && cs[i].run.marker.None? && cs[k].installs == []
  {
    hide Enabled, Next, Inv, PendingUnmarked;
    FirstIsDown(cs[0]);
    RunInv(cs, acts, k);
    NoMarkerNoInstall(cs[k]);
    RunInv(cs, acts, k - 1);
    PendingUnmarkedStep(cs[k - 1], acts[k - 1]);
    if StartedBlind(acts[k - 1]) {
      i := k - 1;
      StartKeepsMarker(cs[i], acts[i]);
    } else {
      i := PendingWithoutMarker(cs, acts, k - 1);
    }
  }

  lemma FirstIsDown(c: Core)
    requires Init(c)
    ensures !PendingUnmarked(c)
  {
  }

  lemma NoMarkerNoInstall(c: Core)
    requires Inv(c) && PendingUnmarked(c)
    ensures c.installs == []
  {
    hide Linked, OneInstall, SlotsFit, Truthful;
  }

  lemma StartKeepsMarker(c: Core, a: Action)
    requires Enabled(c, a) && a.Start? && PendingUnmarked(Next(c, a))
    ensures c.run.marker.None?
  {
    hide NewMem;
  }

  // ---------------------------------------------------------------------
  // The marker tells the truth
  // ---------------------------------------------------------------------

  /** In every state the marker says "installed" only if the kairos-agent run of
      this boot exited without an error and "failed" only if it exited with one;
      so does the pending word the daemon shows, and the one a restarted daemon
      would show is the true one or the weaker "started". */
  lemma MarkerNeverOverstates(cs: seq<Core>, acts: seq<Action>, k: nat, unreadable: bool)
    requires IsRun(cs, acts) && k < |cs|
    ensures var c := cs[k];
            var restarted := ReadMarker(c.run.marker, unreadable);
            && (restarted.Some? ==> WordTrue(restarted.value, c.installs))
            && (c.up && c.m.state.RebootPending? ==> WordTrue(c.m.pending, c.installs))
  {
    hide Enabled, Next, Init, Linked, SlotsFit, OneInstall, MarkerWord;
    RunInv(cs, acts, k);
  }

  // ---------------------------------------------------------------------
  // Jobs, cancellation and late goroutines
  // ---------------------------------------------------------------------

  /** A state is busy exactly when a job is set, and the job's goroutine is at
      the point the state names. */
  lemma BusyExactlyWithJob(cs: seq<Core>, acts: seq<Action>, k: nat)
    requires IsRun(cs, acts) && k < |cs| && cs[k].up
    ensures BusyState(cs[k].m.state) <==> cs[k].m.job.Some?
    ensures cs[k].m.job.Some? ==>
              && cs[k].m.job.value.id in cs[k].tasks
              && TaskState(cs[k].tasks[cs[k].m.job.value.id]) == Some(cs[k].m.state)
  {
    hide Enabled, Next, Init, Marked, SlotsFit, OneInstall, Truthful;
    RunInv(cs, acts, k);
  }

  /** Cancel never succeeds once kairos-agent may have started: neither while a
      goroutine is past the gate nor later in that boot. */
  lemma NoCancelAfterGate(cs: seq<Core>, acts: seq<Action>, k: nat)
    requires IsRun(cs, acts) && k < |cs| && cs[k].up
    ensures cs[k].installs != [] ==> CancelAnswer(cs[k].m).Some?
    ensures (exists id :: id in cs[k].tasks && PastGate(cs[k].tasks[id])) ==>
              CancelAnswer(cs[k].m) == Some(ErrNotCancellable)
  {
    hide Enabled, Next, Init, SlotsFit, OneInstall, Truthful;
    RunInv(cs, acts, k);
  }

  /** If job id is the current one, it is still the one that was started. */
  predicate SameJob(c: Core, id: nat, prev: State, detail: string) {
    id < c.nextId && (c.up && Holds(c.m, id) ==> c.m.job == Some(Job(id, prev, detail)))
  }

  /** The calls and returns that may set or clear the job. */
  predicate TouchesJob(a: Action) {
    a.CheckCall? || a.CheckReturn? || a.ApplyCall? || a.EvaluateReturn? || a.UpgradeReturn? || a.FinishRun? ||
        a.CancelCall?
  }

  lemma SameJobStep(c: Core, a: Action, id: nat, prev: State, detail: string)
    requires Enabled(c, a) && SameJob(c, id, prev, detail)
    ensures SameJob(Next(c, a), id, prev, detail)
  {
    if JobCall(a) {
      SameJobStepCall(c, a, id, prev, detail);
    } else if TouchesJob(a) {
      SameJobStepReturn(c, a, id, prev, detail);
    } else {
      SameJobStepOther(c, a, id, prev, detail);
    }
  }

  predicate JobCall(a: Action) {
    a.CheckCall? || a.ApplyCall? || a.CancelCall?
  }

  lemma SameJobStepCall(c: Core, a: Action, id: nat, prev: State, detail: string)
    requires Enabled(c, a) && SameJob(c, id, prev, detail) && JobCall(a)
    ensures SameJob(Next(c, a), id, prev, detail)
  {
    hide MarkerText, Delivery.Push, StatusOf, ParseRef, Evaluate, GateError, Newest, SourceOf, Exited,
         Delivery.TakeBatch, Delivery.Advance, PendingDetail, StrictTag, MarkerWord, GateFiles, Decision;
  }

  lemma SameJobStepReturn(c: Core, a: Action, id: nat, prev: State, detail: string)
    requires Enabled(c, a) && SameJob(c, id, prev, detail) && TouchesJob(a) && !JobCall(a)
    ensures SameJob(Next(c, a), id, prev, detail)
  {
    ReturnsEndJobs(c, a);
    hide Next, Enabled;
  }

  /** A goroutine that resumes leaves the job alone or ends it. */
  lemma ReturnsEndJobs(c: Core, a: Action)
    requires Enabled(c, a) && TouchesJob(a) && !JobCall(a)
    ensures Next(c, a).m.job in {c.m.job, None} && Next(c, a).nextId == c.nextId
    ensures Next(c, a).up ==> c.up
  {
    hide MarkerText, Delivery.Push, StatusOf, ParseRef, Evaluate, GateError, Newest, SourceOf, Exited,
         Delivery.TakeBatch, Delivery.Advance, PendingDetail, StrictTag, MarkerWord, GateFiles, Decision;
    if a.EvaluateReturn? {
      var pc := c.tasks[a.id].pc;
      GateEndsJob(c.m, a.id, pc.ref, pc.digest, Decision(c, pc, a.resolved, a.published, a.enabled, a.why), a.amb,
                  a.markerFails);
      hide Gate;
    } else {
      hide Gate;
    }
  }

  lemma GateEndsJob(m: Mem, id: nat, ref: string, digest: string, ev: Result<Evaluation, string>, amb: Ambient,
                    fails: bool)
    ensures Gate(m, id, ref, digest, ev, amb, fails).job in {m.job, None}
  {
    hide Delivery.Push, StatusOf, GateError, Newest;
  }

  lemma SameJobStepOther(c: Core, a: Action, id: nat, prev: State, detail: string)
    requires Enabled(c, a) && SameJob(c, id, prev, detail) && !TouchesJob(a)
    ensures SameJob(Next(c, a), id, prev, detail)
  {
    hide MarkerText, Delivery.Push, StatusOf, ParseRef, Evaluate, GateError, Newest, SourceOf, Exited,
         Delivery.TakeBatch, Delivery.Advance, PendingDetail, StrictTag, MarkerWord, GateFiles, Decision;
  }

  lemma {:induction false} SameJobRun(cs: seq<Core>, acts: seq<Action>, i: nat, k: nat, id: nat, prev: State,
                                      detail: string)
    requires IsRun(cs, acts) && i <= k < |cs| && SameJob(cs[i], id, prev, detail)
    ensures SameJob(cs[k], id, prev, detail)
    decreases k
  {
    hide Enabled, Next, Init, SameJob;
    if i < k {
      SameJobRun(cs, acts, i, k - 1, id, prev, detail);
      SameJobStep(cs[k - 1], acts[k - 1], id, prev, detail);
    }
  }

  /** A successful Cancel of the job that step i started returns to the state
      and detail that step i found, except that an error becomes idle. */
  lemma CancelReturnsToBeforeJob(cs: seq<Core>, acts: seq<Action>, i: nat, k: nat)
    requires IsRun(cs, acts) && i < k < |acts|
    requires acts[i].CheckCall? || acts[i].ApplyCall?
    requires cs[i].m.job != cs[i + 1].m.job
    requires acts[k].CancelCall? && Holds(cs[k].m, cs[i].nextId) && CancelAnswer(cs[k].m).None?
    ensures var (found, after) := (cs[i].m, cs[k + 1].m);
            if found.state.Error? then after.state.Idle? && after.detail == ""
            else after.state == found.state && after.detail == found.detail
    ensures cs[k + 1].m.job.None?
  {
    hide Init, Delivery.Push, StatusOf, ParseRef, IsDigest;
    var id := cs[i].nextId;
    assert Enabled(cs[i], acts[i]) && cs[i + 1] == Next(cs[i], acts[i]);
    assert SameJob(cs[i + 1], id, cs[i].m.state, cs[i].m.detail);
    SameJobRun(cs, acts, i + 1, k, id, cs[i].m.state, cs[i].m.detail);
    assert Enabled(cs[k], acts[k]) && cs[k + 1] == Next(cs[k], acts[k]);
  }

  /** Job id is over although its goroutine may still run. */
  ghost predicate Abandoned(c: Core, id: nat) {
    && id < c.nextId
    && (c.up ==> !Holds(c.m, id))
    && (id in c.tasks ==> !PastGate(c.tasks[id]))
  }

  lemma AbandonedStep(c: Core, a: Action, id: nat)
    requires Inv(c) && Enabled(c, a) && Abandoned(c, id)
    ensures Abandoned(Next(c, a), id)
  {
    hide SlotsFit, Truthful, Marked, OneInstall, MarkerText, Delivery.Push, StatusOf, ParseRef, Evaluate, GateError,
         Newest, SourceOf, Exited, Delivery.TakeBatch, Delivery.Advance, PendingDetail, StrictTag, MarkerWord,
         GateFiles, Decision;
    if a.EvaluateReturn? {
      var pc := c.tasks[a.id].pc;
      GateEndsJob(c.m, a.id, pc.ref, pc.digest, Decision(c, pc, a.resolved, a.published, a.enabled, a.why), a.amb,
                  a.markerFails);
      hide Gate;
    } else {
      hide Gate;
    }
  }

  lemma {:induction false} AbandonedRun(cs: seq<Core>, acts: seq<Action>, i: nat, k: nat, id: nat)
    requires IsRun(cs, acts) && i <= k < |cs| && Abandoned(cs[i], id)
    ensures Abandoned(cs[k], id)
    decreases k
  {
    hide Enabled, Next, Init, Inv, Abandoned;
    if i < k {
      AbandonedRun(cs, acts, i, k - 1, id);
      RunInv(cs, acts, k - 1);
      AbandonedStep(cs[k - 1], acts[k - 1], id);
    }
  }

  /** Step a resumes goroutine id. */
  predicate Resumes(c: Core, a: Action, id: nat) {
    || (a.CheckReturn? && a.id == id && id in c.tasks && c.tasks[id] == CheckTask(false))
    || (a.EvaluateReturn? && a.id == id)
    || (a.UpgradeCall? && a.id == id)
  }

  /** After a successful Cancel of job id, whatever happens in between and even
      while a newer job runs: when the cancelled goroutine resumes it changes
      nothing but ends, and it never starts kairos-agent. */
  lemma CancelledGoroutineIsInert(cs: seq<Core>, acts: seq<Action>, i: nat, k: nat, id: nat)
    requires IsRun(cs, acts) && i < k < |acts|
    requires acts[i].CancelCall? && Holds(cs[i].m, id) && CancelAnswer(cs[i].m).None?
    requires Resumes(cs[k], acts[k], id)
    ensures !acts[k].UpgradeCall?
    ensures cs[k + 1] == cs[k].(tasks := cs[k].tasks - {id})
  {
    hide Init, SlotsFit, Truthful, Marked, OneInstall, Delivery.Push, StatusOf, ParseRef, Evaluate, GateError,
         Newest, SourceOf, NewMem;
    RunInv(cs, acts, i);
    assert Enabled(cs[i], acts[i]) && cs[i + 1] == Next(cs[i], acts[i]);
    assert Abandoned(cs[i + 1], id);
    AbandonedRun(cs, acts, i + 1, k, id);
    assert Enabled(cs[k], acts[k]) && cs[k + 1] == Next(cs[k], acts[k]);
  }

  // ---------------------------------------------------------------------
  // Restarts
  // ---------------------------------------------------------------------

  /** Inspecting or applying implies the rebooting flag is off. */
  lemma NoInstallWhileRebooting(cs: seq<Core>, acts: seq<Action>, k: nat)
    requires IsRun(cs, acts) && k < |cs| && cs[k].up && cs[k].m.rebooting
    ensures !cs[k].m.state.Inspecting? && !cs[k].m.state.Applying?
    ensures forall id :: !Enabled(cs[k], UpgradeCall(id))
  {
    hide Next, Init, SlotsFit, Truthful, Marked;
    RunInv(cs, acts, k);
  }

  /** The flag against the calls it stands for: it is on only while a restart is
      outstanding, and it misses an outstanding one exactly when a call failed
      while another was outstanding and none was made since. */
  ghost predicate FlagFits(c: Core) {
    && (!c.up ==> c.outstanding == {} && !c.uncovered)
    && (c.up && c.m.rebooting ==> c.outstanding != {})
    && (c.up ==> (c.uncovered <==> c.outstanding != {} && !c.m.rebooting))
    && (forall id :: id in c.tasks && c.tasks[id].RestartTask? ==> id in c.outstanding)
    && (!c.up ==> c.tasks == map[])
  }

  lemma FlagInit(c: Core)
    requires Init(c)
    ensures FlagFits(c)
  {
  }

  lemma FlagStep(c: Core, a: Action)
    requires FlagFits(c) && Enabled(c, a)
    ensures FlagFits(Next(c, a))
  {
    if TouchesJob(a) {
      FlagStepJob(c, a);
    } else {
      FlagStepOther(c, a);
    }
  }

  lemma FlagStepJob(c: Core, a: Action)
    requires FlagFits(c) && Enabled(c, a) && TouchesJob(a)
    ensures FlagFits(Next(c, a))
  {
    JobsLeaveFlag(c, a);
    hide MarkerText, StatusOf, ParseRef, Evaluate, GateError, Newest, SourceOf, Exited, PendingDetail, StrictTag,
         MarkerWord, GateFiles, Decision, Gate, CheckBegin, CheckEnd, CheckEndFile, ApplyBegin, CancelJob,
         FinishFailed, FinishInstalled;
  }

  /** No job touches the flag. */
  lemma JobsLeaveFlag(c: Core, a: Action)
    requires Enabled(c, a) && TouchesJob(a)
    ensures Next(c, a).m.rebooting == c.m.rebooting
  {
    hide StatusOf, ParseRef, Evaluate, Exited, PendingDetail, StrictTag, MarkerText, GateFiles, CheckEndFile, Decision;
    match a
    case CheckReturn(id, published, amb, _) =>
      CheckLeavesFlag(c.m, id, c.tasks[id].pending, published, amb);
      hide CheckEnd;
    case EvaluateReturn(id, resolved, published, enabled, why, amb, markerFails, _) =>
      var pc := c.tasks[id].pc;
      GateLeavesFlag(c.m, id, pc.ref, pc.digest, Decision(c, pc, resolved, published, enabled, why), amb, markerFails);
      hide Gate;
    case _ => hide Gate, CheckEnd;
  }

  lemma CheckLeavesFlag(m: Mem, id: nat, pending: bool, listed: Result<seq<string>, string>, amb: Ambient)
    ensures CheckEnd(m, id, pending, listed, amb).rebooting == m.rebooting
  {
    hide StatusOf, Newest, Newer;
  }

  lemma GateLeavesFlag(m: Mem, id: nat, ref: string, digest: string, ev: Result<Evaluation, string>, amb: Ambient,
                       fails: bool)
    ensures Gate(m, id, ref, digest, ev, amb, fails).rebooting == m.rebooting
  {
    hide StatusOf, GateError, Newest;
  }

  lemma FlagStepOther(c: Core, a: Action)
    requires FlagFits(c) && Enabled(c, a) && !TouchesJob(a)
    ensures FlagFits(Next(c, a))
  {
    hide MarkerText, Delivery.Push, StatusOf, ParseRef, Evaluate, GateError, Newest, SourceOf, Exited,
         Delivery.TakeBatch, Delivery.Advance, PendingDetail, StrictTag, MarkerWord, GateFiles, Decision;
  }

  lemma {:induction false} FlagRun(cs: seq<Core>, acts: seq<Action>, k: nat)
    requires IsRun(cs, acts) && k < |cs|
    ensures FlagFits(cs[k])
  {
    hide Enabled, Next, FlagFits;
    if k == 0 {
      FlagInit(cs[0]);
    } else {
      FlagRun(cs, acts, k - 1);
      FlagStep(cs[k - 1], acts[k - 1]);
    }
  }

  /** Every Reboot call finds the flag off, as RebootPrevious demands itself. */
  ghost predicate RebootsOneAtATime(cs: seq<Core>, acts: seq<Action>)
    requires |cs| == |acts| + 1
  {
    forall i :: 0 <= i < |acts| && acts[i].RebootCall? ==> !cs[i].m.rebooting
  }

  lemma OneRestartStep(c: Core, a: Action)
    requires FlagFits(c) && Enabled(c, a) && |c.outstanding| <= 1
    requires c.up && c.outstanding != {} ==> c.m.rebooting
    requires a.RebootCall? ==> !c.m.rebooting
    ensures |Next(c, a).outstanding| <= 1
    ensures Next(c, a).up && Next(c, a).outstanding != {} ==> Next(c, a).m.rebooting
  {
    hide MarkerText, Delivery.Push, StatusOf, ParseRef, Evaluate, GateError, Newest, SourceOf, Exited,
         Delivery.TakeBatch, Delivery.Advance, PendingDetail, StrictTag, MarkerWord;
    if a.RestartReturn? { OnlyOne(c.outstanding, a.id); }
  }

  lemma OnlyOne(ids: set<nat>, id: nat)
    requires |ids| <= 1 && id in ids
    ensures ids - {id} == {}
  {
    assert |ids - {id}| == 0;
  }

  /** If restarts are asked one at a time, the flag is on exactly while one is
      outstanding, so no install starts between a restart call and its failure. */
  lemma {:induction false} FlagCoversRestarts(cs: seq<Core>, acts: seq<Action>, k: nat)
    requires IsRun(cs, acts) && k < |cs| && RebootsOneAtATime(cs, acts)
    ensures |cs[k].outstanding| <= 1
    ensures cs[k].up ==> (cs[k].outstanding != {} <==> cs[k].m.rebooting)
    ensures cs[k].outstanding != {} ==> forall id :: !Enabled(cs[k], UpgradeCall(id))
  {
    hide Next, Inv;
    FlagRun(cs, acts, k);
    if k > 0 {
      FlagCoversRestarts(cs, acts, k - 1);
      FlagRun(cs, acts, k - 1);
      OneRestartStep(cs[k - 1], acts[k - 1]);
    }
    if cs[k].up && cs[k].m.rebooting {
      NoInstallWhileRebooting(cs, acts, k);
    }
  }

  /** Two restart calls at once break that: Reboot does not look at the flag, so
      the call that fails clears it for the other, and the daemon answers an
      Apply as if no restart had been asked. */
  lemma TwoRestartsUncover(c: Core, ref: string, digest: string)
    requires Inv(c) && FlagFits(c) && c.up && c.m.state.Idle? && !c.m.rebooting && c.outstanding == {}
    ensures var c1 := DoRestartCall(c, RebootAnswer(c.m));
            var c2 := DoRestartCall(c1, RebootAnswer(c1.m));
            var c3 := DoRestartReturn(c2, c.nextId, false);
            && c3.outstanding == {c.nextId + 1} && c3.uncovered && !c3.m.rebooting
            && ApplyAnswer(c3.m, ref, digest) == ApplyAnswer(c.m, ref, digest)
  {
    hide Inv, ParseRef, IsDigest;
  }

  /** Once kairos-agent ran in this boot, RebootPrevious lets a caller through
      to the backend exactly when the daemon is unmanaged (such a daemon never
      looks at the marker) and no restart was asked. */
  lemma PreviousAfterUpgrade(cs: seq<Core>, acts: seq<Action>, k: nat)
    requires IsRun(cs, acts) && k < |cs| && cs[k].up && cs[k].installs != []
    ensures PreviousAnswer(cs[k].m).None? <==> !cs[k].m.managed && !cs[k].m.rebooting
  {
    hide Enabled, Next, Init, SlotsFit, Truthful, OneInstall;
    RunInv(cs, acts, k);
  }
}
