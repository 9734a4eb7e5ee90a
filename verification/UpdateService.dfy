/** update/dbus.go: the bus service around the daemon. It counts the calls in
    progress, admits one network-bound call at a time, and decides to exit when
    nothing happens. The daemon's methods run only inside a counted call; its
    goroutines and the environment interleave with everything. */
module UpdateService {
  import opened Wrappers
  import Delivery
  import Policy
  import opened UpdateDaemon
  import opened UpdateProtocol

  datatype Kind = Status | Check | Releases | Inspect | Apply | Cancel | Reboot | Previous

  /** Where a bus call stands: counted, holding the network slot, inside a
      daemon method that waits for goroutine task, or on its way out. */
  datatype CallPc = Entered | HasSlot | InDaemon(task: nat) | FreeingSlot | Leaving

  datatype Call = Call(kind: Kind, pc: CallPc)

  /** How far tryClose has come; from Quiet on it holds the service lock. */
  datatype Closer = Unlocked | Quiet | Decided

  datatype Sys = Sys(
    core: Core,
    calls: map<nat, Call>,
    nextCall: nat,
    active: nat,
    last: nat,
    closing: bool,
    netSlot: bool,
    closer: Closer,
    now: nat)

  datatype Event =
    | Daemon(a: Action)                // a goroutine or the environment
    | Enter(kind: Kind)
    | TakeSlot(k: nat)
    | TurnAway(k: nat)                 // not authorized, or a reference too long
    | Invoke(k: nat, a: Action)
    | Return(k: nat, a: Action)
    | Query(k: nat)                    // Status, Releases, Inspect
    | FreeSlot(k: nat)
    | Done(k: nat)
    | Touch                            // a daemon event reached the bus
    | Wait(time: nat)
    | CloseLock(quiet: nat)
    | CloseAsk
    | CloseSet

  predicate Networked(kind: Kind) {
    kind.Check? || kind.Releases? || kind.Inspect?
  }

  predicate HoldsSlot(c: Call) {
    c.pc.HasSlot? || c.pc.FreeingSlot? || (c.pc.InDaemon? && Networked(c.kind))
  }

  /** The daemon method a call of a kind runs. */
  predicate Runs(kind: Kind, a: Action) {
    match kind
    case Check => a.CheckCall?
    case Apply => a.ApplyCall?
    case Cancel => a.CancelCall?
    case Reboot => a.RebootCall?
    case Previous => a.PreviousCall?
    case _ => false
  }

  predicate EndsTask(a: Action, id: nat) {
    (a.CheckReturn? || a.RestartReturn?) && a.id == id
  }

  /** Steps that no bus call makes. */
  predicate OutsideCalls(a: Action) {
    && !a.CheckCall? && !a.ApplyCall? && !a.CancelCall? && !a.RebootCall? && !a.PreviousCall?
    && !a.CheckReturn? && !a.RestartReturn?
  }

  predicate At(s: Sys, k: nat, pc: CallPc) {
    s.core.up && k in s.calls && s.calls[k].pc == pc
  }

  function Out(kind: Kind): CallPc {
    if Networked(kind) then FreeingSlot else Leaving
  }

  predicate Can(s: Sys, e: Event) {
    match e
    case Daemon(a) => OutsideCalls(a) && Enabled(s.core, a)
    case Enter(_) => s.core.up && s.closer.Unlocked?
    case TakeSlot(k) => At(s, k, Entered) && Networked(s.calls[k].kind)
    case TurnAway(k) => At(s, k, Entered) && !s.calls[k].kind.Status?
    case Invoke(k, a) =>
      && s.core.up && k in s.calls
      && s.calls[k].pc == (if s.calls[k].kind.Check? then HasSlot else Entered)
      && Runs(s.calls[k].kind, a) && Enabled(s.core, a)
    case Return(k, a) =>
      && s.core.up && k in s.calls && s.calls[k].pc.InDaemon?
      && EndsTask(a, s.calls[k].pc.task) && Enabled(s.core, a)
    case Query(k) =>
      || (At(s, k, Entered) && s.calls[k].kind.Status?)
      || (At(s, k, HasSlot) && Networked(s.calls[k].kind) && !s.calls[k].kind.Check?)
    case FreeSlot(k) => At(s, k, FreeingSlot)
    case Done(k) => At(s, k, Leaving) && s.closer.Unlocked? && s.active > 0
    case Touch => s.core.up && s.closer.Unlocked?
    case Wait(_) => true
    case CloseLock(_) => s.core.up && s.closer.Unlocked?
    case CloseAsk => s.core.up && s.closer.Quiet?
    case CloseSet => s.core.up && s.closer.Decided?
  }

  function Move(s: Sys, k: nat, pc: CallPc): Sys
    requires k in s.calls
  {
    s.(calls := s.calls[k := s.calls[k].(pc := pc)])
  }

  /** A fresh process, or none: no calls, nothing decided. */
  function NewProcess(s: Sys): Sys {
    s.(calls := map[], active := 0, last := s.now, closing := false, netSlot := false, closer := Unlocked)
  }

  function After(s: Sys, e: Event): Sys
    requires Can(s, e)
  {
    match e
    case Daemon(a) =>
      var t := s.(core := Next(s.core, a));
      if a.Start? || a.Crash? || a.Boot? then NewProcess(t) else t
    case Enter(kind) =>
      if s.closing then s
      else s.(active := s.active + 1, calls := s.calls[s.nextCall := Call(kind, Entered)], nextCall := s.nextCall + 1)
    case TakeSlot(k) =>
      if s.netSlot then Move(s, k, Leaving) else Move(s, k, HasSlot).(netSlot := true)
    case TurnAway(k) => Move(s, k, Leaving)
    case Invoke(k, a) =>
      var waits := Next(s.core, a).nextId > s.core.nextId && !a.ApplyCall?;
      Move(s, k, if waits then InDaemon(s.core.nextId) else Out(s.calls[k].kind)).(core := Next(s.core, a))
    case Return(k, a) => Move(s, k, Out(s.calls[k].kind)).(core := Next(s.core, a))
    case Query(k) => Move(s, k, Out(s.calls[k].kind))
    case FreeSlot(k) => Move(s, k, Leaving).(netSlot := false)
    case Done(k) =>
      s.(calls := s.calls - {k}, active := s.active - 1, last := if s.calls[k].kind.Status? then s.last else s.now)
    case Touch => s.(last := s.now)
    case Wait(time) => s.(now := s.now + time)
    case CloseLock(quiet) => if s.active > 0 || s.now < s.last + quiet then s else s.(closer := Quiet)
    case CloseAsk => s.(closer := if Working(s.core.m) then Unlocked else Decided)
    case CloseSet => s.(closing := true, closer := Unlocked)
  }

  predicate SysInit(s: Sys) {
    Init(s.core) && s == NewProcess(s) && s.nextCall == 0
  }

  // ---------------------------------------------------------------------
  // The invariant
  // ---------------------------------------------------------------------

  ghost predicate Counted(s: Sys) {
    && s.active == |s.calls|
    && (forall k :: k in s.calls ==> k < s.nextCall)
    && (!s.core.up ==> s.calls == map[] && !s.closing && s.closer.Unlocked?)
  }

  /** The network slot is taken exactly while one call holds it. */
  ghost predicate OneInNetwork(s: Sys) {
    && (s.netSlot <==> exists k :: k in s.calls && HoldsSlot(s.calls[k]))
    && (forall k, l :: k in s.calls && l in s.calls && HoldsSlot(s.calls[k]) && HoldsSlot(s.calls[l]) ==> k == l)
  }

  /** Goroutines of Check, Reboot and RebootPrevious belong to a call. */
  ghost predicate TasksOwned(s: Sys) {
    forall id :: id in s.core.tasks && !s.core.tasks[id].RunTask? ==>
      exists k :: k in s.calls && s.calls[k].pc == InDaemon(id)
  }

  /** What tryClose has seen stays so while it decides and afterwards. */
  ghost predicate QuietHolds(s: Sys) {
    && (s.closing || !s.closer.Unlocked? ==> s.calls == map[])
    && (s.closing || s.closer.Decided? ==> s.core.m.job.None?)
  }

  ghost predicate SysInv(s: Sys) {
    UpdateProtocol.Inv(s.core) && Counted(s) && OneInNetwork(s) && TasksOwned(s) && QuietHolds(s)
  }

  /** The daemon step behind an event, if it makes one. */
  function CoreStep(e: Event): Option<Action> {
    match e
    case Daemon(a) => Some(a)
    case Invoke(_, a) => Some(a)
    case Return(_, a) => Some(a)
    case _ => None
  }

  /** Every run of the service is a run of the daemon protocol: an event makes
      at most one step of it. */
  lemma Projects(s: Sys, e: Event)
    requires Can(s, e)
    ensures match CoreStep(e)
            case Some(a) => Enabled(s.core, a) && After(s, e).core == Next(s.core, a)
            case None => After(s, e).core == s.core
  {
    hide Next, Enabled;
  }

  /** Only Check and Apply set a job. */
  lemma NoJobFromOutside(c: Core, a: Action)
    requires Enabled(c, a) && !a.CheckCall? && !a.ApplyCall? && !a.Start? && c.m.job.None?
    ensures Next(c, a).m.job.None?
  {
    hide MarkerText, Delivery.Push, StatusOf, Policy.Evaluate, GateError, SourceOf, Exited, Delivery.TakeBatch,
         Delivery.Advance, PendingDetail, MarkerWord;
  }

  /** New tasks are those of the calls, tasks end only by their own step, and
      no other step brings a Check or restart task. */
  lemma TasksOfStep(c: Core, a: Action, id: nat)
    requires Enabled(c, a) && id in Next(c, a).tasks && !Next(c, a).tasks[id].RunTask?
    ensures (id in c.tasks && !c.tasks[id].RunTask?)
            || (id == c.nextId < Next(c, a).nextId && (a.CheckCall? || a.RebootCall? || a.PreviousCall?))
    ensures !EndsTask(a, id) && !a.Start? && !a.Crash? && !a.Boot?
  {
    hide MarkerText, Delivery.Push, StatusOf, Policy.Evaluate, GateError, SourceOf, Exited, Delivery.TakeBatch,
         Delivery.Advance, PendingDetail, MarkerWord, NewMem;
  }

  lemma MapSizes<V>(m: map<nat, V>, k: nat, v: V)
    ensures k in m ==> |m[k := v]| == |m| && |m - {k}| == |m| - 1
    ensures k !in m ==> |m[k := v]| == |m| + 1
  {
    assert m[k := v].Keys == m.Keys + {k};
    assert (m - {k}).Keys == m.Keys - {k};
    assert |m[k := v].Keys| == |m[k := v]| && |(m - {k}).Keys| == |m - {k}| && |m.Keys| == |m|;
  }

  ghost predicate Tally(s: Sys) {
    s.active == |s.calls| && forall k :: k in s.calls ==> k < s.nextCall
  }

  lemma MoveTally(s: Sys, k: nat, pc: CallPc)
    requires Tally(s) && k in s.calls
    ensures Tally(Move(s, k, pc))
  {
    MapSizes(s.calls, k, s.calls[k].(pc := pc));
  }

  lemma EnterAndDoneTally(s: Sys, k: nat, kind: Kind)
    requires Tally(s)
    ensures Tally(s.(active := s.active + 1, calls := s.calls[s.nextCall := Call(kind, Entered)],
                     nextCall := s.nextCall + 1))
    ensures k in s.calls ==> s.active > 0 && Tally(s.(active := s.active - 1, calls := s.calls - {k}))
  {
    MapSizes(s.calls, s.nextCall, Call(kind, Entered));
    MapSizes(s.calls, k, Call(kind, Entered));
  }

  /** Tally looks at the calls, their count and the next number only. */
  lemma SameTally(s: Sys, t: Sys)
    requires Tally(s) && t.calls == s.calls && t.active == s.active && t.nextCall == s.nextCall
    ensures Tally(t)
  {
  }

  lemma NewProcessTally(s: Sys)
    ensures Tally(NewProcess(s))
  {
  }

  lemma TallyStep(s: Sys, e: Event)
    requires Tally(s) && Can(s, e)
    ensures Tally(After(s, e))
  {
    hide Next, Enabled, Working, Networked, Out, Runs, EndsTask, OutsideCalls, Tally;
    match e
    case Daemon(a) =>
      NewProcessTally(s.(core := Next(s.core, a)));
      SameTally(s, s.(core := Next(s.core, a)));
    case Enter(kind) => EnterAndDoneTally(s, 0, kind);
    case TakeSlot(k) =>
      MoveTally(s, k, After(s, e).calls[k].pc);
      SameTally(Move(s, k, After(s, e).calls[k].pc), After(s, e));
    case TurnAway(k) => MoveTally(s, k, Leaving);
    case Invoke(k, _) =>
      MoveTally(s, k, After(s, e).calls[k].pc);
      SameTally(Move(s, k, After(s, e).calls[k].pc), After(s, e));
    case Return(k, _) =>
      MoveTally(s, k, Out(s.calls[k].kind));
      SameTally(Move(s, k, Out(s.calls[k].kind)), After(s, e));
    case Query(k) => MoveTally(s, k, Out(s.calls[k].kind));
    case FreeSlot(k) =>
      MoveTally(s, k, Leaving);
      SameTally(Move(s, k, Leaving), After(s, e));
    case Done(k) =>
      EnterAndDoneTally(s, k, Kind.Status);
      SameTally(s.(active := s.active - 1, calls := s.calls - {k}), After(s, e));
    case _ => SameTally(s, After(s, e));
  }

  lemma CountedStep(s: Sys, e: Event)
    requires SysInv(s) && Can(s, e)
    ensures Counted(After(s, e))
  {
    hide UpdateProtocol.Inv, OneInNetwork, TasksOwned, QuietHolds, Next, Enabled, Working, Networked, Out;
    UpStep(s, e);
    TallyStep(s, e);
  }

  /** Only a start brings a process up, and only a crash or boot ends it. */
  lemma UpStep(s: Sys, e: Event)
    requires Can(s, e)
    ensures match CoreStep(e)
            case Some(a) => After(s, e).core.up == (a.Start? || (s.core.up && !a.Crash? && !a.Boot?))
            case None => After(s, e).core.up == s.core.up
  {
    hide MarkerText, Delivery.Push, StatusOf, Policy.Evaluate, GateError, SourceOf, Exited, CheckBegin, CheckEnd,
         Delivery.TakeBatch, Delivery.Advance, PendingDetail, MarkerWord, NewMem, ApplyBegin, Gate, CancelJob;
  }

  lemma MoveKeepsSlot(s: Sys, k: nat, pc: CallPc)
    requires OneInNetwork(s) && k in s.calls
    requires HoldsSlot(s.calls[k].(pc := pc)) <==> HoldsSlot(s.calls[k])
    ensures OneInNetwork(Move(s, k, pc))
  {
    var t := Move(s, k, pc);
    if s.netSlot {
      var h :| h in s.calls && HoldsSlot(s.calls[h]);
      assert h in t.calls && HoldsSlot(t.calls[h]);
    }
  }

  lemma MoveTakesSlot(s: Sys, k: nat)
    requires OneInNetwork(s) && k in s.calls && !s.netSlot
    ensures OneInNetwork(Move(s, k, HasSlot).(netSlot := true))
  {
    assert HoldsSlot(Move(s, k, HasSlot).calls[k]);
  }

  lemma MoveFreesSlot(s: Sys, k: nat)
    requires OneInNetwork(s) && k in s.calls && HoldsSlot(s.calls[k])
    ensures OneInNetwork(Move(s, k, Leaving).(netSlot := false))
  {
  }

  lemma EnterAndDoneKeepSlot(s: Sys, k: nat, kind: Kind)
    requires OneInNetwork(s)
    ensures s.nextCall !in s.calls ==> OneInNetwork(s.(calls := s.calls[s.nextCall := Call(kind, Entered)]))
    ensures k in s.calls && !HoldsSlot(s.calls[k]) ==> OneInNetwork(s.(calls := s.calls - {k}))
  {
    if s.netSlot {
      var h :| h in s.calls && HoldsSlot(s.calls[h]);
      assert h in (s.calls - {k}) || h == k;
      assert h != s.nextCall ==> s.calls[s.nextCall := Call(kind, Entered)][h] == s.calls[h];
    }
  }

  /** OneInNetwork looks at the calls and the slot only. */
  lemma SameCallsSameSlot(s: Sys, t: Sys)
    requires OneInNetwork(s) && t.calls == s.calls && t.netSlot == s.netSlot
    ensures OneInNetwork(t)
  {
  }

  lemma OneInNetworkStep(s: Sys, e: Event)
    requires SysInv(s) && Can(s, e)
    ensures OneInNetwork(After(s, e))
  {
    hide UpdateProtocol.Inv, TasksOwned, Next, Enabled, Working, QuietHolds, OneInNetwork;
    match e
    case Daemon(a) =>
      if a.Start? || a.Crash? || a.Boot? {
        NewProcessSlot(s.(core := Next(s.core, a)));
      } else {
        SameCallsSameSlot(s, After(s, e));
      }
    case Enter(kind) =>
      EnterAndDoneKeepSlot(s, 0, kind);
      if !s.closing { SameCallsSameSlot(s.(calls := s.calls[s.nextCall := Call(kind, Entered)]), After(s, e)); }
    case TakeSlot(k) => if s.netSlot { MoveKeepsSlot(s, k, Leaving); } else { MoveTakesSlot(s, k); }
    case TurnAway(k) => MoveKeepsSlot(s, k, Leaving);
    case Invoke(k, a) =>
      MoveKeepsSlot(s, k, After(s, e).calls[k].pc);
      SameCallsSameSlot(Move(s, k, After(s, e).calls[k].pc), After(s, e));
    case Return(k, a) =>
      MoveKeepsSlot(s, k, Out(s.calls[k].kind));
      SameCallsSameSlot(Move(s, k, Out(s.calls[k].kind)), After(s, e));
    case Query(k) => MoveKeepsSlot(s, k, Out(s.calls[k].kind));
    case FreeSlot(k) => MoveFreesSlot(s, k);
    case Done(k) =>
      EnterAndDoneKeepSlot(s, k, Kind.Status);
      SameCallsSameSlot(s.(calls := s.calls - {k}), After(s, e));
    case _ => SameCallsSameSlot(s, After(s, e));
  }

  lemma NewProcessSlot(s: Sys)
    ensures OneInNetwork(NewProcess(s))
  {
  }

  /** Every task of a call that is still there belongs to a call still waiting. */
  lemma TasksOwnedStep(s: Sys, e: Event)
    requires SysInv(s) && Can(s, e)
    ensures TasksOwned(After(s, e))
  {
    hide UpdateProtocol.Inv, OneInNetwork, Next, Enabled, Working, QuietHolds;
    var t := After(s, e);
    Projects(s, e);
    forall id | id in t.core.tasks && !t.core.tasks[id].RunTask?
      ensures exists k :: k in t.calls && t.calls[k].pc == InDaemon(id)
    {
      if CoreStep(e).Some? { TasksOfStep(s.core, CoreStep(e).value, id); }
      if id in s.core.tasks && !s.core.tasks[id].RunTask? {
        var k :| k in s.calls && s.calls[k].pc == InDaemon(id);
        assert k in t.calls && t.calls[k].pc == InDaemon(id);
      } else {
        assert t.calls[e.k].pc == InDaemon(id);
      }
    }
  }

  lemma QuietHoldsStep(s: Sys, e: Event)
    requires SysInv(s) && Can(s, e)
    ensures QuietHolds(After(s, e))
  {
    hide UpdateProtocol.Inv, OneInNetwork, Next, Enabled, TasksOwned;
    Projects(s, e);
    if CoreStep(e).Some? && (s.closing || s.closer.Decided?) && !CoreStep(e).value.Start? {
      NoJobFromOutside(s.core, CoreStep(e).value);
    }
  }

  lemma SysStep(s: Sys, e: Event)
    requires SysInv(s) && Can(s, e)
    ensures SysInv(After(s, e))
  {
    hide UpdateProtocol.Inv, OneInNetwork, Next, Enabled, TasksOwned, QuietHolds, Counted, Can, After;
    CountedStep(s, e);
    OneInNetworkStep(s, e);
    TasksOwnedStep(s, e);
    QuietHoldsStep(s, e);
    Projects(s, e);
    if CoreStep(e).Some? { StepInv(s.core, CoreStep(e).value); }
  }

  // ---------------------------------------------------------------------
  // Runs of the service
  // ---------------------------------------------------------------------

  ghost predicate IsServiceRun(ss: seq<Sys>, es: seq<Event>) {
    && |ss| == |es| + 1
    && SysInit(ss[0])
    && forall i :: 0 <= i < |es| ==> Can(ss[i], es[i]) && ss[i + 1] == After(ss[i], es[i])
  }

  lemma {:induction false} ServiceInv(ss: seq<Sys>, es: seq<Event>, k: nat)
    requires IsServiceRun(ss, es) && k < |ss|
    ensures SysInv(ss[k])
  {
    hide Can, After;
    if k == 0 {
      InitInv(ss[0].core);
    } else {
      hide SysInv;
      ServiceInv(ss, es, k - 1);
      SysStep(ss[k - 1], es[k - 1]);
    }
  }

  /** The process that ran at step i still runs at step k. */
  ghost predicate SameProcess(es: seq<Event>, i: nat, k: nat) {
    i <= k <= |es| && forall j :: i <= j < k ==> !(es[j].Daemon? && (es[j].a.Crash? || es[j].a.Boot?))
  }

  lemma ClosingStep(s: Sys, e: Event)
    requires SysInv(s) && Can(s, e) && s.closing && !(e.Daemon? && (e.a.Crash? || e.a.Boot?))
    ensures After(s, e).closing
  {
    hide UpdateProtocol.Inv, OneInNetwork, Next, TasksOwned;
  }

  /** Once tryClose has decided to exit, for as long as the process lives: no
      call is in progress and none gets in, and no job runs or starts. */
  lemma {:induction false} NothingRunsAfterClosing(ss: seq<Sys>, es: seq<Event>, i: nat, k: nat)
    requires IsServiceRun(ss, es) && SameProcess(es, i, k) && ss[i].closing
    ensures ss[k].closing && ss[k].core.up
    ensures ss[k].calls == map[] && ss[k].active == 0
    ensures ss[k].core.m.job.None? && !Working(ss[k].core.m)
    ensures forall id :: id in ss[k].core.tasks ==> ss[k].core.tasks[id].RunTask? && ss[k].core.tasks[id].pc.Evaluating?
    decreases k
  {
    hide Can, After, OneInNetwork, Marked, OneInstall, SlotsFit, Truthful;
    ServiceInv(ss, es, k);
    if i < k {
      NothingRunsAfterClosing(ss, es, i, k - 1);
      ServiceInv(ss, es, k - 1);
      ClosingStep(ss[k - 1], es[k - 1]);
    }
  }

  /** What is left of a closing process cannot harm its successor: every step
      its goroutines still make leaves the run directory, the pin, the slots and
      the daemon's own memory, but for the event queue, alone. */
  lemma ClosingProcessIsInert(ss: seq<Sys>, es: seq<Event>, k: nat)
    requires IsServiceRun(ss, es) && k < |es| && ss[k].closing
    requires es[k].Daemon?
    requires !es[k].a.Crash? && !es[k].a.Boot? && !es[k].a.AgentMove? && !es[k].a.AgentSwap? && !es[k].a.AgentExit?
    ensures var (c, n) := (ss[k].core, ss[k + 1].core);
            n.run == c.run && n.pin == c.pin && n.slots == c.slots && n.installs == c.installs
            && n.m == c.m.(q := n.m.q)
  {
    hide SysInv, MarkerText, Delivery.Push, StatusOf, Policy.Evaluate, GateError, SourceOf, Exited,
         Delivery.TakeBatch, Delivery.Advance, PendingDetail, MarkerWord, NewMem;
    NothingRunsAfterClosing(ss, es, k, k);
    assert Can(ss[k], es[k]) && ss[k + 1] == After(ss[k], es[k]);
  }

  /** At most one network-bound call is admitted at a time, and the counter is
      the number of calls in progress. */
  lemma OneNetworkCall(ss: seq<Sys>, es: seq<Event>, k: nat, a: nat, b: nat)
    requires IsServiceRun(ss, es) && k < |ss|
    requires a in ss[k].calls && b in ss[k].calls && HoldsSlot(ss[k].calls[a]) && HoldsSlot(ss[k].calls[b])
    ensures a == b && ss[k].netSlot
    ensures ss[k].active == |ss[k].calls|
  {
    hide Can, After, UpdateProtocol.Inv;
    ServiceInv(ss, es, k);
  }
}
