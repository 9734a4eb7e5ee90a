/** agent/internal/session/service.go: the pause, generation and slot protocol
    of the session broker. Class Broker holds the fields under the mutex; the
    state machine after it interleaves the calls that pass through guard. */
module SessionBroker {
  import opened Wrappers

  // ---------------------------------------------------------------------
  // The fields under the mutex
  // ---------------------------------------------------------------------

  /** Generations are numbered as they are made; gen is the current one. The
      base context every generation derives from is cancelled by Close. */
  datatype Control = Control(paused: bool, closed: bool, gen: nat, cancelled: set<nat>, baseDone: bool)

  const FRESH := Control(false, false, 0, {}, false)

  /** Whether the context of generation g is done. */
  predicate Done(c: Control, g: nat) {
    g in c.cancelled || c.baseDone
  }

  datatype Gate = Live(gen: nat) | GatePaused | GateClosed

  function EnterGate(c: Control): Gate {
    if c.closed then GateClosed else if c.paused then GatePaused else Live(c.gen)
  }

  function PauseAll(c: Control): Control {
    if c.closed || c.paused then c else c.(paused := true, cancelled := c.cancelled + {c.gen})
  }

  function ResumeAll(c: Control): Control {
    if c.closed || !c.paused then c else c.(paused := false, gen := c.gen + 1)
  }

  function CloseAll(c: Control): Control {
    if c.closed then c else c.(closed := true, cancelled := c.cancelled + {c.gen}, baseDone := true)
  }

  class Broker {
    var paused: bool
    var closed: bool
    var gen: nat
    var cancelled: set<nat>
    var baseDone: bool

    ghost function View(): Control
      reads this
    {
      Control(paused, closed, gen, cancelled, baseDone)
    }

    constructor ()
      ensures View() == FRESH
    {
      paused, closed, gen, cancelled, baseDone := false, false, 0, {}, false;
    }

    method Enter() returns (g: Gate)
      ensures g == EnterGate(View())
    {
      if closed { return GateClosed; }
      if paused { return GatePaused; }
      return Live(gen);
    }

    method Pause()
      modifies this
      ensures View() == PauseAll(old(View()))
    {
      if closed || paused { return; }
      paused := true;
      cancelled := cancelled + {gen};
    }

    method Resume()
      modifies this
      ensures View() == ResumeAll(old(View()))
    {
      if closed || !paused { return; }
      paused := false;
      gen := gen + 1;
    }

    method Close()
      modifies this
      ensures View() == CloseAll(old(View()))
    {
      if closed { return; }
      closed := true;
      cancelled := cancelled + {gen};
      baseDone := true;
    }
  }

  // ---------------------------------------------------------------------
  // Calls
  // ---------------------------------------------------------------------

  datatype Code = Success | OutputTruncated | DeadlineExceeded | Internal | Paused | SessionUnavailable | OtherFailure

  datatype Meta = Meta(code: Code, identity: bool)

  const PAUSED := Meta(Paused, false)
  const CLOSED := Meta(SessionUnavailable, false)
  const QUEUE_CANCELLED := Meta(DeadlineExceeded, false)

  predicate Served(c: Code) { c.Success? || c.OutputTruncated? }

  /** What an executor answers when its context is cancelled mid-call. */
  predicate Interrupt(c: Code) { c.DeadlineExceeded? || c.Internal? }

  /** finish: a pause reads as a pause, a served result carries an identity. */
  function Finish(meta: Meta, genDone: bool, callerDone: bool): Meta {
    if genDone && !callerDone && Interrupt(meta.code) then PAUSED
    else if !meta.identity && Served(meta.code) then meta.(identity := true)
    else meta
  }

  /** Where a call stands in guard, with the generation it entered under: in the
      queue for a slot, with a slot but before the second look at its
      generation, about to run, or running under the merged context. */
  datatype Pc =
    | Queued(gen: nat)
    | Recheck(gen: nat)
    | Starting(gen: nat)
    | Running(gen: nat, merged: bool)
    | Answered(meta: Meta)

  datatype Call = Call(sem: bool, pc: Pc)

  datatype Session = Session(
    ctl: Control,
    limit: nat,                // capacity of the semaphore channel
    inUse: nat,                // its length
    calls: map<nat, Call>,
    nextCall: nat,
    callerDone: set<nat>)      // calls whose own context ended

  datatype Event =
    | PauseCall | ResumeCall | CloseCall
    | Arrive(sem: bool)
    | CallerEnds(k: nat)
    | TakeSlot(k: nat)
    | LeaveQueueCaller(k: nat)
    | LeaveQueueGen(k: nat)
    | LookAgain(k: nat)
    | Begin(k: nat)
    | Merge(k: nat)            // the merged context sees its generation end
    | Return(k: nat, meta: Meta)

  predicate GenDone(s: Session, pc: Pc)
    requires !pc.Answered?
  {
    Done(s.ctl, pc.gen)
  }

  predicate Can(s: Session, e: Event) {
    match e
    case PauseCall => true
    case ResumeCall => true
    case CloseCall => true
    case Arrive(_) => true
    case CallerEnds(k) => k in s.calls
    case TakeSlot(k) => k in s.calls && s.calls[k].pc.Queued? && s.inUse < s.limit
    case LeaveQueueCaller(k) => k in s.calls && s.calls[k].pc.Queued? && k in s.callerDone
    case LeaveQueueGen(k) => k in s.calls && s.calls[k].pc.Queued? && GenDone(s, s.calls[k].pc)
    case LookAgain(k) => k in s.calls && s.calls[k].pc.Recheck? && s.inUse > 0
    case Begin(k) => k in s.calls && s.calls[k].pc.Starting?
    case Merge(k) => k in s.calls && s.calls[k].pc.Running? && GenDone(s, s.calls[k].pc)
    case Return(k, _) => k in s.calls && s.calls[k].pc.Running? && (s.calls[k].sem ==> s.inUse > 0)
  }

  function SetPc(s: Session, k: nat, pc: Pc): Session
    requires k in s.calls
  {
    s.(calls := s.calls[k := s.calls[k].(pc := pc)])
  }

  function After(s: Session, e: Event): Session
    requires Can(s, e)
  {
    match e
    case PauseCall => s.(ctl := PauseAll(s.ctl))
    case ResumeCall => s.(ctl := ResumeAll(s.ctl))
    case CloseCall => s.(ctl := CloseAll(s.ctl))
    case Arrive(sem) =>
      var pc := match EnterGate(s.ctl)
                case GateClosed => Answered(CLOSED)
                case GatePaused => Answered(PAUSED)
                case Live(g) => if sem then Queued(g) else Starting(g);
      s.(calls := s.calls[s.nextCall := Call(sem, pc)], nextCall := s.nextCall + 1)
    case CallerEnds(k) => s.(callerDone := s.callerDone + {k})
    case TakeSlot(k) => SetPc(s, k, Recheck(s.calls[k].pc.gen)).(inUse := s.inUse + 1)
    case LeaveQueueCaller(k) => SetPc(s, k, Answered(QUEUE_CANCELLED))
    case LeaveQueueGen(k) => SetPc(s, k, Answered(PAUSED))
    case LookAgain(k) =>
      if GenDone(s, s.calls[k].pc) then SetPc(s, k, Answered(PAUSED)).(inUse := s.inUse - 1)
      else SetPc(s, k, Starting(s.calls[k].pc.gen))
    case Begin(k) => SetPc(s, k, Running(s.calls[k].pc.gen, false))
    case Merge(k) => SetPc(s, k, s.calls[k].pc.(merged := true))
    case Return(k, meta) =>
      SetPc(s, k, Answered(Finish(meta, GenDone(s, s.calls[k].pc), k in s.callerDone)))
      .(inUse := if s.calls[k].sem then s.inUse - 1 else s.inUse)
  }

  predicate Init(s: Session) {
    s.ctl == FRESH && s.inUse == 0 && s.calls == map[] && s.nextCall == 0 && s.callerDone == {}
  }

  // ---------------------------------------------------------------------
  // The invariant
  // ---------------------------------------------------------------------

  /** Superseded generations are done; the current one exactly when paused or
      closed; and no later one exists yet. */
  ghost predicate GensOk(c: Control) {
    && (forall g :: 0 <= g < c.gen ==> g in c.cancelled)
    && (forall g :: g in c.cancelled ==> g <= c.gen)
    && (c.gen in c.cancelled <==> c.paused || c.closed)
    && (c.baseDone <==> c.closed)
  }

  ghost predicate CallOk(s: Session, c: Call) {
    && (!c.pc.Answered? ==> c.pc.gen <= s.ctl.gen)
    && (c.pc.Queued? || c.pc.Recheck? ==> c.sem)
    && (c.pc.Running? && c.pc.merged ==> GenDone(s, c.pc))
    && (c.pc.Answered? && Served(c.pc.meta.code) ==> c.pc.meta.identity)
  }

  predicate HoldsSlot(c: Call) {
    c.sem && (c.pc.Recheck? || c.pc.Starting? || c.pc.Running?)
  }

  function Holders(calls: map<nat, Call>): set<nat> {
    set k | k in calls && HoldsSlot(calls[k])
  }

  ghost predicate SlotsOk(s: Session) {
    s.inUse == |Holders(s.calls)| <= s.limit
  }

  ghost predicate Inv(s: Session) {
    && GensOk(s.ctl)
    && (forall k :: k in s.calls ==> k < s.nextCall && CallOk(s, s.calls[k]))
    && SlotsOk(s)
  }

  lemma SlotCounted(calls: map<nat, Call>, k: nat, c: Call)
    ensures var (was, now) := (k in calls && HoldsSlot(calls[k]), HoldsSlot(c));
            |Holders(calls[k := c])|
            == |Holders(calls)| + (if now && !was then 1 else 0) - (if was && !now then 1 else 0)
  {
    var before, after := Holders(calls), Holders(calls[k := c]);
    if HoldsSlot(c) {
      assert after == before + {k};
    } else {
      assert after == before - {k};
    }
  }

  lemma ControlStep(s: Session, e: Event)
    requires Inv(s) && (e.PauseCall? || e.ResumeCall? || e.CloseCall?)
    ensures Inv(After(s, e))
  {
    hide Holders, Served;
  }

  lemma CallStep(s: Session, e: Event)
    requires Inv(s) && Can(s, e) && !e.PauseCall? && !e.ResumeCall? && !e.CloseCall?
    ensures Inv(After(s, e))
  {
    hide Holders, GensOk;
    var t := After(s, e);
    if e.Arrive? {
      SlotCounted(s.calls, s.nextCall, t.calls[s.nextCall]);
    } else if !e.CallerEnds? {
      SlotCounted(s.calls, e.k, t.calls[e.k]);
    }
  }

  // ---------------------------------------------------------------------
  // Runs
  // ---------------------------------------------------------------------

  ghost predicate IsRun(ss: seq<Session>, es: seq<Event>) {
    && |ss| == |es| + 1
    && Init(ss[0])
    && forall i :: 0 <= i < |es| ==> Can(ss[i], es[i]) && ss[i + 1] == After(ss[i], es[i])
  }

  lemma {:induction false} RunInv(ss: seq<Session>, es: seq<Event>, k: nat)
    requires IsRun(ss, es) && k < |ss|
    ensures Inv(ss[k])
  {
    hide Can, After;
    if k == 0 {
      assert Holders(ss[0].calls) == {};
    } else {
      hide Inv;
      RunInv(ss, es, k - 1);
      if es[k - 1].PauseCall? || es[k - 1].ResumeCall? || es[k - 1].CloseCall? {
        ControlStep(ss[k - 1], es[k - 1]);
      } else {
        CallStep(ss[k - 1], es[k - 1]);
      }
    }
  }

  /** In every interleaving all superseded generations are cancelled, and the
      current one exactly when the broker is paused or closed. */
  lemma GenerationsCancelled(ss: seq<Session>, es: seq<Event>, k: nat, g: nat)
    requires IsRun(ss, es) && k < |ss|
    ensures g < ss[k].ctl.gen ==> Done(ss[k].ctl, g)
    ensures Done(ss[k].ctl, ss[k].ctl.gen) <==> ss[k].ctl.paused || ss[k].ctl.closed
  {
    hide Can, After, SlotsOk;
    RunInv(ss, es, k);
  }

  /** While paused or closed every call past the gate carries a cancelled
      generation, and a second look at it turns the call away. */
  lemma PausedMeansCancelled(ss: seq<Session>, es: seq<Event>, k: nat, call: nat)
    requires IsRun(ss, es) && k < |ss| && (ss[k].ctl.paused || ss[k].ctl.closed)
    requires call in ss[k].calls && !ss[k].calls[call].pc.Answered?
    ensures GenDone(ss[k], ss[k].calls[call].pc)
    ensures Can(ss[k], LookAgain(call)) ==> After(ss[k], LookAgain(call)).calls[call].pc == Answered(PAUSED)
    ensures EnterGate(ss[k].ctl) == if ss[k].ctl.closed then GateClosed else GatePaused
  {
    RunInv(ss, es, k);
    GenerationsCancelled(ss, es, k, ss[k].calls[call].pc.gen);
    hide Inv, IsRun;
  }

  // ---------------------------------------------------------------------
  // Which calls run their tool after a pause
  // ---------------------------------------------------------------------

  /** Step i is where call k last looked at its generation: the second look of a
      call that took a slot, the gate for one that takes none. */
  predicate LastLook(s: Session, e: Event, k: nat) {
    || (e == LookAgain(k) && k in s.calls && s.calls[k].sem)
    || (e == Arrive(false) && s.nextCall == k)
  }

  predicate IsStarting(s: Session, k: nat) {
    k in s.calls && s.calls[k].pc.Starting?
  }

  lemma StartingStep(s: Session, e: Event, k: nat)
    requires Inv(s) && Can(s, e) && IsStarting(After(s, e), k)
    ensures (IsStarting(s, k) && s.calls[k] == After(s, e).calls[k]) || LastLook(s, e, k)
    ensures LastLook(s, e, k) ==> !IsStarting(s, k) && !GenDone(After(s, e), After(s, e).calls[k].pc)
  {
    hide SlotsOk;
  }

  /** A call that is about to run its tool has looked, and has waited since. */
  lemma {:induction false} LookBefore(ss: seq<Session>, es: seq<Event>, j: nat, k: nat) returns (i: nat)
    requires IsRun(ss, es) && j < |ss| && IsStarting(ss[j], k)
    ensures i < j && LastLook(ss[i], es[i], k) && !GenDone(ss[i + 1], ss[j].calls[k].pc)
    ensures forall n :: i < n <= j ==> k in ss[n].calls && ss[n].calls[k] == ss[j].calls[k]
  {
    hide Can, After, Inv, LastLook;
    RunInv(ss, es, j - 1);
    StartingStep(ss[j - 1], es[j - 1], k);
    if IsStarting(ss[j - 1], k) && ss[j - 1].calls[k] == ss[j].calls[k] {
      i := LookBefore(ss, es, j - 1, k);
    } else {
      i := j - 1;
    }
  }

  /** Only a pause or a close ends a generation that is not done. */
  lemma StaysLive(s: Session, e: Event, g: nat)
    requires Inv(s) && Can(s, e) && !Done(s.ctl, g) && g <= s.ctl.gen && !e.PauseCall? && !e.CloseCall?
    ensures !Done(After(s, e).ctl, g)
  {
    hide SlotsOk, CallOk;
  }

  lemma {:induction false} LiveWithoutPause(ss: seq<Session>, es: seq<Event>, i: nat, j: nat, g: nat)
    requires IsRun(ss, es) && i <= j < |ss| && !Done(ss[i].ctl, g) && g <= ss[i].ctl.gen
    requires forall p :: i <= p < j ==> !es[p].PauseCall? && !es[p].CloseCall?
    ensures !Done(ss[j].ctl, g) && g <= ss[j].ctl.gen
    decreases j
  {
    hide Inv, Done;
    if i < j {
      LiveWithoutPause(ss, es, i, j - 1, g);
      RunInv(ss, es, j - 1);
      StaysLive(ss[j - 1], es[j - 1], g);
    }
  }

  lemma {:induction false} DoneForEver(ss: seq<Session>, es: seq<Event>, i: nat, j: nat, g: nat)
    requires IsRun(ss, es) && i <= j < |ss| && Done(ss[i].ctl, g)
    ensures Done(ss[j].ctl, g)
    decreases j
  {
    if i < j { DoneForEver(ss, es, i, j - 1, g); }
  }

  /** A call begins its tool under a cancelled generation exactly when a pause or
      a close fell between its last look at its generation and that moment. */
  lemma BeginsCancelledExactly(ss: seq<Session>, es: seq<Event>, j: nat, k: nat) returns (i: nat)
    requires IsRun(ss, es) && j < |es| && es[j] == Begin(k)
    ensures i < j && LastLook(ss[i], es[i], k) && k in ss[j].calls && ss[j].calls[k].pc.Starting?
    ensures forall n :: i < n < j ==> !LastLook(ss[n], es[n], k)
    ensures GenDone(ss[j], ss[j].calls[k].pc) <==> exists p :: i < p < j && (es[p].PauseCall? || es[p].CloseCall?)
  {
    assert Can(ss[j], es[j]);
    i := LookBefore(ss, es, j, k);
    var c := ss[j].calls[k];
    RunInv(ss, es, i + 1);
    assert CallOk(ss[i + 1], c);
    hide Inv, CallOk, After;
    forall n | i < n < j ensures !LastLook(ss[n], es[n], k) {
      RunInv(ss, es, n);
      assert ss[n].calls[k] == c && ss[n + 1].calls[k] == c;
      NoLookWhileStarting(ss[n], es[n], k);
    }
    if p :| i < p < j && (es[p].PauseCall? || es[p].CloseCall?) {
      assert ss[p + 1].calls[k] == c;
      PausedAfter(ss[p], es[p]);
      PausedMeansCancelled(ss, es, p + 1, k);
      DoneForEver(ss, es, p + 1, j, c.pc.gen);
    } else {
      LiveWithoutPause(ss, es, i + 1, j, c.pc.gen);
    }
  }

  lemma NoLookWhileStarting(s: Session, e: Event, k: nat)
    requires Inv(s) && Can(s, e) && IsStarting(s, k)
    ensures !LastLook(s, e, k)
  {
  }

  lemma PausedAfter(s: Session, e: Event)
    requires e.PauseCall? || e.CloseCall?
    ensures After(s, e).ctl.paused || After(s, e).ctl.closed
  {
  }

  /** It does happen: a call with a slot begins in a paused broker. */
  lemma BeginsWhilePaused(limit: nat) returns (ss: seq<Session>, es: seq<Event>)
    requires limit > 0
    ensures IsRun(ss, es) && es == [Arrive(true), TakeSlot(0), LookAgain(0), PauseCall, Begin(0)]
    ensures ss[4].ctl.paused && ss[5].ctl.paused && ss[5].calls[0].pc == Running(0, false)
  {
    var s0 := Session(FRESH, limit, 0, map[], 0, {});
    es := [Arrive(true), TakeSlot(0), LookAgain(0), PauseCall, Begin(0)];
    var s1 := After(s0, es[0]);
    var s2 := After(s1, es[1]);
    var s3 := After(s2, es[2]);
    var s4 := After(s3, es[3]);
    ss := [s0, s1, s2, s3, s4, After(s4, es[4])];
  }

  /** And so does one without, whose only look is the gate. */
  lemma BeginsWhilePausedWithoutSlot(limit: nat) returns (ss: seq<Session>, es: seq<Event>)
    ensures IsRun(ss, es) && es == [Arrive(false), PauseCall, Begin(0)]
    ensures ss[2].ctl.paused && ss[3].ctl.paused && ss[3].calls[0].pc == Running(0, false)
  {
    var s0 := Session(FRESH, limit, 0, map[], 0, {});
    es := [Arrive(false), PauseCall, Begin(0)];
    var s1 := After(s0, es[0]);
    var s2 := After(s1, es[1]);
    ss := [s0, s1, s2, After(s2, es[2])];
  }

  /** The slots in use are the calls that hold one and never exceed the limit,
      so each is returned on every path out of guard. */
  lemma SlotsReturned(ss: seq<Session>, es: seq<Event>, k: nat)
    requires IsRun(ss, es) && k < |ss|
    ensures ss[k].inUse == |Holders(ss[k].calls)| <= ss[k].limit
    ensures (forall c :: c in ss[k].calls ==> ss[k].calls[c].pc.Answered?) ==> ss[k].inUse == 0
  {
    hide Can, After, GensOk;
    RunInv(ss, es, k);
    if forall c :: c in ss[k].calls ==> ss[k].calls[c].pc.Answered? {
      assert Holders(ss[k].calls) == {};
    }
  }

  /** A release is always possible: the semaphore is never short of tokens. */
  lemma ReleaseNeverBlocks(ss: seq<Session>, es: seq<Event>, k: nat, call: nat, meta: Meta)
    requires IsRun(ss, es) && k < |ss| && call in ss[k].calls
    ensures ss[k].calls[call].pc.Recheck? ==> Can(ss[k], LookAgain(call))
    ensures ss[k].calls[call].pc.Running? ==> Can(ss[k], Return(call, meta))
  {
    RunInv(ss, es, k);
    hide IsRun;
    if HoldsSlot(ss[k].calls[call]) {
      assert call in Holders(ss[k].calls);
      assert |Holders(ss[k].calls)| > 0;
    }
  }

  /** Call k was interrupted: it is cancelled or has been answered, and no
      answer passes the interruption off as a deadline or an internal error
      unless the caller's own context ended. */
  ghost predicate Interrupted(s: Session, k: nat) {
    && k in s.calls
    && (!s.calls[k].pc.Answered? ==> GenDone(s, s.calls[k].pc))
    && (s.calls[k].pc.Answered? && Interrupt(s.calls[k].pc.meta.code) ==> k in s.callerDone)
  }

  lemma InterruptedStep(s: Session, e: Event, k: nat)
    requires Inv(s) && Can(s, e) && Interrupted(s, k)
    ensures Interrupted(After(s, e), k)
  {
    hide SlotsOk, GensOk;
    assert k < s.nextCall;
  }

  lemma {:induction false} InterruptedRun(ss: seq<Session>, es: seq<Event>, i: nat, j: nat, k: nat)
    requires IsRun(ss, es) && i <= j < |ss| && Interrupted(ss[i], k)
    ensures Interrupted(ss[j], k)
    decreases j
  {
    hide Can, After, Interrupted, Inv;
    if i < j {
      InterruptedRun(ss, es, i, j - 1, k);
      RunInv(ss, es, j - 1);
      InterruptedStep(ss[j - 1], es[j - 1], k);
    }
  }

  /** A call in flight when Pause or Close takes effect stays cancelled for ever,
      also after a Resume, and is never reported as a deadline or an internal
      error unless its own caller gave up. */
  lemma PauseInterruptsInFlight(ss: seq<Session>, es: seq<Event>, i: nat, j: nat, k: nat)
    requires IsRun(ss, es) && i < j < |ss| && (es[i].PauseCall? || es[i].CloseCall?)
    requires k in ss[i].calls && !ss[i].calls[k].pc.Answered?
    ensures k in ss[j].calls
    ensures !ss[j].calls[k].pc.Answered? ==> GenDone(ss[j], ss[j].calls[k].pc)
    ensures ss[j].calls[k].pc.Answered? && Interrupt(ss[j].calls[k].pc.meta.code) ==> k in ss[j].callerDone
  {
    hide SlotsOk, Inv;
    assert Can(ss[i], es[i]) && ss[i + 1] == After(ss[i], es[i]);
    PausedMeansCancelled(ss, es, i + 1, k);
    InterruptedRun(ss, es, i + 1, j, k);
  }

  /** Every served result carries the identity it ran under. */
  lemma ServedHaveIdentity(ss: seq<Session>, es: seq<Event>, j: nat, k: nat)
    requires IsRun(ss, es) && j < |ss| && k in ss[j].calls && ss[j].calls[k].pc.Answered?
    ensures Served(ss[j].calls[k].pc.meta.code) ==> ss[j].calls[k].pc.meta.identity
  {
    hide Can, After, SlotsOk, GensOk;
    RunInv(ss, es, j);
  }
}
