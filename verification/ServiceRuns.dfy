/** Whole runs of the bus service: they are runs of the update protocol, and the
    service exits only after the quiet time. */
module ServiceRuns {
  import opened Wrappers
  import opened UpdateProtocol
  import opened UpdateService
  import opened UpdateDaemon
  import Delivery
  import UpdateRuns

  // ---------------------------------------------------------------------
  // Every run of the service is a run of the daemon
  // ---------------------------------------------------------------------

  /** The daemon steps of a run of the service, in order. */
  function Steps(es: seq<Event>): seq<Action> {
    if es == [] then []
    else Steps(es[..|es| - 1]) + match CoreStep(es[|es| - 1]) case Some(a) => [a] case None => []
  }

  /** The states of the daemon's machine: the first, and one after each step. */
  ghost function Cores(ss: seq<Sys>, es: seq<Event>): (cs: seq<Core>)
    requires |ss| == |es| + 1
    ensures |cs| == |Steps(es)| + 1
    decreases |es|
  {
    if es == [] then [ss[0].core]
    else
      Cores(ss[..|es|], es[..|es| - 1]) + if CoreStep(es[|es| - 1]).Some? then [ss[|es|].core] else []
  }

  lemma StepOf(ss: seq<Sys>, es: seq<Event>, k: nat)
    requires IsServiceRun(ss, es) && k < |es|
    ensures Can(ss[k], es[k]) && ss[k + 1] == After(ss[k], es[k])
  {
    hide Can, After, SysInit;
  }

  lemma FrontIsRun(ss: seq<Sys>, es: seq<Event>, n: nat)
    requires IsServiceRun(ss, es) && n <= |es|
    ensures IsServiceRun(ss[..n + 1], es[..n])
  {
    hide Can, After, SysInit;
  }

  /** The daemon in any run of the service makes a run of the update protocol, so
      everything that holds of those runs holds in the service. */
  lemma {:induction false} ProjectsToRun(ss: seq<Sys>, es: seq<Event>)
    requires IsServiceRun(ss, es)
    ensures UpdateRuns.IsRun(Cores(ss, es), Steps(es)) && Cores(ss, es)[|Steps(es)|] == ss[|es|].core
    decreases |es|
  {
    hide Can, After, Enabled, Next, Init;
    if es == [] {
      FirstIsInit(ss[0]);
    } else {
      var n := |es| - 1;
      FrontIsRun(ss, es, n);
      ProjectsToRun(ss[..|es|], es[..n]);
      StepOf(ss, es, n);
      Projects(ss[n], es[n]);
      hide UpdateRuns.IsRun, IsServiceRun;
      if CoreStep(es[n]).Some? {
        UpdateRuns.RunGoesOn(Cores(ss[..|es|], es[..n]), Steps(es[..n]), CoreStep(es[n]).value);
      }
    }
  }

  lemma FirstIsInit(s: Sys)
    requires SysInit(s)
    ensures Init(s.core)
  {
    hide Init;
  }

  // ---------------------------------------------------------------------
  // Positions
  // ---------------------------------------------------------------------

  lemma {:induction false} StepsGrow(es: seq<Event>, m: nat, n: nat)
    requires m <= n <= |es|
    ensures |Steps(es[..m])| <= |Steps(es[..n])|
    decreases n
  {
    if m < n {
      StepsGrow(es, m, n - 1);
      assert es[..n][..n - 1] == es[..n - 1];
    }
  }

  /** The step an event makes, in its place. */
  lemma {:induction false} StepAt(es: seq<Event>, m: nat)
    requires m < |es| && CoreStep(es[m]).Some?
    ensures |Steps(es[..m])| < |Steps(es)| && Steps(es)[|Steps(es[..m])|] == CoreStep(es[m]).value
    decreases |es|
  {
    var n := |es| - 1;
    if m < n {
      StepAt(es[..n], m);
      assert es[..n][..m] == es[..m];
    }
  }

  /** And back: the event that makes step j. */
  lemma {:induction false} EventOf(es: seq<Event>, j: nat) returns (m: nat)
    requires j < |Steps(es)|
    ensures m < |es| && CoreStep(es[m]) == Some(Steps(es)[j]) && |Steps(es[..m])| == j
    decreases |es|
  {
    var n := |es| - 1;
    if j < |Steps(es[..n])| {
      m := EventOf(es[..n], j);
      assert es[..n][..m] == es[..m];
    } else {
      m := n;
    }
  }

  /** In any run of the service, between two starts of kairos-agent the machine
      boots, however often the service exits and comes back. */
  lemma OneUpgradePerBoot(ss: seq<Sys>, es: seq<Event>, i: nat, k: nat)
    requires IsServiceRun(ss, es) && i < k < |es|
    requires CoreStep(es[i]).Some? && CoreStep(es[i]).value.UpgradeCall?
    requires CoreStep(es[k]).Some? && CoreStep(es[k]).value.UpgradeCall?
    ensures exists m :: i < m < k && es[m] == Daemon(Boot)
  {
    hide CoreStep, Can;
    ProjectsToRun(ss, es);
    StepAt(es, i);
    StepAt(es, k);
    var a, b := |Steps(es[..i])|, |Steps(es[..k])|;
    StepsGrow(es, i + 1, k);
    assert es[..i + 1][..i] == es[..i];
    UpdateRuns.OneUpgradePerBoot(Cores(ss, es), Steps(es), a, b);
    var j :| a < j < b && Steps(es)[j].Boot?;
    var m := EventOf(es, j);
    if m <= i { StepsGrow(es, m, i); }
    if k <= m { StepsGrow(es, k, m); }
    StepOf(ss, es, m);
    BootIsNoCall(ss[m], es[m]);
  }

  lemma BootIsNoCall(s: Sys, e: Event)
    requires Can(s, e) && CoreStep(e) == Some(Boot)
    ensures e == Daemon(Boot)
  {
  }

  // ---------------------------------------------------------------------
  // The quiet time
  // ---------------------------------------------------------------------

  /** What counts as activity: a call other than Status ends, an event of the
      daemon reaches the bus, or the process begins. */
  predicate Activity(s: Sys, e: Event) {
    match e
    case Done(k) => k in s.calls && !s.calls[k].kind.Status?
    case Touch => true
    case Daemon(a) => a.Start? || a.Crash? || a.Boot?
    case _ => false
  }

  lemma LastStep(s: Sys, e: Event)
    requires Can(s, e)
    ensures After(s, e).last == if Activity(s, e) then s.now else s.last
    ensures After(s, e).now >= s.now
  {
    hide Next, Enabled;
  }

  lemma {:induction false} ClockRuns(ss: seq<Sys>, es: seq<Event>, i: nat, k: nat)
    requires IsServiceRun(ss, es) && i <= k < |ss|
    ensures ss[i].now <= ss[k].now
    decreases k
  {
    hide Can, After, SysInit;
    if i < k {
      ClockRuns(ss, es, i, k - 1);
      StepOf(ss, es, k - 1);
      LastStep(ss[k - 1], es[k - 1]);
    }
  }

  /** The time kept is that of the last activity, or of the first state when
      there was none: reading Status, and calls still in progress, leave it. */
  lemma {:induction false} LastIsLastActivity(ss: seq<Sys>, es: seq<Event>, k: nat)
    requires IsServiceRun(ss, es) && k < |ss|
    ensures forall n :: 0 <= n < k && Activity(ss[n], es[n]) && (forall m :: n < m < k ==> !Activity(ss[m], es[m])) ==>
              ss[k].last == ss[n].now
    ensures (forall m :: 0 <= m < k ==> !Activity(ss[m], es[m])) ==> ss[k].last == ss[0].now
    ensures forall n :: 0 <= n < k && Activity(ss[n], es[n]) ==> ss[n].now <= ss[k].last
    ensures ss[k].last <= ss[k].now
  {
    hide Can, After, Activity;
    if k == 0 {
      FirstLast(ss[0]);
    } else {
      hide SysInit;
      LastIsLastActivity(ss, es, k - 1);
      StepOf(ss, es, k - 1);
      LastStep(ss[k - 1], es[k - 1]);
    }
  }

  lemma FirstLast(s: Sys)
    requires SysInit(s)
    ensures s.last == s.now
  {
  }

  /** tryClose goes on past its first tests. */
  predicate FoundQuiet(s: Sys, e: Event) {
    e.CloseLock? && s.active == 0 && s.last + e.quiet <= s.now
  }

  lemma QuietStep(s: Sys, e: Event)
    requires SysInv(s) && Can(s, e)
    requires var t := After(s, e); t.closing || !t.closer.Unlocked?
    ensures (s.closing || !s.closer.Unlocked? || FoundQuiet(s, e)) && !EndsProcess(e)
  {
    hide UpdateProtocol.Inv, OneInNetwork, Next, TasksOwned;
  }

  predicate EndsProcess(e: Event) {
    e.Daemon? && (e.a.Crash? || e.a.Boot?)
  }

  /** A service that decides to exit, or has, looked at step m: the quiet time had
      passed since the last activity of any kind before, no call was in progress,
      and the same process runs since. */
  lemma {:induction false} ClosesOnlyWhenQuiet(ss: seq<Sys>, es: seq<Event>, k: nat) returns (m: nat)
    requires IsServiceRun(ss, es) && k < |ss| && (ss[k].closing || !ss[k].closer.Unlocked?)
    ensures m < k && es[m].CloseLock? && SameProcess(es, m, k)
    ensures ss[m].calls == map[]
    ensures forall n :: 0 <= n < m && Activity(ss[n], es[n]) ==> ss[n].now + es[m].quiet <= ss[m].now
  {
    hide Can, After, Activity, FoundQuiet;
    FirstUnlocked(ss[0]);
    hide SysInit;
    ServiceInv(ss, es, k - 1);
    StepOf(ss, es, k - 1);
    QuietStep(ss[k - 1], es[k - 1]);
    if FoundQuiet(ss[k - 1], es[k - 1]) {
      m := k - 1;
      LastIsLastActivity(ss, es, m);
      NoCalls(ss[m], es[m]);
    } else {
      m := ClosesOnlyWhenQuiet(ss, es, k - 1);
    }
  }

  lemma FirstUnlocked(s: Sys)
    requires SysInit(s)
    ensures !s.closing && s.closer.Unlocked?
  {
  }

  lemma NoCalls(s: Sys, e: Event)
    requires SysInv(s) && FoundQuiet(s, e)
    ensures s.calls == map[] && e.CloseLock? && s.last + e.quiet <= s.now
  {
    hide UpdateProtocol.Inv, OneInNetwork, TasksOwned, QuietHolds;
    assert |s.calls| == 0;
  }

  /** And it is not kept from it by Status calls: with none in progress, no job
      and the quiet time over since the last other activity, it decides to exit. */
  lemma ClosesWhenQuiet(ss: seq<Sys>, es: seq<Event>, k: nat, quiet: nat)
    requires IsServiceRun(ss, es) && k < |ss| && ss[k].core.up && ss[k].closer.Unlocked?
    requires ss[k].active == 0 && !Working(ss[k].core.m)
    requires forall n :: 0 <= n < k && Activity(ss[n], es[n]) ==> ss[n].now + quiet <= ss[k].now
    ensures Can(ss[k], CloseLock(quiet))
    ensures var s := After(ss[k], CloseLock(quiet));
            Can(s, CloseAsk) && Can(After(s, CloseAsk), CloseSet) && After(After(s, CloseAsk), CloseSet).closing
  {
    UpStarted(ss, es, k);
    var n := LastActive(ss, es, k);
    LastIsLastActivity(ss, es, k);
    hide Activity, IsServiceRun, Can, After;
    assert ss[k].last == ss[n].now;
    Closes(ss[k], quiet);
  }

  lemma Closes(s: Sys, quiet: nat)
    requires s.core.up && s.closer.Unlocked? && s.active == 0 && !Working(s.core.m) && s.last + quiet <= s.now
    ensures Can(s, CloseLock(quiet))
    ensures var t := After(s, CloseLock(quiet));
            Can(t, CloseAsk) && Can(After(t, CloseAsk), CloseSet) && After(After(t, CloseAsk), CloseSet).closing
  {
    hide Next, Enabled, Working;
  }

  /** A process that is up was started. */
  lemma {:induction false} UpStarted(ss: seq<Sys>, es: seq<Event>, k: nat)
    requires IsServiceRun(ss, es) && k < |ss| && ss[k].core.up
    ensures exists n :: 0 <= n < k && Activity(ss[n], es[n])
  {
    hide Can, After;
    if k > 0 {
      StepOf(ss, es, k - 1);
      UpStep(ss[k - 1], es[k - 1]);
      if ss[k - 1].core.up {
        UpStarted(ss, es, k - 1);
      } else {
        StartIsActivity(ss[k - 1], es[k - 1]);
      }
    }
  }

  lemma StartIsActivity(s: Sys, e: Event)
    requires Can(s, e) && CoreStep(e).Some? && CoreStep(e).value.Start?
    ensures Activity(s, e)
  {
  }

  lemma {:induction false} LastActive(ss: seq<Sys>, es: seq<Event>, k: nat) returns (n: nat)
    requires |ss| == |es| + 1 && k <= |es| && exists n :: 0 <= n < k && Activity(ss[n], es[n])
    ensures n < k && Activity(ss[n], es[n]) && forall m :: n < m < k ==> !Activity(ss[m], es[m])
  {
    hide Activity;
    if Activity(ss[k - 1], es[k - 1]) { n := k - 1; } else { n := LastActive(ss, es, k - 1); }
  }

  // ---------------------------------------------------------------------
  // Which calls get in
  // ---------------------------------------------------------------------

  /** The process that runs at step k decided to exit at step n. */
  ghost predicate DecidedAt(es: seq<Event>, n: int, k: nat) {
    0 <= n < k && SameProcess(es, n + 1, k) && es[n].CloseSet?
  }

  lemma ClosingChanges(s: Sys, e: Event)
    requires SysInv(s) && Can(s, e)
    ensures After(s, e).closing <==> e.CloseSet? || (s.closing && !EndsProcess(e))
  {
    hide UpdateProtocol.Inv, OneInNetwork, Next, TasksOwned;
  }

  lemma {:induction false} ClosingExactly(ss: seq<Sys>, es: seq<Event>, k: nat)
    requires IsServiceRun(ss, es) && k < |ss|
    ensures ss[k].closing <==> exists n :: DecidedAt(es, n, k)
  {
    hide Can, After;
    if k == 0 {
      FirstUnlocked(ss[0]);
    } else {
      hide SysInit;
      var was := k - 1;
      ClosingExactly(ss, es, was);
      ServiceInv(ss, es, was);
      StepOf(ss, es, was);
      ClosingChanges(ss[was], es[was]);
      hide IsServiceRun;
      if es[was].CloseSet? { assert DecidedAt(es, was, k); }
      if n :| DecidedAt(es, n, was) {
        if !EndsProcess(es[was]) { assert DecidedAt(es, n, k); }
      }
      if n :| DecidedAt(es, n, k) {
        if n < was { assert DecidedAt(es, n, was); }
      }
    }
  }

  /** A call gets in, and is counted, unless this process has decided to exit. */
  lemma CallGetsIn(ss: seq<Sys>, es: seq<Event>, k: nat)
    requires IsServiceRun(ss, es) && k < |es| && es[k].Enter?
    ensures (exists n :: DecidedAt(es, n, k)) ==> ss[k + 1] == ss[k]
    ensures !(exists n :: DecidedAt(es, n, k)) ==>
              && ss[k + 1].active == ss[k].active + 1
              && ss[k].nextCall !in ss[k].calls
              && ss[k + 1].calls == ss[k].calls[ss[k].nextCall := Call(es[k].kind, Entered)]
  {
    ClosingExactly(ss, es, k);
    ServiceInv(ss, es, k);
    StepOf(ss, es, k);
    hide IsServiceRun, DecidedAt, UpdateProtocol.Inv, OneInNetwork, TasksOwned;
  }

  predicate NobodyAtNetwork(s: Sys) {
    forall k :: k in s.calls ==> !HoldsSlot(s.calls[k])
  }

  /** A network-bound call goes on exactly when no other is at the network, and is
      turned away otherwise; when it is done there, the next one may. */
  lemma NetworkCallAnswered(ss: seq<Sys>, es: seq<Event>, k: nat, call: nat)
    requires IsServiceRun(ss, es) && k < |es| && es[k] in {TakeSlot(call), FreeSlot(call)}
    ensures call in ss[k + 1].calls
    ensures es[k].TakeSlot? ==> ss[k + 1].calls[call].pc == if NobodyAtNetwork(ss[k]) then HasSlot else Leaving
    ensures es[k].FreeSlot? ==> ss[k + 1].calls[call].pc == Leaving && NobodyAtNetwork(ss[k + 1])
  {
    ServiceInv(ss, es, k);
    ServiceInv(ss, es, k + 1);
    StepOf(ss, es, k);
    hide IsServiceRun, UpdateProtocol.Inv, TasksOwned, Counted, QuietHolds;
  }

  /** The daemon's method a call asks for. */
  predicate Asks(kind: Kind, a: Action) {
    || (kind.Check? && a.CheckCall?)
    || (kind.Apply? && a.ApplyCall?)
    || (kind.Cancel? && a.CancelCall?)
    || (kind.Reboot? && a.RebootCall?)
    || (kind.Previous? && a.PreviousCall?)
  }

  /** A call that got in reaches its method, a check once it holds the network; the
      call waits for a check or a restart it began, and no longer than that. */
  lemma CallReachesDaemon(ss: seq<Sys>, es: seq<Event>, j: nat, k: nat, a: Action)
    requires IsServiceRun(ss, es) && j < |ss| && ss[j].core.up && k in ss[j].calls
    requires ss[j].calls[k].pc == if ss[j].calls[k].kind == Check then HasSlot else Entered
    requires Asks(ss[j].calls[k].kind, a) && Enabled(ss[j].core, a)
    ensures Can(ss[j], Invoke(k, a))
    ensures var (s, t) := (ss[j], After(ss[j], Invoke(k, a)));
            && t.core == Next(s.core, a) && k in t.calls
            && t.calls[k].pc == (if t.core.tasks != s.core.tasks && !a.ApplyCall? then InDaemon(s.core.nextId)
                                 else if a.CheckCall? then FreeingSlot else Leaving)
  {
    ServiceInv(ss, es, j);
    if !a.ApplyCall? { CallBegins(ss[j].core, a); }
    hide IsServiceRun, SysInv, Next, Enabled;
  }

  lemma CallBegins(c: Core, a: Action)
    requires UpdateProtocol.Inv(c) && Enabled(c, a)
    requires a.CheckCall? || a.CancelCall? || a.RebootCall? || a.PreviousCall?
    ensures Next(c, a).nextId > c.nextId <==> Next(c, a).tasks != c.tasks
  {
    hide StatusOf, Delivery.Push, Marked, OneInstall, SlotsFit, Truthful;
    assert c.nextId in Next(c, a).tasks ==> Next(c, a).tasks != c.tasks;
  }
}
