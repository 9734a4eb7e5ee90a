/** What the session broker answers over whole runs, said by the steps of the run:
    when it is paused, who is let in or turned away, and what a call is told. */
module BrokerAnswers {
  import opened SessionBroker

  /** A pause or a close strictly between two steps. */
  predicate Stopped(es: seq<Event>, i: nat, j: nat)
    requires i < j <= |es|
  {
    exists p :: i < p < j && (es[p].PauseCall? || es[p].CloseCall?)
  }

  // ---------------------------------------------------------------------
  // Paused and closed
  // ---------------------------------------------------------------------

  predicate ClosedBefore(es: seq<Event>, k: nat)
    requires k <= |es|
  {
    exists n :: 0 <= n < k && es[n].CloseCall?
  }

  predicate PausedBefore(es: seq<Event>, k: nat)
    requires k <= |es|
  {
    exists p :: 0 <= p < k && PauseHolds(es, p, k)
  }

  /** A pause at p that no resume has ended. */
  predicate PauseHolds(es: seq<Event>, p: nat, k: nat)
    requires p < k <= |es|
  {
    es[p].PauseCall? && forall n :: p < n < k ==> !es[n].ResumeCall?
  }

  lemma ControlChanges(s: Session, e: Event)
    requires Can(s, e)
    ensures After(s, e).ctl.closed == (s.ctl.closed || e.CloseCall?)
    ensures After(s, e).ctl.paused == if s.ctl.closed then s.ctl.paused
                                      else if e.PauseCall? then true
                                      else if e.ResumeCall? then false
                                      else s.ctl.paused
  {
  }

  /** The broker is closed once Close was called, and until then paused exactly while
      a pause was not followed by a resume. */
  lemma {:induction false} ControlFollowsCalls(ss: seq<Session>, es: seq<Event>, k: nat)
    requires IsRun(ss, es) && k < |ss|
    ensures ss[k].ctl.closed <==> ClosedBefore(es, k)
    ensures !ss[k].ctl.closed ==> (ss[k].ctl.paused <==> PausedBefore(es, k))
  {
    if k > 0 {
      ControlFollowsCalls(ss, es, k - 1);
      assert Can(ss[k - 1], es[k - 1]) && ss[k] == After(ss[k - 1], es[k - 1]);
      ControlChanges(ss[k - 1], es[k - 1]);
      hide Can, After, Init;
      if es[k - 1].PauseCall? { assert PauseHolds(es, k - 1, k); }
      if PausedBefore(es, k - 1) && !es[k - 1].ResumeCall? {
        var p :| 0 <= p < k - 1 && PauseHolds(es, p, k - 1);
        assert PauseHolds(es, p, k);
      }
      if PausedBefore(es, k) && !es[k - 1].PauseCall? {
        var p :| 0 <= p < k && PauseHolds(es, p, k);
        assert p < k - 1 && PauseHolds(es, p, k - 1);
      }
    }
  }

  // ---------------------------------------------------------------------
  // Calls
  // ---------------------------------------------------------------------

  /** An arriving call is turned away exactly by a closed or a paused broker, each
      with its own answer; one that wants no slot is ready to begin. */
  lemma ArrivalAnswered(ss: seq<Session>, es: seq<Event>, i: nat)
    requires IsRun(ss, es) && i < |es| && es[i].Arrive?
    ensures var k := ss[i].nextCall;
            && k in ss[i + 1].calls
            && (ss[i + 1].calls[k].pc == Answered(Meta(SessionUnavailable, false)) <==> ss[i].ctl.closed)
            && (ss[i + 1].calls[k].pc == Answered(Meta(Code.Paused, false)) <==> !ss[i].ctl.closed && ss[i].ctl.paused)
            && (!ss[i].ctl.closed && !ss[i].ctl.paused ==>
                  ss[i + 1].calls[k].pc == if es[i].sem then Queued(ss[i].ctl.gen) else Starting(ss[i].ctl.gen))
  {
    assert Can(ss[i], es[i]) && ss[i + 1] == After(ss[i], es[i]);
    hide IsRun;
  }

  lemma CallStepBack(s: Session, e: Event, k: nat)
    requires Inv(s) && Can(s, e) && k in After(s, e).calls && !After(s, e).calls[k].pc.Answered?
    ensures (e.Arrive? && k == s.nextCall)
            || (k in s.calls && !s.calls[k].pc.Answered? && s.calls[k].pc.gen == After(s, e).calls[k].pc.gen)
  {
    hide SlotsOk, GensOk;
  }

  lemma StepOf(ss: seq<Session>, es: seq<Event>, j: nat)
    requires IsRun(ss, es) && j < |es|
    ensures |ss| == |es| + 1 && Can(ss[j], es[j]) && ss[j + 1] == After(ss[j], es[j])
  {
    hide Can, After, Init;
  }

  lemma LetInWith(ss: seq<Session>, es: seq<Event>, i: nat)
    requires IsRun(ss, es) && i < |es| && es[i].Arrive?
    requires ss[i].nextCall in ss[i + 1].calls && !ss[i + 1].calls[ss[i].nextCall].pc.Answered?
    ensures ss[i].ctl.gen == ss[i + 1].calls[ss[i].nextCall].pc.gen && !ss[i].ctl.paused && !ss[i].ctl.closed
  {
    hide IsRun;
    StepOf(ss, es, i);
  }

  lemma KeptAStep(ss: seq<Session>, es: seq<Event>, i: nat, j: nat, k: nat)
    requires IsRun(ss, es) && i < j < |es| && es[i].Arrive? && ss[i].nextCall == k
    requires k in ss[j + 1].calls && !ss[j + 1].calls[k].pc.Answered?
    ensures k in ss[j].calls && !ss[j].calls[k].pc.Answered? && ss[j].calls[k].pc.gen == ss[j + 1].calls[k].pc.gen
  {
    hide *;
    StepOf(ss, es, j);
    RunInv(ss, es, j);
    NumbersGrow(ss, es, i + 1, j);
    ArrivalCounts(ss, es, i);
    CallStepBack(ss[j], es[j], k);
  }

  /** Until it is answered a call keeps the generation it was let in under. */
  lemma {:induction false} KeepsGeneration(ss: seq<Session>, es: seq<Event>, i: nat, n: nat, j: nat, k: nat)
    requires IsRun(ss, es) && i < n <= j <= |es| && es[i].Arrive? && ss[i].nextCall == k
    requires k in ss[j].calls && !ss[j].calls[k].pc.Answered?
    ensures k in ss[n].calls && !ss[n].calls[k].pc.Answered? && ss[n].calls[k].pc.gen == ss[j].calls[k].pc.gen
    decreases j
  {
    hide Can, After, Init;
    if n < j {
      KeptAStep(ss, es, i, j - 1, k);
      KeepsGeneration(ss, es, i, n, j - 1, k);
    }
  }

  lemma ArrivalCounts(ss: seq<Session>, es: seq<Event>, i: nat)
    requires IsRun(ss, es) && i < |es| && es[i].Arrive?
    ensures ss[i + 1].nextCall == ss[i].nextCall + 1
  {
    assert Can(ss[i], es[i]) && ss[i + 1] == After(ss[i], es[i]);
  }

  lemma {:induction false} NumbersGrow(ss: seq<Session>, es: seq<Event>, i: nat, j: nat)
    requires IsRun(ss, es) && i <= j < |ss|
    ensures ss[i].nextCall <= ss[j].nextCall
    decreases j
  {
    if i < j {
      NumbersGrow(ss, es, i, j - 1);
      assert Can(ss[j - 1], es[j - 1]) && ss[j] == After(ss[j - 1], es[j - 1]);
    }
  }

  /** The generation of a call in guard is done exactly when a pause or a close fell
      between its arrival and now. */
  lemma DoneExactly(ss: seq<Session>, es: seq<Event>, i: nat, j: nat, k: nat)
    requires IsRun(ss, es) && i < j <= |es| && es[i].Arrive? && ss[i].nextCall == k
    requires k in ss[j].calls && !ss[j].calls[k].pc.Answered?
    ensures GenDone(ss[j], ss[j].calls[k].pc) <==> Stopped(es, i, j)
  {
    var g := ss[j].calls[k].pc.gen;
    if Stopped(es, i, j) {
      var p :| i < p < j && (es[p].PauseCall? || es[p].CloseCall?);
      StopSeen(ss, es, i, p, j, k);
    } else {
      KeepsGeneration(ss, es, i, i + 1, j, k);
      StartsLive(ss, es, i);
      hide IsRun, After, Can, Inv;
      LiveWithoutPause(ss, es, i + 1, j, g);
    }
  }

  lemma StopSeen(ss: seq<Session>, es: seq<Event>, i: nat, p: nat, j: nat, k: nat)
    requires IsRun(ss, es) && i < p < j <= |es| && es[i].Arrive? && ss[i].nextCall == k
    requires k in ss[j].calls && !ss[j].calls[k].pc.Answered? && (es[p].PauseCall? || es[p].CloseCall?)
    ensures GenDone(ss[j], ss[j].calls[k].pc)
  {
    hide IsRun, After, Can, Inv, Done;
    StepOf(ss, es, p);
    PausedAfter(ss[p], es[p]);
    KeepsGeneration(ss, es, i, p + 1, j, k);
    PausedMeansCancelled(ss, es, p + 1, k);
    DoneForEver(ss, es, p + 1, j, ss[j].calls[k].pc.gen);
  }

  lemma StartsLive(ss: seq<Session>, es: seq<Event>, i: nat)
    requires IsRun(ss, es) && i < |es| && es[i].Arrive?
    requires ss[i].nextCall in ss[i + 1].calls && !ss[i + 1].calls[ss[i].nextCall].pc.Answered?
    ensures var g := ss[i + 1].calls[ss[i].nextCall].pc.gen; !Done(ss[i + 1].ctl, g) && g <= ss[i + 1].ctl.gen
  {
    LetInWith(ss, es, i);
    RunInv(ss, es, i);
    StepOf(ss, es, i);
    hide IsRun;
  }

  /** A call with a slot is turned away by its second look exactly when a pause or a
      close fell between its arrival and that look; else it may begin. */
  lemma LookAnswered(ss: seq<Session>, es: seq<Event>, i: nat, j: nat, k: nat)
    requires IsRun(ss, es) && i < j < |es| && es[i].Arrive? && ss[i].nextCall == k && es[j] == LookAgain(k)
    ensures k in ss[j].calls && k in ss[j + 1].calls
    ensures ss[j + 1].calls[k].pc == Answered(Meta(Code.Paused, false)) <==> Stopped(es, i, j)
    ensures ss[j + 1].calls[k].pc.Starting? <==> !Stopped(es, i, j)
  {
    assert Can(ss[j], es[j]) && ss[j + 1] == After(ss[j], es[j]);
    DoneExactly(ss, es, i, j, k);
    hide IsRun, Stopped, GenDone;
  }

  lemma EndsStep(s: Session, e: Event)
    requires Can(s, e)
    ensures After(s, e).callerDone == if e.CallerEnds? then s.callerDone + {e.k} else s.callerDone
  {
  }

  lemma {:induction false} CallerGone(ss: seq<Session>, es: seq<Event>, j: nat, k: nat)
    requires IsRun(ss, es) && j < |ss|
    ensures k in ss[j].callerDone <==> exists n :: 0 <= n < j && es[n] == CallerEnds(k)
  {
    if j > 0 {
      CallerGone(ss, es, j - 1, k);
      assert Can(ss[j - 1], es[j - 1]) && ss[j] == After(ss[j - 1], es[j - 1]);
      EndsStep(ss[j - 1], es[j - 1]);
      hide Can, After, Init;
    }
  }

  /** What a call is told: what its tool answered, unless that is a deadline or an
      internal error, a pause or a close fell between its arrival and its return, and
      its own caller is still there; then that it was paused. */
  lemma ReturnAnswered(ss: seq<Session>, es: seq<Event>, i: nat, j: nat, k: nat)
    requires IsRun(ss, es) && i < j < |es| && es[i].Arrive? && ss[i].nextCall == k && es[j].Return? && es[j].k == k
    ensures k in ss[j + 1].calls && ss[j + 1].calls[k].pc.Answered?
    ensures var code := ss[j + 1].calls[k].pc.meta.code;
            var interrupted := es[j].meta.code in {DeadlineExceeded, Internal} && Stopped(es, i, j)
                               && !exists n :: 0 <= n < j && es[n] == CallerEnds(k);
            && code == (if interrupted then Code.Paused else es[j].meta.code)
            && (ss[j + 1].calls[k].pc.meta.identity <==>
                  !interrupted && (es[j].meta.identity || code in {Success, OutputTruncated}))
  {
    assert Can(ss[j], es[j]) && ss[j + 1] == After(ss[j], es[j]);
    DoneExactly(ss, es, i, j, k);
    CallerGone(ss, es, j, k);
    hide IsRun, Stopped, GenDone;
  }

  /** A queued call leaves without its slot only when its own caller has gone, and is
      told of a deadline, or when a pause or a close fell since its arrival, and is
      told that it was paused. */
  lemma QueueLeft(ss: seq<Session>, es: seq<Event>, i: nat, j: nat, k: nat)
    requires IsRun(ss, es) && i < j < |es| && es[i].Arrive? && ss[i].nextCall == k
    requires es[j] in {LeaveQueueCaller(k), LeaveQueueGen(k)}
    ensures k in ss[j].calls && ss[j].calls[k].pc.Queued? && k in ss[j + 1].calls && ss[j + 1].inUse == ss[j].inUse
    ensures es[j].LeaveQueueCaller? ==>
              (exists n :: 0 <= n < j && es[n] == CallerEnds(k))
              && ss[j + 1].calls[k].pc == Answered(Meta(DeadlineExceeded, false))
    ensures es[j].LeaveQueueGen? ==>
              Stopped(es, i, j) && ss[j + 1].calls[k].pc == Answered(Meta(Code.Paused, false))
  {
    StepOf(ss, es, j);
    DoneExactly(ss, es, i, j, k);
    CallerGone(ss, es, j, k);
    hide IsRun, Stopped, GenDone;
  }

  /** No call that is let in is stuck: from the queue it goes on when a slot is free,
      and leaves when its caller has gone or a pause came; past it every step is its
      own to take. */
  lemma CallGoesOn(ss: seq<Session>, es: seq<Event>, j: nat, k: nat, meta: Meta)
    requires IsRun(ss, es) && j < |ss| && k in ss[j].calls
    ensures var (s, pc) := (ss[j], ss[j].calls[k].pc);
            && (pc.Queued? && |Holders(s.calls)| < s.limit ==> Can(s, TakeSlot(k)))
            && (pc.Queued? && k in s.callerDone ==> Can(s, LeaveQueueCaller(k)))
            && (pc.Queued? && GenDone(s, pc) ==> Can(s, LeaveQueueGen(k)))
            && (pc.Recheck? ==> Can(s, LookAgain(k)))
            && (pc.Starting? ==> Can(s, Begin(k)))
            && (pc.Running? ==> Can(s, Return(k, meta)))
  {
    RunInv(ss, es, j);
    var s := ss[j];
    assert CallOk(s, s.calls[k]);
    if HoldsSlot(s.calls[k]) { assert k in Holders(s.calls); }
    hide IsRun, GensOk, After;
  }
}
