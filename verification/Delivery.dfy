/** update/daemon.go queueLocked and deliver: callbacks are queued under the
    lock and called, in order, by a goroutine that holds no lock. Each function
    below is one step of that protocol; between any two steps of a deliverer
    everything else may run, also calls made by the callbacks themselves. */
module Delivery {
  import opened Arith

  /** A status change, or a progress line. */
  datatype Event<S> = Change(status: S) | Progress(line: string)

  /** A deliver goroutine: about to take the lock, or calling the callbacks
      for a batch it took, at event e and callback c of the numbers of
      callbacks it copied with the batch. */
  datatype Worker<S> =
    | AtLock
    | Calling(batch: seq<Event<S>>, changes: nat, lines: nat, e: nat, c: nat)

  /** Callbacks are numbered in the order they registered. events and
      delivering are the daemon's fields, workers the running goroutines. The
      rest is history: what each callback received, every event queued, and how
      many callbacks registered before the first event. */
  datatype Queue<S> = Queue(
    events: seq<Event<S>>,
    delivering: bool,
    workers: seq<Worker<S>>,
    onChange: seq<seq<Event<S>>>,
    onProgress: seq<seq<Event<S>>>,
    queued: seq<Event<S>>,
    earlyChange: nat,
    earlyProgress: nat)

  function Empty<S>(): Queue<S> {
    Queue([], false, [], [], [], [], 0, 0)
  }

  function RegisterChange<S>(q: Queue<S>): Queue<S> {
    q.(onChange := q.onChange + [[]],
       earlyChange := if q.queued == [] then |q.onChange| + 1 else q.earlyChange)
  }

  function RegisterProgress<S>(q: Queue<S>): Queue<S> {
    q.(onProgress := q.onProgress + [[]],
       earlyProgress := if q.queued == [] then |q.onProgress| + 1 else q.earlyProgress)
  }

  /** queueLocked: append, and start a deliverer when none runs. */
  function Push<S>(q: Queue<S>, ev: Event<S>): Queue<S> {
    q.(events := q.events + [ev],
       queued := q.queued + [ev],
       delivering := true,
       workers := if q.delivering then q.workers else q.workers + [AtLock])
  }

  /** The lock-held region of deliver: stop when nothing is queued, else take
      the batch and copy the callback lists. */
  function TakeBatch<S>(q: Queue<S>, i: nat): Queue<S>
    requires i < |q.workers| && q.workers[i].AtLock?
  {
    if q.events == [] then
      q.(delivering := false, workers := q.workers[..i] + q.workers[i + 1..])
    else
      q.(events := [],
         workers := q.workers[i := Calling(q.events, |q.onChange|, |q.onProgress|, 0, 0)])
  }

  function Callbacks<S>(w: Worker<S>): nat
    requires w.Calling? && w.e < |w.batch|
  {
    if w.batch[w.e].Progress? then w.lines else w.changes
  }

  /** One move of the unlocked part: back to the lock after the batch, to the
      next event after its last callback, or one call. */
  function Advance<S>(q: Queue<S>, i: nat): Queue<S>
    requires i < |q.workers| && q.workers[i].Calling?
  {
    var w := q.workers[i];
    if w.e >= |w.batch| then
      q.(workers := q.workers[i := AtLock])
    else if w.c >= Callbacks(w) then
      q.(workers := q.workers[i := w.(e := w.e + 1, c := 0)])
    else
      var ev := w.batch[w.e];
      q.(workers := q.workers[i := w.(c := w.c + 1)],
         onProgress := if ev.Progress? then Received(q.onProgress, w.c, ev) else q.onProgress,
         onChange := if ev.Progress? then q.onChange else Received(q.onChange, w.c, ev))
  }

  function Received<S>(logs: seq<seq<Event<S>>>, k: nat, ev: Event<S>): seq<seq<Event<S>>> {
    if k < |logs| then logs[k := logs[k] + [ev]] else logs
  }

  // ---------------------------------------------------------------------
  // The invariant
  // ---------------------------------------------------------------------

  /** The events meant for progress callbacks, or those for change callbacks. */
  function Only<S>(evs: seq<Event<S>>, progress: bool): seq<Event<S>> {
    if evs == [] then []
    else (if evs[0].Progress? == progress then [evs[0]] else []) + Only(evs[1..], progress)
  }

  lemma {:induction false} OnlyConcat<S>(a: seq<Event<S>>, b: seq<Event<S>>, progress: bool)
    ensures Only(a + b, progress) == Only(a, progress) + Only(b, progress)
  {
    if a == [] {
      assert a + b == b;
    } else {
      OnlyConcat(a[1..], b, progress);
      assert (a + b)[0] == a[0] && (a + b)[1..] == a[1..] + b;
      Assoc(if a[0].Progress? == progress then [a[0]] else [], Only(a[1..], progress), Only(b, progress));
    }
  }

  /** What deliverer w still owes to callback k. */
  function Owed<S>(w: Worker<S>, progress: bool, k: nat): seq<Event<S>> {
    if w.AtLock? || w.e >= |w.batch| then []
    else if w.batch[w.e].Progress? == progress && k < w.c then Only(w.batch[w.e + 1..], progress)
    else Only(w.batch[w.e..], progress)
  }

  /** Callback k has received, or is still owed, each queued event of its kind
      exactly once and in order. */
  ghost predicate Served<S>(q: Queue<S>, log: seq<Event<S>>, progress: bool, k: nat) {
    log + (if q.workers == [] then [] else Owed(q.workers[0], progress, k)) + Only(q.events, progress)
    == Only(q.queued, progress)
  }

  predicate WorkerOk<S>(q: Queue<S>, w: Worker<S>) {
    w.Calling? ==>
      && q.queued != []
      && w.e <= |w.batch|
      && q.earlyChange <= w.changes <= |q.onChange|
      && q.earlyProgress <= w.lines <= |q.onProgress|
      && (w.e < |w.batch| ==> w.c <= Callbacks(w))
  }

  ghost predicate Shape<S>(q: Queue<S>) {
    && |q.workers| <= 1
    && (q.delivering <==> |q.workers| == 1)
    && (q.events != [] ==> q.delivering)
    && (q.delivering ==> q.queued != [])
    && (q.workers != [] ==> WorkerOk(q, q.workers[0]))
    && q.earlyChange <= |q.onChange|
    && q.earlyProgress <= |q.onProgress|
    && (q.queued == [] ==> q.earlyChange == |q.onChange| && q.earlyProgress == |q.onProgress|)
  }

  ghost predicate Inv<S>(q: Queue<S>) {
    && Shape(q)
    && (forall k :: 0 <= k < q.earlyChange ==> Served(q, q.onChange[k], false, k))
    && (forall k :: 0 <= k < q.earlyProgress ==> Served(q, q.onProgress[k], true, k))
    && (q.queued == [] ==> forall k :: 0 <= k < |q.onChange| ==> q.onChange[k] == [])
    && (q.queued == [] ==> forall k :: 0 <= k < |q.onProgress| ==> q.onProgress[k] == [])
  }

  lemma EmptyInv<S>()
    ensures Inv(Empty<S>())
  {
  }

  lemma RegisterInv<S>(q: Queue<S>)
    requires Inv(q)
    ensures Inv(RegisterChange(q)) && Inv(RegisterProgress(q))
  {
    var c, p := RegisterChange(q), RegisterProgress(q);
    assert forall k :: 0 <= k < |q.onChange| ==> c.onChange[k] == q.onChange[k];
    assert forall k :: 0 <= k < |q.onProgress| ==> p.onProgress[k] == q.onProgress[k];
    forall k | 0 <= k < c.earlyChange ensures Served(c, c.onChange[k], false, k) {
      if k < q.earlyChange { assert Served(q, q.onChange[k], false, k); }
    }
    forall k | 0 <= k < c.earlyProgress ensures Served(c, c.onProgress[k], true, k) {
      assert Served(q, q.onProgress[k], true, k);
    }
    forall k | 0 <= k < p.earlyChange ensures Served(p, p.onChange[k], false, k) {
      assert Served(q, q.onChange[k], false, k);
    }
    forall k | 0 <= k < p.earlyProgress ensures Served(p, p.onProgress[k], true, k) {
      if k < q.earlyProgress { assert Served(q, q.onProgress[k], true, k); }
    }
  }

  lemma PushServed<S>(q: Queue<S>, ev: Event<S>, log: seq<Event<S>>, progress: bool, k: nat)
    requires Shape(q) && Served(q, log, progress, k)
    ensures Served(Push(q, ev), log, progress, k)
  {
    hide WorkerOk;
    OnlyConcat(q.events, [ev], progress);
    OnlyConcat(q.queued, [ev], progress);
    var owed := if q.workers == [] then [] else Owed(q.workers[0], progress, k);
    assert log + owed + (Only(q.events, progress) + Only([ev], progress))
        == (log + owed + Only(q.events, progress)) + Only([ev], progress);
  }

  lemma PushInv<S>(q: Queue<S>, ev: Event<S>)
    requires Inv(q)
    ensures Inv(Push(q, ev))
  {
    hide Served, Owed, Only;
    forall k | 0 <= k < q.earlyChange ensures Served(Push(q, ev), q.onChange[k], false, k) {
      PushServed(q, ev, q.onChange[k], false, k);
    }
    forall k | 0 <= k < q.earlyProgress ensures Served(Push(q, ev), q.onProgress[k], true, k) {
      PushServed(q, ev, q.onProgress[k], true, k);
    }
  }

  lemma TakeBatchServed<S>(q: Queue<S>, log: seq<Event<S>>, progress: bool, k: nat)
    requires Shape(q) && |q.workers| == 1 && q.workers[0].AtLock? && Served(q, log, progress, k)
    ensures Served(TakeBatch(q, 0), log, progress, k)
  {
    assert q.events[0..] == q.events;
  }

  lemma TakeBatchInv<S>(q: Queue<S>, i: nat)
    requires Inv(q) && i < |q.workers| && q.workers[i].AtLock?
    ensures Inv(TakeBatch(q, i))
  {
    hide Served, Owed, Only;
    forall k | 0 <= k < q.earlyChange ensures Served(TakeBatch(q, i), q.onChange[k], false, k) {
      TakeBatchServed(q, q.onChange[k], false, k);
    }
    forall k | 0 <= k < q.earlyProgress ensures Served(TakeBatch(q, i), q.onProgress[k], true, k) {
      TakeBatchServed(q, q.onProgress[k], true, k);
    }
  }

  /** Going on to the next event owes nobody less. */
  lemma OwedAtNextEvent<S>(w: Worker<S>, progress: bool, k: nat)
    requires w.Calling? && w.e < |w.batch| && w.c >= Callbacks(w)
    requires k < if progress then w.lines else w.changes
    ensures Owed(w.(e := w.e + 1, c := 0), progress, k) == Owed(w, progress, k)
  {
    var rest := w.batch[w.e + 1..];
    assert w.batch[w.e..][1..] == rest && w.batch[w.e..][0] == w.batch[w.e];
    assert w.e + 1 >= |w.batch| ==> rest == [];
    assert Owed(w.(e := w.e + 1, c := 0), progress, k) == Only(rest, progress);
    if w.batch[w.e].Progress? != progress {
      assert Only(w.batch[w.e..], progress) == [] + Only(rest, progress);
    }
  }

  /** A call settles one event with the callback called and none with others. */
  lemma OwedAfterCall<S>(w: Worker<S>, progress: bool, k: nat)
    requires w.Calling? && w.e < |w.batch| && w.c < Callbacks(w)
    ensures Owed(w, progress, k)
         == (if w.batch[w.e].Progress? == progress && k == w.c then [w.batch[w.e]] else [])
            + Owed(w.(c := w.c + 1), progress, k)
  {
    assert w.batch[w.e..][1..] == w.batch[w.e + 1..] && w.batch[w.e..][0] == w.batch[w.e];
  }

  /** Served looks at what was received, is owed and is queued: whatever passes
      from the second to the first keeps it. */
  lemma Settled<S>(q: Queue<S>, n: Queue<S>, log: seq<Event<S>>, one: seq<Event<S>>, progress: bool, k: nat)
    requires |q.workers| == 1 && |n.workers| == 1 && n.events == q.events && n.queued == q.queued
    requires Owed(q.workers[0], progress, k) == one + Owed(n.workers[0], progress, k)
    requires Served(q, log, progress, k)
    ensures Served(n, log + one, progress, k)
  {
    hide Owed, Only;
    var owed, events := Owed(n.workers[0], progress, k), Only(q.events, progress);
    assert log + (one + owed) + events == (log + one) + owed + events;
  }

  /** What callback k receives in a move of the unlocked part. */
  function Passed<S>(w: Worker<S>, progress: bool, k: nat): seq<Event<S>>
    requires w.Calling?
  {
    if w.e < |w.batch| && w.c < Callbacks(w) && w.batch[w.e].Progress? == progress && k == w.c then
      [w.batch[w.e]]
    else []
  }

  lemma AdvanceOwes<S>(q: Queue<S>, progress: bool, k: nat)
    requires |q.workers| == 1 && q.workers[0].Calling? && WorkerOk(q, q.workers[0])
    requires k < if progress then q.earlyProgress else q.earlyChange
    ensures var n := Advance(q, 0);
            && |n.workers| == 1 && n.events == q.events && n.queued == q.queued
            && Owed(q.workers[0], progress, k) == Passed(q.workers[0], progress, k) + Owed(n.workers[0], progress, k)
  {
    var w := q.workers[0];
    if w.e < |w.batch| {
      hide Owed, Only;
      if w.c >= Callbacks(w) { OwedAtNextEvent(w, progress, k); } else { OwedAfterCall(w, progress, k); }
    }
  }

  lemma AdvanceReceives<S>(q: Queue<S>, progress: bool, k: nat)
    requires |q.workers| == 1 && q.workers[0].Calling?
    requires k < if progress then |q.onProgress| else |q.onChange|
    ensures var n := Advance(q, 0);
            && |n.onProgress| == |q.onProgress| && |n.onChange| == |q.onChange|
            && (if progress then n.onProgress[k] else n.onChange[k])
               == (if progress then q.onProgress[k] else q.onChange[k]) + Passed(q.workers[0], progress, k)
  {
  }

  /** A move of the unlocked part passes to callback k exactly what it owed less. */
  lemma AdvanceServed<S>(q: Queue<S>, progress: bool, k: nat)
    requires Shape(q) && |q.workers| == 1 && q.workers[0].Calling?
    requires k < if progress then q.earlyProgress else q.earlyChange
    requires Served(q, if progress then q.onProgress[k] else q.onChange[k], progress, k)
    ensures var n := Advance(q, 0);
            && |n.onProgress| == |q.onProgress| && |n.onChange| == |q.onChange|
            && Served(n, if progress then n.onProgress[k] else n.onChange[k], progress, k)
  {
    AdvanceOwes(q, progress, k);
    AdvanceReceives(q, progress, k);
    hide Advance, Served, Owed, Passed, WorkerOk;
    var log := if progress then q.onProgress[k] else q.onChange[k];
    Settled(q, Advance(q, 0), log, Passed(q.workers[0], progress, k), progress, k);
  }

  lemma AdvanceInv<S>(q: Queue<S>, i: nat)
    requires Inv(q) && i < |q.workers| && q.workers[i].Calling?
    ensures Inv(Advance(q, i))
  {
    hide Served, Owed, Only;
    forall k | 0 <= k < q.earlyChange ensures Served(Advance(q, i), Advance(q, i).onChange[k], false, k) {
      AdvanceServed(q, false, k);
    }
    forall k | 0 <= k < q.earlyProgress ensures Served(Advance(q, i), Advance(q, i).onProgress[k], true, k) {
      AdvanceServed(q, true, k);
    }
  }

  // ---------------------------------------------------------------------
  // What callers rely on
  // ---------------------------------------------------------------------

  datatype Move<S> = RegisterForChanges | RegisterForProgress | QueueEvent(ev: Event<S>) | Delivers(i: nat)

  predicate CanMove<S>(q: Queue<S>, m: Move<S>) {
    m.Delivers? ==> m.i < |q.workers|
  }

  function AfterMove<S>(q: Queue<S>, m: Move<S>): Queue<S>
    requires CanMove(q, m)
  {
    match m
    case RegisterForChanges => RegisterChange(q)
    case RegisterForProgress => RegisterProgress(q)
    case QueueEvent(ev) => Push(q, ev)
    case Delivers(i) => if q.workers[i].AtLock? then TakeBatch(q, i) else Advance(q, i)
  }

  /** Any interleaving of callers, callbacks and deliverers from an empty queue. */
  ghost predicate IsDelivery<S>(qs: seq<Queue<S>>, ms: seq<Move<S>>) {
    && |qs| == |ms| + 1 && qs[0] == Empty()
    && forall i :: 0 <= i < |ms| ==> CanMove(qs[i], ms[i]) && qs[i + 1] == AfterMove(qs[i], ms[i])
  }

  lemma MoveInv<S>(q: Queue<S>, m: Move<S>)
    requires Inv(q) && CanMove(q, m)
    ensures Inv(AfterMove(q, m))
  {
    hide Inv, Push, TakeBatch, Advance;
    match m
    case QueueEvent(ev) => PushInv(q, ev);
    case Delivers(i) => if q.workers[i].AtLock? { TakeBatchInv(q, i); } else { AdvanceInv(q, i); }
    case _ => RegisterInv(q);
  }

  lemma {:induction false} DeliveryInv<S>(qs: seq<Queue<S>>, ms: seq<Move<S>>, k: nat)
    requires IsDelivery(qs, ms) && k < |qs|
    ensures Inv(qs[k])
  {
    hide Inv, CanMove, AfterMove;
    if k == 0 {
      EmptyInv<S>();
    } else {
      DeliveryInv(qs, ms, k - 1);
      MoveInv(qs[k - 1], ms[k - 1]);
    }
  }

  /** In every interleaving at most one deliverer runs, nothing is queued without
      one, and a new event starts one exactly when none runs. */
  lemma OneDeliverer<S>(qs: seq<Queue<S>>, ms: seq<Move<S>>, k: nat)
    requires IsDelivery(qs, ms) && k < |qs|
    ensures |qs[k].workers| <= 1
    ensures qs[k].events != [] ==> |qs[k].workers| == 1
    ensures forall ev :: |Push(qs[k], ev).workers| == 1
  {
    hide Served, CanMove, AfterMove;
    DeliveryInv(qs, ms, k);
  }

  // ---------------------------------------------------------------------
  // Delivery ends
  // ---------------------------------------------------------------------

  /** The moves that evs take: its callbacks and one step on for each event. */
  function Work<S>(evs: seq<Event<S>>, changes: nat, lines: nat): nat {
    if evs == [] then 0
    else (if evs[0].Progress? then lines else changes) + 1 + Work(evs[1..], changes, lines)
  }

  /** The moves left until the deliverer stops, if nothing more is queued. */
  function MovesLeft<S>(q: Queue<S>): nat {
    if q.workers == [] then 0
    else
      var atLock := if q.events == [] then 1 else Work(q.events, |q.onChange|, |q.onProgress|) + 3;
      match q.workers[0]
      case AtLock => atLock
      case Calling(batch, changes, lines, e, c) =>
        var work := if e < |batch| then Work(batch[e..], changes, lines) else 0;
        (if c <= work then work - c else 0) + 1 + atLock
  }

  function DeliverOnce<S>(q: Queue<S>): Queue<S>
    requires q.workers != []
  {
    if q.workers[0].AtLock? then TakeBatch(q, 0) else Advance(q, 0)
  }

  lemma DeliverCountsDown<S>(q: Queue<S>)
    requires Inv(q) && q.workers != []
    ensures Inv(DeliverOnce(q)) && MovesLeft(DeliverOnce(q)) == MovesLeft(q) - 1
  {
    MoveInv(q, Delivers(0));
    hide Served, Only, Owed;
    var w := q.workers[0];
    if w.AtLock? {
      assert q.events[0..] == q.events;
    } else if w.e < |w.batch| {
      assert w.batch[w.e..][1..] == w.batch[w.e + 1..];
    }
  }

  /** n moves of the deliverer, or as many as it makes. */
  function Delivered<S>(q: Queue<S>, n: nat): Queue<S>
    decreases n
  {
    if n == 0 || q.workers == [] then q else Delivered(DeliverOnce(q), n - 1)
  }

  /** After exactly the moves counted the deliverer has stopped, and every
      callback registered before the first event has received all its events. */
  lemma {:induction false} DeliveryEnds<S>(q: Queue<S>, k: nat)
    requires Inv(q)
    ensures var d := Delivered(q, MovesLeft(q));
            && d.workers == [] && d.events == [] && d.queued == q.queued
            && (k < q.earlyChange ==> k < |d.onChange| && d.onChange[k] == Only(q.queued, false))
            && (k < q.earlyProgress ==> k < |d.onProgress| && d.onProgress[k] == Only(q.queued, true))
    decreases MovesLeft(q)
  {
    hide Only, Served, Work;
    if q.workers == [] {
      EarlyCallbacksMissNothing(q, k);
    } else {
      hide Inv;
      DeliverCountsDown(q);
      DeliverKeeps(q);
      DeliveryEnds(DeliverOnce(q), k);
    }
  }

  lemma DeliverKeeps<S>(q: Queue<S>)
    requires q.workers != []
    ensures DeliverOnce(q).queued == q.queued
    ensures DeliverOnce(q).earlyChange == q.earlyChange && DeliverOnce(q).earlyProgress == q.earlyProgress
  {
  }

  /** A callback registered before the first event has received a prefix of the
      events of its kind, in queue order, and all of them once no deliverer
      runs. */
  lemma EarlyCallbacksMissNothing<S>(q: Queue<S>, k: nat)
    requires Inv(q)
    ensures k < q.earlyChange ==> q.onChange[k] <= Only(q.queued, false)
    ensures k < q.earlyProgress ==> q.onProgress[k] <= Only(q.queued, true)
    ensures k < q.earlyChange && q.workers == [] ==> q.onChange[k] == Only(q.queued, false)
    ensures k < q.earlyProgress && q.workers == [] ==> q.onProgress[k] == Only(q.queued, true)
  {
    if k < q.earlyChange { assert Served(q, q.onChange[k], false, k); }
    if k < q.earlyProgress { assert Served(q, q.onProgress[k], true, k); }
  }
}
