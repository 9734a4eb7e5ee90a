/** Provisioning and rotating over any length of time, with crashes: which
    digests the two files made a verifier accept, and since when. */
module RotationHistory {
  import opened Wrappers
  import Text
  import opened Bearer
  import opened Rotation
  import opened RotationRuns

  /** The contents from an instant on; given: the previous digests a
      provisioning configuration handed in by then. */
  datatype Entry = Entry(time: int, files: Files, given: set<(Class, string)>)

  /** times: when the changes of a call took place. A call with fewer times than
      changes died after the last of them. */
  datatype Event =
    | Rotated(req: Request, faults: Faults, times: seq<int>)
    | Provisioned(user: Given, admin: Given, minted: Option<string>, rest: string, now: int, faults: Faults,
                  times: seq<int>)

  function Now(e: Event): int {
    if e.Rotated? then e.req.now else e.now
  }

  /** What Materialize plans of the two files, nothing on an error. */
  function ProvisionPlan(f: Files, e: Event): seq<FileSpec>
    requires e.Provisioned?
  {
    if ValidatePair(e.user, e.now).Some? || ValidatePair(e.admin, e.now).Some? then []
    else if GatewayPath in f && !(e.faults.opens && f[GatewayPath].GatewayJson?) then []
    else
      var existing := if GatewayPath in f then Some(f[GatewayPath].gateway) else None;
      match ResolveUser(e.user, existing, e.minted)
      case None => []
      case Some(user) =>
        var admin := ResolveAdmin(e.admin, existing);
        [FileSpec(GatewayPath, GatewayJson(Gateway(user, admin, e.rest)))]
        + if admin.current != "" then [FileSpec(RootPath, RootJson(admin))] else []
  }

  function PlanOf(f: Files, e: Event): seq<FileSpec> {
    if e.Rotated? then Planned(f, e.req, e.faults) else ProvisionPlan(f, e)
  }

  function Trace(f: Files, e: Event): seq<Files> {
    if e.Rotated? then RotateDone(f, e.req, e.faults).trace else WriteAll(f, ProvisionPlan(f, e), e.faults.write).trace
  }

  function GivenBy(e: Event): set<(Class, string)> {
    if e.Rotated? then {}
    else
      (if e.user.previous != "" then {(User, e.user.previous)} else {})
      + (if e.admin.previous != "" then {(Admin, e.admin.previous)} else {})
  }

  function Extend(h: seq<Entry>, e: Event): (g: seq<Entry>)
    requires h != []
    ensures g != []
  {
    var trace := Trace(h[|h| - 1].files, e);
    h + seq(if |e.times| < |trace| then |e.times| else |trace|,
            k requires 0 <= k < |e.times| && k < |trace| => Entry(e.times[k], trace[k], GivenBy(e)))
  }

  function History(t0: int, es: seq<Event>): (h: seq<Entry>)
    ensures h != []
    decreases |es|
  {
    if es == [] then [Entry(t0, map[], {})] else Extend(History(t0, es[..|es| - 1]), es[|es| - 1])
  }

  /** The clock does not run backwards and has passed its first second; digests
      generated are well formed and new. */
  predicate EventOk(h: seq<Entry>, e: Event)
    requires h != []
  {
    var last := h[|h| - 1];
    last.time <= Now(e)
    && (forall k :: 0 <= k < |e.times| ==> Now(e) <= e.times[k])
    && (forall j, k :: 0 <= j < k < |e.times| ==> e.times[j] <= e.times[k])
    && (if e.Rotated? then
          e.req.digest.Some? ==> CheckDigest(e.req.digest.value) == None && IsNew(e.req.digest.value, last.files)
        else
          (e.minted.Some? ==> CheckDigest(e.minted.value) == None) && (e.user.until == 0 || e.user.until >= SECOND)
          && (e.admin.until == 0 || e.admin.until >= SECOND))
  }

  predicate AllOk(t0: int, es: seq<Event>)
    decreases |es|
  {
    if es == [] then t0 >= SECOND
    else AllOk(t0, es[..|es| - 1]) && EventOk(History(t0, es[..|es| - 1]), es[|es| - 1])
  }

  /** A rotation of a class that a file holds. */
  predicate Holds(f: Files, c: Class, r: Rotation) {
    !c.Unknown?
    && ((GatewayPath in f && f[GatewayPath].GatewayJson? && Of(f[GatewayPath].gateway, c) == r)
        || (c == Admin && RootPath in f && f[RootPath] == RootJson(r)))
  }

  predicate HoldsPlanned(s: FileSpec, c: Class, r: Rotation) {
    Holds(map[s.path := s.data], c, r)
  }

  predicate CurrentIn(f: Files, c: Class, d: string) {
    GatewayPath in f && f[GatewayPath].GatewayJson? && Of(f[GatewayPath].gateway, c).current == d
  }

  /** At s, which lies before entry i, the gateway's file named d as current. */
  predicate CurrentAt(h: seq<Entry>, i: nat, c: Class, d: string, s: int, j: nat) {
    j < i < |h| && h[j].time <= s <= h[j + 1].time && CurrentIn(h[j].files, c, d)
  }

  predicate GivenAt(h: seq<Entry>, i: nat, c: Class, d: string, s: int, j: nat) {
    j <= i < |h| && s <= h[j].time && (c, d) in h[j].given
  }

  predicate Reason(h: seq<Entry>, i: nat, c: Class, r: Rotation, s: int, j: nat) {
    i < |h| && s <= h[i].time && r.validUntil.At? && r.validUntil.seconds * SECOND <= s + DAY
    && (CurrentAt(h, i, c, r.previous, s, j) || GivenAt(h, i, c, r.previous, s, j))
  }

  ghost predicate Explained(h: seq<Entry>, i: nat, c: Class, r: Rotation) {
    r.previous != "" ==> exists s, j :: Reason(h, i, c, r, s, j)
  }

  predicate WellFormed(r: Rotation) {
    (r.current == "" ==> r == NONE) && (r.current != "" ==> CheckDigest(r.current) == None)
    && (if r.previous == "" then r.validUntil == NoStamp
        else CheckDigest(r.previous) == None && r.previous != r.current && r.validUntil.At? && r.validUntil.seconds > 0)
  }

  ghost predicate EntryInv(h: seq<Entry>, i: nat)
    requires i < |h|
  {
    h[i].time >= SECOND
    && (GatewayPath in h[i].files ==> h[i].files[GatewayPath].GatewayJson?)
    && (i > 0 ==> h[i - 1].time <= h[i].time)
    && forall c, r :: Holds(h[i].files, c, r) ==> WellFormed(r) && Explained(h, i, c, r)
  }

  ghost predicate Inv(h: seq<Entry>) {
    h != [] && forall i :: 0 <= i < |h| ==> EntryInv(h, i)
  }

  // ---------------------------------------------------------------------
  // What an event plans
  // ---------------------------------------------------------------------

  /** A rotation that a call plans is one the gateway's file holds already, or
      the class's own with what was current as its previous. */
  lemma RotatePlans(f: Files, req: Request, faults: Faults, s: FileSpec, c: Class, r: Rotation)
    requires s in Planned(f, req, faults) && HoldsPlanned(s, c, r)
    ensures GatewayPath in f && f[GatewayPath].GatewayJson? && req.digest.Some? && 0 <= req.overlap <= DAY
    ensures var g := f[GatewayPath].gateway;
            Of(g, c) == r
            || (c == req.class_ && r.current == req.digest.value
                && (r.previous == "" ==> r.validUntil == NoStamp)
                && (r.previous != "" ==>
                    r.previous == Of(g, c).current && r.validUntil == Format(req.now + req.overlap)))
  {}

  lemma ProvisionPlans(f: Files, e: Event, s: FileSpec, c: Class, r: Rotation)
    requires e.Provisioned? && s in ProvisionPlan(f, e) && HoldsPlanned(s, c, r)
    ensures var g := if c == Admin then e.admin else e.user;
            ValidatePair(g, e.now) == None
            && ((GatewayPath in f && f[GatewayPath].GatewayJson? && Of(f[GatewayPath].gateway, c) == r)
                || (g.hash != "" && r == RotationFromConfig(g))
                || (e.minted.Some? && r == Rotation(e.minted.value, "", NoStamp))
                || r == NONE)
  {}

  lemma FormatBounds(t: int)
    requires t >= SECOND
    ensures Format(t).seconds > 0 && Format(t).seconds * SECOND <= t
  {}

  lemma FromConfigIsWellFormed(g: Given, now: int)
    requires ValidatePair(g, now) == None && g.hash != "" && (g.until == 0 || g.until >= SECOND)
    ensures WellFormed(RotationFromConfig(g))
    ensures g.previous != "" ==>
              RotationFromConfig(g).validUntil.At? && RotationFromConfig(g).validUntil.seconds * SECOND <= now + DAY
  {
    if g.until != 0 { FormatBounds(g.until); }
    EmptyIsNoDigest();
  }

  lemma EmptyIsNoDigest()
    ensures CheckDigest("").Some?
  {}

  // ---------------------------------------------------------------------
  // The invariant
  // ---------------------------------------------------------------------

  lemma TraceOldOrPlanned(f: Files, e: Event)
    ensures forall k :: 0 <= k < |Trace(f, e)| ==> OldOrPlanned(Trace(f, e)[k], f, PlanOf(f, e))
  {
    if e.Rotated? {
      RotateOldOrPlanned(f, e.req, e.faults);
    } else {
      var specs := ProvisionPlan(f, e);
      Untouched(f, specs);
      assert [] + specs == specs;
      WritesOldOrPlanned(f, f, specs, [], e.faults.write);
    }
  }

  predicate Prefix(h: seq<Entry>, g: seq<Entry>) {
    |h| <= |g| && forall i :: 0 <= i < |h| ==> h[i] == g[i]
  }

  /** What was explained stays explained, also later. */
  lemma StaysExplained(h: seq<Entry>, g: seq<Entry>, i: nat, k: nat, c: Class, r: Rotation)
    requires Prefix(h, g) && i < |h| && i <= k < |g| && h[i].time <= g[k].time && Explained(h, i, c, r)
    ensures Explained(g, k, c, r)
  {
    if r.previous != "" {
      var s, j :| Reason(h, i, c, r, s, j);
      assert Reason(g, k, c, r, s, j);
    }
  }

  lemma HeldOrPlanned(now: Files, f: Files, specs: seq<FileSpec>, c: Class, r: Rotation)
    requires OldOrPlanned(now, f, specs) && Holds(now, c, r)
    ensures Holds(f, c, r) || exists s :: s in specs && HoldsPlanned(s, c, r)
  {
    if !Holds(f, c, r) {
      var byGateway := GatewayPath in now && now[GatewayPath].GatewayJson? && Of(now[GatewayPath].gateway, c) == r;
      var p := if byGateway then GatewayPath else RootPath;
      assert FileSpec(p, now[p]) in specs && HoldsPlanned(FileSpec(p, now[p]), c, r);
    }
  }

  /** The new contents of a file are well formed and explained at entry i. */
  lemma PlannedExplained(h: seq<Entry>, e: Event, g: seq<Entry>, i: nat, s: FileSpec, c: Class, r: Rotation)
    requires Inv(h) && EventOk(h, e) && Prefix(h, g) && |h| <= i < |g|
    requires g[|h|].time >= Now(e) && g[i].time >= Now(e) && g[i].time >= h[|h| - 1].time && g[i].given == GivenBy(e)
    requires s in PlanOf(h[|h| - 1].files, e) && HoldsPlanned(s, c, r)
    ensures WellFormed(r) && Explained(g, i, c, r)
  {
    var last := |h| - 1;
    var f := h[last].files;
    assert EntryInv(h, last);
    if GatewayPath in f && f[GatewayPath].GatewayJson? && Of(f[GatewayPath].gateway, c) == r {
      assert Holds(f, c, r);
      StaysExplained(h, g, last, i, c, r);
    } else if e.Rotated? {
      RotatePlans(f, e.req, e.faults, s, c, r);
      RotatedExplained(h, e, g, i, c, r);
    } else {
      ProvisionPlans(f, e, s, c, r);
      GivenExplained(e, g, i, c, r);
    }
  }

  lemma RotatedExplained(h: seq<Entry>, e: Event, g: seq<Entry>, i: nat, c: Class, r: Rotation)
    requires Inv(h) && EventOk(h, e) && Prefix(h, g) && |h| <= i < |g| && e.Rotated?
    requires g[|h|].time >= Now(e) && g[i].time >= Now(e) && !c.Unknown?
    requires var f := h[|h| - 1].files;
             GatewayPath in f && f[GatewayPath].GatewayJson? && e.req.digest.Some? && 0 <= e.req.overlap <= DAY
             && r.current == e.req.digest.value
             && (r.previous == "" ==> r.validUntil == NoStamp)
             && (r.previous != "" ==> r.previous == Of(f[GatewayPath].gateway, c).current
                                      && r.validUntil == Format(e.req.now + e.req.overlap))
    ensures WellFormed(r) && Explained(g, i, c, r)
  {
    var last := |h| - 1;
    var f := h[last].files;
    assert EntryInv(h, last);
    assert Holds(f, c, Of(f[GatewayPath].gateway, c));
    EmptyIsNoDigest();
    if r.previous != "" {
      FormatBounds(e.req.now + e.req.overlap);
      assert CurrentAt(g, i, c, r.previous, e.req.now, last);
      assert Reason(g, i, c, r, e.req.now, last);
    }
  }

  lemma GivenExplained(e: Event, g: seq<Entry>, i: nat, c: Class, r: Rotation)
    requires e.Provisioned? && i < |g| && g[i].given == GivenBy(e) && g[i].time >= e.now && !c.Unknown?
    requires e.minted.Some? ==> CheckDigest(e.minted.value) == None
    requires var a := if c == Admin then e.admin else e.user;
             ValidatePair(a, e.now) == None && (a.until == 0 || a.until >= SECOND)
             && ((a.hash != "" && r == RotationFromConfig(a)) ||
                 (e.minted.Some? && r == Rotation(e.minted.value, "", NoStamp)) || r == NONE)
    ensures WellFormed(r) && Explained(g, i, c, r)
  {
    EmptyIsNoDigest();
    var a := if c == Admin then e.admin else e.user;
    if a.hash != "" && r == RotationFromConfig(a) {
      FromConfigIsWellFormed(a, e.now);
      if r.previous != "" {
        assert GivenAt(g, i, c, r.previous, e.now, i);
        assert Reason(g, i, c, r, e.now, i);
      }
    }
  }

  lemma StepInv(h: seq<Entry>, e: Event)
    requires Inv(h) && EventOk(h, e)
    ensures Inv(Extend(h, e))
  {
    var g := Extend(h, e);
    forall i | 0 <= i < |g| ensures EntryInv(g, i) {
      if i < |h| {
        OldEntry(h, g, i);
      } else {
        NewEntry(h, e, i);
      }
    }
  }

  lemma OldEntry(h: seq<Entry>, g: seq<Entry>, i: nat)
    requires Inv(h) && Prefix(h, g) && i < |h|
    ensures EntryInv(g, i)
  {
    assert EntryInv(h, i);
    forall c, r | Holds(g[i].files, c, r) ensures WellFormed(r) && Explained(g, i, c, r) {
      StaysExplained(h, g, i, i, c, r);
    }
  }

  lemma ExtendAt(h: seq<Entry>, e: Event, i: nat)
    requires h != [] && |h| <= i < |Extend(h, e)|
    ensures var k, trace := i - |h|, Trace(h[|h| - 1].files, e);
            k < |e.times| && k < |trace| && Extend(h, e)[i] == Entry(e.times[k], trace[k], GivenBy(e))
    ensures Prefix(h, Extend(h, e))
  {
    hide Trace, GivenBy;
  }

  lemma TimeAt(h: seq<Entry>, e: Event, k: nat)
    requires h != [] && EventOk(h, e) && k < |e.times|
    ensures Now(e) <= e.times[k] && h[|h| - 1].time <= e.times[k] && (k > 0 ==> e.times[k - 1] <= e.times[k])
  {}

  /** A new entry: one of the contents of the trace, at its time. */
  lemma ExtendedBy(h: seq<Entry>, e: Event, i: nat)
    requires h != [] && EventOk(h, e) && |h| <= i < |Extend(h, e)|
    ensures var g := Extend(h, e);
            Prefix(h, g) && g[|h|].time >= Now(e) && g[i].time >= Now(e) && g[i].given == GivenBy(e)
            && g[i].time >= g[i - 1].time && OldOrPlanned(g[i].files, h[|h| - 1].files, PlanOf(h[|h| - 1].files, e))
  {
    hide Trace, PlanOf, OldOrPlanned, Extend, GivenBy, EventOk;
    var f := h[|h| - 1].files;
    var k := i - |h|;
    TraceOldOrPlanned(f, e);
    ExtendAt(h, e, i);
    ExtendAt(h, e, |h|);
    TimeAt(h, e, k);
    TimeAt(h, e, 0);
    if k > 0 { ExtendAt(h, e, i - 1); }
    assert OldOrPlanned(Trace(f, e)[k], f, PlanOf(f, e));
  }

  lemma NewEntry(h: seq<Entry>, e: Event, i: nat)
    requires Inv(h) && EventOk(h, e) && |h| <= i < |Extend(h, e)|
    ensures EntryInv(Extend(h, e), i)
  {
    ExtendedBy(h, e, i);
    hide Extend, OldOrPlanned, PlanOf, WellFormed, Explained, Holds, HoldsPlanned;
    var g := Extend(h, e);
    var last := |h| - 1;
    var f := h[last].files;
    assert EntryInv(h, last);
    GatewayStays(g[i].files, f, e);
    forall c, r | Holds(g[i].files, c, r) ensures WellFormed(r) && Explained(g, i, c, r) {
      HeldOrPlanned(g[i].files, f, PlanOf(f, e), c, r);
      if Holds(f, c, r) {
        StaysExplained(h, g, last, i, c, r);
      } else {
        var s :| s in PlanOf(f, e) && HoldsPlanned(s, c, r);
        PlannedExplained(h, e, g, i, s, c, r);
      }
    }
  }

  lemma GatewayStays(now: Files, f: Files, e: Event)
    requires OldOrPlanned(now, f, PlanOf(f, e)) && (GatewayPath in f ==> f[GatewayPath].GatewayJson?)
    ensures GatewayPath in now ==> now[GatewayPath].GatewayJson?
  {}

  lemma {:induction false} HistoryInv(t0: int, es: seq<Event>)
    requires AllOk(t0, es)
    ensures Inv(History(t0, es))
    decreases |es|
  {
    if es != [] {
      HistoryInv(t0, es[..|es| - 1]);
      StepInv(History(t0, es[..|es| - 1]), es[|es| - 1]);
    }
  }

  // ---------------------------------------------------------------------
  // What verifiers accept
  // ---------------------------------------------------------------------

  /** A service that loads a rotation from either file at any later time can: no
      call, failed, rolled back or cut short, leaves one that a verifier refuses. */
  lemma AlwaysLoads(t0: int, es: seq<Event>, i: nat, c: Class, r: Rotation, t: int)
    requires AllOk(t0, es) && i < |History(t0, es)| && Holds(History(t0, es)[i].files, c, r)
    requires r.current != "" && t >= History(t0, es)[i].time
    ensures AuthRotation(r).Ok? && Validate(AuthRotation(r).value, t) == None
  {
    HistoryInv(t0, es);
    var h := History(t0, es);
    assert EntryInv(h, i);
    hide History, AllOk, Holds, CheckDigest, CurrentAt, GivenAt;
    assert Explained(h, i, c, r) && WellFormed(r);
  }

  lemma UnusableLoads(t: int)
    ensures Validate(RotationConfig(UNUSABLE, "", 0), t) == None
  {
    assert UNUSABLE[|DIGEST_PREFIX|..] == Text.Repeated('0', 64);
  }

  /** At any later time the gateway builds its verifier from its file, and the
      root helper from its own. */
  lemma ServicesStart(t0: int, es: seq<Event>, i: nat, t: int)
    requires AllOk(t0, es) && i < |History(t0, es)| && t >= History(t0, es)[i].time
    ensures var f := History(t0, es)[i].files;
            && (GatewayPath in f && f[GatewayPath].GatewayJson? ==>
                  var g := f[GatewayPath].gateway;
                  && ResolveRotation(g.user).Ok? && ResolveRotation(g.admin).Ok?
                  && NewVerifier(ResolveRotation(g.user).value, ResolveRotation(g.admin).value, t).Ok?)
            && (RootPath in f && f[RootPath].RootJson? ==>
                  var r := ResolveRotation(f[RootPath].admin);
                  r.Ok? && NewVerifier(RotationConfig(UNUSABLE, "", 0), r.value, t).Ok?)
  {
    UnusableLoads(t);
    var f := History(t0, es)[i].files;
    forall c, r | Holds(f, c, r) ensures ResolveRotation(r).Ok? && Validate(ResolveRotation(r).value, t) == None {
      if r.current != "" { AlwaysLoads(t0, es, i, c, r, t); }
    }
    hide Validate, History, AllOk, ResolveRotation;
    if GatewayPath in f && f[GatewayPath].GatewayJson? {
      var g := f[GatewayPath].gateway;
      assert Holds(f, User, g.user) && Holds(f, Admin, g.admin);
    }
    if RootPath in f && f[RootPath].RootJson? {
      assert Holds(f, Admin, f[RootPath].admin);
    }
  }

  /** A digest that one of the files makes a service accept, at most two at a time,
      is the current one of that file, or it was the gateway's current one, or was
      handed in by a provisioning configuration, within the last 24 hours. */
  lemma AcceptedWasCurrent(t0: int, es: seq<Event>, i: nat, c: Class, r: Rotation, t: int, d: string)
    requires AllOk(t0, es) && i < |History(t0, es)| && Holds(History(t0, es)[i].files, c, r)
    requires t >= History(t0, es)[i].time
    requires AuthRotation(r).Ok? && d in Accepted(AuthRotation(r).value, t)
    ensures |Accepted(AuthRotation(r).value, t)| <= 2
    ensures d == r.current || Lately(History(t0, es), i, c, d, t)
  {
    HistoryInv(t0, es);
    var h := History(t0, es);
    assert EntryInv(h, i);
    hide History, AllOk, Holds, CheckDigest, CurrentAt, GivenAt;
    assert Explained(h, i, c, r) && WellFormed(r);
    if d != r.current {
      var s, j :| Reason(h, i, c, r, s, j);
      assert CurrentAt(h, i, c, d, s, j) || GivenAt(h, i, c, d, s, j);
    }
  }

  /** d was the gateway's current digest, or was handed in, in the last 24 hours. */
  ghost predicate Lately(h: seq<Entry>, i: nat, c: Class, d: string, t: int) {
    exists s, j :: t - DAY <= s <= t && (CurrentAt(h, i, c, d, s, j) || GivenAt(h, i, c, d, s, j))
  }

  // ---------------------------------------------------------------------
  // The root helper's own file
  // ---------------------------------------------------------------------

  /** Planned contents of the root file are in place only after the gateway's. */
  lemma RootAfterGateway(f: Files, e: Event, k: nat)
    requires k < |Trace(f, e)| && RootPath in Trace(f, e)[k] &&
              !(RootPath in f && f[RootPath] == Trace(f, e)[k][RootPath])
    ensures Trace(f, e)[k][RootPath].RootJson?
    ensures GatewayPath in Trace(f, e)[0] && Trace(f, e)[0][GatewayPath].GatewayJson?
    ensures Trace(f, e)[0][GatewayPath].gateway.admin == Trace(f, e)[k][RootPath].admin
  {
    TraceOldOrPlanned(f, e);
    var specs := PlanOf(f, e);
    assert OldOrPlanned(Trace(f, e)[k], f, specs);
    PlannedPair(f, e);
    assert FileSpec(RootPath, Trace(f, e)[k][RootPath]) in specs;
    hide PlanOf;
    assert specs == [specs[0], specs[1]];
    TraceOfPair(f, e, k);
  }

  /** Two files are planned together: the gateway's first, with the same rotation. */
  lemma PlannedPair(f: Files, e: Event)
    ensures var specs := PlanOf(f, e);
            && |specs| <= 2 && (|specs| >= 1 ==> specs[0].path == GatewayPath && specs[0].data.GatewayJson?)
            && (|specs| == 2 ==> specs[1].path == RootPath && specs[1].data == RootJson(specs[0].data.gateway.admin))
  {
  }

  /** When the first of two writes fails, no file but the gateway's was touched;
      otherwise it is in place after the first change. */
  lemma TraceOfPair(f: Files, e: Event, k: nat)
    requires var specs := PlanOf(f, e);
             |specs| == 2 && specs[0].path == GatewayPath && specs[1].path == RootPath
    requires k < |Trace(f, e)| && RootPath in Trace(f, e)[k] &&
              !(RootPath in f && f[RootPath] == Trace(f, e)[k][RootPath])
    ensures Trace(f, e)[0] == f[GatewayPath := PlanOf(f, e)[0].data]
  {
    if !e.faults.write(GatewayPath).Written? {
      FirstFailed(f, e, k);
      assert false;
    }
  }

  lemma FirstFailed(f: Files, e: Event, k: nat)
    requires var specs := PlanOf(f, e); |specs| == 2 && specs[0].path == GatewayPath
    requires k < |Trace(f, e)| && !e.faults.write(GatewayPath).Written?
    ensures OldOrPlanned(Trace(f, e)[k], f, [PlanOf(f, e)[0]])
  {
    var specs := PlanOf(f, e);
    var w := WriteAll(f, specs, e.faults.write);
    var one := [specs[0]];
    assert w.trace == [Write(f, specs[0], e.faults.write(GatewayPath))];
    assert OldOrPlanned(w.trace[0], f, one);
    if e.Rotated? {
      var snaps := TakeSnapshots(f, specs, e.faults.readable);
      TakenAreSnapshots(f, specs, e.faults.readable);
      RollbackOldOrPlanned(w.trace[0], f, one, snaps, e.faults);
      assert Trace(f, e) == w.trace + RollbackTrace(w.trace[0], snaps, e.faults);
    }
  }

  /** The root file holds an admin rotation that the gateway's file has held. */
  ghost predicate RootKnown(h: seq<Entry>, i: nat)
    requires i < |h|
  {
    RootPath in h[i].files ==>
      h[i].files[RootPath].RootJson?
      && exists j :: 0 <= j <= i && GatewayHolds(h[j].files, h[i].files[RootPath].admin)
  }

  predicate GatewayHolds(f: Files, r: Rotation) {
    GatewayPath in f && f[GatewayPath].GatewayJson? && f[GatewayPath].gateway.admin == r
  }

  lemma RootKnownLater(h: seq<Entry>, g: seq<Entry>, i: nat, k: nat)
    requires Prefix(h, g) && i < |h| && i <= k < |g| && RootKnown(h, i)
    requires RootPath in g[k].files ==> RootPath in h[i].files && g[k].files[RootPath] == h[i].files[RootPath]
    ensures RootKnown(g, k)
  {
    hide Holds, GatewayHolds;
    if RootPath in g[k].files {
      var r := h[i].files[RootPath].admin;
      var j :| 0 <= j <= i && GatewayHolds(h[j].files, r);
      assert GatewayHolds(g[j].files, r);
    }
  }

  lemma RootKnownStep(h: seq<Entry>, e: Event, i: nat)
    requires h != [] && |h| <= i < |Extend(h, e)| && RootKnown(h, |h| - 1)
    ensures RootKnown(Extend(h, e), i)
  {
    var g := Extend(h, e);
    var last := |h| - 1;
    var f := h[last].files;
    ExtendAt(h, e, i);
    ExtendAt(h, e, |h|);
    hide Extend, Trace, RootKnown;
    if RootPath in g[i].files && !(RootPath in f && f[RootPath] == g[i].files[RootPath]) {
      RootAfterGateway(f, e, i - |h|);
      RootKnownNow(g, i, |h|);
    } else {
      RootKnownLater(h, g, last, i);
    }
  }

  lemma RootKnownNow(g: seq<Entry>, i: nat, j: nat)
    requires j <= i < |g| && RootPath in g[i].files && g[i].files[RootPath].RootJson?
    requires GatewayHolds(g[j].files, g[i].files[RootPath].admin)
    ensures RootKnown(g, i)
  {
  }

  lemma {:induction false} RootHistory(t0: int, es: seq<Event>)
    ensures forall i :: 0 <= i < |History(t0, es)| ==> RootKnown(History(t0, es), i)
    decreases |es|
  {
    if es != [] {
      var front, e := es[..|es| - 1], es[|es| - 1];
      RootHistory(t0, front);
      var h := History(t0, front);
      hide RootKnown, Extend;
      forall i | 0 <= i < |Extend(h, e)| ensures RootKnown(Extend(h, e), i) {
        if i < |h| {
          ExtendPrefix(h, e);
          RootKnownLater(h, Extend(h, e), i, i);
        } else {
          RootKnownStep(h, e, i);
        }
      }
    }
  }

  lemma ExtendPrefix(h: seq<Entry>, e: Event)
    requires h != []
    ensures Prefix(h, Extend(h, e))
  {
    hide Trace, GivenBy;
  }

  /** What the root helper accepts from its own file: while the files agree, the
      gateway's current digest and what was current or handed in within 24 hours;
      after a crash or a failed restore between the two files also its own current
      digest, which the gateway's file has named as current but which does not
      expire until the files agree again. */
  lemma RootAcceptsWhatGatewayHeld(t0: int, es: seq<Event>, i: nat, t: int, d: string)
    requires AllOk(t0, es) && i < |History(t0, es)| && t >= History(t0, es)[i].time
    requires d in AdminAccepted(History(t0, es)[i].files, RootPath, t)
    ensures var h := History(t0, es);
            && (Lately(h, i, Admin, d, t) || exists j :: 0 <= j <= i && CurrentIn(h[j].files, Admin, d))
            && (Agree(h[i].files) && AdminProvisioned(h[i].files) ==>
                  Lately(h, i, Admin, d, t) || CurrentIn(h[i].files, Admin, d))
  {
    RootHistory(t0, es);
    HistoryInv(t0, es);
    var h := History(t0, es);
    var f := h[i].files;
    assert RootKnown(h, i) && EntryInv(h, i);
    var r := f[RootPath].admin;
    assert Holds(f, Admin, r);
    AcceptedWasCurrent(t0, es, i, Admin, r, t, d);
    hide History, AllOk, AuthRotation, Lately, EntryInv;
    var j :| 0 <= j <= i && GatewayHolds(h[j].files, r);
    if d == r.current { assert CurrentIn(h[j].files, Admin, d); }
  }

  // ---------------------------------------------------------------------
  // Provisioning again
  // ---------------------------------------------------------------------

  /** Provisioning over persisted state never rotates trust: a class for which
      the configuration names no digest keeps its rotation, at every instant and
      whatever fails. */
  lemma ProvisioningKeepsTrust(f: Files, e: Event, k: nat, c: Class)
    requires e.Provisioned? && k < |Trace(f, e)| && !c.Unknown?
    requires GatewayPath in f && f[GatewayPath].GatewayJson? && Of(f[GatewayPath].gateway, c).current != ""
    requires (if c == Admin then e.admin else e.user).hash == ""
    ensures var g := Trace(f, e)[k];
            GatewayPath in g && g[GatewayPath].GatewayJson? &&
                Of(g[GatewayPath].gateway, c) == Of(f[GatewayPath].gateway, c)
  {
    NeverRemoved(f, ProvisionPlan(f, e), e.faults.write, k);
    TraceOldOrPlanned(f, e);
    hide Trace, ValidatePair;
    assert OldOrPlanned(Trace(f, e)[k], f, PlanOf(f, e));
  }

  /** Exactly when provisioning gets to write: both pairs are in order, the gateway's
      file can be read if there is one, and there is a user digest, configured,
      persisted or generated. */
  lemma ProvisionsExactly(f: Files, e: Event)
    requires e.Provisioned?
    ensures Trace(f, e) != [] <==>
              && ValidatePair(e.user, e.now) == None && ValidatePair(e.admin, e.now) == None
              && (GatewayPath in f ==> e.faults.opens && f[GatewayPath].GatewayJson?)
              && (e.user.hash != "" || e.minted.Some?
                  || (GatewayPath in f && f[GatewayPath].gateway.user.current != ""))
  {
    hide ValidatePair;
    var specs := ProvisionPlan(f, e);
    assert Trace(f, e) != [] <==> specs != [];
  }

  /** The first provisioning without a user digest makes the generated one current;
      an admin bearer is never generated. */
  lemma ProvisioningMints(f: Files, e: Event)
    requires e.Provisioned? && Trace(f, e) != [] && !e.faults.write(GatewayPath).NotWritten?
    requires e.user.hash == "" && e.admin.hash == "" && GatewayPath !in f
    ensures var g := Trace(f, e)[0];
            && e.minted.Some?
            && GatewayPath in g
            && g[GatewayPath] == GatewayJson(Gateway(Rotation(e.minted.value, "", NoStamp), NONE, e.rest))
            && |Trace(f, e)| == 1
  {
    hide ValidatePair;
    var specs := ProvisionPlan(f, e);
    assert |specs| == 1 && specs[1..] == [];
    assert Trace(f, e)[0] == Write(f, specs[0], e.faults.write(GatewayPath));
  }

  /** A class for which it names one is given exactly what was named, by the first
      write that takes. */
  lemma ProvisioningAdopts(f: Files, e: Event, c: Class)
    requires e.Provisioned? && !c.Unknown? && Trace(f, e) != [] && !e.faults.write(GatewayPath).NotWritten?
    requires (if c == Admin then e.admin else e.user).hash != ""
    ensures var (g, given) := (Trace(f, e)[0], if c == Admin then e.admin else e.user);
            && GatewayPath in g && g[GatewayPath].GatewayJson?
            && Of(g[GatewayPath].gateway, c) == Rotation(given.hash, given.previous,
                                                         if given.until == 0 then NoStamp else At(given.until / SECOND))
            && g[GatewayPath].gateway.rest == e.rest
  {
    var specs := ProvisionPlan(f, e);
    assert specs != [] && specs[0].path == GatewayPath;
    assert Trace(f, e)[0] == Write(f, specs[0], e.faults.write(GatewayPath));
    hide ValidatePair;
  }

  /** Writes alone remove no file. */
  lemma {:induction false} NeverRemoved(f: Files, specs: seq<FileSpec>, write: Path -> Fate, k: nat)
    requires k < |WriteAll(f, specs, write).trace|
    ensures forall p :: p in f ==> p in WriteAll(f, specs, write).trace[k]
    decreases |specs|
  {
    if k > 0 {
      NeverRemoved(Write(f, specs[0], write(specs[0].path)), specs[1..], write, k - 1);
    }
  }

  // ---------------------------------------------------------------------
  // Agreement at rest
  // ---------------------------------------------------------------------

  /** No crash; what a rotation rolls back is put back; provisioning does not
      stop between the two files. */
  predicate Clean(f: Files, e: Event) {
    |e.times| >= |Trace(f, e)|
    && (if e.Rotated? then forall p :: e.faults.readable(p) && !e.faults.restore(p).NotWritten?
        else e.faults.write(GatewayPath).NotWritten?
             || (e.faults.write(GatewayPath).Written? && !e.faults.write(RootPath).NotWritten?))
  }

  predicate AllClean(t0: int, es: seq<Event>)
    decreases |es|
  {
    es == [] || (AllClean(t0, es[..|es| - 1]) && Clean(Rest(t0, es[..|es| - 1]), es[|es| - 1]))
  }

  /** The files after the last event. */
  function Rest(t0: int, es: seq<Event>): Files {
    var h := History(t0, es);
    h[|h| - 1].files
  }

  lemma ExtendLast(h: seq<Entry>, e: Event)
    requires h != [] && |e.times| >= |Trace(h[|h| - 1].files, e)|
    ensures var g := Extend(h, e); g[|g| - 1].files == Last(h[|h| - 1].files, Trace(h[|h| - 1].files, e))
  {
    hide Trace, GivenBy;
  }

  lemma ProvisionAgrees(f: Files, e: Event)
    requires e.Provisioned? && Agree(f) && Clean(f, e)
    ensures Agree(Last(f, Trace(f, e)))
  {
    var specs := ProvisionPlan(f, e);
    if |specs| == 2 {
      assert specs == [specs[0], specs[1]] && specs[1..] == [specs[1]] && specs[1..][1..] == [];
      if e.faults.write(GatewayPath).Written? {
        var g := f[GatewayPath := specs[0].data];
        assert WriteAll(g, [specs[1]], e.faults.write).trace == [g[RootPath := specs[1].data]];
        assert Trace(f, e) == [g] + [g[RootPath := specs[1].data]];
      } else {
        assert Trace(f, e) == [f];
      }
    } else if |specs| == 1 {
      assert specs == [specs[0]] && specs[1..] == [];
    }
  }

  /** Over any sequence of provisionings and rotations, failed and rolled back
      ones included, in which restoring writes succeed and nothing crashes
      between the two files, the gateway and the root helper agree at rest. */
  lemma {:induction false} AgreesAtRest(t0: int, es: seq<Event>)
    requires AllOk(t0, es) && AllClean(t0, es)
    ensures Agree(Rest(t0, es))
    decreases |es|
  {
    if es != [] {
      var front, e := es[..|es| - 1], es[|es| - 1];
      AgreesAtRest(t0, front);
      var h := History(t0, front);
      ExtendLast(h, e);
      if e.Rotated? {
        EmptyIsNoDigest();
        RollbackKeepsAgreement(Rest(t0, front), e.req, e.faults);
      } else {
        ProvisionAgrees(Rest(t0, front), e);
      }
    }
  }
}
