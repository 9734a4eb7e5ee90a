/** Rotations over time: what a failed call leaves, whether the gateway and the
    root helper agree, and which digests were accepted when. */
module RotationRuns {
  import opened Wrappers
  import opened Arith
  import opened Bearer
  import opened Rotation

  // ---------------------------------------------------------------------
  // Contents are the old or the planned ones
  // ---------------------------------------------------------------------

  /** Everything f holds was in was, or is planned. */
  ghost predicate OldOrPlanned(f: Files, was: Files, specs: seq<FileSpec>) {
    forall p :: p in f ==> (p in was && f[p] == was[p]) || FileSpec(p, f[p]) in specs
  }

  lemma {:induction false} WritesOldOrPlanned(f: Files, was: Files, specs: seq<FileSpec>, done: seq<FileSpec>,
                                              write: Path -> Fate)
    requires OldOrPlanned(f, was, done + specs)
    ensures forall k :: 0 <= k < |WriteAll(f, specs, write).trace| ==>
              OldOrPlanned(WriteAll(f, specs, write).trace[k], was, done + specs)
    decreases |specs|
  {
    if specs != [] {
      var g := Write(f, specs[0], write(specs[0].path));
      assert done + specs == (done + [specs[0]]) + specs[1..];
      assert specs[0] in done + specs;
      WritesOldOrPlanned(g, was, specs[1..], done + [specs[0]], write);
    }
  }

  /** Snapshots of was: what they restore, was held. */
  predicate SnapshotsOf(snaps: seq<Snapshot>, was: Files) {
    forall k :: 0 <= k < |snaps| ==>
        (snaps[k].existed ==> snaps[k].spec.path in was && snaps[k].data == was[snaps[k].spec.path])
  }

  lemma {:induction false} TakenAreSnapshots(f: Files, specs: seq<FileSpec>, readable: Path -> bool)
    ensures SnapshotsOf(TakeSnapshots(f, specs, readable), f)
  {
    if specs != [] { TakenAreSnapshots(f, specs[1..], readable); }
  }

  lemma {:induction false} RollbackOldOrPlanned(f: Files, was: Files, specs: seq<FileSpec>, snaps: seq<Snapshot>,
                                                faults: Faults)
    requires OldOrPlanned(f, was, specs) && SnapshotsOf(snaps, was)
    ensures forall k :: 0 <= k < |snaps| ==> OldOrPlanned(RollbackTrace(f, snaps, faults)[k], was, specs)
    decreases |snaps|
  {
    if snaps != [] {
      RollbackOldOrPlanned(RollOne(f, snaps[0], faults), was, specs, snaps[1..], faults);
    }
  }

  function Planned(f: Files, req: Request, faults: Faults): seq<FileSpec> {
    match Plan(f, req, faults)
    case Err(_) => []
    case Ok(specs) => specs
  }

  /** At every instant of a call, crash or not, a file holds its old contents,
      the planned ones, or is gone. */
  lemma RotateOldOrPlanned(f: Files, req: Request, faults: Faults)
    ensures forall k :: 0 <= k < |RotateDone(f, req, faults).trace| ==>
              OldOrPlanned(RotateDone(f, req, faults).trace[k], f, Planned(f, req, faults))
  {
    hide Plan, OldOrPlanned;
    match Plan(f, req, faults)
    case Err(_) =>
    case Ok(specs) =>
      var w := WriteAll(f, specs, faults.write);
      assert OldOrPlanned(f, f, specs) by { Untouched(f, specs); }
      assert [] + specs == specs;
      WritesOldOrPlanned(f, f, specs, [], faults.write);
      TakenAreSnapshots(f, specs, faults.readable);
      RollbackOldOrPlanned(Last(f, w.trace), f, specs, TakeSnapshots(f, specs, faults.readable), faults);
  }

  lemma Untouched(f: Files, specs: seq<FileSpec>)
    ensures OldOrPlanned(f, f, specs)
  {}

  // ---------------------------------------------------------------------
  // One call
  // ---------------------------------------------------------------------

  /** The digest generated is no digest in use: 256 random bits, hashed. */
  predicate IsNew(d: string, f: Files) {
    (GatewayPath in f && f[GatewayPath].GatewayJson? ==>
     d != f[GatewayPath].gateway.user.current && d != f[GatewayPath].gateway.admin.current)
    && (RootPath in f && f[RootPath].RootJson? ==> d != f[RootPath].admin.current)
  }

  /** Whether the new contents of a planned file were put in place. */
  predicate Placed(p: Path, faults: Faults) {
    match p
    case GatewayPath => !faults.write(GatewayPath).NotWritten?
    case RootPath => faults.write(GatewayPath).Written? && !faults.write(RootPath).NotWritten?
  }

  datatype Version = Prior | New | Gone

  /** What the rollback leaves of a planned file. */
  function LeftAs(f: Files, p: Path, faults: Faults): Version {
    if p in f && faults.readable(p) then
      if Placed(p, faults) && faults.restore(p).NotWritten? then New else Prior
    else if faults.removed(p) then
      if p in f then Gone else Prior
    else if Placed(p, faults) then New
    else Prior
  }

  predicate IsVersion(now: Files, f: Files, s: FileSpec, v: Version) {
    match v
    case Prior => (s.path in now <==> s.path in f) && (s.path in f ==> now[s.path] == f[s.path])
    case New => s.path in now && now[s.path] == s.data
    case Gone => s.path !in now
  }

  function After(f: Files, req: Request, faults: Faults): Files {
    Last(f, RotateDone(f, req, faults).trace)
  }

  predicate RolledBack(f: Files, req: Request, faults: Faults) {
    RotateDone(f, req, faults).result in {Err(WriteFailed), Err(ReloadFailed)}
  }

  /** After a rollback each planned file is as LeftAs says, the others as before. */
  lemma RollbackLeaves(f: Files, req: Request, faults: Faults)
    requires RolledBack(f, req, faults)
    ensures var specs := Planned(f, req, faults);
            (forall s :: s in specs ==> IsVersion(After(f, req, faults), f, s, LeftAs(f, s.path, faults)))
            && (|specs| == 1 ==> After(f, req, faults) - {GatewayPath} == f - {GatewayPath})
  {
    var specs := Planned(f, req, faults);
    PlanShape(f, req, faults);
    var w := WriteAll(f, specs, faults.write);
    var snaps := TakeSnapshots(f, specs, faults.readable);
    LastOfBoth(f, w.trace, RollbackTrace(Last(f, w.trace), snaps, faults));
    hide Plan, LeftAs, IsVersion;
    if |specs| == 1 {
      assert specs == [specs[0]];
      OneFile(f, specs[0], faults);
    } else {
      assert specs == [specs[0], specs[1]];
      TwoFiles(f, specs[0], specs[1], faults);
    }
  }

  lemma LastOfBoth(f: Files, a: seq<Files>, b: seq<Files>)
    ensures Last(f, a + b) == Last(Last(f, a), b)
  {}

  lemma PlanShape(f: Files, req: Request, faults: Faults)
    ensures var specs := Planned(f, req, faults);
            specs == [] || (|specs| == 1 && specs[0].path == GatewayPath && req.class_ == User)
            || (|specs| == 2 && specs[0].path == GatewayPath && specs[1].path == RootPath && req.class_ == Admin)
    ensures Plan(f, req, faults).Ok? ==> Planned(f, req, faults) != []
    ensures RotateDone(f, req, faults).result.Ok? || RolledBack(f, req, faults) <==> Plan(f, req, faults).Ok?
  {}

  /** The snapshot of one planned file. */
  function SnapshotOf(f: Files, s: FileSpec, faults: Faults): Snapshot {
    var there := s.path in f && faults.readable(s.path);
    Snapshot(s, there, if there then f[s.path] else Corrupt)
  }

  function WrittenAs(p: Path, faults: Faults): Version {
    if Placed(p, faults) then New else Prior
  }

  lemma RollPath(w: Files, f: Files, s: FileSpec, faults: Faults)
    requires IsVersion(w, f, s, WrittenAs(s.path, faults))
    ensures var g := RollOne(w, SnapshotOf(f, s, faults), faults);
            IsVersion(g, f, s, LeftAs(f, s.path, faults)) && g - {s.path} == w - {s.path}
  {}

  /** A version is a matter of the file's own path. */
  lemma VersionElsewhere(w: Files, g: Files, f: Files, s: FileSpec, v: Version, p: Path)
    requires IsVersion(w, f, s, v) && g - {p} == w - {p} && p != s.path
    ensures IsVersion(g, f, s, v)
  {
    assert s.path in g <==> s.path in g - {p};
    assert s.path in w <==> s.path in w - {p};
    if s.path in w { assert (g - {p})[s.path] == (w - {p})[s.path]; }
  }

  lemma OneFile(f: Files, s: FileSpec, faults: Faults)
    requires s.path == GatewayPath
    ensures var w := Last(f, WriteAll(f, [s], faults.write).trace);
            var now := Last(w, RollbackTrace(w, TakeSnapshots(f, [s], faults.readable), faults));
            IsVersion(now, f, s, LeftAs(f, s.path, faults)) && now - {s.path} == f - {s.path}
  {
    assert [s][1..] == [];
    var g := Write(f, s, faults.write(s.path));
    assert Last(f, WriteAll(f, [s], faults.write).trace) == g;
    var t := TakeSnapshots(f, [s], faults.readable);
    assert t == [SnapshotOf(f, s, faults)] && t[1..] == [];
    assert RollbackTrace(g, t, faults) == [RollOne(g, t[0], faults)];
    RollPath(g, f, s, faults);
  }

  lemma TwoWrites(f: Files, a: FileSpec, b: FileSpec, faults: Faults)
    requires a.path == GatewayPath && b.path == RootPath
    ensures var w := Last(f, WriteAll(f, [a, b], faults.write).trace);
            IsVersion(w, f, a, WrittenAs(a.path, faults)) && IsVersion(w, f, b, WrittenAs(b.path, faults))
  {
    assert [a, b][1..] == [b] && [b][1..] == [];
    var g := Write(f, a, faults.write(a.path));
    var h := Write(g, b, faults.write(b.path));
    assert WriteAll(g, [b], faults.write).trace == [h];
    assert WriteAll(f, [a, b], faults.write).trace == [g] + if faults.write(a.path).Written? then [h] else [];
  }

  lemma TwoRollbacks(w: Files, f: Files, a: FileSpec, b: FileSpec, faults: Faults)
    ensures var snaps := TakeSnapshots(f, [a, b], faults.readable);
            Last(w, RollbackTrace(w, snaps, faults)) ==
            RollOne(RollOne(w, SnapshotOf(f, a, faults), faults), SnapshotOf(f, b, faults), faults)
  {
    var x, y := SnapshotOf(f, a, faults), SnapshotOf(f, b, faults);
    assert [a, b][1..] == [b] && [b][1..] == [];
    assert TakeSnapshots(f, [b], faults.readable) == [y];
    assert TakeSnapshots(f, [a, b], faults.readable) == [x] + [y] == [x, y];
    assert [x, y][1..] == [y] && [y][1..] == [];
    var g := RollOne(w, x, faults);
    assert RollbackTrace(g, [y], faults) == [RollOne(g, y, faults)];
    assert RollbackTrace(w, [x, y], faults) == [g] + RollbackTrace(g, [y], faults);
  }

  lemma TwoFiles(f: Files, a: FileSpec, b: FileSpec, faults: Faults)
    requires a.path == GatewayPath && b.path == RootPath
    ensures var w := Last(f, WriteAll(f, [a, b], faults.write).trace);
            var now := Last(w, RollbackTrace(w, TakeSnapshots(f, [a, b], faults.readable), faults));
            IsVersion(now, f, a, LeftAs(f, a.path, faults)) && IsVersion(now, f, b, LeftAs(f, b.path, faults))
  {
    var w := Last(f, WriteAll(f, [a, b], faults.write).trace);
    TwoWrites(f, a, b, faults);
    TwoRollbacks(w, f, a, b, faults);
    hide IsVersion, LeftAs, WrittenAs, WriteAll, RollbackTrace, TakeSnapshots, RollOne, SnapshotOf;
    var g := RollOne(w, SnapshotOf(f, a, faults), faults);
    RollPath(w, f, a, faults);
    VersionElsewhere(w, g, f, b, WrittenAs(b.path, faults), a.path);
    RollPath(g, f, b, faults);
    VersionElsewhere(g, RollOne(g, SnapshotOf(f, b, faults), faults), f, a, LeftAs(f, a.path, faults), b.path);
  }

  /** A failed call leaves every file as it was exactly when each file it was to
      write was put back: then the new bearer, which is never shown, is worth
      nothing. */
  lemma FailureRestores(f: Files, req: Request, faults: Faults)
    requires RolledBack(f, req, faults) && req.digest.Some? && IsNew(req.digest.value, f)
    ensures After(f, req, faults) == f <==>
              forall s :: s in Planned(f, req, faults) ==> LeftAs(f, s.path, faults) == Prior
  {
    PlanShape(f, req, faults);
    RollbackLeaves(f, req, faults);
    NewIsDifferent(f, req, faults);
    var specs := Planned(f, req, faults);
    assert specs != [];
    hide RolledBack, Plan, Planned, IsNew, LeftAs, RotateDone;
    var now := After(f, req, faults);
    if forall s :: s in specs ==> LeftAs(f, s.path, faults) == Prior {
      forall p ensures (p in now <==> p in f) && (p in f ==> now[p] == f[p]) {
        assert IsVersion(now, f, specs[0], Prior);
        match p {
          case GatewayPath =>
          case RootPath =>
            if |specs| == 1 { SameOutside(now, f, GatewayPath, p); } else { assert IsVersion(now, f, specs[1], Prior); }
        }
      }
      assert now.Keys == f.Keys;
    }
    if now == f {
      forall s | s in specs ensures LeftAs(f, s.path, faults) == Prior {
        GoneIsDifferent(f, s.path, faults);
      }
    }
  }

  /** It does happen that a rollback makes things worse: the gateway's file cannot
      be read for the snapshot, the reload fails, and the rollback removes the file
      with all its other contents. */
  lemma UnreadableSnapshotRemoves(gw: Gateway, digest: string)
    ensures var f := map[GatewayPath := GatewayJson(gw)];
            var req := Request(User, 0, 0, Some(digest), false);
            var faults := Faults(true, p => false, p => Written, p => Written, p => true);
            RotateDone(f, req, faults).result == Err(ReloadFailed) && After(f, req, faults) == map[]
  {
    var f := map[GatewayPath := GatewayJson(gw)];
    var req := Request(User, 0, 0, Some(digest), false);
    var faults := Faults(true, p => false, p => Written, p => Written, p => true);
    var specs := Planned(f, req, faults);
    PlanShape(f, req, faults);
    assert |specs| == 1 && specs[1..] == [];
    var g := Write(f, specs[0], Written);
    assert faults.write(specs[0].path) == Written;
    assert WriteAll(g, [], faults.write) == Writes([], true);
    assert WriteAll(f, specs, faults.write) == Writes([g] + [], true);
    RollbackLeaves(f, req, faults);
    assert IsVersion(After(f, req, faults), f, specs[0], Gone);
    var now := After(f, req, faults);
    assert now - {GatewayPath} == map[];
    assert forall p :: p in now ==> p in now - {GatewayPath};
  }

  lemma SameOutside(a: Files, b: Files, x: Path, p: Path)
    requires a - {x} == b - {x} && p != x
    ensures (p in a <==> p in b) && (p in b ==> a[p] == b[p])
  {
    assert p in a <==> p in a - {x};
    assert p in b <==> p in b - {x};
    if p in b { assert (a - {x})[p] == (b - {x})[p]; }
  }

  lemma GoneIsDifferent(f: Files, p: Path, faults: Faults)
    ensures LeftAs(f, p, faults) == Gone ==> p in f
  {}

  /** What is planned is not what is there. */
  lemma NewIsDifferent(f: Files, req: Request, faults: Faults)
    requires req.digest.Some? && IsNew(req.digest.value, f)
    ensures forall s :: s in Planned(f, req, faults) ==> s.path in f ==> f[s.path] != s.data
  {}

  /** The rotation of a class as the gateway knows it. */
  function Of(g: Gateway, c: Class): Rotation {
    if c.Admin? then g.admin else g.user
  }

  /** A call that succeeds makes its digest the current one of its class, keeps
      the one that was current as the previous exactly for a positive overlap,
      and changes nothing else; an admin call brings the root helper's file in
      line. The digest is shown only then. */
  lemma SuccessInstalls(f: Files, req: Request, faults: Faults)
    requires RotateDone(f, req, faults).result.Ok?
    ensures GatewayPath in f && f[GatewayPath].GatewayJson?
    ensures req.digest == Some(RotateDone(f, req, faults).result.value)
    ensures var now := After(f, req, faults);
            GatewayPath in now && now[GatewayPath].GatewayJson?
    ensures var now, was := After(f, req, faults), f[GatewayPath].gateway;
            var g := now[GatewayPath].gateway;
            g.rest == was.rest && Of(g, req.class_).current == req.digest.value
            && (Of(g, req.class_).previous == if req.overlap > 0 then Of(was, req.class_).current else "")
            && (Of(g, req.class_).validUntil ==
                  if req.overlap > 0 && Of(was, req.class_).current != "" then Format(req.now + req.overlap)
                  else NoStamp)
            && (if req.class_ == User then g.admin == was.admin && now - {GatewayPath} == f - {GatewayPath}
                else g.user == was.user && RootPath in now && now[RootPath] == RootJson(g.admin))
  {
    var specs := Planned(f, req, faults);
    PlanShape(f, req, faults);
    if |specs| == 1 {
      assert specs == [specs[0]] && specs[1..] == [];
      assert After(f, req, faults) == f[GatewayPath := specs[0].data];
    } else {
      assert specs == [specs[0], specs[1]] && specs[1..] == [specs[1]] && specs[1..][1..] == [];
      TwoWritten(f, specs[0], specs[1], faults.write);
      assert After(f, req, faults) == f[GatewayPath := specs[0].data][RootPath := specs[1].data];
    }
  }

  /** What a call needs before it writes. */
  predicate MayWrite(f: Files, req: Request, faults: Faults) {
    && 0 <= req.overlap <= 24 * 3600 * 1_000_000_000
    && !req.class_.Unknown? && req.digest.Some?
    && faults.opens && GatewayPath in f && f[GatewayPath].GatewayJson?
    && (req.class_ == Admin ==> f[GatewayPath].gateway.admin.current != "")
  }

  /** Every file of the class was written and synced. */
  predicate AllWritten(c: Class, faults: Faults) {
    faults.write(GatewayPath) == Written && (c == Admin ==> faults.write(RootPath) == Written)
  }

  /** Exactly when a call succeeds, and which of its two failures after a change it
      reports; before, nothing is changed. */
  lemma RotateSucceedsExactly(f: Files, req: Request, faults: Faults)
    ensures var done := RotateDone(f, req, faults);
            && (done.result.Ok? <==> MayWrite(f, req, faults) && AllWritten(req.class_, faults) && req.reload)
            && (done.result == Err(ReloadFailed) <==>
                  MayWrite(f, req, faults) && AllWritten(req.class_, faults) && !req.reload)
            && (done.result == Err(WriteFailed) <==> MayWrite(f, req, faults) && !AllWritten(req.class_, faults))
            && (!MayWrite(f, req, faults) ==> done.trace == [])
  {
    PlanShape(f, req, faults);
    var specs := Planned(f, req, faults);
    assert MayWrite(f, req, faults) <==> specs != [];
    if specs != [] {
      assert specs == if req.class_ == User then [specs[0]] else [specs[0], specs[1]];
      WrittenExactly(f, specs, faults.write);
    }
    hide MayWrite, MakeRotation, RollbackTrace, TakeSnapshots, Format, WriteAll;
  }

  lemma WrittenExactly(f: Files, specs: seq<FileSpec>, write: Path -> Fate)
    requires 1 <= |specs| <= 2
    ensures WriteAll(f, specs, write).ok <==> forall s :: s in specs ==> write(s.path) == Written
    decreases |specs|
  {
    if |specs| == 2 { WrittenExactly(Write(f, specs[0], write(specs[0].path)), specs[1..], write); }
  }

  /** Which failure before: the first thing that is wrong. */
  lemma RefusedFor(f: Files, req: Request, faults: Faults)
    ensures var result := RotateDone(f, req, faults).result;
            var asked := 0 <= req.overlap <= DAY && !req.class_.Unknown?;
            && (result == Err(NegativeOverlap) <==> req.overlap < 0)
            && (result == Err(OverlapTooLong) <==> req.overlap > DAY)
            && (result == Err(UnknownClass) <==> 0 <= req.overlap <= DAY && req.class_.Unknown?)
            && (result == Err(NoGateway) <==> asked && GatewayPath !in f)
            && (result == Err(ReadGateway) <==>
                  asked && GatewayPath in f && (!faults.opens || !f[GatewayPath].GatewayJson?))
            && (result == Err(Generate) <==>
                  asked && faults.opens && GatewayPath in f && f[GatewayPath].GatewayJson? && req.digest.None?)
            && (result == Err(NoAdmin) <==>
                  asked && faults.opens && GatewayPath in f && f[GatewayPath].GatewayJson? && req.digest.Some?
                  && req.class_ == Admin && f[GatewayPath].gateway.admin.current == "")
  {
    hide MakeRotation, RollbackTrace, TakeSnapshots, Format, WriteAll;
  }

  lemma TwoWritten(f: Files, a: FileSpec, b: FileSpec, write: Path -> Fate)
    requires WriteAll(f, [a, b], write).ok
    ensures var g := f[a.path := a.data]; WriteAll(f, [a, b], write).trace == [g, g[b.path := b.data]]
  {
    assert [a, b][1..] == [b] && [b][1..] == [];
    var g := Write(f, a, write(a.path));
    assert WriteAll(g, [b], write).trace == [Write(g, b, write(b.path))];
  }

  /** From the moment a call succeeded, a service that loads the rotation accepts
      the new digest at all times and the outgoing one through the last whole
      second of the overlap, and no other. */
  lemma OverlapIsHonoured(f: Files, req: Request, faults: Faults, t: int)
    requires RotateDone(f, req, faults).result.Ok?
    ensures var now, was := After(f, req, faults), f[GatewayPath].gateway;
            GatewayPath in now && now[GatewayPath].GatewayJson?
            && AuthRotation(Of(now[GatewayPath].gateway, req.class_)).Ok?
            && Accepted(AuthRotation(Of(now[GatewayPath].gateway, req.class_)).value, t) ==
                 {req.digest.value}
                 + if req.overlap > 0 && Of(was, req.class_).current != "" &&
                     t <= (req.now + req.overlap) / SECOND * SECOND
                   then {Of(was, req.class_).current} else {}
  {
    SuccessInstalls(f, req, faults);
    hide RotateDone, After;
  }

  // ---------------------------------------------------------------------
  // The gateway and the root helper agree
  // ---------------------------------------------------------------------

  predicate AdminProvisioned(f: Files) {
    GatewayPath in f && f[GatewayPath].GatewayJson? && f[GatewayPath].gateway.admin.current != ""
  }

  /** While an admin bearer is provisioned, both files hold the same rotation. */
  predicate Agree(f: Files) {
    AdminProvisioned(f) ==> RootPath in f && f[RootPath] == RootJson(f[GatewayPath].gateway.admin)
  }

  /** Exactly when a call leaves the files in agreement: a success and a user
      call always; a failed admin call when the gateway's file is gone or both
      files ended up old, or both new. */
  lemma AgreeAfter(f: Files, req: Request, faults: Faults)
    requires Agree(f) && (req.digest.Some? ==> IsNew(req.digest.value, f) && req.digest.value != "")
    ensures Agree(After(f, req, faults)) <==>
              (RolledBack(f, req, faults) && req.class_ == Admin ==>
                 LeftAs(f, GatewayPath, faults) == Gone ||
                     LeftAs(f, GatewayPath, faults) == LeftAs(f, RootPath, faults))
  {
    PlanShape(f, req, faults);
    if RotateDone(f, req, faults).result.Ok? {
      SuccessInstalls(f, req, faults);
    } else if RolledBack(f, req, faults) {
      RollbackLeaves(f, req, faults);
      NewIsDifferent(f, req, faults);
      if req.class_ == Admin {
        AdminLeft(f, req, faults);
      } else {
        UserLeft(f, req, faults);
      }
    }
  }

  lemma AdminLeft(f: Files, req: Request, faults: Faults)
    requires Agree(f) && req.class_ == Admin && RolledBack(f, req, faults)
    requires req.digest.Some? && IsNew(req.digest.value, f) && req.digest.value != ""
    ensures Agree(After(f, req, faults)) <==>
              LeftAs(f, GatewayPath, faults) == Gone || LeftAs(f, GatewayPath, faults) == LeftAs(f, RootPath, faults)
  {
    PlanShape(f, req, faults);
    RollbackLeaves(f, req, faults);
    var specs := Planned(f, req, faults);
    assert specs[0] in specs && specs[1] in specs;
    var was := f[GatewayPath].gateway;
    assert was.admin.current != "" && f[RootPath] == RootJson(was.admin);
    hide LeftAs, RotateDone, RolledBack, Format;
  }

  lemma UserLeft(f: Files, req: Request, faults: Faults)
    requires Agree(f) && req.class_ == User && RolledBack(f, req, faults)
    ensures Agree(After(f, req, faults))
  {
    PlanShape(f, req, faults);
    RollbackLeaves(f, req, faults);
    var specs := Planned(f, req, faults);
    assert specs[0] in specs;
    SameOutside(After(f, req, faults), f, GatewayPath, RootPath);
    hide LeftAs, RotateDone, RolledBack, Format;
  }

  /** Whenever the restoring writes succeed, the files agree after any call. */
  lemma RollbackKeepsAgreement(f: Files, req: Request, faults: Faults)
    requires Agree(f) && (req.digest.Some? ==> IsNew(req.digest.value, f) && req.digest.value != "")
    requires forall p :: faults.readable(p) && !faults.restore(p).NotWritten?
    ensures Agree(After(f, req, faults)) && (RolledBack(f, req, faults) ==> After(f, req, faults) == f)
  {
    AgreeAfter(f, req, faults);
    if RolledBack(f, req, faults) {
      FailureRestores(f, req, faults);
    }
  }

  /** A successful admin call disagrees exactly between its two writes: a crash
      there is what leaves the two files apart, and the next admin call that
      succeeds brings them together again, whatever it started from. */
  lemma AdminWindow(f: Files, req: Request, faults: Faults)
    requires RotateDone(f, req, faults).result.Ok? && req.class_ == Admin
    requires IsNew(req.digest.value, f) && req.digest.value != ""
    ensures var trace := RotateDone(f, req, faults).trace;
            |trace| == 2 && !Agree(trace[0]) && Agree(trace[1])
  {
    PlanShape(f, req, faults);
    NewIsDifferent(f, req, faults);
    var specs := Planned(f, req, faults);
    assert specs == [specs[0], specs[1]];
    TwoWritten(f, specs[0], specs[1], faults.write);
    assert specs[1] in specs;
  }

  // ---------------------------------------------------------------------
  // What the two services accept together
  // ---------------------------------------------------------------------

  /** The admin digests a service that loads a file accepts at t. */
  function AdminAccepted(f: Files, p: Path, t: int): set<string> {
    var r := if p !in f then NONE
             else match f[p]
               case GatewayJson(g) => g.admin
               case RootJson(admin) => admin
               case Corrupt => NONE;
    if r.current == "" || AuthRotation(r).Err? then {} else Accepted(AuthRotation(r).value, t)
  }

  /** At any instant, by the gateway or by the root helper. */
  function AnywhereAccepted(f: Files, t: int): set<string> {
    AdminAccepted(f, GatewayPath, t) + AdminAccepted(f, RootPath, t)
  }

  /** While the files agree both services accept the same digests, at most two. */
  lemma AgreeingAcceptTwo(f: Files, t: int)
    requires Agree(f) && AdminProvisioned(f)
    ensures AdminAccepted(f, GatewayPath, t) == AdminAccepted(f, RootPath, t) == AnywhereAccepted(f, t)
    ensures |AnywhereAccepted(f, t)| <= 2
  {
  }

  lemma AtMostThree(s: set<string>, a: string, b: string, c: string)
    requires s <= {a, b, c}
    ensures |s| <= 3
  {
    SubsetSize(s, {a, b, c});
  }

  /** Whatever a file holds at an instant of a call that began in agreement is
      the old admin rotation, the planned one, or nothing. */
  lemma AdminDuring(f: Files, req: Request, faults: Faults, k: nat, p: Path, t: int)
    requires Agree(f) && k < |RotateDone(f, req, faults).trace|
    ensures GatewayPath in f && f[GatewayPath].GatewayJson? && req.digest.Some?
    ensures var prior := f[GatewayPath].gateway.admin;
            prior.current != "" ==>
              AdminAccepted(RotateDone(f, req, faults).trace[k], p, t) <=
                  {req.digest.value, prior.current, prior.previous}
  {
    RotateOldOrPlanned(f, req, faults);
    PlannedAdmin(f, req, faults);
    PlanShape(f, req, faults);
    hide RotateDone, Plan, Planned, MakeRotation;
    var now := RotateDone(f, req, faults).trace[k];
    assert OldOrPlanned(now, f, Planned(f, req, faults));
  }

  /** The planned admin rotations: the old one, or the one with the new digest. */
  lemma PlannedAdmin(f: Files, req: Request, faults: Faults)
    requires Planned(f, req, faults) != []
    ensures GatewayPath in f && f[GatewayPath].GatewayJson? && req.digest.Some?
    ensures forall s :: s in Planned(f, req, faults) ==>
              var prior := f[GatewayPath].gateway.admin;
              var r := match s.data
                       case GatewayJson(g) => g.admin
                       case RootJson(admin) => admin
                       case Corrupt => NONE;
              r == prior || (r.current == req.digest.value && (r.previous == "" || r.previous == prior.current))
  {
  }

  /** At every instant of a call that began in agreement, crash or not, the two
      services together accept at most three admin digests. */
  lemma AtMostThreeDuring(f: Files, req: Request, faults: Faults, k: nat, t: int)
    requires Agree(f) && k < |RotateDone(f, req, faults).trace|
    requires AdminProvisioned(f)
    ensures |AnywhereAccepted(RotateDone(f, req, faults).trace[k], t)| <= 3
  {
    AdminDuring(f, req, faults, k, GatewayPath, t);
    AdminDuring(f, req, faults, k, RootPath, t);
    hide RotateDone, AdminAccepted;
    var was := f[GatewayPath].gateway.admin;
    AtMostThree(AnywhereAccepted(RotateDone(f, req, faults).trace[k], t), req.digest.value, was.current, was.previous);
  }

  /** An earlier overlap of the admin bearer is still running at t. */
  predicate OverlapRuns(f: Files, t: int)
    requires AdminProvisioned(f)
  {
    var was := f[GatewayPath].gateway.admin;
    AuthRotation(was).Ok? && was.previous != "" && t <= AuthRotation(was).value.previousValidUntil
  }

  /** The digests are told apart: those of the file, and the new one from them. */
  predicate TellsApart(f: Files, digest: string)
    requires AdminProvisioned(f)
  {
    var was := f[GatewayPath].gateway.admin;
    AuthRotation(was).Ok? && was.previous != was.current
    && digest != was.current && digest != was.previous && digest != ""
  }

  /** Without one, no instant of any call, failed or cut short, lets more than two
      admin digests through. */
  lemma TwoWithoutOverlap(f: Files, req: Request, faults: Faults, k: nat, t: int)
    requires Agree(f) && AdminProvisioned(f) && AuthRotation(f[GatewayPath].gateway.admin).Ok? && !OverlapRuns(f, t)
    requires k < |RotateDone(f, req, faults).trace|
    ensures |AnywhereAccepted(RotateDone(f, req, faults).trace[k], t)| <= 2
  {
    var was := f[GatewayPath].gateway.admin;
    DuringWithoutOverlap(f, req, faults, k, GatewayPath, t);
    DuringWithoutOverlap(f, req, faults, k, RootPath, t);
    hide RotateDone, AdminAccepted;
    AtMostTwo(AnywhereAccepted(RotateDone(f, req, faults).trace[k], t), req.digest.value, was.current);
  }

  lemma AtMostTwo(s: set<string>, a: string, b: string)
    requires s <= {a, b}
    ensures |s| <= 2
  {
    SubsetSize(s, {a, b});
  }

  lemma DuringWithoutOverlap(f: Files, req: Request, faults: Faults, k: nat, p: Path, t: int)
    requires Agree(f) && AdminProvisioned(f) && AuthRotation(f[GatewayPath].gateway.admin).Ok? && !OverlapRuns(f, t)
    requires k < |RotateDone(f, req, faults).trace|
    ensures req.digest.Some?
    ensures AdminAccepted(RotateDone(f, req, faults).trace[k], p, t)
         <= {req.digest.value, f[GatewayPath].gateway.admin.current}
  {
    RotateOldOrPlanned(f, req, faults);
    PlannedAdmin(f, req, faults);
    PlanShape(f, req, faults);
    hide RotateDone, Plan, Planned, MakeRotation;
    var now := RotateDone(f, req, faults).trace[k];
    assert OldOrPlanned(now, f, Planned(f, req, faults));
  }

  /** Exactly when a successful admin call that began in agreement lets no more than
      two admin digests through at any of its instants: no earlier overlap may be
      running. */
  lemma TwoThroughoutExactly(f: Files, req: Request, faults: Faults, t: int)
    requires Agree(f) && RotateDone(f, req, faults).result.Ok? && req.class_ == Admin && req.digest.value != ""
    requires AdminProvisioned(f) && TellsApart(f, req.digest.value)
    ensures (forall k :: 0 <= k < |RotateDone(f, req, faults).trace| ==>
               |AnywhereAccepted(RotateDone(f, req, faults).trace[k], t)| <= 2)
            <==> !OverlapRuns(f, t)
  {
    var trace := RotateDone(f, req, faults).trace;
    var was := f[GatewayPath].gateway.admin;
    AcceptedInWindow(f, req, faults, t);
    AgreeingAcceptTwo(f, t);
    if OverlapRuns(f, t) {
      OldAccepted(f, t);
      hide RotateDone, AdminAccepted, AuthRotation;
      Three(AnywhereAccepted(trace[0], t), req.digest.value, was.current, was.previous);
    } else {
      forall k | 0 <= k < |trace| ensures |AnywhereAccepted(trace[k], t)| <= 2 {
        TwoWithoutOverlap(f, req, faults, k, t);
      }
    }
  }

  lemma OldAccepted(f: Files, t: int)
    requires AdminProvisioned(f) && OverlapRuns(f, t)
    ensures var was := f[GatewayPath].gateway.admin; AdminAccepted(f, GatewayPath, t) == {was.current, was.previous}
  {
  }

  lemma Three(s: set<string>, a: string, b: string, c: string)
    requires a in s && b in s && c in s && a != b && b != c && a != c
    ensures |s| >= 3
  {
    SubsetSize({a, b, c}, s);
    assert {a, b, c} - {a} - {b} == {c};
  }

  /** Exactly what is accepted between the two writes of an admin call: by the
      gateway the new digest and, through the overlap, the outgoing one; by the
      root helper still the outgoing one, which has no expiry there, and the one
      before it through its own overlap. */
  lemma AcceptedInWindow(f: Files, req: Request, faults: Faults, t: int)
    requires RotateDone(f, req, faults).result.Ok? && req.class_ == Admin && req.digest.value != ""
    ensures |RotateDone(f, req, faults).trace| == 2
    ensures AdminProvisioned(f)
    ensures var now, was := RotateDone(f, req, faults).trace[0], f[GatewayPath].gateway.admin;
            && AdminAccepted(now, GatewayPath, t) ==
                 {req.digest.value}
                 + (if req.overlap > 0 && t <= (req.now + req.overlap) / SECOND * SECOND then {was.current} else {})
            && AdminAccepted(now, RootPath, t) == AdminAccepted(f, RootPath, t)
            && (Agree(f) && AuthRotation(was).Ok? ==> was.current in AdminAccepted(now, RootPath, t))
  {
    PlanShape(f, req, faults);
    var specs := Planned(f, req, faults);
    assert specs == [specs[0], specs[1]];
    TwoWritten(f, specs[0], specs[1], faults.write);
  }

  /** A second call after such a crash, cut short in the same place, leaves up to
      four: the gateway's two, and the root helper's two of before both calls. */
  lemma FourAfterTwoCrashes(f: Files, one: Request, two: Request, a: Faults, b: Faults, t: int)
    requires Agree(f) && RotateDone(f, one, a).result.Ok? && one.class_ == Admin && one.digest.value != ""
    requires |RotateDone(f, one, a).trace| == 2
    requires var f1 := RotateDone(f, one, a).trace[0];
             RotateDone(f1, two, b).result.Ok? && two.class_ == Admin && two.digest.value != ""
    requires two.overlap > 0 && t <= (two.now + two.overlap) / SECOND * SECOND
    ensures var f1 := RotateDone(f, one, a).trace[0];
            && AdminProvisioned(f) && |RotateDone(f1, two, b).trace| == 2
            && AnywhereAccepted(RotateDone(f1, two, b).trace[0], t) ==
                 {two.digest.value, one.digest.value} + AdminAccepted(f, GatewayPath, t)
  {
    var f1 := RotateDone(f, one, a).trace[0];
    AcceptedInWindow(f, one, a, t);
    AcceptedInWindow(f1, two, b, t);
    AgreeingAcceptTwo(f, t);
    FirstWrite(f, one, a);
    hide RotateDone, AdminAccepted;
  }

  lemma FirstWrite(f: Files, req: Request, faults: Faults)
    requires RotateDone(f, req, faults).result.Ok? && req.class_ == Admin
    ensures |RotateDone(f, req, faults).trace| == 2
    ensures var now := RotateDone(f, req, faults).trace[0];
            GatewayPath in now && now[GatewayPath].GatewayJson? &&
                now[GatewayPath].gateway.admin.current == req.digest.value
    ensures GatewayPath in f && f[GatewayPath].GatewayJson?
    ensures var now := RotateDone(f, req, faults).trace[0];
            now[GatewayPath].gateway.user == f[GatewayPath].gateway.user
            && (RootPath in now <==> RootPath in f) && (RootPath in f ==> now[RootPath] == f[RootPath])
  {
    PlanShape(f, req, faults);
    var specs := Planned(f, req, faults);
    assert specs == [specs[0], specs[1]];
    TwoWritten(f, specs[0], specs[1], faults.write);
  }
}
