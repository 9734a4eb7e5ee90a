/** agent/internal/provision/state.go and serviceconfig.go: the rotation of a
    bearer as a transaction over the gateway's and the root helper's file. */
module Rotation {
  import opened Wrappers
  import opened AtomicFiles
  import opened Bearer

  // ---------------------------------------------------------------------
  // The state on disk
  // ---------------------------------------------------------------------

  /** previous_valid_until: an RFC 3339 time holds whole seconds. */
  datatype Stamp = NoStamp | At(seconds: int) | Garbled

  function Format(t: int): Stamp {
    At(t / SECOND)
  }

  datatype Rotation = Rotation(current: string, previous: string, validUntil: Stamp)

  const NONE := Rotation("", "", NoStamp)

  /** rest: the fields of the gateway's file a rotation leaves alone. */
  datatype Gateway = Gateway(user: Rotation, admin: Rotation, rest: string)

  datatype Path = GatewayPath | RootPath

  datatype Data = GatewayJson(gateway: Gateway) | RootJson(admin: Rotation) | Corrupt

  type Files = map<Path, Data>

  datatype AuthError = StampAlone | NoStampGiven | UnparseableStamp

  /** Rotation.AuthRotation. */
  function AuthRotation(r: Rotation): Result<RotationConfig, AuthError> {
    if r.previous == "" then
      if r.validUntil != NoStamp then Err(StampAlone) else Ok(RotationConfig(r.current, "", 0))
    else
      match r.validUntil
      case NoStamp => Err(NoStampGiven)
      case Garbled => Err(UnparseableStamp)
      case At(s) => Ok(RotationConfig(r.current, r.previous, s * SECOND))
  }

  /** main.go resolveRotation without a flag or environment value: a class without
      a current digest is disabled. */
  function ResolveRotation(r: Rotation): Result<RotationConfig, AuthError> {
    if r.current != "" then AuthRotation(r) else Ok(RotationConfig(UNUSABLE, "", 0))
  }

  /** makeRotation. */
  function MakeRotation(prior: Rotation, digest: string, until: Stamp, overlap: int): Rotation {
    if overlap > 0 && prior.current != "" then Rotation(digest, prior.current, until) else Rotation(digest, "", NoStamp)
  }

  // ---------------------------------------------------------------------
  // Provisioned rotations
  // ---------------------------------------------------------------------

  /** The auth section of the provisioning configuration, one class. */
  datatype Given = Given(hash: string, previous: string, until: int)

  /** validateAuthPair. */
  function ValidatePair(g: Given, now: int): Option<ConfigError> {
    if g.hash != "" && CheckDigest(g.hash).Some? then Some(BadCurrent)
    else if g.previous == "" then
      if g.until != 0 then Some(UntilAlone) else None
    else if CheckDigest(g.previous).Some? then Some(BadPrevious)
    else if g.previous == g.hash then Some(SameDigest)
    else if g.until == 0 then Some(NoUntil)
    else if g.until - now > DAY then Some(TooLong)
    else None
  }

  /** A pair with a digest is checked as a service will check it; one without, as if
      it had a digest of its own. */
  lemma ValidatePairMirrors(g: Given, now: int, other: string)
    ensures g.hash != "" ==> ValidatePair(g, now) == Validate(RotationConfig(g.hash, g.previous, g.until), now)
    ensures g.hash == "" && CheckDigest(other) == None && other != g.previous ==>
              ValidatePair(g, now) == Validate(RotationConfig(other, g.previous, g.until), now)
  {
    assert CheckDigest("") == Some(NoPrefix);
    hide CheckDigest;
  }

  function RotationFromConfig(g: Given): Rotation {
    Rotation(g.hash, g.previous, if g.until != 0 then Format(g.until) else NoStamp)
  }

  /** resolveUserRotation; minted is the digest of the bearer generated, should one be. */
  function ResolveUser(g: Given, existing: Option<Gateway>, minted: Option<string>): Option<Rotation> {
    if g.hash != "" then Some(RotationFromConfig(g))
    else if existing.Some? && existing.value.user.current != "" then Some(existing.value.user)
    else match minted
      case Some(d) => Some(Rotation(d, "", NoStamp))
      case None => None
  }

  /** resolveAdminRotation; NONE when admin is not enabled. */
  function ResolveAdmin(g: Given, existing: Option<Gateway>): Rotation {
    if g.hash != "" then RotationFromConfig(g)
    else if existing.Some? && existing.value.admin.current != "" then existing.value.admin
    else NONE
  }

  // ---------------------------------------------------------------------
  // Writing and rolling back
  // ---------------------------------------------------------------------

  datatype FileSpec = FileSpec(path: Path, data: Data)

  /** writeFile: an error after the rename leaves the new contents in place. */
  datatype Fate = Written | WrittenNotSynced | NotWritten

  datatype Snapshot = Snapshot(spec: FileSpec, existed: bool, data: Data)

  /** What the file system answers during one call; opens is the first read of
      the gateway's file, readable the reads for the snapshots. */
  datatype Faults = Faults(opens: bool, readable: Path -> bool, write: Path -> Fate, restore: Path -> Fate,
                           removed: Path -> bool)

  function Write(f: Files, s: FileSpec, fate: Fate): Files {
    if fate.NotWritten? then f else f[s.path := s.data]
  }

  datatype Writes = Writes(trace: seq<Files>, ok: bool)

  /** The contents after each write, up to the first that reports an error. */
  function WriteAll(f: Files, specs: seq<FileSpec>, write: Path -> Fate): (w: Writes)
    ensures |w.trace| <= |specs|
    decreases |specs|
  {
    if specs == [] then Writes([], true)
    else
      var fate := write(specs[0].path);
      var g := Write(f, specs[0], fate);
      if !fate.Written? then Writes([g], false)
      else
        var rest := WriteAll(g, specs[1..], write);
        Writes([g] + rest.trace, rest.ok)
  }

  function Last(f: Files, trace: seq<Files>): Files {
    if trace == [] then f else trace[|trace| - 1]
  }

  function TakeSnapshots(f: Files, specs: seq<FileSpec>, readable: Path -> bool): (snaps: seq<Snapshot>)
    ensures |snaps| == |specs|
  {
    if specs == [] then []
    else
      var s := specs[0];
      var there := s.path in f && readable(s.path);
      [Snapshot(s, there, if there then f[s.path] else Corrupt)] + TakeSnapshots(f, specs[1..], readable)
  }

  function RollOne(f: Files, s: Snapshot, faults: Faults): Files {
    if s.existed then Write(f, FileSpec(s.spec.path, s.data), faults.restore(s.spec.path))
    else if faults.removed(s.spec.path) then f - {s.spec.path}
    else f
  }

  /** The contents after each restored or removed file. */
  function RollbackTrace(f: Files, snaps: seq<Snapshot>, faults: Faults): (trace: seq<Files>)
    ensures |trace| == |snaps|
    decreases |snaps|
  {
    if snaps == [] then []
    else
      var g := RollOne(f, snaps[0], faults);
      [g] + RollbackTrace(g, snaps[1..], faults)
  }

  // ---------------------------------------------------------------------
  // Rotate
  // ---------------------------------------------------------------------

  /** A call, the clock it reads and the digest of the bearer it generates;
      a failing reload is one that returns an error. */
  datatype Request = Request(class_: Class, overlap: int, now: int, digest: Option<string>, reload: bool)

  datatype RotateError =
    NegativeOverlap | OverlapTooLong | UnknownClass | ReadGateway | NoGateway | Generate | NoAdmin | WriteFailed
    | ReloadFailed

  /** The files a call is to write. */
  function Plan(f: Files, req: Request, faults: Faults): (p: Result<seq<FileSpec>, RotateError>) {
    if req.overlap < 0 then Err(NegativeOverlap)
    else if req.overlap > DAY then Err(OverlapTooLong)
    else if req.class_.Unknown? then Err(UnknownClass)
    else if GatewayPath !in f then Err(NoGateway)
    else if !faults.opens || !f[GatewayPath].GatewayJson? then Err(ReadGateway)
    else if req.digest.None? then Err(Generate)
    else
      var gw := f[GatewayPath].gateway;
      var until := if req.overlap > 0 then Format(req.now + req.overlap) else NoStamp;
      if req.class_.User? then
        Ok([FileSpec(GatewayPath,
                     GatewayJson(gw.(user := MakeRotation(gw.user, req.digest.value, until, req.overlap))))])
      else if gw.admin.current == "" then Err(NoAdmin)
      else
        var admin := MakeRotation(gw.admin, req.digest.value, until, req.overlap);
        Ok([FileSpec(GatewayPath, GatewayJson(gw.(admin := admin))), FileSpec(RootPath, RootJson(admin))])
  }

  datatype Done = Done(trace: seq<Files>, result: Result<string, RotateError>)

  /** The contents after each change a call makes, and what it returns. */
  function RotateDone(f: Files, req: Request, faults: Faults): Done {
    match Plan(f, req, faults)
    case Err(e) => Done([], Err(e))
    case Ok(specs) =>
      var snaps := TakeSnapshots(f, specs, faults.readable);
      var w := WriteAll(f, specs, faults.write);
      if w.ok && req.reload then Done(w.trace, Ok(req.digest.value))
      else Done(w.trace + RollbackTrace(Last(f, w.trace), snaps, faults),
                Err(if w.ok then ReloadFailed else WriteFailed))
  }

  // ---------------------------------------------------------------------
  // The state directory
  // ---------------------------------------------------------------------

  /** The same, operation by operation. */
  datatype Operations = Operations(opens: bool, readable: Path -> bool, write: Path -> Trouble<Data>,
                                   restore: Path -> Trouble<Data>, removed: Path -> bool)

  function FateOf(w: Trouble<Data>): Fate {
    if w.mkdir || w.create || w.write || w.chmod || w.chown || w.sync || w.close || w.rename then NotWritten
    else if w.syncDir then WrittenNotSynced
    else Written
  }

  function FaultsOf(ops: Operations): Faults {
    Faults(ops.opens, ops.readable, p => FateOf(ops.write(p)), p => FateOf(ops.restore(p)), ops.removed)
  }

  class StateDir {
    const disk: Disk<Path, Data>
    /** The contents after each change, oldest first. */
    ghost var log: seq<Files>

    constructor ()
      ensures disk.files == map[] && log == [] && fresh(disk)
    {
      disk := new Disk();
      log := [];
    }

    /** writeFile: a temporary file in the same directory, renamed once it is
        complete and synced. Whichever operation fails, the path holds its old
        contents or all of the new ones; an error says which only up to the last
        operation, the sync of the directory. A temporary file is left over only
        if its removal failed too. */
    method WriteFile(spec: FileSpec, w: Trouble<Data>) returns (ok: bool)
      modifies this, disk
      ensures disk.files == Write(old(disk.files), spec, FateOf(w)) && log == old(log) + [disk.files]
      ensures ok <==> FateOf(w) == Written
      ensures disk.temps != old(disk.temps) ==> !ok && w.remove
    {
      ok := PutInPlace(spec, w);
      if ok { ok := !w.syncDir; }
      log := log + [disk.files];
    }

    /** Everything up to the rename. */
    method PutInPlace(spec: FileSpec, w: Trouble<Data>) returns (ok: bool)
      modifies disk
      ensures ok <==> FateOf(w) != NotWritten
      ensures disk.files == if ok then old(disk.files)[spec.path := spec.data] else old(disk.files)
      ensures disk.temps != old(disk.temps) ==> !ok && w.remove
    {
      if w.mkdir { return false; }
      var t := disk.CreateTemp(Corrupt, w.create);
      if t.None? { return false; }
      disk.WriteTemp(t.value, spec.data, w.garbage, w.write);
      if w.write || w.chmod || w.chown || w.sync || w.close {
        disk.RemoveTemp(t.value, w.remove);
        return false;
      }
      disk.Rename(t.value, spec.path, w.rename);
      if w.rename { disk.RemoveTemp(t.value, w.remove); }
      return !w.rename;
    }

    method RollbackOne(s: Snapshot, ops: Operations)
      modifies this, disk
      ensures disk.files == RollOne(old(disk.files), s, FaultsOf(ops)) && log == old(log) + [disk.files]
    {
      hide FateOf;
      if s.existed {
        var restore := s.spec.(data := s.data);
        var _ := WriteFile(restore, ops.restore(s.spec.path));
      } else {
        if ops.removed(s.spec.path) {
          disk.Remove(s.spec.path);
        }
        log := log + [disk.files];
      }
    }

    method Rollback(snaps: seq<Snapshot>, ops: Operations)
      modifies this, disk
      ensures log == old(log) + RollbackTrace(old(disk.files), snaps, FaultsOf(ops))
      ensures disk.files == Last(old(disk.files), RollbackTrace(old(disk.files), snaps, FaultsOf(ops)))
    {
      ghost var faults := FaultsOf(ops);
      ghost var f0, l0 := disk.files, log;
      ghost var whole := RollbackTrace(f0, snaps, faults);
      hide Progress, RollOne, FaultsOf;
      assert snaps[0..] == snaps;
      Begin(f0, l0, whole);
      for i := 0 to |snaps|
        invariant Progress(f0, l0, whole, RollbackTrace(disk.files, snaps[i..], faults), disk.files, log)
      {
        var s := snaps[i];
        assert snaps[i..][0] == s && snaps[i..][1..] == snaps[i + 1..];
        ghost var f, l := disk.files, log;
        RollbackOne(s, ops);
        OneMore(f0, l0, whole, RollbackTrace(disk.files, snaps[i + 1..], faults), f, l, disk.files);
      }
      assert snaps[|snaps|..] == [];
      End(f0, l0, whole, disk.files, log);
    }

    method Rotate(req: Request, ops: Operations) returns (result: Result<string, RotateError>)
      modifies this, disk
      ensures var done := RotateDone(old(disk.files), req, FaultsOf(ops));
              result == done.result && log == old(log) + done.trace && disk.files == Last(old(disk.files), done.trace)
    {
      hide MakeRotation, TakeSnapshots, RollbackTrace, Progress, Format, FateOf;
      ghost var faults := FaultsOf(ops);
      if req.overlap < 0 { return Err(NegativeOverlap); }
      if req.overlap > DAY { return Err(OverlapTooLong); }
      if req.class_.Unknown? { return Err(UnknownClass); }
      if GatewayPath !in disk.files { return Err(NoGateway); }
      if !ops.opens || !disk.files[GatewayPath].GatewayJson? { return Err(ReadGateway); }
      if req.digest.None? { return Err(Generate); }
      var gw := disk.files[GatewayPath].gateway;
      var digest := req.digest.value;
      var until := NoStamp;
      if req.overlap > 0 {
        until := Format(req.now + req.overlap);
      }
      if req.class_.User? {
        gw := gw.(user := MakeRotation(gw.user, digest, until, req.overlap));
      } else {
        if gw.admin.current == "" { return Err(NoAdmin); }
        gw := gw.(admin := MakeRotation(gw.admin, digest, until, req.overlap));
      }
      var specs := [FileSpec(GatewayPath, GatewayJson(gw))];
      if req.class_.Admin? {
        specs := specs + [FileSpec(RootPath, RootJson(gw.admin))];
      }
      assert req.class_.Admin? ==>
               specs == [FileSpec(GatewayPath, GatewayJson(gw)), FileSpec(RootPath, RootJson(gw.admin))];
      assert Plan(disk.files, req, faults) == Ok(specs);
      ghost var f0, l0 := disk.files, log;
      var snaps := TakeSnapshots(disk.files, specs, ops.readable);
      ghost var w := WriteAll(f0, specs, faults.write);
      assert specs[0..] == specs;
      Begin(f0, l0, w.trace);
      for i := 0 to |specs|
        invariant Progress(f0, l0, w.trace, WriteAll(disk.files, specs[i..], faults.write).trace, disk.files, log)
        invariant w.ok == WriteAll(disk.files, specs[i..], faults.write).ok
      {
        assert specs[i..][0] == specs[i] && specs[i..][1..] == specs[i + 1..];
        ghost var f, l := disk.files, log;
        var ok := WriteFile(specs[i], ops.write(specs[i].path));
        ghost var rest := if ok then WriteAll(disk.files, specs[i + 1..], faults.write).trace else [];
        assert [disk.files] + rest == WriteAll(f, specs[i..], faults.write).trace;
        OneMore(f0, l0, w.trace, rest, f, l, disk.files);
        if !ok {
          End(f0, l0, w.trace, disk.files, log);
          ThenRollback(f0, l0, w.trace, RollbackTrace(disk.files, snaps, faults));
          Rollback(snaps, ops);
          return Err(WriteFailed);
        }
      }
      assert specs[|specs|..] == [];
      End(f0, l0, w.trace, disk.files, log);
      if !req.reload {
        ThenRollback(f0, l0, w.trace, RollbackTrace(disk.files, snaps, faults));
        Rollback(snaps, ops);
        return Err(ReloadFailed);
      }
      result := Ok(digest);
    }
  }

  /** whole is what was logged since f0 and l0, then rest. */
  ghost predicate Progress(f0: Files, l0: seq<Files>, whole: seq<Files>, rest: seq<Files>, f: Files, l: seq<Files>) {
    |rest| <= |whole|
    && var n := |whole| - |rest|;
       whole[n..] == rest && l == l0 + whole[..n] && f == Last(f0, whole[..n])
  }

  lemma OneMore(f0: Files, l0: seq<Files>, whole: seq<Files>, rest: seq<Files>, f: Files, l: seq<Files>, g: Files)
    requires Progress(f0, l0, whole, [g] + rest, f, l)
    ensures Progress(f0, l0, whole, rest, g, l + [g])
  {
    var n := |whole| - |rest| - 1;
    assert whole[n] == whole[n..][0] == g;
    assert whole[n + 1..] == whole[n..][1..] == rest;
    assert whole[..n + 1] == whole[..n] + [g];
  }

  lemma Begin(f0: Files, l0: seq<Files>, whole: seq<Files>)
    ensures Progress(f0, l0, whole, whole, f0, l0)
  {}

  lemma End(f0: Files, l0: seq<Files>, whole: seq<Files>, f: Files, l: seq<Files>)
    requires Progress(f0, l0, whole, [], f, l)
    ensures l == l0 + whole && f == Last(f0, whole)
  {
    assert whole[..|whole|] == whole;
  }

  lemma ThenRollback(f0: Files, l0: seq<Files>, a: seq<Files>, b: seq<Files>)
    ensures (l0 + a) + b == l0 + (a + b) && Last(Last(f0, a), b) == Last(f0, a + b)
  {}
}
