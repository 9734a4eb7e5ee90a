/** update/daemon.go: the memory of the update daemon and its lock-held
    regions. Each function of Mem below is one region, as a function of the
    state it finds; class Daemon at the end is the daemon itself, whose methods
    change the fields and are proved against these functions. */
module UpdateDaemon {
  import opened Wrappers
  import opened Text
  import opened ImageRef
  import opened Release
  import opened Policy
  import opened Delivery
  import opened AtomicFiles

  datatype State =
    | Idle | Checking | UpToDate | UpdateAvailable | Inspecting | Applying
    | RebootPending | Error | Unmanaged

  datatype Status = Status(state: State, installed: string, latest: string, pin: string,
                           detail: string, advanced: bool, pending: string)

  /** The first word of the reboot marker, and Status.pending. */
  const STARTED := "started"
  const INSTALLED := "installed"
  const FAILED := "failed"

  function PendingDetail(word: string): string {
    if word == INSTALLED then ""
    else if word == FAILED then "The update failed; restart before trying again."
    else "The update was interrupted; restart before trying again."
  }

  /** The running Check or Apply. The source tells jobs apart by pointer; a job
      here carries a number that no other job of the machine ever has. */
  datatype Job = Job(id: nat, prev: State, prevDetail: string)

  /** The fields of Daemon. */
  datatype Mem = Mem(
    rel: Rel,
    managed: bool,
    state: State,
    pending: string,
    latest: string,
    detail: string,
    job: Option<Job>,
    rebooting: bool,
    q: Queue<Status>)

  /** The two files of the run directory, a tmpfs that a boot empties. */
  datatype RunDir = RunDir(marker: Option<string>, latest: Option<string>)

  /** What reading the pin file and the advanced switch gives at a moment. */
  datatype Ambient = Ambient(pin: string, advanced: bool)

  datatype Refusal =
    | ErrBusy | ErrRebootPending | ErrUnfinishedPending | ErrNotCancellable | ErrRebooting
    | ErrUnmanaged | ErrNothingToCancel | ErrPreviousAfterInstall
    | ErrBadRef(ref: RefError) | ErrBadDigest

  // ---------------------------------------------------------------------
  // The marker file
  // ---------------------------------------------------------------------

  predicate KnownWord(word: string) {
    word in [STARTED, INSTALLED, FAILED]
  }

  function MarkerText(word: string, source: string): string {
    word + " " + source + "\n"
  }

  /** The word a marker's text stands for; any unknown one is "started". */
  function MarkerWord(text: string): string {
    var w := Cut(TrimSpace(text), ' ').before;
    if w == INSTALLED || w == FAILED then w else STARTED
  }

  /** What a restarted daemon makes of the marker; unreadable says that reading
      it failed for another reason than that it does not exist. */
  function ReadMarker(marker: Option<string>, unreadable: bool): Option<string> {
    if unreadable then Some(STARTED)
    else if marker.None? then None
    else Some(MarkerWord(marker.value))
  }

  /** The word survives the round trip through the file, whatever the source. */
  lemma MarkerRoundTrip(word: string, source: string)
    requires KnownWord(word)
    ensures MarkerWord(MarkerText(word, source)) == word
  {
    assert forall c :: c in word ==> !IsSpace(c);
    FirstWord(word, source);
  }

  // ---------------------------------------------------------------------
  // The regions
  // ---------------------------------------------------------------------

  predicate BusyState(s: State) {
    s.Checking? || s.Inspecting? || s.Applying?
  }

  /** Busy: in a busy state, or a job is still set. */
  predicate Working(m: Mem) {
    BusyState(m.state) || m.job.Some?
  }

  function StatusOf(m: Mem, amb: Ambient): Status {
    Status(m.state, m.rel.version, m.latest, amb.pin, m.detail, amb.advanced,
           if m.state.RebootPending? then m.pending else "")
  }

  /** setLocked: change the state and queue the event. */
  function SetState(m: Mem, s: State, detail: string, amb: Ambient): Mem {
    var n := m.(state := s, detail := detail);
    n.(q := Push(n.q, Change(StatusOf(n, amb))))
  }

  /** setLatestLocked: a failed write only costs the file. */
  function LatestFile(m: Mem, run: RunDir, tag: string, fails: bool): RunDir {
    if tag == m.latest || fails then run else run.(latest := Some(tag + "\n"))
  }

  /** NewDaemon. */
  function NewMem(rel: Result<Rel, string>, run: RunDir, latestUnreadable: bool, markerUnreadable: bool): Mem {
    match rel
    case Err(why) =>
      Mem(Rel("", "", "", "", ""), false, Unmanaged, "", "", why, None, false, Empty())
    case Ok(r) =>
      var tag := if latestUnreadable || run.latest.None? then "" else TrimSpace(run.latest.value);
      var latest := if StrictTag(tag) then tag else "";
      match ReadMarker(run.marker, markerUnreadable)
      case None => Mem(r, true, Idle, "", latest, "", None, false, Empty())
      case Some(word) => Mem(r, true, RebootPending, word, latest, PendingDetail(word), None, false, Empty())
  }

  datatype CheckStart = CheckIgnored | CheckRefused | CheckStarted(pending: bool)

  function CheckAnswer(m: Mem): CheckStart {
    if !m.managed then CheckIgnored
    else if BusyState(m.state) then CheckRefused
    else CheckStarted(m.state.RebootPending?)
  }

  /** Check up to its request: the job id is fresh. */
  function CheckBegin(m: Mem, id: nat, amb: Ambient): Mem {
    if CheckAnswer(m) == CheckStarted(false) then
      SetState(m.(job := Some(Job(id, m.state, m.detail))), Checking, "", amb)
    else m
  }

  datatype CheckResult = CheckOk | CheckFailed(why: string) | CheckCancelled

  predicate Holds(m: Mem, id: nat) {
    m.job.Some? && m.job.value.id == id
  }

  /** Check after its request; pending is what CheckBegin saw. */
  function CheckEnd(m: Mem, id: nat, pending: bool, listed: Result<seq<string>, string>, amb: Ambient): Mem {
    if pending then
      match listed
      case Err(_) => m
      case Ok(published) =>
        var n := m.(latest := Newest(published));
        n.(q := Push(n.q, Change(StatusOf(n, amb))))
    else if !Holds(m, id) then m
    else
      match listed
      case Err(why) => SetState(m.(job := None), Error, "could not check for updates: " + why, amb)
      case Ok(published) =>
        var n := m.(job := None, latest := Newest(published));
        SetState(n, if amb.pin == "" && Newer(n.latest, n.rel.version) then UpdateAvailable else UpToDate, "", amb)
  }

  function CheckEndFile(m: Mem, run: RunDir, id: nat, pending: bool, listed: Result<seq<string>, string>,
                        fails: bool): RunDir {
    if listed.Ok? && (pending || Holds(m, id)) then LatestFile(m, run, Newest(listed.value), fails) else run
  }

  function CheckEndResult(m: Mem, id: nat, pending: bool, listed: Result<seq<string>, string>): CheckResult {
    if !pending && !Holds(m, id) then CheckCancelled
    else if listed.Err? then CheckFailed(listed.error)
    else CheckOk
  }

  /** The refusal while reboot-pending holds. */
  function PendingRefusal(m: Mem): Refusal {
    if m.pending == INSTALLED then ErrRebootPending else ErrUnfinishedPending
  }

  function ApplyAnswer(m: Mem, ref: string, digest: string): Option<Refusal> {
    if ParseRef(ref).Err? then Some(ErrBadRef(ParseRef(ref).error))
    else if !IsDigest(digest) then Some(ErrBadDigest)
    else if !m.managed then Some(ErrUnmanaged)
    else if m.rebooting then Some(ErrRebooting)
    else if m.state.RebootPending? then Some(PendingRefusal(m))
    else if BusyState(m.state) then Some(ErrBusy)
    else None
  }

  function ApplyBegin(m: Mem, id: nat, amb: Ambient): Mem {
    SetState(m.(job := Some(Job(id, m.state, m.detail))), Inspecting, "", amb)
  }

  /** What an install that passed the gate will do: the source it installs, the
      reference to pin, and whether it clears the pin instead. */
  datatype Plan = Plan(source: string, ref: string, clearPin: bool)

  function SourceOf(e: Evaluation): string {
    "oci:" + e.info.ref.Repo() + "@" + e.info.digest
  }

  const NO_MARKER := "could not record the pending install, so it was not started"

  /** Why the gate refuses an evaluated image, before it tries the marker. */
  function GateError(m: Mem, ref: string, digest: string, ev: Result<Evaluation, string>): Option<string> {
    match ev
    case Err(why) => Some(why)
    case Ok(e) =>
      if e.info.digest != digest then
        Some(ref + " now resolves to digest " + e.info.digest + ", not the reviewed " + digest + "; inspect it again")
      else if m.rebooting then Some("the system is rebooting")
      else None
  }

  lemma PassedIsEvaluated(m: Mem, ref: string, digest: string, ev: Result<Evaluation, string>)
    ensures GateError(m, ref, digest, ev).None? ==> ev.Ok?
  {
  }

  predicate GatePasses(m: Mem, id: nat, ref: string, digest: string, ev: Result<Evaluation, string>,
                       markerFails: bool) {
    Holds(m, id) && GateError(m, ref, digest, ev).None? && !markerFails
  }

  /** run's lock-held region between the evaluation and kairos-agent. */
  function Gate(m: Mem, id: nat, ref: string, digest: string, ev: Result<Evaluation, string>, amb: Ambient,
                markerFails: bool): Mem {
    if !Holds(m, id) then m
    else
      match GateError(m, ref, digest, ev)
      case Some(why) => SetState(m.(job := None), Error, why, amb)
      case None =>
        if markerFails then
          SetState(m.(job := None), Error, NO_MARKER, amb)
        else
          var l := Newest(ev.value.published);
          SetState(if l != "" then m.(latest := l) else m, Applying, "", amb)
  }

  function GateFiles(m: Mem, run: RunDir, id: nat, ref: string, digest: string, ev: Result<Evaluation, string>,
                     markerFails: bool, latestFails: bool): RunDir {
    if GatePasses(m, id, ref, digest, ev, markerFails) then
      var marked := run.(marker := Some(MarkerText(STARTED, SourceOf(ev.value))));
      var l := Newest(ev.value.published);
      if l != "" then LatestFile(m, marked, l, latestFails) else marked
    else run
  }

  function PlanOf(ref: string, e: Evaluation): Plan {
    Plan(SourceOf(e), ref, e.verdict.trusted && e.verdict.version == Newest(e.published))
  }

  /** A line of kairos-agent's output. */
  function ProgressLine(m: Mem, line: string): Mem {
    m.(detail := line, q := Push(m.q, Progress(line)))
  }

  /** run's last region after an error of kairos-agent. */
  function FinishFailed(m: Mem, amb: Ambient): Mem {
    SetState(m.(job := None, pending := FAILED), RebootPending, PendingDetail(FAILED), amb)
  }

  /** run's last region after kairos-agent succeeded. */
  function FinishInstalled(m: Mem, note: string, amb: Ambient): Mem {
    SetState(m.(job := None, pending := INSTALLED), RebootPending, if note != "" then note else m.detail, amb)
  }

  function CancelAnswer(m: Mem): Option<Refusal> {
    if m.state.Checking? || m.state.Inspecting? then None
    else if m.state.Applying? then Some(ErrNotCancellable)
    else Some(ErrNothingToCancel)
  }

  /** What a cancelled job leaves: the state it found, but never an old error. */
  function BeforeJob(j: Job): (State, string) {
    if j.prev.Error? then (Idle, "") else (j.prev, j.prevDetail)
  }

  /** Cancel dereferences the job, so there must be one. */
  function CancelJob(m: Mem, amb: Ambient): Mem
    requires CancelAnswer(m).None? ==> m.job.Some?
  {
    if CancelAnswer(m).Some? then m
    else
      var (s, detail) := BeforeJob(m.job.value);
      SetState(m.(job := None), s, detail, amb)
  }

  function RebootAnswer(m: Mem): Option<Refusal> {
    if m.state.Inspecting? || m.state.Applying? then Some(ErrBusy) else None
  }

  function PreviousAnswer(m: Mem): Option<Refusal> {
    if m.rebooting then Some(ErrRebooting)
    else if m.state.Inspecting? || m.state.Applying? then Some(ErrBusy)
    else if m.state.RebootPending? then
      Some(if m.pending == INSTALLED then ErrPreviousAfterInstall else ErrUnfinishedPending)
    else None
  }

  /** The shared start of Reboot and RebootPrevious once they are not refused. */
  function RestartBegin(m: Mem): Mem {
    m.(rebooting := true)
  }

  function RestartFailed(m: Mem): Mem {
    m.(rebooting := false)
  }

  // ---------------------------------------------------------------------
  // The daemon
  // ---------------------------------------------------------------------

  /** The names in the run directory. */
  datatype RunFile = MarkerFile | ReleaseFile

  type RunDisk = Disk<RunFile, string>

  function DirOf(files: map<RunFile, string>): RunDir {
    RunDir(if MarkerFile in files then Some(files[MarkerFile]) else None,
           if ReleaseFile in files then Some(files[ReleaseFile]) else None)
  }

  /** Whether writeRunFile returns an error. */
  predicate WriteFails(w: Trouble<string>) {
    w.mkdir || w.create || w.write || w.chmod || w.close || w.rename
  }

  /** writeRunFile: through a temporary file and a rename. Whichever operation
      fails, the name holds its old contents or all of the new ones, and a
      temporary file is left over only if its removal failed too. */
  method WriteRunFile(run: RunDisk, name: RunFile, content: string, w: Trouble<string>) returns (err: bool)
    modifies run
    ensures err <==> WriteFails(w)
    ensures run.files == if err then old(run.files) else old(run.files)[name := content]
    ensures run.temps != old(run.temps) ==> err && w.remove
  {
    if w.mkdir { return true; }
    var t := run.CreateTemp("", w.create);
    if t.None? { return true; }
    run.WriteTemp(t.value, content, w.garbage, w.write);
    if w.write || w.chmod || w.close {
      run.RemoveTemp(t.value, w.remove);
      return true;
    }
    run.Rename(t.value, name, w.rename);
    if w.rename { run.RemoveTemp(t.value, w.remove); }
    return w.rename;
  }

  method WriteMarker(run: RunDisk, word: string, source: string, w: Trouble<string>) returns (err: bool)
    modifies run
    ensures err <==> WriteFails(w)
    ensures DirOf(run.files) == if err then old(DirOf(run.files))
                                else old(DirOf(run.files)).(marker := Some(MarkerText(word, source)))
  {
    err := WriteRunFile(run, MarkerFile, word + " " + source + "\n", w);
  }

  class Daemon {
    const run: RunDisk
    var rel: Rel
    var managed: bool
    var state: State
    var pending: string
    var latest: string
    var detail: string
    var job: Option<Job>
    var rebooting: bool
    var q: Queue<Status>

    ghost function View(): Mem
      reads this
    {
      Mem(rel, managed, state, pending, latest, detail, job, rebooting, q)
    }

    constructor (run: RunDisk, loaded: Result<Rel, string>, latestUnreadable: bool, markerUnreadable: bool)
      ensures this.run == run
      ensures View() == NewMem(loaded, DirOf(run.files), latestUnreadable, markerUnreadable)
    {
      hide StrictTag, TrimSpace, MarkerWord, PendingDetail;
      this.run := run;
      var recorded := loaded.Ok? && !latestUnreadable && ReleaseFile in run.files;
      var tag := if recorded then TrimSpace(run.files[ReleaseFile]) else "";
      var word := ReadMarker(DirOf(run.files).marker, markerUnreadable);
      managed := loaded.Ok?;
      rel := if loaded.Ok? then loaded.value else Rel("", "", "", "", "");
      latest := if loaded.Ok? && StrictTag(tag) then tag else "";
      if loaded.Err? {
        state, pending, detail := Unmanaged, "", loaded.error;
      } else if word.Some? {
        state, pending, detail := RebootPending, word.value, PendingDetail(word.value);
      } else {
        state, pending, detail := Idle, "", "";
      }
      job, rebooting, q := None, false, Empty();
    }

    method SetLocked(s: State, detail: string, amb: Ambient)
      modifies this
      ensures View() == SetState(old(View()), s, detail, amb)
    {
      state, this.detail := s, detail;
      var status := Status(s, rel.version, latest, amb.pin, detail, amb.advanced,
                           if s.RebootPending? then pending else "");
      q := Push(q, Change(status));
    }

    method SetLatestLocked(tag: string, w: Trouble<string>)
      modifies this, run
      ensures View() == old(View()).(latest := tag)
      ensures DirOf(run.files) == LatestFile(old(View()), old(DirOf(run.files)), tag, WriteFails(w))
    {
      if tag == latest { return; }
      latest := tag;
      var _ := WriteRunFile(run, ReleaseFile, tag + "\n", w);
    }

    method BeginCheck(id: nat, amb: Ambient) returns (answer: CheckStart)
      modifies this
      ensures answer == CheckAnswer(old(View()))
      ensures View() == CheckBegin(old(View()), id, amb)
    {
      if !managed { return CheckIgnored; }
      if BusyState(state) { return CheckRefused; }
      var pendingNow := state.RebootPending?;
      if !pendingNow {
        job := Some(Job(id, state, detail));
        SetLocked(Checking, "", amb);
      }
      return CheckStarted(pendingNow);
    }

    method EndCheck(id: nat, pendingThen: bool, listed: Result<seq<string>, string>, amb: Ambient,
                    w: Trouble<string>) returns (r: CheckResult)
      modifies this, run
      ensures r == CheckEndResult(old(View()), id, pendingThen, listed)
      ensures View() == CheckEnd(old(View()), id, pendingThen, listed, amb)
      ensures DirOf(run.files)
           == CheckEndFile(old(View()), old(DirOf(run.files)), id, pendingThen, listed, WriteFails(w))
    {
      hide DirOf, WriteFails, SetState, Push, StatusOf, Newer, Newest;
      if pendingThen {
        if listed.Err? { return CheckFailed(listed.error); }
        AnnounceLatest(Newest(listed.value), amb, w);
        return CheckOk;
      }
      if job.None? || job.value.id != id { return CheckCancelled; }
      job := None;
      if listed.Err? {
        EndWithError("could not check for updates: " + listed.error, amb);
        return CheckFailed(listed.error);
      }
      SetLatestLocked(Newest(listed.value), w);
      if amb.pin == "" && Newer(latest, rel.version) {
        SetLocked(UpdateAvailable, "", amb);
      } else {
        SetLocked(UpToDate, "", amb);
      }
      return CheckOk;
    }

    method AnnounceLatest(tag: string, amb: Ambient, w: Trouble<string>)
      modifies this, run
      ensures var n := old(View()).(latest := tag); View() == n.(q := Push(n.q, Change(StatusOf(n, amb))))
      ensures DirOf(run.files) == LatestFile(old(View()), old(DirOf(run.files)), tag, WriteFails(w))
    {
      hide DirOf, WriteFails, LatestFile, Push;
      SetLatestLocked(tag, w);
      q := Push(q, Change(Status(state, rel.version, latest, amb.pin, detail, amb.advanced,
                                 if state.RebootPending? then pending else "")));
    }

    method BeginApply(ref: string, digest: string, id: nat, amb: Ambient) returns (refusal: Option<Refusal>)
      modifies this
      ensures refusal == ApplyAnswer(old(View()), ref, digest)
      ensures View() == if refusal.None? then ApplyBegin(old(View()), id, amb) else old(View())
    {
      var r := ParseRef(ref);
      if r.Err? { return Some(ErrBadRef(r.error)); }
      if !IsDigest(digest) { return Some(ErrBadDigest); }
      if !managed { return Some(ErrUnmanaged); }
      if rebooting { return Some(ErrRebooting); }
      if state.RebootPending? {
        return Some(if pending == INSTALLED then ErrRebootPending else ErrUnfinishedPending);
      }
      if BusyState(state) { return Some(ErrBusy); }
      job := Some(Job(id, state, detail));
      SetLocked(Inspecting, "", amb);
      return None;
    }

    /** The region of run that decides whether kairos-agent starts. */
    method PassGate(id: nat, ref: string, digest: string, ev: Result<Evaluation, string>, amb: Ambient,
                    marker: Trouble<string>, release: Trouble<string>) returns (plan: Option<Plan>)
      modifies this, run
      ensures plan == if GatePasses(old(View()), id, ref, digest, ev, WriteFails(marker))
                      then Some(PlanOf(ref, ev.value)) else None
      ensures View() == Gate(old(View()), id, ref, digest, ev, amb, WriteFails(marker))
      ensures DirOf(run.files) == GateFiles(old(View()), old(DirOf(run.files)), id, ref, digest, ev,
                                            WriteFails(marker), WriteFails(release))
    {
      hide DirOf, WriteFails, SetState, LatestFile, Push, StatusOf, GateError, Newest, MarkerText, SourceOf, PlanOf;
      if job.None? || job.value.id != id { return None; }
      PassedIsEvaluated(View(), ref, digest, ev);
      var why := MarkUnlessRefused(ref, digest, ev, marker);
      if why.Some? {
        EndWithError(why.value, amb);
        return None;
      }
      BeginApplying(Newest(ev.value.published), amb, release);
      return Some(PlanOf(ref, ev.value));
    }

    /** The marker goes down if nothing speaks against the install; no marker, no
        install. */
    method MarkUnlessRefused(ref: string, digest: string, ev: Result<Evaluation, string>, marker: Trouble<string>)
      returns (why: Option<string>)
      modifies run
      ensures View() == old(View())
      ensures var refusal := GateError(View(), ref, digest, ev);
              why == if refusal.Some? then refusal else if WriteFails(marker) then Some(NO_MARKER) else None
      ensures why.None? ==> ev.Ok?
      ensures DirOf(run.files) == if why.Some? then old(DirOf(run.files))
                                  else old(DirOf(run.files)).(marker := Some(MarkerText(STARTED, SourceOf(ev.value))))
    {
      hide DirOf, WriteFails, GateError, MarkerText, SourceOf;
      PassedIsEvaluated(View(), ref, digest, ev);
      why := GateError(Mem(rel, managed, state, pending, latest, detail, job, rebooting, q), ref, digest, ev);
      if why.None? {
        var failed := WriteMarker(run, STARTED, SourceOf(ev.value), marker);
        if failed { why := Some(NO_MARKER); }
      }
    }

    method EndWithError(why: string, amb: Ambient)
      modifies this
      ensures View() == SetState(old(View()).(job := None), Error, why, amb)
    {
      job := None;
      SetLocked(Error, why, amb);
    }

    method BeginApplying(l: string, amb: Ambient, release: Trouble<string>)
      modifies this, run
      ensures View() == SetState(if l != "" then old(View()).(latest := l) else old(View()), Applying, "", amb)
      ensures DirOf(run.files) == if l != "" then LatestFile(old(View()), old(DirOf(run.files)), l, WriteFails(release))
                                  else old(DirOf(run.files))
    {
      hide DirOf, WriteFails, SetState, LatestFile;
      if l != "" { SetLatestLocked(l, release); }
      SetLocked(Applying, "", amb);
    }

    method OutputLine(line: string)
      modifies this
      ensures View() == ProgressLine(old(View()), line)
    {
      detail := line;
      q := Push(q, Progress(line));
    }

    method FinishAfterError(amb: Ambient)
      modifies this
      ensures View() == FinishFailed(old(View()), amb)
    {
      job, pending := None, FAILED;
      SetLocked(RebootPending, PendingDetail(FAILED), amb);
    }

    method FinishAfterInstall(note: string, amb: Ambient)
      modifies this
      ensures View() == FinishInstalled(old(View()), note, amb)
    {
      job := None;
      var last := detail;
      if note != "" { last := note; }
      pending := INSTALLED;
      SetLocked(RebootPending, last, amb);
    }

    method Cancel(amb: Ambient) returns (refusal: Option<Refusal>)
      requires CancelAnswer(View()).None? ==> job.Some?
      modifies this
      ensures refusal == CancelAnswer(old(View()))
      ensures View() == CancelJob(old(View()), amb)
    {
      if state.Checking? || state.Inspecting? {
        var j := job.value;
        job := None;
        var prev, last := j.prev, j.prevDetail;
        if prev.Error? { prev, last := Idle, ""; }
        SetLocked(prev, last, amb);
        return None;
      } else if state.Applying? {
        return Some(ErrNotCancellable);
      } else {
        return Some(ErrNothingToCancel);
      }
    }

    method BeginReboot() returns (refusal: Option<Refusal>)
      modifies this
      ensures refusal == RebootAnswer(old(View()))
      ensures View() == if refusal.None? then RestartBegin(old(View())) else old(View())
    {
      if state.Inspecting? || state.Applying? { return Some(ErrBusy); }
      rebooting := true;
      return None;
    }

    method BeginRebootPrevious() returns (refusal: Option<Refusal>)
      modifies this
      ensures refusal == PreviousAnswer(old(View()))
      ensures View() == if refusal.None? then RestartBegin(old(View())) else old(View())
    {
      if rebooting { return Some(ErrRebooting); }
      if state.Inspecting? || state.Applying? { return Some(ErrBusy); }
      if state.RebootPending? {
        return Some(if pending == INSTALLED then ErrPreviousAfterInstall else ErrUnfinishedPending);
      }
      rebooting := true;
      return None;
    }

    method RestartReturnedError()
      modifies this
      ensures View() == RestartFailed(old(View()))
    {
      rebooting := false;
    }
  }
}
