/** Runs of the update protocol in which a promise of the daemon is broken. */
module UpdateWitness {
  import opened Wrappers
  import Text
  import opened ImageRef
  import opened Release
  import opened Policy
  import opened UpdateDaemon
  import opened UpdateProtocol
  import opened UpdateRuns

  /** A reference, a registry answer and an Apply call that pass the gate. */
  const REF := Ref("a.b", "h", "x", "")
  const DIGEST: string := "sha256:" + Text.Repeated('0', 64)
  const IMAGE := ImageInfo(REF, DIGEST, map[])
  const REQUEST := Request("a.b/h:x", DIGEST, true)
  const REL := Rel("sway", "v1.0.0", "", "", "full")
  const AMB := Ambient("", true)

  function Passes(id: nat): Action {
    EvaluateReturn(id, Ok(IMAGE), Ok([]), true, "", AMB, false, false)
  }

  lemma DigestOk()
    ensures IsDigest(DIGEST)
  {
    assert DIGEST[..7] == "sha256:";
  }

  lemma HostOk()
    ensures IsHost("a.b")
  {
    hide Text.IndexOf;
    var s := "a.b";
    var p := Text.Cut(s, ':');
    assert ':' !in s;
    assert p.found ==> ':' in s;
  }

  lemma NameOk()
    ensures IsName("h")
  {
    assert NameStep(NameScan.Start, 'h') == Run;
    assert "h"[1..] == "";
    assert NameState(Run, "") == Run;
  }

  lemma RefParses()
    ensures ParseRef(REQUEST.ref) == Ok(REF) && IsDigest(DIGEST)
  {
    DigestOk();
    HostOk();
    NameOk();
    hide ParseRef, IsDigest, IsHost, IsName;
    assert IsTag("x");
    assert REF.WellFormed();
    assert REF.String() == "a.b/h:x";
    PrintedParsesBack(REF);
  }

  lemma GoOn(cs: seq<Core>, acts: seq<Action>, a: Action) returns (ds: seq<Core>)
    requires IsRun(cs, acts) && Enabled(cs[|acts|], a)
    ensures IsRun(ds, acts + [a]) && |ds| == |cs| + 1 && ds[|cs|] == Next(cs[|acts|], a)
    ensures forall i :: 0 <= i < |cs| ==> ds[i] == cs[i]
  {
    RunGoesOn(cs, acts, a);
    ds := cs + [Next(cs[|acts|], a)];
  }

  // ---------------------------------------------------------------------
  // An install
  // ---------------------------------------------------------------------

  /** Idle and managed, and the flag of a restart is off. */
  predicate Ready(c: Core) {
    c.up && c.m.managed && c.m.state.Idle? && !c.m.rebooting
  }

  predicate Waiting(c: Core, id: nat) {
    AtEvaluation(c, id) && c.tasks[id].pc == Evaluating(REQUEST.ref, REQUEST.digest, true)
    && Holds(c.m, id) && !c.m.rebooting
  }

  lemma ApplyAccepted(c: Core)
    requires Ready(c)
    ensures var d := Next(c, ApplyCall(REQUEST, AMB));
            Waiting(d, c.nextId) && d.outstanding == c.outstanding && d.installs == c.installs
  {
    RefParses();
    hide ParseRef, IsDigest, StatusOf;
  }

  lemma GatePasses(c: Core, id: nat)
    requires Waiting(c, id)
    ensures Enabled(c, Passes(id))
    ensures var d := Next(c, Passes(id));
            Enabled(d, UpgradeCall(id)) && d.outstanding == c.outstanding && d.installs == c.installs
  {
    RefParses();
    hide ParseRef, IsDigest, StatusOf, GateFiles, PlanOf, TrustedName;
    assert Classify(IMAGE, c.m.rel, []) == Err(NotHadron) || Classify(IMAGE, c.m.rel, []).Ok?;
  }

  lemma UpgradeGoesOn(c: Core, id: nat)
    requires Enabled(c, UpgradeCall(id))
    ensures var d := Next(c, UpgradeCall(id)); d.up && |d.installs| == |c.installs| + 1
  {
  }

  lemma GateOpens(cs: seq<Core>, acts: seq<Action>, id: nat) returns (ds: seq<Core>)
    requires IsRun(cs, acts) && Waiting(cs[|acts|], id)
    ensures IsRun(ds, acts + [Passes(id)]) && |ds| == |cs| + 1
    ensures forall i :: 0 <= i < |cs| ==> ds[i] == cs[i]
    ensures var d := ds[|cs|];
            Enabled(d, UpgradeCall(id)) && d.outstanding == cs[|acts|].outstanding && d.installs == cs[|acts|].installs
  {
    GatePasses(cs[|acts|], id);
    hide Enabled, Next, Waiting, Init;
    ds := GoOn(cs, acts, Passes(id));
  }

  /** From any idle daemon without a restart flag an install can start. */
  lemma InstallStarts(cs: seq<Core>, acts: seq<Action>) returns (ds: seq<Core>)
    requires IsRun(cs, acts) && Ready(cs[|acts|])
    ensures var c := cs[|acts|];
            && IsRun(ds, acts + [ApplyCall(REQUEST, AMB)] + [Passes(c.nextId)] + [UpgradeCall(c.nextId)])
            && (forall i :: 0 <= i < |cs| ==> ds[i] == cs[i])
            && ds[|acts| + 2].outstanding == c.outstanding
            && ds[|acts| + 3].up && |ds[|acts| + 3].installs| == |c.installs| + 1
  {
    var c := cs[|acts|];
    var id := c.nextId;
    ApplyAccepted(c);
    assert Enabled(c, ApplyCall(REQUEST, AMB));
    hide Enabled, Next, Ready, Waiting, Init, IsRun;
    ds := GoOn(cs, acts, ApplyCall(REQUEST, AMB));
    var next := acts + [ApplyCall(REQUEST, AMB)];
    ds := GateOpens(ds, next, id);
    UpgradeGoesOn(ds[|acts| + 2], id);
    ds := GoOn(ds, next + [Passes(id)], UpgradeCall(id));
  }

  /** A machine that has just booted for the first time. */
  const BOOTED := Core(false, NewMem(Ok(REL), RunDir(None, None), false, false), map[], 0, RunDir(None, None), None,
                       Slots(Some("a"), Some("b")), Slots(Some("a"), Some("b")), [], map[], {}, false)

  /** A run that ends with a ready daemon. */
  lemma ReadyRun() returns (cs: seq<Core>, acts: seq<Action>)
    ensures IsRun(cs, acts) && acts == [Action.Start(Ok(REL), false, false)] && Ready(cs[1])
    ensures cs[1].outstanding == {} && cs[1].nextId == 0 && cs[1].installs == []
  {
    acts := [Action.Start(Ok(REL), false, false)];
    cs := [BOOTED, Next(BOOTED, acts[0])];
  }

  // ---------------------------------------------------------------------
  // The broken promises
  // ---------------------------------------------------------------------

  lemma RestartCalled(c: Core)
    requires c.up && c.m.managed && c.m.state.Idle?
    ensures Enabled(c, RebootCall)
    ensures var d := Next(c, RebootCall);
            d.up && d.m.managed && d.m.state.Idle? && d.nextId == c.nextId + 1
            && d.outstanding == c.outstanding + {c.nextId} && d.tasks == c.tasks[c.nextId := RestartTask]
  {
  }

  lemma FirstFails(c: Core, id: nat)
    requires c.up && c.m.managed && c.m.state.Idle? && id in c.tasks && c.tasks[id].RestartTask?
    ensures Enabled(c, RestartReturn(id, false))
    ensures var d := Next(c, RestartReturn(id, false));
            Ready(d) && d.outstanding == c.outstanding - {id} && d.nextId == c.nextId
  {
  }

  lemma TwoRestarts() returns (cs: seq<Core>, acts: seq<Action>)
    ensures IsRun(cs, acts) && |acts| == 4 && acts[1] == acts[2] == RebootCall && acts[3] == RestartReturn(0, false)
    ensures Ready(cs[4]) && cs[4].nextId == 2 && cs[4].outstanding == {1}
  {
    var start: seq<Action>;
    cs, start := ReadyRun();
    RestartCalled(cs[1]);
    hide Enabled, Next, Init;
    cs := GoOn(cs, start, RebootCall);
    RestartCalled(cs[2]);
    cs := GoOn(cs, start + [RebootCall], RebootCall);
    FirstFails(cs[3], 0);
    hide Ready;
    cs := GoOn(cs, start + [RebootCall] + [RebootCall], RestartReturn(0, false));
    acts := start + [RebootCall] + [RebootCall] + [RestartReturn(0, false)];
  }

  /** "Once it is asked, no install starts until the reboot fails": two restarts
      are asked, the first fails, and kairos-agent starts while the second is
      outstanding. */
  lemma InstallBesideRestart() returns (cs: seq<Core>, acts: seq<Action>)
    ensures IsRun(cs, acts) && |acts| == 7
    ensures acts[1] == acts[2] == RebootCall && acts[3] == RestartReturn(0, false) && acts[6] == UpgradeCall(2)
    ensures forall i :: 3 < i < 7 ==> !acts[i].RestartReturn?
    ensures cs[6].outstanding == {1}
  {
    var first: seq<Action>;
    cs, first := TwoRestarts();
    hide IsRun, Ready;
    cs := InstallStarts(cs, first);
    acts := first + [ApplyCall(REQUEST, AMB)] + [Passes(2)] + [UpgradeCall(2)];
  }

  /** RebootPrevious is to be refused "while an install waits for its reboot":
      after any install, a daemon that dies and comes back without a release file
      lets it through to the backend. */
  lemma PreviousOfferedAfterInstall(cs: seq<Core>, acts: seq<Action>, why: string) returns (ds: seq<Core>)
    requires IsRun(cs, acts) && cs[|acts|].up && cs[|acts|].installs != []
    ensures IsRun(ds, acts + [Crash] + [Action.Start(Err(why), false, false)] + [PreviousCall])
    ensures forall i :: 0 <= i < |cs| ==> ds[i] == cs[i]
    ensures ds[|acts| + 2].installs == cs[|acts|].installs && PreviousAnswer(ds[|acts| + 2].m).None?
    ensures ds[|acts| + 3].outstanding != {}
  {
    var c := cs[|acts|];
    var c1 := Next(c, Crash);
    var start := Action.Start(Err(why), false, false);
    var c2 := Next(c1, start);
    var c3 := Next(c2, PreviousCall);
    assert c2.installs == c.installs && PreviousAnswer(c2.m).None? && c3.outstanding == {c.nextId};
    assert Enabled(c, Crash) && Enabled(c1, start) && Enabled(c2, PreviousCall);
    hide Enabled, Next, Init, IsRun, PreviousAnswer;
    ds := GoOn(cs, acts, Crash);
    ds := GoOn(ds, acts + [Crash], start);
    ds := GoOn(ds, acts + [Crash] + [start], PreviousCall);
  }

  /** There are runs with an install. */
  lemma SomeInstall() returns (cs: seq<Core>, acts: seq<Action>)
    ensures IsRun(cs, acts) && cs[|acts|].up && cs[|acts|].installs != []
  {
    var start: seq<Action>;
    cs, start := ReadyRun();
    hide Ready;
    acts := start + [ApplyCall(REQUEST, AMB)] + [Passes(cs[1].nextId)] + [UpgradeCall(cs[1].nextId)];
    hide IsRun;
    cs := InstallStarts(cs, start);
  }
}
