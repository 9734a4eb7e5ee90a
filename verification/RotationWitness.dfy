/** Histories of the admin bearer in which more than its current and its outgoing
    digest are accepted. */
module RotationWitness {
  import opened Wrappers
  import Text
  import opened Bearer
  import opened Rotation
  import opened RotationRuns
  import opened RotationHistory

  function Digest(c: char): string {
    DIGEST_PREFIX + Text.Repeated(c, 64)
  }

  lemma DigestsDiffer(c: char, d: char)
    requires IsLowerHex(c) && IsLowerHex(d)
    ensures CheckDigest(Digest(c)) == None && Digest(c) != ""
    ensures Digest(c) == Digest(d) <==> c == d
  {
    assert Digest(c)[|DIGEST_PREFIX|..] == Text.Repeated(c, 64);
    assert Digest(c)[|DIGEST_PREFIX|] == c && Digest(d)[|DIGEST_PREFIX|] == d;
  }

  /** Nothing fails. */
  function Fine(): Faults {
    Faults(true, p => true, p => Written, p => Written, p => true)
  }

  /** The configuration hands in the admin bearer 1, with 0 before it for a day. */
  function AdminGiven(): Given {
    Given(Digest('1'), Digest('0'), DAY)
  }

  function Provisioning(): Event {
    Provisioned(Given("", "", 0), AdminGiven(), Some(Digest('f')), "", SECOND, Fine(), [SECOND, SECOND])
  }

  function Call(c: char): Request {
    Request(Admin, DAY, SECOND, Some(Digest(c)), true)
  }

  /** A rotation that dies after its first write. */
  function CutShort(c: char): Event {
    Rotated(Call(c), Fine(), [SECOND])
  }

  function First(): Rotation {
    RotationFromConfig(AdminGiven())
  }

  function FirstGateway(): Gateway {
    Gateway(Rotation(Digest('f'), "", NoStamp), First(), "")
  }

  /** What provisioning writes. */
  function Start(): Files {
    map[GatewayPath := GatewayJson(FirstGateway())][RootPath := RootJson(First())]
  }

  lemma AdminGivenValid()
    ensures ValidatePair(AdminGiven(), SECOND) == None && AdminGiven().hash != ""
  {
    DigestsDiffer('1', '0');
    DigestsDiffer('0', '0');
    hide Digest, CheckDigest;
  }

  lemma PlanIs()
    ensures ProvisionPlan(map[], Provisioning())
         == [FileSpec(GatewayPath, GatewayJson(FirstGateway()))] + [FileSpec(RootPath, RootJson(First()))]
  {
    AdminGivenValid();
    hide Digest, CheckDigest, ValidatePair, Fine;
    assert ValidatePair(Given("", "", 0), SECOND) == None by { NoneGivenValid(); }
    assert First().current == AdminGiven().hash;
  }

  lemma NoneGivenValid()
    ensures ValidatePair(Given("", "", 0), SECOND) == None
  {
  }

  lemma ProvisioningWrites()
    ensures Trace(map[], Provisioning()) == [map[GatewayPath := GatewayJson(FirstGateway())], Start()]
  {
    PlanIs();
    var a, b := FileSpec(GatewayPath, GatewayJson(FirstGateway())), FileSpec(RootPath, RootJson(First()));
    assert [a] + [b] == [a, b];
    BothWritten(map[], a, b);
    hide ProvisionPlan, First, FirstGateway, Fine;
  }

  lemma BothWritten(f: Files, a: FileSpec, b: FileSpec)
    ensures var g := f[a.path := a.data];
            WriteAll(f, [a, b], Fine().write) == Writes([g, g[b.path := b.data]], true)
  {
    var g := f[a.path := a.data];
    var h := g[b.path := b.data];
    assert Fine().write(a.path) == Written && Fine().write(b.path) == Written;
    assert [a, b][1..] == [b] && [b][1..] == [];
    assert WriteAll(h, [], Fine().write) == Writes([], true);
    assert WriteAll(g, [b], Fine().write) == Writes([h] + [], true);
  }

  /** An admin call to which nothing happens succeeds. */
  lemma Succeeds(f: Files, c: char)
    requires AdminProvisioned(f) && IsLowerHex(c)
    ensures RotateDone(f, Call(c), Fine()).result == Ok(Digest(c)) && |RotateDone(f, Call(c), Fine()).trace| == 2
    ensures AdminProvisioned(RotateDone(f, Call(c), Fine()).trace[0])
  {
    DigestsDiffer(c, c);
    PlanShape(f, Call(c), Fine());
    var specs := Planned(f, Call(c), Fine());
    assert specs == [specs[0], specs[1]];
    BothWritten(f, specs[0], specs[1]);
    FirstWrite(f, Call(c), Fine());
  }

  lemma CutHistory(h: seq<Entry>, e: Event)
    requires h != [] && |e.times| == 1 && Trace(h[|h| - 1].files, e) != []
    ensures Extend(h, e)[|Extend(h, e)| - 1].files == Trace(h[|h| - 1].files, e)[0]
    ensures Extend(h, e)[|Extend(h, e)| - 1].time == e.times[0]
  {
    hide Trace, GivenBy;
  }

  lemma HistoryOn(es: seq<Event>, e: Event)
    ensures History(SECOND, es + [e]) == Extend(History(SECOND, es), e)
    ensures AllOk(SECOND, es) && EventOk(History(SECOND, es), e) ==> AllOk(SECOND, es + [e])
  {
    hide Extend, EventOk;
    assert (es + [e])[..|es|] == es;
  }

  lemma LastTime(h: seq<Entry>, e: Event)
    requires h != [] && |e.times| == |Trace(h[|h| - 1].files, e)| == 2
    ensures Extend(h, e)[|Extend(h, e)| - 1].time == e.times[1]
  {
    hide Trace, GivenBy;
  }

  /** The files at rest and the time of the last change. */
  predicate EndsWith(es: seq<Event>, f: Files) {
    var h := History(SECOND, es);
    AllOk(SECOND, es) && Rest(SECOND, es) == f && h[|h| - 1].time == SECOND
  }

  lemma ProvisioningOk(h: seq<Entry>)
    requires h == [Entry(SECOND, map[], {})]
    ensures EventOk(h, Provisioning())
  {
    DigestsDiffer('f', 'f');
  }

  lemma AfterProvisioning()
    ensures EndsWith([Provisioning()], Start())
  {
    var h0 := History(SECOND, []);
    var e := Provisioning();
    assert h0 == [Entry(SECOND, map[], {})] && AllOk(SECOND, []);
    ProvisioningOk(h0);
    ProvisioningWrites();
    ExtendLast(h0, e);
    LastTime(h0, e);
    HistoryOn([], e);
    hide Extend, Trace, EventOk, AllOk, History;
    assert [] + [e] == [e];
  }

  lemma CutShortOk(h: seq<Entry>, c: char)
    requires h != [] && h[|h| - 1].time == SECOND && IsLowerHex(c) && IsNew(Digest(c), h[|h| - 1].files)
    ensures EventOk(h, CutShort(c))
  {
    DigestsDiffer(c, c);
    hide IsNew, Digest;
  }

  lemma OneMore(es: seq<Event>, f: Files, c: char)
    requires EndsWith(es, f) && IsLowerHex(c) && AdminProvisioned(f) && IsNew(Digest(c), f)
    ensures |RotateDone(f, Call(c), Fine()).trace| == 2
    ensures EndsWith(es + [CutShort(c)], RotateDone(f, Call(c), Fine()).trace[0])
  {
    var h, e := History(SECOND, es), CutShort(c);
    Succeeds(f, c);
    CutShortOk(h, c);
    HistoryOn(es, e);
    CutHistory(h, e);
    hide RotateDone, Extend, EventOk, AllOk, History, IsNew;
  }

  lemma ProvisionedAgree()
    ensures Agree(Start()) && AdminProvisioned(Start())
  {
    DigestsDiffer('1', '1');
  }

  lemma ProvisionedAccept()
    ensures AdminAccepted(Start(), GatewayPath, 2 * SECOND) == {Digest('1'), Digest('0')}
  {
    DigestsDiffer('1', '1');
    DigestsDiffer('0', '0');
    hide Digest;
    WholeDay();
    assert AuthRotation(First()) == Ok(RotationConfig(Digest('1'), Digest('0'), DAY));
  }

  lemma WholeDay()
    ensures Format(DAY) == Stamp.At(24 * 3600) && 24 * 3600 * SECOND == DAY
  {
  }

  lemma NewForFirst()
    ensures IsNew(Digest('2'), Start())
  {
    DigestsDiffer('2', '1');
    DigestsDiffer('2', 'f');
    hide Digest;
  }

  /** What the two services accept after the first call. */
  lemma AcceptThree()
    ensures |RotateDone(Start(), Call('2'), Fine()).trace| == 2
    ensures AnywhereAccepted(RotateDone(Start(), Call('2'), Fine()).trace[0], 2 * SECOND)
         == {Digest('2'), Digest('1'), Digest('0')}
  {
    ProvisionedAgree();
    ProvisionedAccept();
    Succeeds(Start(), '2');
    DigestsDiffer('2', '2');
    AgreeingAcceptTwo(Start(), 2 * SECOND);
    hide RotateDone, AdminAccepted, Digest, Agree, AdminProvisioned;
    AcceptedInWindow(Start(), Call('2'), Fine(), 2 * SECOND);
  }

  /** Three digests at once: provisioning, and one rotation that dies between its
      two writes while the overlap the configuration handed in still runs. */
  lemma ThreeAccepted() returns (es: seq<Event>)
    ensures AllOk(SECOND, es) && es == [Provisioning()] + [CutShort('2')]
    ensures AnywhereAccepted(Rest(SECOND, es), 2 * SECOND) == {Digest('2'), Digest('1'), Digest('0')}
    ensures |AnywhereAccepted(Rest(SECOND, es), 2 * SECOND)| == 3
  {
    es := [Provisioning()] + [CutShort('2')];
    AfterProvisioning();
    ProvisionedAgree();
    NewForFirst();
    OneMore([Provisioning()], Start(), '2');
    AcceptThree();
    ThreeDiffer();
    hide RotateDone, AnywhereAccepted, Rest, AllOk, Digest, History;
  }

  lemma ThreeDiffer()
    ensures |{Digest('2'), Digest('1'), Digest('0')}| == 3
  {
    DigestsDiffer('2', '1');
    DigestsDiffer('2', '0');
    DigestsDiffer('1', '0');
    hide Digest;
    ThreeOf(Digest('2'), Digest('1'), Digest('0'));
  }

  lemma ThreeOf(a: string, b: string, c: string)
    requires a != b && b != c && a != c
    ensures |{a, b, c}| == 3
  {
    assert {a, b, c} - {a} - {b} == {c};
  }

  lemma AcceptFour()
    ensures |RotateDone(Start(), Call('2'), Fine()).trace| == 2
    ensures var f1 := RotateDone(Start(), Call('2'), Fine()).trace[0];
            |RotateDone(f1, Call('3'), Fine()).trace| == 2
            && AnywhereAccepted(RotateDone(f1, Call('3'), Fine()).trace[0], 2 * SECOND)
               == {Digest('3'), Digest('2')} + {Digest('1'), Digest('0')}
  {
    ProvisionedAgree();
    ProvisionedAccept();
    Succeeds(Start(), '2');
    var f1 := RotateDone(Start(), Call('2'), Fine()).trace[0];
    Succeeds(f1, '3');
    DigestsDiffer('2', '2');
    DigestsDiffer('3', '3');
    hide RotateDone, AdminAccepted, AnywhereAccepted, Digest, Agree, AdminProvisioned;
    FourAfterTwoCrashes(Start(), Call('2'), Call('3'), Fine(), Fine(), 2 * SECOND);
  }

  /** Four, after a second one that dies in the same place. */
  lemma FourAccepted() returns (es: seq<Event>)
    ensures AllOk(SECOND, es) && es == [Provisioning()] + [CutShort('2')] + [CutShort('3')]
    ensures AnywhereAccepted(Rest(SECOND, es), 2 * SECOND)
         == {Digest('3'), Digest('2')} + {Digest('1'), Digest('0')}
    ensures |AnywhereAccepted(Rest(SECOND, es), 2 * SECOND)| == 4
  {
    es := [Provisioning()] + [CutShort('2')] + [CutShort('3')];
    AfterProvisioning();
    ProvisionedAgree();
    NewForFirst();
    OneMore([Provisioning()], Start(), '2');
    NewForSecond();
    Succeeds(Start(), '2');
    hide RotateDone, AnywhereAccepted, Rest, AllOk, Digest, History, AdminProvisioned, Agree;
    OneMore([Provisioning()] + [CutShort('2')], RotateDone(Start(), Call('2'), Fine()).trace[0], '3');
    AcceptFour();
    FourDiffer();
  }

  lemma FourDiffer()
    ensures |{Digest('3'), Digest('2')} + {Digest('1'), Digest('0')}| == 4
  {
    DigestsDiffer('3', '2');
    DigestsDiffer('3', '1');
    DigestsDiffer('3', '0');
    DigestsDiffer('2', '1');
    DigestsDiffer('2', '0');
    DigestsDiffer('1', '0');
    hide Digest;
    FourOf(Digest('3'), Digest('2'), Digest('1'), Digest('0'));
  }

  lemma FourOf(a: string, b: string, c: string, d: string)
    requires a != b && a != c && a != d && b != c && b != d && c != d
    ensures |{a, b} + {c, d}| == 4
  {
    assert {a, b} - {a} == {b} && {c, d} - {c} == {d};
    assert {a, b} * {c, d} == {};
  }

  lemma NewForSecond()
    ensures |RotateDone(Start(), Call('2'), Fine()).trace| == 2
    ensures IsNew(Digest('3'), RotateDone(Start(), Call('2'), Fine()).trace[0])
  {
    ProvisionedAgree();
    Succeeds(Start(), '2');
    DigestsDiffer('3', '2');
    DigestsDiffer('3', '1');
    DigestsDiffer('3', 'f');
    FirstWrite(Start(), Call('2'), Fine());
    hide Digest, RotateDone;
  }
}
