/** update/policy.go: whether an image may be installed, decided by name. */
module Policy {
  import opened Wrappers
  import opened Text
  import opened ImageRef
  import opened Release

  const LABEL_FLAVOR := "io.kairos.hadron-desktop.flavor"
  const LABEL_VERSION := "io.kairos.hadron-desktop.version"
  const LABEL_GPU := "io.kairos.hadron-desktop.gpu"

  /** What a registry said about an image. */
  datatype ImageInfo = ImageInfo(ref: Ref, digest: string, labels: map<string, string>) {
    /** A missing label reads as "". */
    function Label(key: string): string {
      if key in labels then labels[key] else ""
    }
  }

  datatype Verdict = Verdict(flavor: string, version: string, gpu: string, trusted: bool, hadron: bool)

  const NO_VERDICT := Verdict("", "", "", false, false)

  datatype PolicyError = AgentImage | NotHadron | NotRelease

  predicate DesktopFlavor(f: string) {
    f in ["sway", "i3", "cosmic", "niri"]
  }

  /** "0", or digits that do not start with '0'. */
  predicate StrictNumber(s: string) {
    s != "" && AllDigits(s) && (s == "0" || s[0] != '0')
  }

  /** vX.Y.Z without leading zeros, prerelease or build metadata. */
  predicate StrictTag(s: string) {
    && s != "" && s[0] == 'v'
    && var parts := Split(s[1..], '.');
       |parts| == 3 && StrictNumber(parts[0]) && StrictNumber(parts[1]) && StrictNumber(parts[2])
  }

  /** strings.CutPrefix with the prefix "vm-". */
  function CutVm(tag: string): (string, string) {
    if "vm-" <= tag then (GPU_VM, tag[3..]) else (GPU_FULL, tag)
  }

  function Classify(info: ImageInfo, rel: Rel, published: seq<string>): Result<Verdict, PolicyError> {
    if info.Label(LABEL_FLAVOR) == AGENT || "agent-" <= info.ref.tag then Err(AgentImage)
    else
      match TrustedName(info.ref, rel, published)
      case Some(v) => Ok(v)
      case None => Labelled(info)
  }

  /** Trusted by name: the release repository and a published release's tag. A
      reference with a digest is never trusted by name. */
  function TrustedName(ref: Ref, rel: Rel, published: seq<string>): Option<Verdict> {
    if rel.imageRepo == "" || ref.digest != "" || ref.Repo() != rel.imageRepo then None
    else
      var p := Cut(ref.tag, '-');
      var (line, tag) := CutVm(p.after);
      if p.found && DesktopFlavor(p.before) && StrictTag(tag) && tag in published then
        Some(Verdict(p.before, tag, line, true, true))
      else None
  }

  function Labelled(info: ImageInfo): Result<Verdict, PolicyError> {
    var flavor, version := info.Label(LABEL_FLAVOR), info.Label(LABEL_VERSION);
    if DesktopFlavor(flavor) && StrictTag(version) then
      var line := info.Label(LABEL_GPU);
      Ok(Verdict(flavor, version, if line == GPU_FULL || line == GPU_VM then line else "", false, true))
    else Err(NotHadron)
  }

  datatype LineError = NoRepository | BadReference(why: RefError)

  /** The reference the release workflow pushes for a flavor, line and tag. */
  function LineRef(rel: Rel, flavor: string, line: string, tag: string): Result<Ref, LineError> {
    if rel.imageRepo == "" then Err(NoRepository)
    else
      match ParseRef(rel.imageRepo + ":" + LineTag(flavor, line, tag))
      case Ok(r) => Ok(r)
      case Err(e) => Err(BadReference(e))
  }

  /** A flavor, line and tag a release is published under. */
  predicate Published(flavor: string, line: string, tag: string, published: seq<string>) {
    DesktopFlavor(flavor) && line in [GPU_FULL, GPU_VM] && StrictTag(tag) && tag in published
  }

  // ---------------------------------------------------------------------
  // What the tag alphabet guarantees
  // ---------------------------------------------------------------------

  lemma {:induction false} SplitAlphabet(s: string, sep: char, c: char)
    requires c in s && c != sep
    ensures exists k :: 0 <= k < |Split(s, sep)| && c in Split(s, sep)[k]
    decreases |s|
  {
    var p := Cut(s, sep);
    hide Cut;
    if !p.found || c in p.before {
      assert c in Split(s, sep)[0];
    } else {
      assert c in p.after;
      SplitAlphabet(p.after, sep, c);
      assert Split(s, sep) == [p.before] + Split(p.after, sep);
      hide Split;
      var k :| 0 <= k < |Split(p.after, sep)| && c in Split(p.after, sep)[k];
      assert Split(s, sep)[k + 1] == Split(p.after, sep)[k];
    }
  }

  lemma DigitsOnly(s: string, c: char)
    requires AllDigits(s) && c in s
    ensures '0' <= c <= '9'
  {
    if c != s[0] { DigitsOnly(s[1..], c); }
  }

  lemma StrictTagAlphabet(s: string, c: char)
    requires StrictTag(s) && c in s
    ensures c == 'v' || c == '.' || '0' <= c <= '9'
  {
    if c != 'v' && c != '.' {
      assert c in s[1..];
      SplitAlphabet(s[1..], '.', c);
      var parts := Split(s[1..], '.');
      var k :| 0 <= k < |parts| && c in parts[k];
      DigitsOnly(parts[k], c);
    }
  }

  /** A strict tag starts with 'v' and a digit, so it never reads as "vm-". */
  lemma StrictTagStart(s: string)
    requires StrictTag(s)
    ensures |s| >= 2 && '0' <= s[1] <= '9'
  {
    var p := Cut(s[1..], '.');
    assert p.before == Split(s[1..], '.')[0];
    assert p.before[0] == s[1];
  }

  lemma LineTagAlphabet(flavor: string, line: string, tag: string, c: char)
    requires DesktopFlavor(flavor) && StrictTag(tag) && c in LineTag(flavor, line, tag)
    ensures c !in "@/:"
  {
    hide StrictTag;
    if c in tag { StrictTagAlphabet(tag, c); }
  }

  lemma DesktopFlavorPlain(flavor: string)
    requires DesktopFlavor(flavor)
    ensures '-' !in flavor && flavor != AGENT
  {
  }

  /** Cutting a line tag gives back the flavor, the line and the tag. */
  lemma LineTagCuts(flavor: string, line: string, tag: string)
    requires DesktopFlavor(flavor) && line in [GPU_FULL, GPU_VM] && StrictTag(tag)
    ensures var p := Cut(LineTag(flavor, line, tag), '-');
            p.found && p.before == flavor && CutVm(p.after) == (line, tag)
  {
    hide StrictTag, DesktopFlavor;
    StrictTagStart(tag);
    DesktopFlavorPlain(flavor);
    var rest := if line == GPU_VM then "vm-" + tag else tag;
    assert LineTag(flavor, line, tag) == flavor + "-" + rest;
    CutJoin(flavor, '-', rest);
    if line == GPU_VM {
      assert rest[..3] == "vm-" && rest[3..] == tag;
    } else {
      assert rest[1] != 'm';
    }
  }

  /** No two published images share a tag. */
  lemma LineTagIsInjective(f1: string, l1: string, t1: string, f2: string, l2: string, t2: string)
    requires DesktopFlavor(f1) && l1 in [GPU_FULL, GPU_VM] && StrictTag(t1)
    requires DesktopFlavor(f2) && l2 in [GPU_FULL, GPU_VM] && StrictTag(t2)
    requires LineTag(f1, l1, t1) == LineTag(f2, l2, t2)
    ensures f1 == f2 && l1 == l2 && t1 == t2
  {
    LineTagCuts(f1, l1, t1);
    LineTagCuts(f2, l2, t2);
  }

  // ---------------------------------------------------------------------
  // Classify inverts LineRef
  // ---------------------------------------------------------------------

  lemma LastColonSplits(a: string, t: string, b: string, u: string)
    requires a + ":" + t == b + ":" + u
    requires ':' !in t && ':' !in u
    ensures a == b && t == u
  {
    var s := a + ":" + t;
    assert s[|a| + 1..] == t && s[|b| + 1..] == u;
    LastIndexOfUnique(s, ':', |a|);
    LastIndexOfUnique(s, ':', |b|);
    assert s[..|a|] == a && s[..|b|] == b;
  }

  lemma DigestSplits(x: string, d: string)
    requires IsDigest(d)
    ensures x + "@" + d == (x + "@sha256") + ":" + d[7..]
    ensures ':' !in d[7..] && '-' !in d[7..]
  {
    assert d == "sha256:" + d[7..];
  }

  /** A reference that prints as repo:T, with a '-' but no separator in T, has
      that repository and tag and no digest. */
  lemma PrintedTag(r: Ref, repo: string, t: string)
    requires r.WellFormed() && r.String() == repo + ":" + t
    requires '-' in t && ':' !in t
    ensures r.digest == "" && r.tag == t && r.Repo() == repo
  {
    hide IsHost, IsName, IsDigest, IsTag;
    if r.digest != "" {
      var x := r.Repo() + TagSuffix(r.tag);
      DigestSplits(x, r.digest);
      LastColonSplits(repo, t, x + "@sha256", r.digest[7..]);
      assert false;
    } else {
      TagFree(r.tag);
      assert r.String() == r.Repo() + ":" + r.tag;
      LastColonSplits(repo, t, r.Repo(), r.tag);
    }
  }

  lemma LineRefParts(ref: Ref, rel: Rel, flavor: string, line: string, tag: string)
    requires DesktopFlavor(flavor) && line in [GPU_FULL, GPU_VM] && StrictTag(tag)
    requires LineRef(rel, flavor, line, tag) == Ok(ref)
    ensures ref.digest == "" && ref.tag == LineTag(flavor, line, tag) && ref.Repo() == rel.imageRepo != ""
  {
    hide DesktopFlavor, StrictTag;
    var t := LineTag(flavor, line, tag);
    ParsedPrintsBack(rel.imageRepo + ":" + t);
    if ':' in t { LineTagAlphabet(flavor, line, tag, ':'); }
    LineTagCuts(flavor, line, tag);
    assert t == Cut(t, '-').before + ['-'] + Cut(t, '-').after;
    assert '-' in t;
    PrintedTag(ref, rel.imageRepo, t);
  }

  /** The reference of a published release is trusted, as that release. */
  lemma LineRefIsTrusted(info: ImageInfo, rel: Rel, published: seq<string>,
                         flavor: string, line: string, tag: string)
    requires info.Label(LABEL_FLAVOR) != AGENT
    requires Published(flavor, line, tag, published)
    requires LineRef(rel, flavor, line, tag) == Ok(info.ref)
    ensures Classify(info, rel, published) == Ok(Verdict(flavor, tag, line, true, true))
  {
    hide StrictTag, LineRef;
    LineRefParts(info.ref, rel, flavor, line, tag);
    LineTagCuts(flavor, line, tag);
  }

  /** A trusted image's reference is the one its verdict names. */
  lemma TrustedIsLineRef(info: ImageInfo, rel: Rel, published: seq<string>)
    requires info.ref.WellFormed()
    requires Classify(info, rel, published).Ok? && Classify(info, rel, published).value.trusted
    ensures var v := Classify(info, rel, published).value;
            && Published(v.flavor, v.gpu, v.version, published)
            && LineRef(rel, v.flavor, v.gpu, v.version) == Ok(info.ref)
  {
    hide StrictTag, DesktopFlavor, IsHost, IsName, IsTag, IsDigest;
    var v := TrustedName(info.ref, rel, published).value;
    var p := Cut(info.ref.tag, '-');
    assert info.ref.tag == p.before + "-" + p.after;
    DesktopFlavorPlain(v.flavor);
    if v.gpu == GPU_VM {
      assert p.after == "vm-" + v.version;
    }
    assert info.ref.tag == LineTag(v.flavor, v.gpu, v.version);
    assert info.ref.String() == rel.imageRepo + ":" + info.ref.tag;
    PrintedParsesBack(info.ref);
  }

  /** An image whose flavor label is not "agent" is trusted exactly when its
      reference is a published release's, and then its verdict says which. */
  lemma ClassifyInvertsLineRef(info: ImageInfo, rel: Rel, published: seq<string>, v: Verdict)
    requires info.ref.WellFormed() && info.Label(LABEL_FLAVOR) != AGENT
    ensures v.trusted && Classify(info, rel, published) == Ok(v)
            <==>
            && v == Verdict(v.flavor, v.version, v.gpu, true, true)
            && Published(v.flavor, v.gpu, v.version, published)
            && LineRef(rel, v.flavor, v.gpu, v.version) == Ok(info.ref)
  {
    hide Published, LineRef;
    if v.trusted && Classify(info, rel, published) == Ok(v) {
      TrustedIsLineRef(info, rel, published);
    } else if Published(v.flavor, v.gpu, v.version, published)
              && LineRef(rel, v.flavor, v.gpu, v.version) == Ok(info.ref) {
      LineRefIsTrusted(info, rel, published, v.flavor, v.gpu, v.version);
    }
  }

  // ---------------------------------------------------------------------
  // update/daemon.go evaluate: the decision behind Inspect and Apply
  // ---------------------------------------------------------------------

  datatype Evaluation = Evaluation(info: ImageInfo, verdict: Verdict, published: seq<string>)

  datatype EvalError = ResolveFailed(why: string) | ListFailed(why: string) | Refused(policy: PolicyError)

  /** resolved and listed are what the registry and the release list answered;
      enabled is the advanced switch of update.conf. */
  function Evaluate(resolved: Result<ImageInfo, string>, listed: Result<seq<string>, string>,
                    rel: Rel, advanced: bool, enabled: bool): Result<Evaluation, EvalError>
  {
    match resolved
    case Err(e) => Err(ResolveFailed(e))
    case Ok(info) =>
      match listed
      case Err(e) => Err(ListFailed(e))
      case Ok(published) =>
        match Classify(info, rel, published)
        case Err(NotHadron) =>
          if advanced && enabled then Ok(Evaluation(info, NO_VERDICT, published)) else Err(Refused(NotHadron))
        case Err(e) => Err(Refused(e))
        case Ok(v) =>
          if v.trusted || (advanced && enabled) then Ok(Evaluation(info, v, published)) else Err(Refused(NotRelease))
  }

  /** Without advanced mode only the reference of a published release passes,
      and no mode lets an agent image through. */
  lemma OnlyReleasesWithoutAdvanced(resolved: Result<ImageInfo, string>, listed: Result<seq<string>, string>,
                                    rel: Rel, advanced: bool, enabled: bool)
    requires Evaluate(resolved, listed, rel, advanced, enabled).Ok?
    requires resolved.value.ref.WellFormed()
    ensures resolved.value.Label(LABEL_FLAVOR) != AGENT && !("agent-" <= resolved.value.ref.tag)
    ensures !(advanced && enabled) ==>
              exists f, l, t :: Published(f, l, t, listed.value) && LineRef(rel, f, l, t) == Ok(resolved.value.ref)
  {
    hide Published, LineRef, Labelled, TrustedName;
    if !(advanced && enabled) {
      TrustedIsLineRef(resolved.value, rel, listed.value);
    }
  }

  /** A release's reference: the one some published flavor, line and tag is pushed
      under. */
  ghost predicate IsRelease(ref: Ref, rel: Rel, published: seq<string>) {
    exists f, l, t :: Published(f, l, t, published) && LineRef(rel, f, l, t) == Ok(ref)
  }

  /** Exactly what may be installed: when registry and list have answered, any image
      that is no agent image by label or tag, if it is a release, or if advanced mode
      was asked for and is on. */
  lemma EvaluateExactly(resolved: Result<ImageInfo, string>, listed: Result<seq<string>, string>,
                        rel: Rel, advanced: bool, enabled: bool)
    requires resolved.Ok? ==> resolved.value.ref.WellFormed()
    ensures Evaluate(resolved, listed, rel, advanced, enabled).Ok? <==>
              && resolved.Ok? && listed.Ok?
              && resolved.value.Label(LABEL_FLAVOR) != AGENT && !("agent-" <= resolved.value.ref.tag)
              && ((advanced && enabled) || IsRelease(resolved.value.ref, rel, listed.value))
    ensures var e := Evaluate(resolved, listed, rel, advanced, enabled);
            e.Ok? ==> e.value.info == resolved.value && e.value.published == listed.value
                      && (e.value.verdict.trusted <==> IsRelease(resolved.value.ref, rel, listed.value))
  {
    hide Published, LineRef, Labelled, TrustedName;
    if resolved.Ok? && listed.Ok? {
      var info := resolved.value;
      if info.Label(LABEL_FLAVOR) != AGENT && IsRelease(info.ref, rel, listed.value) {
        var f, l, t :| Published(f, l, t, listed.value) && LineRef(rel, f, l, t) == Ok(info.ref);
        LineRefIsTrusted(info, rel, listed.value, f, l, t);
      }
      if Classify(info, rel, listed.value).Ok? && Classify(info, rel, listed.value).value.trusted {
        TrustedIsLineRef(info, rel, listed.value);
      }
      ClassifyRefuses(info, rel, listed.value);
      hide Classify, IsRelease;
    }
  }

  lemma ClassifyRefuses(info: ImageInfo, rel: Rel, published: seq<string>)
    ensures var c := Classify(info, rel, published);
            && (c == Err(AgentImage) <==> info.Label(LABEL_FLAVOR) == AGENT || "agent-" <= info.ref.tag)
            && (c.Err? ==> c.error in {AgentImage, NotHadron})
  {
    hide TrustedName, StrictTag;
    LabelledIsUntrusted(info);
  }

  lemma LabelledIsUntrusted(info: ImageInfo)
    ensures Labelled(info).Ok? ==> !Labelled(info).value.trusted
    ensures Labelled(info).Err? ==> Labelled(info) == Err(NotHadron)
  {
  }

  /** What is said of an image that is not trusted: what its labels name, when they
      name a desktop flavor and a strict version. */
  lemma UntrustedByLabels(info: ImageInfo, rel: Rel, published: seq<string>, v: Verdict)
    requires info.ref.WellFormed() && info.Label(LABEL_FLAVOR) != AGENT && !("agent-" <= info.ref.tag)
    requires !IsRelease(info.ref, rel, published)
    ensures Classify(info, rel, published) == Ok(v) <==>
              && DesktopFlavor(info.Label(LABEL_FLAVOR)) && StrictTag(info.Label(LABEL_VERSION))
              && v.flavor == info.Label(LABEL_FLAVOR) && v.version == info.Label(LABEL_VERSION)
              && v.gpu == (if info.Label(LABEL_GPU) in ["full", "vm"] then info.Label(LABEL_GPU) else "")
              && !v.trusted && v.hadron
  {
    hide Published, LineRef, StrictTag;
    var c := Classify(info, rel, published);
    if c.Ok? && c.value.trusted { TrustedIsLineRef(info, rel, published); }
    hide TrustedName;
    TrustedNameIsTrusted(info.ref, rel, published);
  }

  lemma TrustedNameIsTrusted(ref: Ref, rel: Rel, published: seq<string>)
    ensures TrustedName(ref, rel, published).Some? ==> TrustedName(ref, rel, published).value.trusted
  {
    hide StrictTag;
  }
}
