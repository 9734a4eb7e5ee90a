/** update/release.go: release versions, their order and the image lines. */
module Release {
  import opened Wrappers
  import opened Text

  datatype Rel = Rel(flavor: string, version: string, imageRepo: string, gitHubRepo: string, gpu: string)

  const GPU_FULL := "full"
  const GPU_VM := "vm"
  const AGENT := "agent"

  /** The image tag pushed for a flavor, line and release. */
  function LineTag(flavor: string, line: string, tag: string): string {
    if line == GPU_VM && flavor != AGENT then flavor + "-" + GPU_VM + "-" + tag
    else flavor + "-" + tag
  }

  // ---------------------------------------------------------------------
  // Versions
  // ---------------------------------------------------------------------

  const MAX_INT := 0x7FFF_FFFF_FFFF_FFFF

  predicate AllDigits(s: string) {
    s == "" || ('0' <= s[0] <= '9' && AllDigits(s[1..]))
  }

  function DigitsValue(s: string): nat
    requires AllDigits(s)
    decreases |s|
  {
    if s == "" then 0
    else
      AllDigitsPrefix(s);
      10 * DigitsValue(s[..|s| - 1]) + (s[|s| - 1] as int - '0' as int)
  }

  lemma AllDigitsPrefix(s: string)
    requires AllDigits(s) && s != ""
    ensures AllDigits(s[..|s| - 1]) && '0' <= s[|s| - 1] <= '9'
  {
    if |s| > 1 {
      AllDigitsPrefix(s[1..]);
      assert s[..|s| - 1][1..] == s[1..][..|s| - 2];
    }
  }

  /** strconv.Atoi with a 64-bit int: an optional sign, then digits. */
  function Atoi(s: string): Option<int> {
    var signed := s != "" && s[0] in "+-";
    var digits := if signed then s[1..] else s;
    if digits == "" || !AllDigits(digits) then None
    else
      var v: int := if signed && s[0] == '-' then 0 - DigitsValue(digits) else DigitsValue(digits);
      if -MAX_INT - 1 <= v <= MAX_INT then Some(v) else None
  }

  function Split(s: string, c: char): (parts: seq<string>)
    ensures |parts| > 0
    decreases |s|
  {
    var p := Cut(s, c);
    if p.found then [p.before] + Split(p.after, c) else [s]
  }

  datatype Semver = Semver(major: int, minor: int, patch: int, pre: string)

  predicate IsNumber(s: string) {
    Atoi(s).Some? && Atoi(s).value >= 0
  }

  /** "vMAJOR.MINOR.PATCH[-pre][+build]", the "v" and the rest optional. */
  function ParseSemver(s: string): Option<Semver> {
    var bare := Cut(TrimV(s), '+').before;
    var p := Cut(bare, '-');
    var parts := Split(p.before, '.');
    if |parts| == 3 && IsNumber(parts[0]) && IsNumber(parts[1]) && IsNumber(parts[2]) then
      Some(Semver(Atoi(parts[0]).value, Atoi(parts[1]).value, Atoi(parts[2]).value, p.after))
    else None
  }

  function TrimV(s: string): string {
    if s != "" && s[0] == 'v' then s[1..] else s
  }

  /** The parser as the updater runs it: it fills an array of three numbers and
      gives up at the first part that is not one. */
  method ParseSemverLoop(s: string) returns (v: Option<Semver>)
    ensures v == ParseSemver(s)
  {
    hide Atoi, Split, Cut, TrimV;
    var bare := Cut(TrimV(s), '+').before;
    var p := Cut(bare, '-');
    var parts := Split(p.before, '.');
    if |parts| != 3 { return None; }
    var n := new int[3];
    for i := 0 to 3
      invariant forall k :: 0 <= k < i ==> IsNumber(parts[k]) && n[k] == Atoi(parts[k]).value
    {
      var a := Atoi(parts[i]);
      if a.None? || a.value < 0 { return None; }
      n[i] := a.value;
    }
    return Some(Semver(n[0], n[1], n[2], p.after));
  }

  // ---------------------------------------------------------------------
  // The order
  // ---------------------------------------------------------------------

  /** Go's < on strings: byte by byte. */
  predicate StringLess(a: string, b: string) {
    if b == "" then false
    else if a == "" then true
    else if a[0] != b[0] then a[0] < b[0]
    else StringLess(a[1..], b[1..])
  }

  /** A release beats its own prereleases; those compare as plain strings. */
  predicate LaterPre(c: string, cur: string) {
    if c == cur then false
    else if c == "" then true
    else if cur == "" then false
    else StringLess(cur, c)
  }

  predicate Later(c: Semver, cur: Semver) {
    if c.major != cur.major then c.major > cur.major
    else if c.minor != cur.minor then c.minor > cur.minor
    else if c.patch != cur.patch then c.patch > cur.patch
    else LaterPre(c.pre, cur.pre)
  }

  /** Whether candidate is a later release than current. */
  predicate Newer(candidate: string, current: string) {
    match ParseSemver(candidate)
    case None => false
    case Some(c) =>
      match ParseSemver(current)
      case None => true
      case Some(cur) => Later(c, cur)
  }

  /** Neither is newer than the other. */
  predicate Equivalent(a: string, b: string) {
    !Newer(a, b) && !Newer(b, a)
  }

  lemma {:induction false} StringLessTotal(a: string, b: string)
    ensures a == b || StringLess(a, b) || StringLess(b, a)
    ensures !(StringLess(a, b) && StringLess(b, a))
    ensures !StringLess(a, a)
  {
    if a != "" {
      StringLessTotal(a[1..], if b != "" then b[1..] else "");
      if b != "" && a[0] == b[0] && a[1..] == b[1..] {
        assert a == [a[0]] + a[1..] == b;
      }
    }
  }

  lemma {:induction false} StringLessTransitive(a: string, b: string, c: string)
    requires StringLess(a, b) && StringLess(b, c)
    ensures StringLess(a, c)
  {
    if a != "" && b != "" && c != "" && a[0] == b[0] == c[0] {
      StringLessTransitive(a[1..], b[1..], c[1..]);
    }
  }

  /** On versions that parse, Later is a strict total order. */
  lemma LaterTotal(a: Semver, b: Semver)
    ensures a == b || Later(a, b) || Later(b, a)
    ensures !(Later(a, b) && Later(b, a))
    ensures !Later(a, a)
  {
    StringLessTotal(a.pre, b.pre);
  }

  lemma LaterTransitive(a: Semver, b: Semver, c: Semver)
    requires Later(a, b) && Later(b, c)
    ensures Later(a, c)
  {
    if StringLess(b.pre, a.pre) && StringLess(c.pre, b.pre) {
      StringLessTransitive(c.pre, b.pre, a.pre);
    }
    StringLessTotal(a.pre, c.pre);
    StringLessTotal(a.pre, b.pre);
  }

  /** Newer is a strict weak order over all strings: irreflexive, asymmetric,
      transitive, and being equivalent is transitive too. */
  lemma NewerIsStrictWeakOrder(a: string, b: string, c: string)
    ensures !Newer(a, a)
    ensures Newer(a, b) ==> !Newer(b, a)
    ensures Newer(a, b) && Newer(b, c) ==> Newer(a, c)
    ensures Equivalent(a, b) && Equivalent(b, c) ==> Equivalent(a, c)
  {
    hide ParseSemver, Later;
    var pa, pb, pc := ParseSemver(a), ParseSemver(b), ParseSemver(c);
    if pa.Some? { LaterTotal(pa.value, pa.value); }
    if pa.Some? && pb.Some? { LaterTotal(pa.value, pb.value); }
    if pb.Some? && pc.Some? { LaterTotal(pb.value, pc.value); }
    if pa.Some? && pb.Some? && pc.Some? && Later(pa.value, pb.value) && Later(pb.value, pc.value) {
      LaterTransitive(pa.value, pb.value, pc.value);
    }
  }

  /** Strings that are no version are below every version and equivalent to one
      another; two versions are equivalent exactly when they parse alike. */
  lemma EquivalenceClasses(a: string, b: string)
    ensures ParseSemver(a).None? && ParseSemver(b).Some? ==> Newer(b, a)
    ensures Equivalent(a, b) <==> ParseSemver(a) == ParseSemver(b)
  {
    hide ParseSemver, Later;
    var pa, pb := ParseSemver(a), ParseSemver(b);
    if pa.Some? && pb.Some? { LaterTotal(pa.value, pb.value); }
  }

  // ---------------------------------------------------------------------
  // The newest release, two ways
  // ---------------------------------------------------------------------

  /** What sorting with Newer as "less" leaves: nothing later in the list is
      newer than anything before it. */
  ghost predicate NewestFirst(tags: seq<string>) {
    forall i, j :: 0 <= i < j < |tags| ==> !Newer(tags[j], tags[i])
  }

  /** The daemon's newest tag: the head of the sorted list. */
  function Newest(published: seq<string>): string {
    if published == [] then "" else published[0]
  }

  /** No listed tag is newer than tag. */
  ghost predicate Top(tags: seq<string>, tag: string) {
    tag in tags && forall t :: t in tags ==> !Newer(t, tag)
  }

  /** The command line's newest tag: one pass that keeps the best so far. It is
      empty exactly when no tag is a version. */
  method NewestRelease(tags: seq<string>) returns (newest: string)
    ensures (forall t :: t in tags ==> ParseSemver(t).None?) ==> newest == ""
    ensures (exists t :: t in tags && ParseSemver(t).Some?) ==> ParseSemver(newest).Some? && Top(tags, newest)
  {
    hide ParseSemver, Newer;
    EmptyIsNoVersion();
    newest := "";
    for i := 0 to |tags|
      invariant newest == "" ==> forall t :: t in tags[..i] ==> ParseSemver(t).None?
      invariant newest != "" ==> newest in tags[..i] && ParseSemver(newest).Some?
      invariant newest != "" ==> forall t :: t in tags[..i] ==> !Newer(t, newest)
    {
      var t, was := tags[i], newest;
      assert tags[..i + 1] == tags[..i] + [t];
      if ParseSemver(t).Some? && (newest == "" || Newer(t, newest)) {
        newest := t;
      }
      forall u | u in tags[..i + 1] && newest != ""
        ensures !Newer(u, newest)
      {
        NewerIsStrictWeakOrder(u, newest, was);
        NewerIsStrictWeakOrder(newest, was, u);
        EquivalenceClasses(u, newest);
        EquivalenceClasses(newest, u);
      }
    }
    assert tags[..|tags|] == tags;
  }

  lemma EmptyIsNoVersion()
    ensures ParseSemver("").None?
  {
    assert Split("", '.') == [""];
  }

  /** The head of the sorted list and any tag the fold may keep agree up to
      equivalence, and nothing listed is newer than the head. */
  lemma HeadAgreesWithFold(tags: seq<string>, sorted: seq<string>, kept: string)
    requires multiset(tags) == multiset(sorted) && NewestFirst(sorted)
    requires Top(tags, kept)
    ensures Top(tags, Newest(sorted))
    ensures Equivalent(kept, Newest(sorted))
  {
    hide Newer;
    assert kept in multiset(sorted);
    assert Newest(sorted) in multiset(tags);
    NewerIsStrictWeakOrder(sorted[0], kept, kept);
    forall t | t in tags
      ensures !Newer(t, sorted[0])
    {
      assert t in multiset(sorted);
      NewerIsStrictWeakOrder(t, t, t);
    }
  }
}
