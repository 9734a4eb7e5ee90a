/** update/ref.go: OCI image references, their parser and their printer. */
module ImageRef {
  import opened Wrappers
  import opened Text

  datatype Ref = Ref(host: string, name: string, tag: string, digest: string) {
    /** The reference without tag or digest. */
    function Repo(): string { host + "/" + name }

    function String(): string {
      Repo()
      + (if tag != "" then ":" + tag else "")
      + (if digest != "" then "@" + digest else "")
    }

    /** What every reference ParseRef returns satisfies. */
    predicate WellFormed() {
      && IsHost(host)
      && IsName(name)
      && (tag == "" || IsTag(tag))
      && (digest == "" || IsDigest(digest))
      && (tag != "" || digest != "")
    }
  }

  datatype RefError = BadDigest | NoHost | BadTag | BadName | NoTagOrDigest

  // ---------------------------------------------------------------------
  // Character classes and the four grammars
  // ---------------------------------------------------------------------

  predicate Digit(c: char) { '0' <= c <= '9' }
  predicate Lower(c: char) { 'a' <= c <= 'z' }
  predicate Upper(c: char) { 'A' <= c <= 'Z' }
  predicate Alnum(c: char) { Digit(c) || Lower(c) || Upper(c) }
  predicate LowerAlnum(c: char) { Digit(c) || Lower(c) }
  predicate LowerHex(c: char) { Digit(c) || 'a' <= c <= 'f' }

  /** sha256: and exactly 64 lowercase hexadecimal digits. */
  predicate IsDigest(s: string) {
    && |s| == 71
    && s[..7] == "sha256:"
    && forall i :: 7 <= i < |s| ==> LowerHex(s[i])
  }

  /** One to 128 characters of [A-Za-z0-9_.-], the first not '.' or '-'. */
  predicate IsTag(s: string) {
    && 1 <= |s| <= 128
    && (Alnum(s[0]) || s[0] == '_')
    && forall i :: 0 <= i < |s| ==> Alnum(s[i]) || s[i] in "_.-"
  }

  /** A host name that starts and ends with a letter or digit. */
  predicate IsHostName(s: string) {
    && s != ""
    && Alnum(s[0])
    && Alnum(s[|s| - 1])
    && forall i :: 0 <= i < |s| ==> Alnum(s[i]) || s[i] in ".-"
  }

  predicate IsPort(s: string) {
    s != "" && forall i :: 0 <= i < |s| ==> Digit(s[i])
  }

  /** host or host:port, with a '.' or a ':' in it unless it is localhost. */
  predicate IsHost(s: string) {
    var p := Cut(s, ':');
    && IsHostName(p.before)
    && (p.found ==> IsPort(p.after))
    && (p.found || '.' in s || s == "localhost")
  }

  /** Where a scan of a repository name stands: at the start of a path
      component, in a run of letters and digits, or inside a separator. */
  datatype NameScan = Start | Run | Dot | Under | Unders | Dashes | Reject

  function NameStep(q: NameScan, c: char): NameScan {
    match q
    case Run =>
      if LowerAlnum(c) then Run
      else if c == '/' then Start
      else if c == '.' then Dot
      else if c == '_' then Under
      else if c == '-' then Dashes
      else Reject
    case Under => if LowerAlnum(c) then Run else if c == '_' then Unders else Reject
    case Dashes => if LowerAlnum(c) then Run else if c == '-' then Dashes else Reject
    case Start => if LowerAlnum(c) then Run else Reject
    case Dot => if LowerAlnum(c) then Run else Reject
    case Unders => if LowerAlnum(c) then Run else Reject
    case Reject => Reject
  }

  function NameState(q: NameScan, s: string): NameScan
    decreases |s|
  {
    if s == "" then q else NameState(NameStep(q, s[0]), s[1..])
  }

  /** Path components of lowercase letters and digits joined by '/', each with
      inner separators '.', '_', '__' or a run of '-'. */
  predicate IsName(s: string) {
    NameState(Start, s) == Run
  }

  // ---------------------------------------------------------------------
  // The parser
  // ---------------------------------------------------------------------

  datatype Tagged = Tagged(name: string, tag: string, found: bool)

  /** The tag is what follows the last colon after the last slash. */
  function SplitTag(path: string): (t: Tagged)
    ensures t.found ==> path == t.name + ":" + t.tag
    ensures !t.found ==> path == t.name && t.tag == ""
  {
    var colon := LastIndexOf(path, ':');
    if colon > LastIndexOf(path, '/') then Tagged(path[..colon], path[colon + 1..], true)
    else Tagged(path, "", false)
  }

  /** The part of ParseRef after the digest has been split off. */
  function ParseTagged(rest: string, digest: string): Result<Ref, RefError> {
    var slash := IndexOf(rest, '/');
    if slash < 0 then Err(NoHost) else
    var host, t := rest[..slash], SplitTag(rest[slash + 1..]);
    if !IsHost(host) then Err(NoHost)
    else if t.found && !IsTag(t.tag) then Err(BadTag)
    else if !IsName(t.name) then Err(BadName)
    else if t.tag == "" && digest == "" then Err(NoTagOrDigest)
    else Ok(Ref(host, t.name, t.tag, digest))
  }

  function ParseRef(s: string): Result<Ref, RefError> {
    var at := IndexOf(s, '@');
    if at >= 0 then
      if !IsDigest(s[at + 1..]) then Err(BadDigest)
      else ParseTagged(s[..at], s[at + 1..])
    else ParseTagged(s, "")
  }

  // ---------------------------------------------------------------------
  // The grammars keep the separators apart
  // ---------------------------------------------------------------------

  lemma RejectStays(s: string)
    ensures NameState(Reject, s) == Reject
  {
    if s != "" { RejectStays(s[1..]); }
  }

  lemma {:induction false} NameAlphabet(q: NameScan, s: string, c: char)
    requires NameState(q, s) != Reject && c in s
    ensures LowerAlnum(c) || c in "/._-"
    decreases |s|
  {
    RejectStays(s[1..]);
    if c != s[0] {
      NameAlphabet(NameStep(q, s[0]), s[1..], c);
    }
  }

  lemma NameFree(s: string)
    requires IsName(s)
    ensures s != "" && '@' !in s && ':' !in s
  {
    if '@' in s { NameAlphabet(Start, s, '@'); }
    if ':' in s { NameAlphabet(Start, s, ':'); }
  }

  lemma HostFree(s: string)
    requires IsHost(s)
    ensures s != "" && '@' !in s && '/' !in s
  {
    var p := Cut(s, ':');
    if p.found {
      assert '@' !in p.before && '@' !in p.after && '/' !in p.before && '/' !in p.after;
    }
  }

  // ---------------------------------------------------------------------
  // Parser and printer are inverse
  // ---------------------------------------------------------------------

  /** How host, path and the optional ":tag" suffix join. */
  lemma JoinPath(host: string, name: string, suffix: string)
    ensures host + "/" + (name + suffix) == (host + "/" + name) + suffix
  {
  }

  function TagSuffix(tag: string): string {
    if tag != "" then ":" + tag else ""
  }

  lemma ParseTaggedSound(rest: string, digest: string)
    requires digest == "" || IsDigest(digest)
    ensures ParseTagged(rest, digest).Ok? ==>
              var r := ParseTagged(rest, digest).value;
              && r.WellFormed()
              && r.digest == digest
              && rest == r.Repo() + TagSuffix(r.tag)
  {
    hide IsHost, IsName, IsDigest, SplitTag;
    var slash := IndexOf(rest, '/');
    if slash >= 0 && ParseTagged(rest, digest).Ok? {
      var r := ParseTagged(rest, digest).value;
      var path := rest[slash + 1..];
      assert rest == r.host + "/" + path;
      var t := SplitTag(path);
      assert path == t.name + TagSuffix(t.tag);
      JoinPath(r.host, r.name, TagSuffix(r.tag));
    }
  }

  /** An accepted string is exactly what its result prints. */
  lemma ParsedPrintsBack(s: string)
    requires ParseRef(s).Ok?
    ensures ParseRef(s).value.WellFormed()
    ensures ParseRef(s).value.String() == s
  {
    hide IsHost, IsName, IsTag, ParseTagged;
    var at := IndexOf(s, '@');
    if at >= 0 {
      ParseTaggedSound(s[..at], s[at + 1..]);
      assert s == s[..at] + ("@" + s[at + 1..]);
    } else {
      ParseTaggedSound(s, "");
    }
  }

  lemma TagFree(s: string)
    requires IsTag(s)
    ensures ':' !in s && '/' !in s && '@' !in s
  {
  }

  lemma SplitTagBack(name: string, tag: string)
    requires ':' !in name && ':' !in tag && '/' !in tag
    ensures SplitTag(name + TagSuffix(tag)) == Tagged(name, tag, tag != "")
  {
    hide LastIndexOf;
    if tag == "" {
      assert name + TagSuffix(tag) == name;
    } else {
      TagAfterColon(name, tag);
    }
  }

  lemma TagAfterColon(name: string, tag: string)
    requires ':' !in name && ':' !in tag && '/' !in tag
    ensures SplitTag(name + ":" + tag) == Tagged(name, tag, true)
  {
    hide LastIndexOf;
    var path := name + ":" + tag;
    assert path[..|name|] == name && path[|name| + 1..] == tag;
    LastIndexOfUnique(path, ':', |name|);
    assert forall j :: |name| <= j < |path| ==> path[j] == (":" + tag)[j - |name|] != '/';
  }

  lemma ParseTaggedComplete(r: Ref)
    requires r.WellFormed()
    ensures ParseTagged(r.Repo() + TagSuffix(r.tag), r.digest) == Ok(r)
  {
    hide IsHost, IsName, IsTag, IsDigest, SplitTag;
    HostFree(r.host);
    NameFree(r.name);
    if r.tag != "" { TagFree(r.tag); }
    SplitTagBack(r.name, r.tag);
    var path := r.name + TagSuffix(r.tag);
    JoinPath(r.host, r.name, TagSuffix(r.tag));
    var rest := r.host + "/" + path;
    assert rest[..|r.host|] == r.host;
    IndexOfUnique(rest, '/', |r.host|);
    assert rest[|r.host| + 1..] == path;
  }

  /** Every well-formed reference parses back to itself. */
  lemma PrintedParsesBack(r: Ref)
    requires r.WellFormed()
    ensures ParseRef(r.String()) == Ok(r)
  {
    hide IsHost, IsName, IsTag, IsDigest, ParseTagged;
    HostFree(r.host);
    NameFree(r.name);
    if r.tag != "" { TagFree(r.tag); }
    ParseTaggedComplete(r);
    var rest := r.Repo() + TagSuffix(r.tag);
    if r.digest != "" {
      assert r.String() == rest + "@" + r.digest;
      assert r.String()[..|rest|] == rest;
      IndexOfUnique(r.String(), '@', |rest|);
      assert r.String()[|rest| + 1..] == r.digest;
    } else {
      assert r.String() == rest;
    }
  }

  /** The accepted strings are exactly the printed forms of the well-formed
      references. */
  lemma AcceptedExactly(s: string, r: Ref)
    ensures ParseRef(s) == Ok(r) <==> r.WellFormed() && r.String() == s
  {
    if r.WellFormed() && r.String() == s { PrintedParsesBack(r); }
    if ParseRef(s) == Ok(r) { ParsedPrintsBack(s); }
  }

  /** No two references print alike. */
  lemma PrintingIsInjective(a: Ref, b: Ref)
    requires a.WellFormed() && b.WellFormed() && a.String() == b.String()
    ensures a == b
  {
    PrintedParsesBack(a);
    PrintedParsesBack(b);
  }
}
