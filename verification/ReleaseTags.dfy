/** update/policy.go: the tags that published releases are trusted under, said about
    their texts. */
module ReleaseTags {
  import opened Wrappers
  import opened Text
  import opened ImageRef
  import opened Release
  import opened ReleaseOrder
  import opened Policy

  /** The tag of release a.b.c. */
  function Tag(a: nat, b: nat, c: nat): string {
    "v" + Core(a, b, c)
  }

  lemma {:induction false} StrictIsDecimal(s: string) returns (n: nat)
    requires StrictNumber(s)
    ensures s == Decimal(n) && (n == 0 ==> s == "0")
    decreases |s|
  {
    AllDigitsPrefix(s);
    var front, d := s[..|s| - 1], s[|s| - 1];
    assert s == front + [d];
    if front == "" {
      n := d as int - '0' as int;
      assert Decimal(n) == ['0' + n as char];
    } else {
      assert s[0] == front[0];
      var m := StrictIsDecimal(front);
      DecimalPlaces(m, d as int - '0' as int);
      n := 10 * m + (d as int - '0' as int);
    }
  }

  lemma {:induction false} DecimalIsStrict(n: nat)
    ensures StrictNumber(Decimal(n)) && (n > 0 ==> Decimal(n)[0] != '0')
  {
    DecimalReads(n);
    if n >= 10 {
      DecimalIsStrict(n / 10);
      assert Decimal(n)[0] == Decimal(n / 10)[0];
    }
  }

  lemma NoDots(n: nat)
    ensures '.' !in Decimal(n)
  {
  }

  /** The strict tags are those of releases: three numbers in decimal without
      leading zeros, of any size. */
  lemma StrictTagExactly(s: string)
    ensures StrictTag(s) <==> exists a, b, c :: s == Tag(a, b, c)
  {
    if StrictTag(s) {
      var parts := Split(s[1..], '.');
      ThreeParts(s[1..]);
      var a := StrictIsDecimal(parts[0]);
      var b := StrictIsDecimal(parts[1]);
      var c := StrictIsDecimal(parts[2]);
      hide Decimal, Split, StrictNumber;
      assert s == "v" + s[1..] == Tag(a, b, c);
    }
    if a, b, c :| s == Tag(a, b, c) { TagIsStrict(a, b, c); }
  }

  lemma TagIsStrict(a: nat, b: nat, c: nat)
    ensures StrictTag(Tag(a, b, c))
  {
    DecimalIsStrict(a);
    DecimalIsStrict(b);
    DecimalIsStrict(c);
    NoDots(a);
    NoDots(b);
    NoDots(c);
    hide Decimal, Split, StrictNumber;
    DottedParts(Decimal(a), Decimal(b), Decimal(c));
    assert Tag(a, b, c)[1..] == Core(a, b, c);
  }

  /** What a trusted reference reads like: the release repository, a flavor, "vm" or
      not, and the tag of a published release. */
  predicate Names(ref: Ref, rel: Rel, flavor: string, vm: bool, tag: string) {
    && ref.digest == ""
    && ref.Repo() == rel.imageRepo
    && (flavor == "sway" || flavor == "i3" || flavor == "cosmic" || flavor == "niri")
    && ref.tag == flavor + "-" + (if vm then "vm-" else "") + tag
  }

  /** The references trusted by name, for a release with an image repository. */
  lemma TrustedExactly(ref: Ref, rel: Rel, published: seq<string>)
    requires ref.WellFormed() && rel.imageRepo != ""
    ensures IsRelease(ref, rel, published) <==>
              exists flavor, vm, a, b, c :: Names(ref, rel, flavor, vm, Tag(a, b, c)) && Tag(a, b, c) in published
  {
    hide StrictTag, Tag, IsRelease, Names;
    if IsRelease(ref, rel, published) { var f, vm, a, b, c := ReleaseNamed(ref, rel, published); }
    if flavor, vm, a, b, c :| Names(ref, rel, flavor, vm, Tag(a, b, c)) && Tag(a, b, c) in published {
      NamedIsRelease(ref, rel, published, flavor, vm, Tag(a, b, c), a, b, c);
    }
  }

  lemma ReleaseNamed(ref: Ref, rel: Rel, published: seq<string>)
    returns (flavor: string, vm: bool, a: nat, b: nat, c: nat)
    requires ref.WellFormed() && IsRelease(ref, rel, published)
    ensures Names(ref, rel, flavor, vm, Tag(a, b, c)) && Tag(a, b, c) in published
  {
    hide StrictTag, Tag, LineRef, LineTag;
    var l, t;
    flavor, l, t :| Published(flavor, l, t, published) && LineRef(rel, flavor, l, t) == Ok(ref);
    LineRefParts(ref, rel, flavor, l, t);
    StrictTagExactly(t);
    a, b, c :| t == Tag(a, b, c);
    vm := l == GPU_VM;
    TagsAgree(flavor, l, t);
  }

  lemma TagsAgree(flavor: string, line: string, tag: string)
    requires DesktopFlavor(flavor) && line in [GPU_FULL, GPU_VM]
    ensures LineTag(flavor, line, tag) == flavor + "-" + (if line == GPU_VM then "vm-" else "") + tag
  {
    DesktopFlavorPlain(flavor);
    hide DesktopFlavor;
    assert flavor + "-" + GPU_VM + "-" + tag == flavor + "-" + "vm-" + tag;
  }

  lemma NamedIsRelease(ref: Ref, rel: Rel, published: seq<string>, flavor: string, vm: bool, tag: string, a: nat,
                       b: nat, c: nat)
    requires ref.WellFormed() && rel.imageRepo != "" && Names(ref, rel, flavor, vm, tag) && tag in published
    requires tag == Tag(a, b, c)
    ensures IsRelease(ref, rel, published)
  {
    hide *;
    var line := Line(vm);
    StrictTagExactly(tag);
    NamedIsPrinted(ref, rel, flavor, vm, tag);
    PrintedParsesBack(ref);
    LineIsPublished(ref, rel, published, flavor, line, tag);
  }

  function Line(vm: bool): string { if vm then GPU_VM else GPU_FULL }

  lemma NamedIsPrinted(ref: Ref, rel: Rel, flavor: string, vm: bool, tag: string)
    requires Names(ref, rel, flavor, vm, tag)
    ensures ref.String() == rel.imageRepo + ":" + LineTag(flavor, Line(vm), tag)
    ensures DesktopFlavor(flavor) && Line(vm) in [GPU_FULL, GPU_VM]
  {
    TagsAgree(flavor, Line(vm), tag);
    hide LineTag, DesktopFlavor;
    assert ref.tag == LineTag(flavor, Line(vm), tag) && ref.tag != "";
  }

  lemma LineIsPublished(ref: Ref, rel: Rel, published: seq<string>, flavor: string, line: string, tag: string)
    requires DesktopFlavor(flavor) && line in [GPU_FULL, GPU_VM] && StrictTag(tag) && tag in published
    requires rel.imageRepo != "" && ParseRef(rel.imageRepo + ":" + LineTag(flavor, line, tag)) == Ok(ref)
    ensures IsRelease(ref, rel, published)
  {
    hide DesktopFlavor, StrictTag, ParseRef, LineTag;
    assert Published(flavor, line, tag, published) && LineRef(rel, flavor, line, tag) == Ok(ref);
  }
}
