/** update/release.go: the order of releases, said about the texts of versions. */
module ReleaseOrder {
  import opened Wrappers
  import opened Arith
  import opened Text
  import opened Release

  function Dotted(x: string, y: string, z: string): string {
    x + ("." + (y + ("." + z)))
  }

  /** MAJOR.MINOR.PATCH in decimal. */
  function Core(a: nat, b: nat, c: nat): string {
    Dotted(Decimal(a), Decimal(b), Decimal(c))
  }

  /** The text of a version: prefix "v" or none, a prerelease unless pre is "", and
      build metadata if there is any. */
  function Version(v: string, a: nat, b: nat, c: nat, pre: string, build: Option<string>): string {
    v + Bare(Core(a, b, c), pre) + if build.Some? then "+" + build.value else ""
  }

  predicate IsVersion(v: string, a: nat, b: nat, c: nat, pre: string) {
    v in {"v", ""} && a <= MAX_INT && b <= MAX_INT && c <= MAX_INT && '+' !in pre
  }

  lemma {:induction false} DecimalReads(n: nat)
    ensures AllDigits(Decimal(n)) && DigitsValue(Decimal(n)) == n
  {
    var s := Decimal(n);
    if n >= 10 {
      DecimalReads(n / 10);
      assert s[..|s| - 1] == Decimal(n / 10);
      DigitsAppend(Decimal(n / 10), s[|s| - 1]);
    } else {
      assert s[1..] == "" && s[..0] == "";
    }
  }

  lemma {:induction false} DigitsAppend(s: string, d: char)
    requires AllDigits(s) && '0' <= d <= '9'
    ensures AllDigits(s + [d])
  {
    if s == "" {
      assert (s + [d])[1..] == "";
    } else {
      DigitsAppend(s[1..], d);
      assert (s + [d])[1..] == s[1..] + [d];
    }
  }

  lemma SplitFirst(p: string, rest: string)
    requires '.' !in p
    ensures Split(p + ("." + rest), '.') == [p] + Split(rest, '.') && Split(p, '.') == [p]
  {
    assert p + ("." + rest) == p + ['.'] + rest;
    CutJoin(p, '.', rest);
  }

  predicate IsDigits(x: string) {
    x != "" && AllDigits(x) && DigitsValue(x) <= MAX_INT
  }

  lemma DottedParts(x: string, y: string, z: string)
    requires '.' !in x && '.' !in y && '.' !in z
    ensures Split(Dotted(x, y, z), '.') == [x, y, z]
  {
    hide Split;
    SplitFirst(x, y + ("." + z));
    SplitFirst(y, z);
    SplitFirst(z, z);
  }

  lemma DottedCharacters(x: string, y: string, z: string)
    requires IsDigits(x) && IsDigits(y) && IsDigits(z)
    ensures '.' !in x && '.' !in y && '.' !in z
    ensures var d := Dotted(x, y, z); '-' !in d && '+' !in d && d != "" && d[0] != 'v'
  {
    DigitCharacters(x);
    DigitCharacters(y);
    DigitCharacters(z);
    hide AllDigits, DigitsValue;
    assert Dotted(x, y, z)[0] == x[0] && x[0] in x;
  }

  /** Three runs of digits, leading zeros included, with what may stand around them,
      read as their values and the prerelease. */
  lemma TextReads(v: string, x: string, y: string, z: string, pre: string, build: Option<string>)
    requires v in {"v", ""} && IsDigits(x) && IsDigits(y) && IsDigits(z) && '+' !in pre
    ensures ParseSemver(v + Bare(Dotted(x, y, z), pre) + if build.Some? then "+" + build.value else "")
         == Some(Semver(DigitsValue(x), DigitsValue(y), DigitsValue(z), pre))
  {
    DottedCharacters(x, y, z);
    DottedParts(x, y, z);
    DigitsRead(x);
    DigitsRead(y);
    DigitsRead(z);
    hide Atoi, Split, Cut, TrimV, Bare, AllDigits, DigitsValue, Dotted, IsNumber;
    VersionCuts(v, Dotted(x, y, z), pre, build);
    CoreCuts(Dotted(x, y, z), pre);
  }

  lemma DigitsRead(x: string)
    requires IsDigits(x)
    ensures Atoi(x) == Some(DigitsValue(x)) && IsNumber(x)
  {
    DigitCharacters(x);
    assert x[0] in x;
  }

  lemma {:induction false} DigitCharacters(x: string)
    requires AllDigits(x)
    ensures forall c :: c in x ==> '0' <= c <= '9'
  {
    if x != "" {
      DigitCharacters(x[1..]);
      assert x == [x[0]] + x[1..];
    }
  }

  /** And nothing else reads as a version: what does is a 'v' or none, three runs of
      digits with the values read, joined by dots, and then nothing or a '-' or '+'. */
  lemma OnlyVersionsRead(s: string) returns (v: string, x: string, y: string, z: string, tail: string)
    requires ParseSemver(s).Some?
    ensures v in {"v", ""} && IsDigits(x) && IsDigits(y) && IsDigits(z)
    ensures s == v + Dotted(x, y, z) + tail && (tail == "" || tail[0] in "-+")
    ensures var n := ParseSemver(s).value;
            n.major == DigitsValue(x) && n.minor == DigitsValue(y) && n.patch == DigitsValue(z)
  {
    hide ParseSemver, Cut, TrimV, Dotted, IsDigits, DigitsValue;
    v := PrefixOf(s);
    var bare := TrimV(s);
    var core := Cut(Cut(bare, '+').before, '-').before;
    x, y, z := PartsRead(s, core);
    TailOf(bare);
    tail := bare[|core|..];
    assert tail != "" ==> tail[0] == bare[|core|];
    Assoc(v, core, tail);
  }

  lemma PrefixOf(s: string) returns (v: string)
    ensures v in {"v", ""} && s == v + TrimV(s)
  {
    v := if s != "" && s[0] == 'v' then "v" else "";
  }

  lemma PartsRead(s: string, core: string) returns (x: string, y: string, z: string)
    requires ParseSemver(s).Some? && core == Cut(Cut(TrimV(s), '+').before, '-').before
    ensures core == Dotted(x, y, z) && IsDigits(x) && IsDigits(y) && IsDigits(z)
    ensures var n := ParseSemver(s).value;
            n.major == DigitsValue(x) && n.minor == DigitsValue(y) && n.patch == DigitsValue(z)
  {
    TailOf(TrimV(s));
    hide Cut, TrimV, Split, Atoi, IsDigits, DigitsValue;
    var parts := Split(core, '.');
    x, y, z := parts[0], parts[1], parts[2];
    ThreeParts(core);
    NumberIsDigits(core, x);
    NumberIsDigits(core, y);
    NumberIsDigits(core, z);
  }

  lemma TailOf(bare: string)
    ensures var core := Cut(Cut(bare, '+').before, '-').before;
            core <= bare && bare == core + bare[|core|..] && (core == bare || bare[|core|] in "-+")
            && '-' !in core && '+' !in core
  {
    var plus := Cut(bare, '+');
    var dash := Cut(plus.before, '-');
    hide Cut;
    assert plus.before <= bare && dash.before <= plus.before;
  }

  lemma ThreeParts(core: string)
    requires |Split(core, '.')| == 3
    ensures var p := Split(core, '.'); core == Dotted(p[0], p[1], p[2])
  {
    var a := Cut(core, '.');
    var b := Cut(a.after, '.');
    hide Cut;
    assert Split(core, '.') == [a.before] + Split(a.after, '.');
    assert Split(a.after, '.') == [b.before] + Split(b.after, '.');
    assert Split(b.after, '.') == [b.after];
  }

  lemma NumberIsDigits(core: string, x: string)
    requires IsNumber(x) && '-' !in core && '+' !in core && (forall c :: c in x ==> c in core)
    ensures IsDigits(x) && Atoi(x) == Some(DigitsValue(x))
  {
    if x != "" { assert x[0] in x; }
  }

  /** Every version reads as its numbers and its prerelease. */
  lemma VersionReads(v: string, a: nat, b: nat, c: nat, pre: string, build: Option<string>)
    requires IsVersion(v, a, b, c, pre)
    ensures ParseSemver(Version(v, a, b, c, pre, build)) == Some(Semver(a, b, c, pre))
  {
    DecimalReads(a);
    DecimalReads(b);
    DecimalReads(c);
    hide Decimal, ParseSemver, Bare, Dotted, AllDigits, DigitsValue;
    TextReads(v, Decimal(a), Decimal(b), Decimal(c), pre, build);
  }

  function Bare(core: string, pre: string): string {
    core + if pre == "" then "" else "-" + pre
  }

  lemma CoreCuts(core: string, pre: string)
    requires '-' !in core
    ensures Cut(Bare(core, pre), '-').before == core && Cut(Bare(core, pre), '-').after == pre
  {
    if pre != "" {
      assert Bare(core, pre) == core + ['-'] + pre;
      CutJoin(core, '-', pre);
    } else {
      assert Bare(core, pre) == core;
    }
  }

  lemma VersionCuts(v: string, core: string, pre: string, build: Option<string>)
    requires v in {"v", ""} && core != "" && core[0] != 'v' && '+' !in core && '+' !in pre
    ensures var bare := Bare(core, pre);
            Cut(TrimV(v + bare + if build.Some? then "+" + build.value else ""), '+').before == bare
  {
    var bare := Bare(core, pre);
    var end := if build.Some? then "+" + build.value else "";
    var s := v + bare + end;
    assert bare[0] == core[0];
    assert TrimV(s) == bare + end;
    if build.Some? {
      assert bare + end == bare + ['+'] + build.value;
      CutJoin(bare, '+', build.value);
    } else {
      assert bare + end == bare;
    }
  }

  /** a is before b in a dictionary: where they part, a ends or has the lesser
      character. */
  ghost predicate Before(a: string, b: string) {
    exists i :: PartAt(a, b, i)
  }

  predicate PartAt(a: string, b: string, i: int) {
    0 <= i <= |a| && i < |b| && (forall k :: 0 <= k < i ==> a[k] == b[k]) && (i == |a| || a[i] < b[i])
  }

  lemma {:induction false} StringLessIsBefore(a: string, b: string)
    ensures StringLess(a, b) <==> Before(a, b)
  {
    if b != "" && a != "" && a[0] == b[0] {
      StringLessIsBefore(a[1..], b[1..]);
      if Before(a[1..], b[1..]) {
        var i :| PartAt(a[1..], b[1..], i);
        PartsEarlier(a, b, i + 1);
      }
      if Before(a, b) {
        var i :| PartAt(a, b, i);
        PartsLater(a, b, i);
      }
    } else {
      if Before(a, b) {
        var i :| PartAt(a, b, i);
        PartsFirst(a, b, i);
      }
      assert StringLess(a, b) <==> PartAt(a, b, 0);
    }
  }

  lemma PartsFirst(a: string, b: string, i: int)
    requires PartAt(a, b, i) && (b == "" || a == "" || a[0] != b[0])
    ensures PartAt(a, b, 0)
  {
    if a != "" && b != "" { assert a[0] != b[0]; }
  }

  lemma PartsEarlier(a: string, b: string, i: int)
    requires a != "" && b != "" && a[0] == b[0] && PartAt(a[1..], b[1..], i - 1)
    ensures PartAt(a, b, i)
  {
    forall k | 0 <= k < i ensures a[k] == b[k] {
      if k > 0 { assert a[1..][k - 1] == b[1..][k - 1]; }
    }
  }

  lemma PartsLater(a: string, b: string, i: int)
    requires PartAt(a, b, i) && a != "" && a[0] == b[0]
    ensures PartAt(a[1..], b[1..], i - 1)
  {
  }

  /** The order of releases: by major, minor and patch number; of one core a release
      beats its prereleases, and those compare as strings. Build metadata and the
      prefix do not matter. */
  lemma NewerInNumbers(v: string, a: nat, b: nat, c: nat, p: string, x: Option<string>,
                       w: string, d: nat, e: nat, f: nat, q: string, y: Option<string>)
    requires IsVersion(v, a, b, c, p) && IsVersion(w, d, e, f, q)
    ensures Newer(Version(v, a, b, c, p, x), Version(w, d, e, f, q, y)) <==>
              || a > d
              || (a == d && b > e)
              || (a == d && b == e && c > f)
              || (a == d && b == e && c == f && ((p == "" && q != "") || (p != "" && q != "" && Before(q, p))))
  {
    VersionReads(v, a, b, c, p, x);
    VersionReads(w, d, e, f, q, y);
    StringLessIsBefore(q, p);
    StringLessTotal(p, q);
    hide ParseSemver, Version, Before, StringLess;
  }
}
