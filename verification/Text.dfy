/** The string operations of Go's strings package that the updater uses, over
    byte strings. A string here is a sequence of bytes held as chars. */
module Text {
  /** strings.Index for a one-byte separator: the first position of c, or -1. */
  function IndexOf(s: string, c: char): (i: int)
    ensures -1 <= i < |s|
    ensures i >= 0 ==> s[i] == c && c !in s[..i]
    ensures i < 0 ==> c !in s
  {
    if s == "" then -1
    else if s[0] == c then 0
    else
      var i := IndexOf(s[1..], c);
      assert s == [s[0]] + s[1..];
      if i < 0 then -1
      else
        assert s[..i + 1] == [s[0]] + s[1..][..i];
        i + 1
  }

  /** strings.LastIndex for a one-byte separator. */
  function LastIndexOf(s: string, c: char): (i: int)
    ensures -1 <= i < |s|
    ensures i >= 0 ==> s[i] == c && c !in s[i + 1..]
    ensures i < 0 ==> c !in s
  {
    if s == "" then -1
    else if s[|s| - 1] == c then |s| - 1
    else
      var i := LastIndexOf(s[..|s| - 1], c);
      assert s == s[..|s| - 1] + [s[|s| - 1]];
      if i < 0 then -1
      else
        assert s[i + 1..] == s[..|s| - 1][i + 1..] + [s[|s| - 1]];
        i
  }

  /** The first position is determined by what precedes it. */
  lemma IndexOfUnique(s: string, c: char, i: nat)
    requires i < |s| && s[i] == c && c !in s[..i]
    ensures IndexOf(s, c) == i
  {
  }

  lemma LastIndexOfUnique(s: string, c: char, i: nat)
    requires i < |s| && s[i] == c && c !in s[i + 1..]
    ensures LastIndexOf(s, c) == i
  {
  }

  datatype Parts = Parts(before: string, after: string, found: bool)

  /** strings.Cut around the first c; the whole string when there is none. */
  function Cut(s: string, c: char): (p: Parts)
    ensures p.found ==> s == p.before + [c] + p.after && c !in p.before
    ensures !p.found ==> p.before == s && p.after == "" && c !in s
  {
    var i := IndexOf(s, c);
    if i < 0 then Parts(s, "", false) else Parts(s[..i], s[i + 1..], true)
  }

  /** Cut undoes joining: the first c splits before from after. */
  lemma CutJoin(before: string, c: char, after: string)
    requires c !in before
    ensures Cut(before + [c] + after, c) == Parts(before, after, true)
  {
    var s := before + [c] + after;
    assert s[..|before|] == before;
    IndexOfUnique(s, c, |before|);
    assert s[|before| + 1..] == after;
  }

  predicate IsSpace(c: char) {
    c in {' ', '\t', '\n', '\r', 11 as char, 12 as char}
  }

  function TrimLeft(s: string): (t: string)
    ensures t == "" || !IsSpace(t[0])
    ensures s != "" && !IsSpace(s[0]) ==> t == s
  {
    if s != "" && IsSpace(s[0]) then TrimLeft(s[1..]) else s
  }

  function TrimRight(s: string): (t: string)
    ensures t <= s
    ensures t == "" || !IsSpace(t[|t| - 1])
    ensures forall i :: |t| <= i < |s| ==> IsSpace(s[i])
  {
    if s != "" && IsSpace(s[|s| - 1]) then TrimRight(s[..|s| - 1]) else s
  }

  /** strings.TrimSpace, for the ASCII white space. */
  function TrimSpace(s: string): string {
    TrimRight(TrimLeft(s))
  }

  lemma {:induction false} TrimRightKeeps(s: string, n: nat)
    requires n <= |s| && forall i :: 0 <= i < n ==> !IsSpace(s[i])
    ensures n <= |TrimRight(s)|
  {
    if n < |s| {
      TrimRightKeeps(s[..|s| - 1], n);
    }
  }

  /** The first word of "<word> <rest>\n" is word, whatever rest is. */
  lemma FirstWord(word: string, rest: string)
    requires word != "" && forall c :: c in word ==> !IsSpace(c)
    ensures Cut(TrimSpace(word + " " + rest + "\n"), ' ').before == word
  {
    var s := word + " " + rest + "\n";
    assert s[0] == word[0];
    var t := TrimRight(s);
    assert s[..|word|] == word;
    TrimRightKeeps(s, |word|);
    assert t[..|word|] == s[..|word|] == word;
    if |t| == |word| {
      assert t == word;
    } else {
      assert t[|word|] == ' ';
      assert t == word + " " + t[|word| + 1..];
      CutJoin(word, ' ', t[|word| + 1..]);
    }
  }

  function Repeated(c: char, n: nat): (s: string)
    ensures |s| == n && forall i :: 0 <= i < n ==> s[i] == c
  {
    if n == 0 then "" else [c] + Repeated(c, n - 1)
  }

  /** A number in decimal, as printf's %d writes one that is not negative. */
  function Decimal(n: nat): (s: string)
    ensures s != "" && forall c :: c in s ==> '0' <= c <= '9'
  {
    var d := ['0' + (n % 10) as char];
    if n < 10 then d else Decimal(n / 10) + d
  }

  lemma DecimalPlaces(n: nat, d: nat)
    requires d < 10 && n > 0
    ensures Decimal(10 * n + d) == Decimal(n) + [("0123456789")[d]]
    ensures Decimal(d) == [("0123456789")[d]]
  {
  }
}
