/** The byte replacement behind agent/internal/files/service.go Patch: Go's
    Count, Replace and ReplaceAll for a non-empty old text. */
module Replacement {
  predicate MatchAt(s: string, pat: string, i: int) {
    0 <= i && i + |pat| <= |s| && s[i..i + |pat|] == pat
  }

  /** The first position of pat in s at or after i, or -1. */
  function FindFrom(s: string, pat: string, i: nat): (p: int)
    requires i <= |s|
    ensures p >= 0 ==> i <= p && p + |pat| <= |s| && s[p..p + |pat|] == pat
    ensures forall k :: i <= k < (if p >= 0 then p else |s| + 1) ==> !MatchAt(s, pat, k)
    decreases |s| - i
  {
    if MatchAt(s, pat, i) then i
    else if i == |s| then -1
    else FindFrom(s, pat, i + 1)
  }

  function Find(s: string, pat: string): (p: int)
    ensures p >= 0 ==> p + |pat| <= |s| && s[p..p + |pat|] == pat
    ensures forall k :: 0 <= k < (if p >= 0 then p else |s| + 1) ==> !MatchAt(s, pat, k)
  {
    FindFrom(s, pat, 0)
  }

  /** strings.Count: the leftmost occurrences that do not overlap. */
  function Count(s: string, pat: string): nat
    requires pat != ""
    decreases |s|
  {
    var p := Find(s, pat);
    if p < 0 then 0 else 1 + Count(s[p + |pat|..], pat)
  }

  function ReplaceAll(s: string, pat: string, rep: string): string
    requires pat != ""
    decreases |s|
  {
    var p := Find(s, pat);
    if p < 0 then s else s[..p] + rep + ReplaceAll(s[p + |pat|..], pat, rep)
  }

  /** bytes.Replace with n = 1. */
  function ReplaceFirst(s: string, pat: string, rep: string): string {
    var p := Find(s, pat);
    if p < 0 then s else s[..p] + rep + s[p + |pat|..]
  }

  /** What stands between the counted occurrences. */
  function Pieces(s: string, pat: string): (ps: seq<string>)
    requires pat != ""
    ensures |ps| > 0
    decreases |s|
  {
    var p := Find(s, pat);
    if p < 0 then [s] else [s[..p]] + Pieces(s[p + |pat|..], pat)
  }

  function Join(ps: seq<string>, sep: string): string
    requires |ps| > 0
  {
    if |ps| == 1 then ps[0] else ps[0] + sep + Join(ps[1..], sep)
  }

  lemma {:induction false} ReplaceAllJoins(s: string, pat: string, rep: string)
    requires pat != ""
    ensures ReplaceAll(s, pat, rep) == Join(Pieces(s, pat), rep)
    decreases |s|
  {
    hide MatchAt;
    var p := Find(s, pat);
    if p >= 0 {
      var rest := s[p + |pat|..];
      ReplaceAllJoins(rest, pat, rep);
      assert Pieces(s, pat)[1..] == Pieces(rest, pat);
    }
  }

  lemma {:induction false} ReplaceBySame(s: string, pat: string)
    requires pat != ""
    ensures ReplaceAll(s, pat, pat) == s
    decreases |s|
  {
    hide MatchAt;
    var p := Find(s, pat);
    if p >= 0 {
      ReplaceBySame(s[p + |pat|..], pat);
      assert s == s[..p] + s[p..p + |pat|] + s[p + |pat|..];
    }
  }

  lemma {:induction false} PieceCount(s: string, pat: string)
    requires pat != ""
    ensures |Pieces(s, pat)| == Count(s, pat) + 1
    decreases |s|
  {
    hide MatchAt;
    var p := Find(s, pat);
    if p >= 0 { PieceCount(s[p + |pat|..], pat); }
  }

  lemma FindIsFirst(s: string, pat: string, p: nat)
    requires MatchAt(s, pat, p) && forall i :: 0 <= i < p ==> !MatchAt(s, pat, i)
    ensures Find(s, pat) == p
  {
    var q := Find(s, pat);
    assert q >= 0 ==> MatchAt(s, pat, q);
  }

  /** Cutting at the first match leaves no earlier match in front of it. */
  lemma CutIsLeftmost(s: string, pat: string)
    requires Find(s, pat) >= 0
    ensures Find(s[..Find(s, pat)] + pat, pat) == Find(s, pat)
  {
    var p := Find(s, pat);
    var t := s[..p] + pat;
    assert t == s[..p + |pat|];
    forall i | 0 <= i < p
      ensures !MatchAt(t, pat, i)
    {
      assert !MatchAt(s, pat, i);
      if i + |pat| <= |t| { assert t[i..i + |pat|] == s[i..i + |pat|]; }
    }
    assert t[p..p + |pat|] == pat;
    FindIsFirst(t, pat, p);
  }

  /** Each cut is the leftmost one: in a piece followed by pat the first match
      is right after the piece, and the last piece has no match at all. */
  lemma {:induction false} PiecesAreLeftmost(s: string, pat: string, k: nat)
    requires pat != "" && k < |Pieces(s, pat)|
    ensures k + 1 < |Pieces(s, pat)| ==> Find(Pieces(s, pat)[k] + pat, pat) == |Pieces(s, pat)[k]|
    ensures k + 1 == |Pieces(s, pat)| ==> Find(Pieces(s, pat)[k], pat) < 0
    decreases |s|
  {
    hide MatchAt;
    var p := Find(s, pat);
    if p >= 0 {
      if k > 0 {
        PiecesAreLeftmost(s[p + |pat|..], pat, k - 1);
      } else {
        CutIsLeftmost(s, pat);
      }
    }
  }

  /** n * d by addition. */
  function Times(n: nat, d: int): int {
    if n == 0 then 0 else d + Times(n - 1, d)
  }

  lemma TimesIsProduct(n: nat, d: int)
    ensures Times(n, d) == n * d
  {
  }

  lemma {:induction false} ReplaceAllGrowth(s: string, pat: string, rep: string)
    requires pat != ""
    ensures |ReplaceAll(s, pat, rep)| == |s| + Times(Count(s, pat), |rep| - |pat|)
    decreases |s|
  {
    hide MatchAt;
    var p := Find(s, pat);
    if p >= 0 {
      ReplaceAllGrowth(s[p + |pat|..], pat, rep);
    }
  }

  /** The new length is the old one plus count times the difference. */
  lemma ReplaceAllLength(s: string, pat: string, rep: string)
    requires pat != ""
    ensures |ReplaceAll(s, pat, rep)| == |s| + Count(s, pat) * (|rep| - |pat|)
  {
    ReplaceAllGrowth(s, pat, rep);
    TimesIsProduct(Count(s, pat), |rep| - |pat|);
  }

  /** Replace-all rewrites exactly the counted leftmost occurrences that do not
      overlap: cut at them, s is the pieces joined by the old text and the
      result is the same pieces joined by the new one. */
  lemma ReplaceAllIsExact(s: string, pat: string, rep: string) returns (pieces: seq<string>)
    requires pat != ""
    ensures |pieces| == Count(s, pat) + 1
    ensures s == Join(pieces, pat) && ReplaceAll(s, pat, rep) == Join(pieces, rep)
    ensures forall k :: 0 <= k < |pieces| - 1 ==> Find(pieces[k] + pat, pat) == |pieces[k]|
    ensures Find(pieces[|pieces| - 1], pat) < 0
    ensures |ReplaceAll(s, pat, rep)| == |s| + Count(s, pat) * (|rep| - |pat|)
  {
    hide Find, Join, ReplaceAll, Count;
    pieces := Pieces(s, pat);
    PieceCount(s, pat);
    ReplaceBySame(s, pat);
    ReplaceAllJoins(s, pat, pat);
    ReplaceAllJoins(s, pat, rep);
    ReplaceAllLength(s, pat, rep);
    forall k | 0 <= k < |pieces| - 1
      ensures Find(pieces[k] + pat, pat) == |pieces[k]|
    {
      PiecesAreLeftmost(s, pat, k);
    }
    PiecesAreLeftmost(s, pat, |pieces| - 1);
  }

  /** With a single occurrence the two forms agree. */
  lemma SingleOccurrence(s: string, pat: string, rep: string)
    requires pat != "" && Count(s, pat) == 1
    ensures ReplaceFirst(s, pat, rep) == ReplaceAll(s, pat, rep)
  {
    var p := Find(s, pat);
    assert Count(s[p + |pat|..], pat) == 0;
  }

  // ---------------------------------------------------------------------
  // A file's replacements
  // ---------------------------------------------------------------------

  datatype Edit = Edit(pat: string, rep: string, all: bool)

  predicate ValidEdits(edits: seq<Edit>) {
    forall e :: e in edits ==> e.pat != ""
  }

  /** How many replacements an edit makes. */
  function Applied(content: string, e: Edit): nat
    requires e.pat != ""
  {
    if e.all then Count(content, e.pat) else 1
  }

  function Rewrite(content: string, e: Edit): string
    requires e.pat != ""
  {
    if e.all then ReplaceAll(content, e.pat, e.rep) else ReplaceFirst(content, e.pat, e.rep)
  }

  /** Every edit finds its text, and more than once only if it replaces all. */
  predicate Applicable(content: string, edits: seq<Edit>)
    requires ValidEdits(edits)
    decreases |edits|
  {
    edits == [] ||
    (var n := Count(content, edits[0].pat);
     n > 0 && (n == 1 || edits[0].all) && Applicable(Rewrite(content, edits[0]), edits[1..]))
  }

  function Rewritten(content: string, edits: seq<Edit>): string
    requires ValidEdits(edits)
    decreases |edits|
  {
    if edits == [] then content else Rewritten(Rewrite(content, edits[0]), edits[1..])
  }

  function TotalApplied(content: string, edits: seq<Edit>): nat
    requires ValidEdits(edits)
    decreases |edits|
  {
    if edits == [] then 0
    else Applied(content, edits[0]) + TotalApplied(Rewrite(content, edits[0]), edits[1..])
  }

  // ---------------------------------------------------------------------
  // What the replacements of a file are
  // ---------------------------------------------------------------------

  /** s cut at its leftmost occurrences of pat that do not overlap. */
  predicate CutAt(s: string, pat: string, pieces: seq<string>) {
    && pieces != [] && s == Join(pieces, pat)
    && (forall k :: 0 <= k < |pieces| - 1 ==> Find(pieces[k] + pat, pat) == |pieces[k]|)
    && Find(pieces[|pieces| - 1], pat) < 0
  }

  /** There is one such cut. */
  lemma {:induction false} CutUnique(s: string, pat: string, pieces: seq<string>)
    requires pat != "" && CutAt(s, pat, pieces)
    ensures pieces == Pieces(s, pat) && |pieces| == Count(s, pat) + 1
    decreases |pieces|
  {
    if |pieces| > 1 {
      var p, rest := pieces[0], pieces[1..];
      assert s == p + pat + Join(rest, pat);
      FirstCut(s, p, pat);
      assert s[|p| + |pat|..] == Join(rest, pat) && s[..|p|] == p;
      CutUnique(Join(rest, pat), pat, rest);
    }
    PieceCount(s, pat);
  }

  lemma FirstCut(s: string, p: string, pat: string)
    requires p + pat <= s && Find(p + pat, pat) == |p|
    ensures Find(s, pat) == |p|
  {
    assert s[|p|..|p| + |pat|] == (p + pat)[|p|..] == pat;
    forall i | 0 <= i < |p| ensures !MatchAt(s, pat, i) {
      assert !MatchAt(p + pat, pat, i);
      assert (p + pat)[i..i + |pat|] == s[i..i + |pat|];
    }
    FindIsFirst(s, pat, |p|);
  }

  /** An edit makes n replacements, one unless it is to replace all. */
  ghost predicate Makes(before: string, e: Edit, n: nat, after: string) {
    0 < n && (n == 1 || e.all)
    && exists pieces :: |pieces| == n + 1 && CutAt(before, e.pat, pieces) && after == Join(pieces, e.rep)
  }

  /** The contents before the first edit and after each, with the replacements made. */
  ghost predicate EditRun(edits: seq<Edit>, cs: seq<string>, ns: seq<nat>) {
    && |cs| == |edits| + 1 && |ns| == |edits|
    && forall i :: 0 <= i < |edits| ==> Makes(cs[i], edits[i], ns[i], cs[i + 1])
  }

  function Sum(ns: seq<nat>): nat {
    if ns == [] then 0 else ns[0] + Sum(ns[1..])
  }

  lemma MakesExactly(before: string, e: Edit, n: nat, after: string)
    requires e.pat != ""
    ensures Makes(before, e, n, after) <==>
              n == Count(before, e.pat) == Applied(before, e) && n > 0 && after == Rewrite(before, e)
  {
    hide Find, Join, ReplaceAll, Count, CutAt, ReplaceFirst;
    if Makes(before, e, n, after) {
      var pieces :| |pieces| == n + 1 && CutAt(before, e.pat, pieces) && after == Join(pieces, e.rep);
      CutUnique(before, e.pat, pieces);
      ReplaceAllJoins(before, e.pat, e.rep);
      if n == 1 { SingleOccurrence(before, e.pat, e.rep); }
    }
    if n == Count(before, e.pat) == Applied(before, e) && n > 0 && after == Rewrite(before, e) {
      var pieces := ReplaceAllIsExact(before, e.pat, e.rep);
      CutHolds(before, e.pat, pieces);
      if n == 1 { SingleOccurrence(before, e.pat, e.rep); }
    }
  }

  lemma CutHolds(s: string, pat: string, pieces: seq<string>)
    requires pieces != [] && s == Join(pieces, pat)
    requires forall k :: 0 <= k < |pieces| - 1 ==> Find(pieces[k] + pat, pat) == |pieces[k]|
    requires Find(pieces[|pieces| - 1], pat) < 0
    ensures CutAt(s, pat, pieces)
  {
  }

  /** The edits of a file are made one after the other, each on what the one before
      left: they can be when there is such a run of contents, and then its last is
      the result and its replacements are the total. */
  lemma {:induction false} EditsExactly(edits: seq<Edit>, cs: seq<string>, ns: seq<nat>)
    requires ValidEdits(edits) && EditRun(edits, cs, ns)
    ensures Applicable(cs[0], edits)
    ensures Rewritten(cs[0], edits) == cs[|edits|] && TotalApplied(cs[0], edits) == Sum(ns)
    decreases |edits|
  {
    hide Count, Makes, Rewrite;
    if edits != [] {
      assert Makes(cs[0], edits[0], ns[0], cs[1]);
      MakesExactly(cs[0], edits[0], ns[0], cs[1]);
      EditsExactly(edits[1..], cs[1..], ns[1..]);
    }
  }

  /** And only then. */
  lemma {:induction false} EditsMade(content: string, edits: seq<Edit>) returns (cs: seq<string>, ns: seq<nat>)
    requires ValidEdits(edits) && Applicable(content, edits)
    ensures EditRun(edits, cs, ns) && cs[0] == content
    decreases |edits|
  {
    hide Count, Makes, Rewrite;
    if edits == [] {
      cs, ns := [content], [];
    } else {
      var n, next := Count(content, edits[0].pat), Rewrite(content, edits[0]);
      MakesExactly(content, edits[0], n, next);
      cs, ns := EditsMade(next, edits[1..]);
      cs, ns := [content] + cs, [n] + ns;
    }
  }
}
