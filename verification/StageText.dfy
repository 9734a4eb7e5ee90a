/** The regular expressions of tools/stage-key.py, as scanners. White space is
    ASCII. */
module StageText {
  import opened Wrappers
  import opened Text

  predicate IdentStart(c: char) {
    'A' <= c <= 'Z' || 'a' <= c <= 'z' || c == '_'
  }

  predicate IdentChar(c: char) {
    IdentStart(c) || '0' <= c <= '9'
  }

  function IdentSpan(s: string): (n: nat)
    ensures n <= |s|
  {
    if s == "" || !IdentChar(s[0]) then 0 else 1 + IdentSpan(s[1..])
  }

  /** How long the identifier is that s begins with, 0 for none. */
  function IdentLen(s: string): (n: nat)
    ensures n <= |s|
  {
    if s == "" || !IdentStart(s[0]) then 0 else IdentSpan(s)
  }

  // ---------------------------------------------------------------------
  // Variables
  // ---------------------------------------------------------------------

  datatype Match = Match(text: string, len: nat)

  /** VAR_RE at the start of s: $NAME, ${NAME}, and either brace alone. */
  function VarAt(s: string): (m: Option<Match>)
    ensures m.Some? ==> 0 < m.value.len <= |s|
  {
    if s == "" || s[0] != '$' then None
    else
      var b := if |s| > 1 && s[1] == '{' then 2 else 1;
      var n := IdentLen(s[b..]);
      if n == 0 then None
      else Some(Match(s[b..b + n], b + n + if b + n < |s| && s[b + n] == '}' then 1 else 0))
  }

  /** An ARG without a value reads as "". */
  function Value(values: map<string, string>, name: string): string {
    if name in values then values[name] else ""
  }

  /** expand. */
  function Expand(s: string, values: map<string, string>): string {
    if s == "" then ""
    else match VarAt(s)
      case Some(m) => Value(values, m.text) + Expand(s[m.len..], values)
      case None => [s[0]] + Expand(s[1..], values)
  }

  /** VAR_RE.findall: the variables s names. */
  function VarsIn(s: string): seq<string> {
    if s == "" then []
    else match VarAt(s)
      case Some(m) => [m.text] + VarsIn(s[m.len..])
      case None => VarsIn(s[1..])
  }

  /** The expansion depends on the values of the variables named and on no others. */
  lemma {:induction false} ExpandDependsOnNamed(s: string, va: map<string, string>, vb: map<string, string>)
    requires forall v :: v in VarsIn(s) ==> Value(va, v) == Value(vb, v)
    ensures Expand(s, va) == Expand(s, vb)
  {
    if s != "" {
      match VarAt(s)
      case Some(m) =>
        assert m.text in VarsIn(s);
        ExpandDependsOnNamed(s[m.len..], va, vb);
      case None => ExpandDependsOnNamed(s[1..], va, vb);
    }
  }

  /** A text without a dollar sign names none and stands for itself. */
  lemma {:induction false} NoVariables(s: string, values: map<string, string>)
    requires '$' !in s
    ensures VarsIn(s) == [] && Expand(s, values) == s
  {
    if s != "" { NoVariables(s[1..], values); }
  }

  // ---------------------------------------------------------------------
  // References and ARG lines
  // ---------------------------------------------------------------------

  function RefSpan(s: string): (n: nat)
    ensures n <= |s|
  {
    if s == "" || IsSpace(s[0]) || s[0] == ',' then 0 else 1 + RefSpan(s[1..])
  }

  /** STAGE_REF_RE at the start of s: --from=REF or ,from=REF. */
  function RefAt(s: string): (m: Option<Match>)
    ensures m.Some? ==> 0 < m.value.len <= |s|
  {
    var k := if "--from=" <= s then 7 else if ",from=" <= s then 6 else 0;
    var n := if k == 0 then 0 else RefSpan(s[k..]);
    if n == 0 then None else Some(Match(s[k..k + n], k + n))
  }

  /** STAGE_REF_RE.findall. */
  function FindRefs(s: string): seq<string> {
    if s == "" then []
    else match RefAt(s)
      case Some(m) => [m.text] + FindRefs(s[m.len..])
      case None => FindRefs(s[1..])
  }

  lemma {:induction false} NoRefs(s: string)
    requires '=' !in s
    ensures FindRefs(s) == []
  {
    if s != "" {
      assert "--from="[6] == '=' && ",from="[5] == '=';
      NoRefs(s[1..]);
    }
  }

  lemma NoMarkHere(s: string)
    requires s != "" && s[0] != '-' && s[0] != ','
    ensures RefAt(s) == None
  {
  }

  lemma NoReferenceHere(s: string)
    requires s != "" && RefAt(s) == None
    ensures FindRefs(s) == FindRefs(s[1..])
  {
    hide RefAt;
  }

  lemma {:induction false} RefsAfter(p: string, s: string)
    requires '-' !in p && ',' !in p
    ensures FindRefs(p + s) == FindRefs(s)
  {
    hide RefAt, FindRefs;
    if p == "" {
      assert p + s == s;
    } else {
      RefsAfter(p[1..], s);
      assert (p + s)[0] == p[0] && p[0] in p && (p + s)[1..] == p[1..] + s;
      NoMarkHere(p + s);
      NoReferenceHere(p + s);
    }
  }

  function Blanks(s: string): (n: nat)
    ensures n <= |s|
  {
    if s == "" || !IsSpace(s[0]) then 0 else 1 + Blanks(s[1..])
  }

  /** ARG_RE: the ARG a line declares. */
  function ArgName(line: string): Option<string> {
    if !("ARG" <= line) || Blanks(line[3..]) == 0 then None
    else
      var rest := line[3..][Blanks(line[3..])..];
      var n := IdentLen(rest);
      if n > 0 && (n == |rest| || rest[n] == '=') then Some(rest[..n]) else None
  }

  // ---------------------------------------------------------------------
  // What the scanners read
  // ---------------------------------------------------------------------

  predicate WordChar(c: char) {
    c == '_' || '0' <= c <= '9' || 'A' <= c <= 'Z' || 'a' <= c <= 'z'
  }

  /** [A-Za-z_][A-Za-z0-9_]* */
  predicate Identifier(s: string) {
    s != "" && !('0' <= s[0] <= '9') && forall c :: c in s ==> WordChar(c)
  }

  lemma {:induction false} IdentSpanIs(name: string, rest: string)
    requires forall c :: c in name ==> WordChar(c)
    requires rest == "" || !WordChar(rest[0])
    ensures IdentSpan(name + rest) == |name|
  {
    if name == "" {
      assert name + rest == rest;
    } else {
      IdentSpanIs(name[1..], rest);
      assert (name + rest)[0] == name[0] && name[0] in name && (name + rest)[1..] == name[1..] + rest;
    }
  }

  lemma IdentLenIs(name: string, rest: string)
    requires Identifier(name) && (rest == "" || !WordChar(rest[0]))
    ensures IdentLen(name + rest) == |name|
  {
    IdentSpanIs(name, rest);
    assert (name + rest)[0] == name[0] && name[0] in name;
  }

  lemma {:induction false} IdentSpanReads(s: string)
    ensures var n := IdentSpan(s); (forall c :: c in s[..n] ==> WordChar(c)) && (n == |s| || !WordChar(s[n]))
  {
    if s != "" && IdentChar(s[0]) {
      IdentSpanReads(s[1..]);
      assert s[..IdentSpan(s)] == [s[0]] + s[1..][..IdentSpan(s[1..])];
    }
  }

  function Opening(brace: bool): string { if brace then "${" else "$" }

  function Closing(brace: bool): string { if brace then "}" else "" }

  /** A variable is read with its braces, without, and with either one alone; the
      rest is read on from there. */
  lemma VariableRead(open: bool, name: string, close: bool, rest: string, values: map<string, string>)
    requires Identifier(name) && (close || rest == "" || (!WordChar(rest[0]) && rest[0] != '}'))
    ensures var s := Opening(open) + name + Closing(close) + rest;
            && VarsIn(s) == [name] + VarsIn(rest)
            && Expand(s, values) == (if name in values then values[name] else "") + Expand(rest, values)
  {
    var s, n := Opening(open) + name + Closing(close) + rest, |Opening(open)| + |name| + |Closing(close)|;
    MatchesVariable(open, name, close, rest);
    hide VarAt, VarsIn, Expand, Identifier, WordChar, Opening, Closing;
    MatchCopied(s, Match(name, n), values);
  }

  lemma MatchCopied(s: string, m: Match, values: map<string, string>)
    requires VarAt(s) == Some(m)
    ensures 0 < m.len <= |s|
    ensures VarsIn(s) == [m.text] + VarsIn(s[m.len..])
    ensures Expand(s, values) == Value(values, m.text) + Expand(s[m.len..], values)
  {
    assert s != "";
    hide VarAt;
  }

  lemma MatchesVariable(open: bool, name: string, close: bool, rest: string)
    requires Identifier(name) && (close || rest == "" || (!WordChar(rest[0]) && rest[0] != '}'))
    ensures var s, n := Opening(open) + name + Closing(close) + rest, |Opening(open)| + |name| + |Closing(close)|;
            n <= |s| && s[n..] == rest && VarAt(s) == Some(Match(name, n))
  {
    var o, c := Opening(open), Closing(close);
    BraceAhead(close, rest);
    hide VarAt, Identifier, Closing, WordChar;
    VarAtReads(o, name, c + rest);
    Glue(o, name, c, rest);
  }

  lemma BraceAhead(close: bool, rest: string)
    requires close || rest == "" || (!WordChar(rest[0]) && rest[0] != '}')
    ensures var tail := Closing(close) + rest;
            (tail == "" || !WordChar(tail[0])) && |Closing(close)| == if tail != "" && tail[0] == '}' then 1 else 0
  {
  }

  lemma Glue(a: string, b: string, c: string, d: string)
    ensures a + b + c + d == a + (b + (c + d)) && (a + b + c + d)[|a| + |b| + |c|..] == d
  {
  }

  lemma VarAtReads(open: string, name: string, tail: string)
    requires open in {"$", "${"} && Identifier(name) && (tail == "" || !WordChar(tail[0]))
    ensures VarAt(open + (name + tail))
         == Some(Match(name, |open| + |name| + if tail != "" && tail[0] == '}' then 1 else 0))
  {
    var s, b := open + (name + tail), |open|;
    IdentLenIs(name, tail);
    assert name[0] in name && s[b] == (name + tail)[0] == name[0];
    assert s[b..] == name + tail;
    assert s[b..b + |name|] == name;
    assert tail != "" ==> s[b + |name|] == tail[0];
    hide IdentLen, Identifier;
    assert s[0] == '$' && (b == 2 <==> s[1] == '{');
  }

  lemma CharacterCopied(s: string, values: map<string, string>)
    requires s != "" && VarAt(s) == None
    ensures VarsIn(s) == VarsIn(s[1..]) && Expand(s, values) == [s[0]] + Expand(s[1..], values)
  {
    hide VarAt;
  }

  lemma NoneWithoutDollar(s: string)
    requires s != "" && s[0] != '$'
    ensures VarAt(s) == None
  {
  }

  /** Text before a dollar sign is copied and names nothing. */
  lemma {:induction false} TextCopied(before: string, rest: string, values: map<string, string>)
    requires '$' !in before
    ensures VarsIn(before + rest) == VarsIn(rest) && Expand(before + rest, values) == before + Expand(rest, values)
  {
    hide VarsIn, Expand, VarAt;
    if before == "" {
      assert before + rest == rest;
    } else {
      var s, front := before + rest, before[1..];
      TextCopied(front, rest, values);
      assert s[0] == before[0] && before[0] in before && s[1..] == front + rest;
      NoneWithoutDollar(s);
      CharacterCopied(s, values);
      assert before == [before[0]] + front;
      assert [before[0]] + (front + Expand(rest, values)) == before + Expand(rest, values);
    }
  }

  /** So is a dollar sign that no name follows. */
  lemma LoneDollarCopied(rest: string, values: map<string, string>)
    requires var t := if rest != "" && rest[0] == '{' then rest[1..] else rest;
             t == "" || !WordChar(t[0]) || '0' <= t[0] <= '9'
    ensures VarsIn("$" + rest) == VarsIn(rest) && Expand("$" + rest, values) == "$" + Expand(rest, values)
  {
    var s := "$" + rest;
    assert s[1..] == rest;
    if rest != "" && rest[0] == '{' {
      assert s[1] == '{' && s[2..] == rest[1..];
    }
  }

  predicate Ends(s: string) {
    s == "" || IsSpace(s[0]) || s[0] == ','
  }

  lemma {:induction false} RefEnds(ref: string, rest: string)
    requires (forall c :: c in ref ==> !IsSpace(c) && c != ',') && Ends(rest)
    ensures RefSpan(ref + rest) == |ref|
  {
    if ref == "" {
      assert ref + rest == rest;
    } else {
      RefEnds(ref[1..], rest);
      assert (ref + rest)[0] == ref[0] && ref[0] in ref && (ref + rest)[1..] == ref[1..] + rest;
    }
  }

  /** Either mark followed by a reference makes it, and the rest is read on. */
  lemma ReferenceRead(mark: string, ref: string, rest: string)
    requires mark in {"--from=", ",from="} && Ends(rest)
    requires ref != "" && forall c :: c in ref ==> !IsSpace(c) && c != ','
    ensures FindRefs(mark + ref + rest) == [ref] + FindRefs(rest)
  {
    var s := mark + ref + rest;
    Slices(mark, ref, rest);
    RefEnds(ref, rest);
    MarkAhead(s, mark);
    hide RefSpan;
    assert RefAt(s) == Some(Match(ref, |mark| + |ref|));
    hide RefAt;
    assert s != "";
  }

  lemma Slices(a: string, b: string, c: string)
    ensures a + b + c == a + (b + c) && (a + b + c)[|a|..] == b + c
    ensures (a + b + c)[|a|..|a| + |b|] == b && (a + b + c)[|a| + |b|..] == c
  {
  }

  lemma MarkAhead(s: string, mark: string)
    requires mark in {"--from=", ",from="} && mark <= s
    ensures "--from=" <= s <==> mark == "--from="
    ensures mark == ",from=" ==> |mark| == 6
    ensures mark == "--from=" ==> |mark| == 7
  {
    assert s[0] == mark[0];
  }

  /** A line that copies from one reference makes that one. */
  lemma CopyFrom(before: string, ref: string, tail: string)
    requires '-' !in before && ',' !in before
    requires ref != "" && forall c :: c in ref ==> !IsSpace(c) && c != ','
    requires (tail == "" || IsSpace(tail[0])) && '=' !in tail
    ensures FindRefs(before + ("--from=" + (ref + tail))) == [ref]
  {
    RefsAfter(before, "--from=" + (ref + tail));
    ReferenceRead("--from=", ref, tail);
    NoRefs(tail);
    hide FindRefs;
    assert "--from=" + ref + tail == "--from=" + (ref + tail);
  }

  /** Text in which no mark begins makes none. */
  lemma {:induction false} NoMarkNoReference(before: string, rest: string)
    requires forall i :: 0 <= i < |before| ==>
               !("--from=" <= (before + rest)[i..]) && !(",from=" <= (before + rest)[i..])
    ensures FindRefs(before + rest) == FindRefs(rest)
  {
    if before == "" {
      assert before + rest == rest;
    } else {
      var s := before + rest;
      assert s[0..] == s && s[1..] == before[1..] + rest;
      forall i | 0 <= i < |before[1..]|
        ensures !("--from=" <= (before[1..] + rest)[i..]) && !(",from=" <= (before[1..] + rest)[i..])
      {
        assert (before[1..] + rest)[i..] == s[i + 1..];
      }
      NoMarkNoReference(before[1..], rest);
    }
  }

  lemma {:induction false} BlanksAre(blanks: string, rest: string)
    requires (forall c :: c in blanks ==> IsSpace(c)) && (rest == "" || !IsSpace(rest[0]))
    ensures Blanks(blanks + rest) == |blanks|
  {
    if blanks == "" {
      assert blanks + rest == rest;
    } else {
      BlanksAre(blanks[1..], rest);
      assert (blanks + rest)[0] == blanks[0] && blanks[0] in blanks && (blanks + rest)[1..] == blanks[1..] + rest;
    }
  }

  lemma {:induction false} BlanksRead(s: string)
    ensures forall c :: c in s[..Blanks(s)] ==> IsSpace(c)
  {
    if s != "" && IsSpace(s[0]) {
      BlanksRead(s[1..]);
      assert s[..Blanks(s)] == [s[0]] + s[1..][..Blanks(s[1..])];
    }
  }

  predicate ArgLine(line: string, blanks: string, name: string, tail: string) {
    && line == "ARG" + blanks + name + tail
    && blanks != "" && (forall c :: c in blanks ==> IsSpace(c))
    && Identifier(name)
    && (tail == "" || tail[0] == '=')
  }

  /** The lines that declare an ARG, and which: ARG, white space, a name, and the end
      or an equals sign. */
  lemma ArgNameExactly(line: string, name: string)
    ensures ArgName(line) == Some(name) <==> exists blanks, tail :: ArgLine(line, blanks, name, tail)
  {
    if blanks, tail :| ArgLine(line, blanks, name, tail) { ArgLineRead(line, blanks, name, tail); }
    if ArgName(line) == Some(name) { ArgNameReads(line, name); }
  }

  lemma ArgLineRead(line: string, blanks: string, name: string, tail: string)
    requires ArgLine(line, blanks, name, tail)
    ensures ArgName(line) == Some(name)
  {
    var after := name + tail;
    assert name[0] in name && after[0] == name[0];
    assert line == "ARG" + (blanks + after) && line[3..] == blanks + after && "ARG" <= line;
    BlanksAre(blanks, after);
    assert line[3..][|blanks|..] == after;
    IdentLenIs(name, tail);
    hide Blanks, IdentLen, Identifier, ArgLine;
    assert after[..|name|] == name && (tail != "" ==> after[|name|] == tail[0]);
  }

  lemma ArgNameReads(line: string, name: string)
    requires ArgName(line) == Some(name)
    ensures exists blanks, tail :: ArgLine(line, blanks, name, tail)
  {
    ArgNameParts(line, name);
    var after := line[3..];
    var blanks, rest := after[..Blanks(after)], after[Blanks(after)..];
    var tail := rest[|name|..];
    hide *;
    assert after == blanks + (name + tail);
    Joined(line, "ARG", blanks, name, tail);
    IsArgLine(line, blanks, name, tail);
  }

  lemma Joined(s: string, a: string, b: string, c: string, d: string)
    requires s == a + (b + (c + d))
    ensures s == a + b + c + d
  {
  }

  lemma IsArgLine(line: string, blanks: string, name: string, tail: string)
    requires line == "ARG" + blanks + name + tail && blanks != "" && (forall c :: c in blanks ==> IsSpace(c))
    requires Identifier(name) && (tail == "" || tail[0] == '=')
    ensures ArgLine(line, blanks, name, tail)
  {
    hide Identifier;
  }

  lemma ArgNameParts(line: string, name: string)
    requires ArgName(line) == Some(name)
    ensures "ARG" <= line && line == "ARG" + line[3..]
    ensures var after := line[3..];
            var blanks, rest := after[..Blanks(after)], after[Blanks(after)..];
            && blanks != "" && (forall c :: c in blanks ==> IsSpace(c))
            && name <= rest && Identifier(name) && (|name| == |rest| || rest[|name|] == '=')
  {
    var after := line[3..];
    var rest := after[Blanks(after)..];
    BlanksRead(after);
    IdentSpanReads(rest);
    hide Blanks;
    assert name == rest[..IdentLen(rest)];
  }
}
