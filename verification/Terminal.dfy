/** What a text console does with the bytes splash/main.c writes: control
    sequences of ECMA-48 and the bytes of a cell's glyph between them. */
module Terminal {
  import opened Text

  const ESC: char := 27 as char

  /** One control sequence (CUP or SGR here) or the bytes of one cell. */
  datatype Emit = Csi(params: seq<nat>, final: char) | Glyph(text: string)

  datatype Attr = DefaultColor | Fg(color: nat)

  datatype Shown = Shown(glyph: string, attr: Attr)

  /** Cursor, rendition and the cells, row by row. */
  datatype Term = Term(cols: nat, row: nat, col: nat, attr: Attr, screen: seq<Shown>)

  /** SGR, section 8.3.117 of ECMA-48, with the usual 90-97 for 8-15. */
  function Rendition(attr: Attr, params: seq<nat>): Attr
    decreases |params|
  {
    if params == [] then attr
    else
      var p := params[0];
      Rendition(if p == 0 then DefaultColor
                else if 30 <= p <= 37 then Fg(p - 30)
                else if 90 <= p <= 97 then Fg(p - 90 + 8)
                else attr, params[1..])
  }

  function Interpret(t: Term, e: Emit): Term {
    match e
    case Csi(params, 'H') =>
      // CUP, section 8.3.21: line and column count from one.
      if |params| == 2 && params[0] > 0 && params[1] > 0 then t.(row := params[0] - 1, col := params[1] - 1) else t
    case Csi(params, 'm') => t.(attr := Rendition(t.attr, params))
    case Csi(_, _) => t
    case Glyph(text) =>
      var at := t.row * t.cols + t.col;
      t.(screen := if at < |t.screen| then t.screen[at := Shown(text, t.attr)] else t.screen,
         col := if t.col + 1 < t.cols then t.col + 1 else t.col)
  }

  function InterpretAll(t: Term, es: seq<Emit>): Term
    decreases |es|
  {
    if es == [] then t else InterpretAll(Interpret(t, es[0]), es[1..])
  }

  lemma {:induction false} InterpretConcat(t: Term, a: seq<Emit>, b: seq<Emit>)
    ensures InterpretAll(t, a + b) == InterpretAll(InterpretAll(t, a), b)
    decreases |a|
  {
    if a == [] {
      assert a + b == b;
    } else {
      InterpretConcat(Interpret(t, a[0]), a[1..], b);
      assert (a + b)[1..] == a[1..] + b;
    }
  }

  // ---------------------------------------------------------------------
  // Bytes
  // ---------------------------------------------------------------------

  predicate IsParam(c: char) {
    '0' <= c <= '9' || c == ';'
  }

  /** A parameter as a number; an empty one reads 0. */
  function Number(s: string): nat {
    if s == "" then 0
    else
      var d := s[|s| - 1];
      Number(s[..|s| - 1]) * 10 + (if '0' <= d <= '9' then (d - '0') as nat else 0)
  }

  function Numbers(s: string): seq<nat>
    decreases |s|
  {
    var i := IndexOf(s, ';');
    if i < 0 then [Number(s)] else [Number(s[..i])] + Numbers(s[i + 1..])
  }

  /** The bytes between CSI and the final byte. */
  function SpellParams(params: seq<nat>): (s: string)
    ensures forall c :: c in s ==> IsParam(c)
    decreases |params|
  {
    if |params| == 0 then ""
    else if |params| == 1 then Decimal(params[0])
    else Decimal(params[0]) + ";" + SpellParams(params[1..])
  }

  function Spell(e: Emit): string {
    match e
    case Csi(params, final) => [ESC, '['] + SpellParams(params) + [final]
    case Glyph(text) => text
  }

  function SpellAll(es: seq<Emit>): string
    decreases |es|
  {
    if es == [] then "" else Spell(es[0]) + SpellAll(es[1..])
  }

  /** How many bytes of s, from the first, are parameter bytes. */
  function ParamSpan(s: string): (n: nat)
    ensures n <= |s| && (forall c :: c in s[..n] ==> IsParam(c))
    ensures n < |s| ==> !IsParam(s[n])
  {
    if s == "" || !IsParam(s[0]) then 0
    else
      var n := ParamSpan(s[1..]);
      assert s[..n + 1] == [s[0]] + s[1..][..n];
      n + 1
  }

  /** How a console reads bytes: CSI, parameters, final byte; an ESC that starts
      no control sequence is dropped, and what stands between control sequences
      is one glyph. */
  function Scan(b: string): seq<Emit>
    decreases |b|
  {
    if b == "" then []
    else if b[0] == ESC && |b| > 1 && b[1] == '[' then
      var n := ParamSpan(b[2..]);
      if n + 2 == |b| then []
      else [Csi(Numbers(b[2..][..n]), b[n + 2])] + Scan(b[n + 3..])
    else if b[0] == ESC then Scan(b[1..])
    else
      var i := IndexOf(b, ESC);
      var n := if i < 0 then |b| else i;
      [Glyph(b[..n])] + Scan(b[n..])
  }

  /** Spelt so that it reads back: parameters and a final byte, or a text that
      is not empty and holds no ESC. */
  predicate Readable(e: Emit) {
    match e
    case Csi(params, final) => params != [] && !IsParam(final)
    case Glyph(text) => text != "" && ESC !in text
  }

  /** No two glyphs in a row: they would read as one. */
  predicate Separated(es: seq<Emit>) {
    forall i :: 0 <= i < |es| - 1 && es[i].Glyph? ==> es[i + 1].Csi?
  }

  lemma {:induction false} NumberOfDecimal(n: nat)
    ensures Number(Decimal(n)) == n
  {
    var d := ['0' + (n % 10) as char];
    if n >= 10 {
      NumberOfDecimal(n / 10);
      var s := Decimal(n);
      assert s[..|s| - 1] == Decimal(n / 10);
    } else {
      assert d[..0] == "";
    }
  }

  lemma FirstNumber(d: string, rest: string)
    requires ';' !in d
    ensures Numbers(d) == [Number(d)]
    ensures Numbers(d + ";" + rest) == [Number(d)] + Numbers(rest)
  {
    var s := d + ";" + rest;
    assert s[..|d|] == d && s[|d| + 1..] == rest;
    IndexOfUnique(s, ';', |d|);
  }

  lemma {:induction false} NumbersOfParams(params: seq<nat>)
    requires params != []
    ensures Numbers(SpellParams(params)) == params
    decreases |params|
  {
    hide Number, Decimal, Numbers;
    NumberOfDecimal(params[0]);
    FirstNumber(Decimal(params[0]), SpellParams(params[1..]));
    if |params| > 1 {
      NumbersOfParams(params[1..]);
    }
  }

  lemma {:induction false} ParamSpanOf(s: string, rest: string)
    requires forall c :: c in s ==> IsParam(c)
    requires rest != "" && !IsParam(rest[0])
    ensures ParamSpan(s + rest) == |s|
  {
    if s == "" {
      assert s + rest == rest;
    } else {
      ParamSpanOf(s[1..], rest);
      assert (s + rest)[1..] == s[1..] + rest;
    }
  }

  lemma CsiReads(params: seq<nat>, final: char, rest: string)
    requires params != [] && !IsParam(final)
    ensures Scan(Spell(Csi(params, final)) + rest) == [Csi(params, final)] + Scan(rest)
  {
    var p := SpellParams(params);
    var b := Spell(Csi(params, final)) + rest;
    assert b[2..] == p + ([final] + rest);
    ParamSpanOf(p, [final] + rest);
    assert b[2..][..|p|] == p;
    assert b[|p| + 3..] == rest;
    NumbersOfParams(params);
  }

  lemma GlyphReads(text: string, rest: string)
    requires text != "" && ESC !in text
    requires rest == "" || rest[0] == ESC
    ensures Scan(text + rest) == [Glyph(text)] + Scan(rest)
  {
    var b := text + rest;
    assert b[0] == text[0];
    if rest == "" {
      assert b == text;
      assert b[|b|..] == "";
    } else {
      assert b[..|text|] == text && b[|text|..] == rest;
      IndexOfUnique(b, ESC, |text|);
    }
  }

  lemma FirstReads(e: Emit, rest: string)
    requires Readable(e) && (e.Glyph? ==> rest == "" || rest[0] == ESC)
    ensures Scan(Spell(e) + rest) == [e] + Scan(rest)
  {
    hide Scan, SpellParams;
    match e
    case Csi(params, final) => CsiReads(params, final, rest);
    case Glyph(text) => GlyphReads(text, rest);
  }

  lemma StartsWithEsc(es: seq<Emit>)
    requires es != [] && es[0].Csi?
    ensures SpellAll(es) != "" && SpellAll(es)[0] == ESC
  {}

  /** Reading undoes spelling. */
  lemma {:induction false} ScanOfSpell(es: seq<Emit>)
    requires Separated(es) && forall e :: e in es ==> Readable(e)
    ensures Scan(SpellAll(es)) == es
    decreases |es|
  {
    hide Scan, Spell;
    if es == [] {
      EmptyReads();
    } else {
      ScanOfSpell(es[1..]);
      if |es| > 1 && es[0].Glyph? {
        StartsWithEsc(es[1..]);
      }
      FirstReads(es[0], SpellAll(es[1..]));
    }
  }

  lemma EmptyReads()
    ensures Scan("") == []
  {}

  lemma {:induction false} SpellConcat(a: seq<Emit>, b: seq<Emit>)
    ensures SpellAll(a + b) == SpellAll(a) + SpellAll(b)
    decreases |a|
  {
    if a == [] {
      assert a + b == b;
    } else {
      SpellConcat(a[1..], b);
      assert (a + b)[1..] == a[1..] + b;
    }
  }
}
