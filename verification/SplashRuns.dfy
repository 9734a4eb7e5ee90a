/** splash/main.c over whole runs: what the console shows while text_run draws
    frame after frame and anything else may write on the same console. */
module SplashRuns {
  import opened Arith
  import opened Terminal
  import opened Splash

  /** The console's reaction to bytes. */
  function Receive(t: Term, bytes: string): Term {
    InterpretAll(t, Scan(bytes))
  }

  /** Cells that a frame may hold: a colour of the palette, and no ESC in a text,
      which would start a control sequence. */
  predicate Drawable(cells: seq<Cell>) {
    forall k :: 0 <= k < |cells| ==> CellOk(cells[k]) && cells[k].color < 16 && ESC !in CStr(cells[k].g)
  }

  predicate Shows(t: Term, cells: seq<Cell>) {
    |t.screen| == |cells| && forall k :: 0 <= k < |cells| ==> t.screen[k] == Show(cells[k])
  }

  // ---------------------------------------------------------------------
  // One flush
  // ---------------------------------------------------------------------

  function AttrOf(color: nat): Attr {
    if color == 0 then DefaultColor else Fg(color)
  }

  lemma ColorSets(color: nat, attr: Attr)
    requires color < 16
    ensures Rendition(attr, ColorParams(color)) == AttrOf(color)
  {
    var p := ColorParams(color);
    if color == 0 {
      assert p[1..] == [];
    } else {
      assert p[1..] == [p[1]] && p[1..][1..] == [];
      assert Rendition(attr, p) == Rendition(DefaultColor, [p[1]]) == Rendition(Fg(color), []);
    }
  }

  lemma CellPaints(t: Term, i: nat, x: Cell, sgr: int)
    requires t.cols > 0 && i < |t.screen| && x.color < 16
    requires sgr >= 0 ==> t.attr == AttrOf(sgr)
    requires sgr >= -1
    ensures var u := InterpretAll(t, EmitCell(i, t.cols, x, sgr));
            u.screen == t.screen[i := Show(x)] && u.cols == t.cols && u.attr == AttrOf(x.color)
  {
    var r, c := RowAndColumn(i, t.cols, x, sgr);
    hide InterpretAll, EmitCell, Show, AttrOf;
    CellPaintsAt(t, i, r, c, x, sgr);
  }

  lemma RowAndColumn(i: nat, cols: nat, x: Cell, sgr: int) returns (r: nat, c: nat)
    requires cols > 0
    ensures r * cols + c == i && EmitCell(i, cols, x, sgr) == EmitAt(r, c, x, sgr)
  {
    r, c := i / cols, i % cols;
  }

  /** EmitCell by row and column. */
  function EmitAt(r: nat, c: nat, x: Cell, sgr: int): seq<Emit> {
    [Csi([r + 1, c + 1], 'H')] + (if x.color != sgr then [Csi(ColorParams(x.color), 'm')] else []) +
        [Glyph(ShownText(x))]
  }

  lemma CellPaintsAt(t: Term, i: nat, r: nat, c: nat, x: Cell, sgr: int)
    requires r * t.cols + c == i < |t.screen| && x.color < 16
    requires sgr >= 0 ==> t.attr == AttrOf(sgr)
    requires sgr >= -1
    ensures var u := InterpretAll(t, EmitAt(r, c, x, sgr));
            u.screen == t.screen[i := Show(x)] && u.cols == t.cols && u.attr == AttrOf(x.color)
  {
    hide Rendition, CStr, ShownText, ColorParams, InterpretAll;
    assert Show(x) == Shown(ShownText(x), AttrOf(x.color));
    var at, sg, text := Csi([r + 1, c + 1], 'H'), Csi(ColorParams(x.color), 'm'), Glyph(ShownText(x));
    var a := t.(row := r, col := c);
    assert Interpret(t, at) == a;
    SgrSets(a, x.color);
    var b := a.(attr := AttrOf(x.color));
    hide Interpret, InterpretAll, Show, CStr, ShownText, ColorParams;
    GlyphPaints(b, i, ShownText(x));
    ThreeSteps(t, at, if x.color != sgr then [sg] else [], sg, text, a, b);
  }

  lemma ThreeSteps(t: Term, at: Emit, mid: seq<Emit>, sg: Emit, text: Emit, a: Term, b: Term)
    requires Interpret(t, at) == a && mid in {[], [sg]}
    requires mid == [] ==> a == b
    requires mid == [sg] ==> Interpret(a, sg) == b
    ensures InterpretAll(t, [at] + mid + [text]) == Interpret(b, text)
  {
    hide InterpretAll, Interpret;
    OneStep(t, at);
    OneStep(a, sg);
    OneStep(b, text);
    InterpretConcat(t, [at], mid);
    InterpretConcat(t, [at] + mid, [text]);
  }

  lemma SgrSets(t: Term, color: nat)
    requires color < 16
    ensures Interpret(t, Csi(ColorParams(color), 'm')) == t.(attr := AttrOf(color))
  {
    ColorSets(color, t.attr);
    hide Rendition, ColorParams;
  }

  lemma GlyphPaints(t: Term, i: nat, text: string)
    requires i < |t.screen| && t.row * t.cols + t.col == i
    ensures var u := Interpret(t, Glyph(text));
            u.screen == t.screen[i := Shown(text, t.attr)] && u.cols == t.cols && u.attr == t.attr
  {}

  lemma OneStep(t: Term, e: Emit)
    ensures InterpretAll(t, [e]) == Interpret(t, e) && InterpretAll(t, []) == t
  {
    assert [e][1..] == [];
  }

  /** What the console holds at k after the flush of cells i and up. */
  function Painted(cur: seq<Cell>, prev: seq<Cell>, i: nat, k: nat, before: Shown): Shown
    requires k < |cur| == |prev|
  {
    if k >= i && !CellEq(cur[k], prev[k]) then Show(cur[k]) else before
  }

  lemma {:induction false} PaintRest(t: Term, cur: seq<Cell>, prev: seq<Cell>, i: nat, sgr: int)
    requires t.cols > 0 && |t.screen| == |cur| == |prev| && i <= |cur|
    requires forall k :: 0 <= k < |cur| ==> cur[k].color < 16
    requires sgr >= -1 && (sgr >= 0 ==> t.attr == AttrOf(sgr))
    ensures var u := InterpretAll(t, FlushFrom(cur, prev, t.cols, i, sgr));
            u.cols == t.cols && |u.screen| == |cur|
            && forall k :: 0 <= k < |cur| ==> u.screen[k] == Painted(cur, prev, i, k, t.screen[k])
    decreases |cur| - i
  {
    hide CellEq, EmitCell, Show, Interpret, AttrOf;
    if i < |cur| {
      if CellEq(cur[i], prev[i]) {
        PaintRest(t, cur, prev, i + 1, sgr);
      } else {
        var e := EmitCell(i, t.cols, cur[i], sgr);
        var rest := FlushFrom(cur, prev, t.cols, i + 1, cur[i].color);
        CellPaints(t, i, cur[i], sgr);
        InterpretConcat(t, e, rest);
        PaintRest(InterpretAll(t, e), cur, prev, i + 1, cur[i].color);
      }
    }
  }

  lemma CellReads(i: nat, cols: nat, x: Cell, sgr: int)
    requires cols > 0 && ESC !in CStr(x.g)
    ensures var es := EmitCell(i, cols, x, sgr);
            Separated(es) && (forall e :: e in es ==> Readable(e)) && es != [] && es[0].Csi?
  {}

  /** Sequences that begin with a control sequence may follow one another. */
  predicate Reads(es: seq<Emit>) {
    Separated(es) && (forall e :: e in es ==> Readable(e)) && (es != [] ==> es[0].Csi?)
  }

  lemma ReadsOn(a: seq<Emit>, b: seq<Emit>)
    requires Reads(a) && Reads(b)
    ensures Reads(a + b)
  {
    var es := a + b;
    forall i | 0 <= i < |es| - 1 && es[i].Glyph? ensures es[i + 1].Csi? {
      if i >= |a| { assert es[i] == b[i - |a|]; }
    }
  }

  lemma {:induction false} FlushReads(cur: seq<Cell>, prev: seq<Cell>, cols: nat, i: nat, sgr: int)
    requires cols > 0 && |cur| == |prev| && i <= |cur| && Drawable(cur)
    ensures Reads(FlushFrom(cur, prev, cols, i, sgr))
    decreases |cur| - i
  {
    hide CellEq, EmitCell, Separated, Readable;
    if i == |cur| {
      NothingReads();
    } else if CellEq(cur[i], prev[i]) {
      FlushReads(cur, prev, cols, i + 1, sgr);
    } else {
      FlushReads(cur, prev, cols, i + 1, cur[i].color);
      CellReads(i, cols, cur[i], sgr);
      ReadsOn(EmitCell(i, cols, cur[i], sgr), FlushFrom(cur, prev, cols, i + 1, cur[i].color));
    }
  }

  lemma NothingReads()
    ensures Reads([])
  {}

  /** The bytes of a flush change exactly the cells where cur differs from prev,
      whatever the cursor and the rendition were. */
  lemma FlushPaints(t: Term, cur: seq<Cell>, prev: seq<Cell>)
    requires t.cols > 0 && |t.screen| == |cur| == |prev| && Drawable(cur)
    ensures var u := Receive(t, SpellAll(FlushFrom(cur, prev, t.cols, 0, -1)));
            u.cols == t.cols && |u.screen| == |cur|
            && forall k :: 0 <= k < |cur| ==> u.screen[k] == Painted(cur, prev, 0, k, t.screen[k])
  {
    FlushReads(cur, prev, t.cols, 0, -1);
    ScanOfSpell(FlushFrom(cur, prev, t.cols, 0, -1));
    PaintRest(t, cur, prev, 0, -1);
  }

  lemma EqualShowsAlike(a: Cell, b: Cell)
    requires CellEq(a, b)
    ensures Show(a) == Show(b)
  {}

  /** The console showed cur wherever prev equals cur. */
  predicate Agrees(t: Term, cur: seq<Cell>, prev: seq<Cell>) {
    |t.screen| == |cur| == |prev|
    && forall k :: 0 <= k < |cur| ==> (CellEq(cur[k], prev[k]) ==> t.screen[k] == Show(prev[k]))
  }

  /** flush_grid leaves the console showing cur exactly when it showed prev
      wherever prev equals cur; then it shows the new prev as well. */
  lemma FlushShows(t: Term, cur: seq<Cell>, prev: seq<Cell>)
    requires t.cols > 0 && |t.screen| == |cur| == |prev| && Drawable(cur)
    ensures var u := Receive(t, SpellAll(FlushFrom(cur, prev, t.cols, 0, -1)));
            (Shows(u, cur) <==> Agrees(t, cur, prev)) && (Shows(u, cur) <==> Shows(u, Flushed(cur, prev)))
    ensures forall k :: 0 <= k < |cur| ==> CellEq(cur[k], Flushed(cur, prev)[k])
  {
    FlushPaints(t, cur, prev);
    hide Show, Receive, FlushFrom, SpellAll, CellOk;
    var p := Flushed(cur, prev);
    var u := Receive(t, SpellAll(FlushFrom(cur, prev, t.cols, 0, -1)));
    forall k | 0 <= k < |cur|
      ensures CellEq(cur[k], p[k]) && Show(cur[k]) == Show(p[k])
      ensures CellEq(cur[k], prev[k]) ==> Show(cur[k]) == Show(prev[k])
    {
      EqualShowsAlike(cur[k], p[k]);
      if CellEq(cur[k], prev[k]) { EqualShowsAlike(cur[k], prev[k]); }
    }
    assert Shows(u, cur) ==> Agrees(t, cur, prev) by {
      if Shows(u, cur) {
        forall k | 0 <= k < |cur| && CellEq(cur[k], prev[k]) ensures t.screen[k] == Show(prev[k]) {
          assert u.screen[k] == Painted(cur, prev, 0, k, t.screen[k]);
        }
      }
    }
  }

  /** How many texts are written. */
  function Texts(es: seq<Emit>): nat {
    if es == [] then 0 else (if es[0].Glyph? then 1 else 0) + Texts(es[1..])
  }

  /** The colours set, in order. */
  function Colours(es: seq<Emit>): seq<seq<nat>> {
    if es == [] then []
    else (if es[0].Csi? && es[0].final == 'm' then [es[0].params] else []) + Colours(es[1..])
  }

  lemma {:induction false} CountsAppend(a: seq<Emit>, b: seq<Emit>)
    ensures Texts(a + b) == Texts(a) + Texts(b) && Colours(a + b) == Colours(a) + Colours(b)
  {
    if a == [] {
      assert a + b == b;
    } else {
      CountsAppend(a[1..], b);
      assert (a + b)[0] == a[0] && (a + b)[1..] == a[1..] + b;
      Assoc(if a[0].Csi? && a[0].final == 'm' then [a[0].params] else [], Colours(a[1..]), Colours(b));
    }
  }

  lemma CellCounts(i: nat, cols: nat, x: Cell, sgr: int)
    requires cols > 0
    ensures var es := EmitCell(i, cols, x, sgr);
            Texts(es) == 1 && Colours(es) == if x.color != sgr then [ColorParams(x.color)] else []
  {
    var at, text := Csi([i / cols + 1, i % cols + 1], 'H'), Glyph(ShownText(x));
    var mid := if x.color != sgr then [Csi(ColorParams(x.color), 'm')] else [];
    hide ColorParams, ShownText;
    CountsAppend([at] + mid, [text]);
    CountsAppend([at], mid);
    CountsOfOne(at);
    CountsOfOne(text);
    CountsOfOne(Csi(ColorParams(x.color), 'm'));
  }

  lemma CountsOfOne(e: Emit)
    ensures Texts([e]) == (if e.Glyph? then 1 else 0) && Texts([]) == 0
    ensures Colours([e]) == (if e.Csi? && e.final == 'm' then [e.params] else []) && Colours([]) == []
  {
    assert [e][1..] == [];
  }

  /** The cells that changed, from i on. */
  function Changed(cur: seq<Cell>, prev: seq<Cell>, i: nat): set<nat>
    requires |cur| == |prev|
  {
    set k: nat | i <= k < |cur| && !CellEq(cur[k], prev[k])
  }

  predicate NoneTwice(cs: seq<seq<nat>>) {
    forall k :: 0 < k < |cs| ==> cs[k] != cs[k - 1]
  }

  lemma {:induction false} RestIsSparse(cur: seq<Cell>, prev: seq<Cell>, cols: nat, i: nat, sgr: int)
    requires |cur| == |prev| && cols > 0 && i <= |cur| && forall k :: 0 <= k < |cur| ==> cur[k].color < 16
    requires -1 <= sgr < 16
    ensures var es := FlushFrom(cur, prev, cols, i, sgr);
            Texts(es) == |Changed(cur, prev, i)| && NoneTwice(Colours(es))
            && (sgr >= 0 && Colours(es) != [] ==> Colours(es)[0] != ColorParams(sgr))
    decreases |cur| - i
  {
    hide CellEq, EmitCell, Texts, Colours, Changed, NoneTwice, ColorParams;
    if i == |cur| {
      NothingLeft(cur, prev);
    } else if CellEq(cur[i], prev[i]) {
      RestIsSparse(cur, prev, cols, i + 1, sgr);
      ChangedFrom(cur, prev, i);
    } else {
      var x := cur[i];
      var e, rest := EmitCell(i, cols, x, sgr), FlushFrom(cur, prev, cols, i + 1, x.color);
      assert FlushFrom(cur, prev, cols, i, sgr) == e + rest;
      RestIsSparse(cur, prev, cols, i + 1, x.color);
      hide FlushFrom;
      CellCounts(i, cols, x, sgr);
      CountsAppend(e, rest);
      ChangedFrom(cur, prev, i);
      OneColourMore(Colours(rest), x.color, sgr);
    }
  }

  lemma NothingLeft(cur: seq<Cell>, prev: seq<Cell>)
    requires |cur| == |prev|
    ensures Changed(cur, prev, |cur|) == {} && Texts([]) == 0 && Colours([]) == [] && NoneTwice([])
  {
  }

  lemma ChangedFrom(cur: seq<Cell>, prev: seq<Cell>, i: nat)
    requires i < |cur| == |prev|
    ensures |Changed(cur, prev, i)| == |Changed(cur, prev, i + 1)| + if CellEq(cur[i], prev[i]) then 0 else 1
  {
    hide CellEq;
    var rest := Changed(cur, prev, i + 1);
    assert Changed(cur, prev, i) == if CellEq(cur[i], prev[i]) then rest else rest + {i};
  }

  lemma OneColourMore(cs: seq<seq<nat>>, color: nat, sgr: int)
    requires NoneTwice(cs) && color < 16 && -1 <= sgr < 16 && (cs != [] ==> cs[0] != ColorParams(color))
    ensures var all := (if color != sgr then [ColorParams(color)] else []) + cs;
            NoneTwice(all) && (sgr >= 0 && all != [] ==> all[0] != ColorParams(sgr))
  {
    if sgr >= 0 { ColoursDiffer(color, sgr); }
    hide ColorParams;
  }

  lemma ColoursDiffer(a: nat, b: nat)
    requires a < 16 && b < 16
    ensures ColorParams(a) == ColorParams(b) <==> a == b
  {
    assert a != 0 ==> ColorParams(a)[1] == if a < 8 then 30 + a else 90 + (a - 8);
    assert b != 0 ==> ColorParams(b)[1] == if b < 8 then 30 + b else 90 + (b - 8);
  }

  /** A flush writes one text for each cell that changed, and sets a colour only when
      it is not the one set last; when nothing changed it writes nothing. */
  lemma FlushIsSparse(cur: seq<Cell>, prev: seq<Cell>, cols: nat)
    requires |cur| == |prev| && cols > 0 && Drawable(cur)
    ensures var es := FlushFrom(cur, prev, cols, 0, -1);
            && Texts(es) == |set k: nat | k < |cur| && !CellEq(cur[k], prev[k])|
            && (forall k :: 0 < k < |Colours(es)| ==> Colours(es)[k] != Colours(es)[k - 1])
            && ((forall k :: 0 <= k < |cur| ==> CellEq(cur[k], prev[k])) ==> SpellAll(es) == "")
  {
    RestIsSparse(cur, prev, cols, 0, -1);
    hide CellEq, EmitCell, Texts, Colours, Drawable;
    assert Changed(cur, prev, 0) == set k: nat | k < |cur| && !CellEq(cur[k], prev[k]);
    if forall k :: 0 <= k < |cur| ==> CellEq(cur[k], prev[k]) { NothingEmitted(cur, prev, cols, 0); }
  }

  lemma {:induction false} NothingEmitted(cur: seq<Cell>, prev: seq<Cell>, cols: nat, i: nat)
    requires |cur| == |prev| && cols > 0 && i <= |cur| && forall k :: 0 <= k < |cur| ==> CellEq(cur[k], prev[k])
    ensures FlushFrom(cur, prev, cols, i, -1) == []
    decreases |cur| - i
  {
    hide CellEq;
    if i < |cur| { NothingEmitted(cur, prev, cols, i + 1); }
  }

  // ---------------------------------------------------------------------
  // Forced repaint
  // ---------------------------------------------------------------------

  /** No text of cur is the mark followed by what stood after the first byte of
      the same cell of prev, in the same colour. */
  predicate Unmasked(cur: seq<Cell>, prev: seq<Cell>)
    requires |cur| == |prev| && forall k :: 0 <= k < |prev| ==> |prev[k].g| == 4
  {
    forall k :: 0 <= k < |cur| ==> (cur[k].color == prev[k].color ==> CStr(cur[k].g) != [MARK] + CStr(prev[k].g[1..]))
  }

  lemma MarkedEq(a: Cell, b: Cell)
    requires |b.g| == 4
    ensures CellEq(a, MarkedCell(b)) <==> a.color == b.color && CStr(a.g) == [MARK] + CStr(b.g[1..])
  {
    assert MarkedCell(b).g[1..] == b.g[1..];
  }

  /** Whatever stood on the console, the flush leaves it showing cur. */
  ghost predicate Overpaints(cols: nat, cur: seq<Cell>, prev: seq<Cell>)
    requires cols > 0 && |cur| == |prev|
  {
    forall t: Term :: t.cols == cols && |t.screen| == |cur| ==>
        Shows(Receive(t, SpellAll(FlushFrom(cur, prev, cols, 0, -1))), cur)
  }

  lemma OverpaintsExactly(cols: nat, cur: seq<Cell>, prev: seq<Cell>)
    requires cols > 0 && |cur| == |prev| && Drawable(cur)
    ensures Overpaints(cols, cur, prev) <==> forall k :: 0 <= k < |cur| ==> !CellEq(cur[k], prev[k])
  {
    hide CellEq, CStr, Show, Receive, FlushFrom, SpellAll;
    if k :| 0 <= k < |cur| && CellEq(cur[k], prev[k]) {
      var t := Term(cols, 0, 0, DefaultColor, seq(|cur|, i => Shown("", DefaultColor)));
      FlushShows(t, cur, prev);
      ShowsText(prev[k]);
      assert t.screen[k] != Show(prev[k]);
    } else {
      forall t: Term | t.cols == cols && |t.screen| == |cur|
        ensures Shows(Receive(t, SpellAll(FlushFrom(cur, prev, cols, 0, -1))), cur)
      {
        FlushShows(t, cur, prev);
      }
    }
  }

  /** A forced flush leaves the console showing cur whatever stood on it, exactly
      when no cell of cur reads as its marked predecessor. */
  lemma ForcedRepaint(cols: nat, cur: seq<Cell>, prev: seq<Cell>)
    requires cols > 0 && |cur| == |prev| && Drawable(cur)
    requires forall k :: 0 <= k < |prev| ==> |prev[k].g| == 4
    ensures Overpaints(cols, cur, Marked(prev)) <==> Unmasked(cur, prev)
  {
    hide CellEq, CStr, Overpaints;
    OverpaintsExactly(cols, cur, Marked(prev));
    forall k | 0 <= k < |cur|
      ensures CellEq(cur[k], Marked(prev)[k]) <==>
                cur[k].color == prev[k].color && CStr(cur[k].g) == [MARK] + CStr(prev[k].g[1..])
    {
      MarkedEq(cur[k], prev[k]);
    }
  }

  /** A cell that reads as the mark alone. */
  const MASKED := Cell([MARK, NUL, NUL, NUL], 0)

  /** Such a cell does hide: drawn before and drawn again, it stays covered by the
      stray x of a forced frame's console. */
  lemma MaskedCellSurvives()
    ensures Drawable([MASKED]) && !Unmasked([MASKED], [MASKED])
    ensures var t := Term(1, 0, 0, DefaultColor, [X]);
            Receive(t, SpellAll(FlushFrom([MASKED], Marked([MASKED]), 1, 0, -1))).screen == [X]
            && X != Show(MASKED)
  {
    CStrIs(MASKED.g, [MARK]);
    CStrIs(MASKED.g[1..], "");
    MarkedEq(MASKED, MASKED);
    var t := Term(1, 0, 0, DefaultColor, [X]);
    FlushPaints(t, [MASKED], Marked([MASKED]));
    hide Receive, FlushFrom, SpellAll;
  }

  lemma ShowsText(x: Cell)
    ensures Show(x).glyph != ""
  {}

  // ---------------------------------------------------------------------
  // Runs
  // ---------------------------------------------------------------------

  /** The console, prev and the frame counter of text_run. */
  datatype State = State(term: Term, prev: seq<Cell>, frame: nat)

  /** A frame of the animation, or anything else that changes the console. */
  datatype Event = Frame(cur: seq<Cell>) | Stray(term: Term)

  predicate Sound(s: State, n: nat) {
    s.term.cols > 0 && |s.term.screen| == |s.prev| == n && forall k :: 0 <= k < n ==> CellOk(s.prev[k])
  }

  /** Events of a console of n cells; no text starts with the repaint mark. */
  predicate Fits(e: Event, cols: nat, n: nat) {
    match e
    case Frame(cur) =>
      |cur| == n && Drawable(cur) && forall k :: 0 <= k < n ==> CStr(cur[k].g) == "" || cur[k].g[0] != MARK
    case Stray(t) => t.cols == cols && |t.screen| == n
  }

  predicate AllFit(es: seq<Event>, cols: nat, n: nat) {
    forall i :: 0 <= i < |es| ==> Fits(es[i], cols, n)
  }

  /** Every fifteenth frame is forced. */
  function Prepared(prev: seq<Cell>, frame: nat): (p: seq<Cell>)
    requires forall k :: 0 <= k < |prev| ==> CellOk(prev[k])
    ensures |p| == |prev|
  {
    if frame % 15 == 0 then assert forall k :: 0 <= k < |prev| ==> CellOk(prev[k]); Marked(prev) else prev
  }

  function Step(s: State, e: Event): (u: State)
    requires Sound(s, |s.prev|) && Fits(e, s.term.cols, |s.prev|)
    ensures Sound(u, |s.prev|) && |u.prev| == |s.prev| && u.term.cols == s.term.cols
  {
    match e
    case Frame(cur) =>
      var p := Prepared(s.prev, s.frame + 1);
      FlushPaints(s.term, cur, p);
      State(Receive(s.term, SpellAll(FlushFrom(cur, p, s.term.cols, 0, -1))), Flushed(cur, p), s.frame + 1)
    case Stray(t) => s.(term := t)
  }

  /** The end of one turn of the loop of text_run, on the grids themselves: it is
      a step of the runs below, on any console t. */
  method DrawFrame(cur: Grid, prev: Grid, frame: nat, ghost t: Term) returns (next: nat, out: string)
    requires cur.Valid() && prev.Valid() && cur.cells != prev.cells
    requires cur.rows == prev.rows && cur.cols == prev.cols == t.cols > 0
    requires |t.screen| == prev.cells.Length && Fits(Frame(cur.cells[..]), t.cols, prev.cells.Length)
    modifies prev.cells
    ensures prev.Valid() && cur.cells[..] == old(cur.cells[..])
    ensures Sound(State(t, old(prev.cells[..]), frame), prev.cells.Length)
    ensures State(Receive(t, out), prev.cells[..], next)
         == Step(State(t, old(prev.cells[..]), frame), Frame(cur.cells[..]))
  {
    hide FlushFrom, Receive, SpellAll, CellEq, CStr, Drawable;
    next := frame + 1;
    if next % 15 == 0 {
      prev.ForceRepaint();
    }
    out := FlushGrid(cur, prev);
  }

  function Run(s: State, es: seq<Event>): (u: State)
    requires Sound(s, |s.prev|) && AllFit(es, s.term.cols, |s.prev|)
    ensures Sound(u, |s.prev|) && |u.prev| == |s.prev| && u.term.cols == s.term.cols
    decreases |es|
  {
    if es == [] then s else Step(Run(s, es[..|es| - 1]), es[|es| - 1])
  }

  /** text_run after the alternate screen was cleared: blank console, blank prev. */
  function Start(rows: nat, cols: nat): State {
    MulMonotone(0, rows, cols);
    State(Term(cols, 0, 0, DefaultColor, seq(rows * cols, i => Shown(" ", DefaultColor))),
          seq(rows * cols, i => BLANK), 0)
  }

  predicate InSync(s: State) {
    Shows(s.term, s.prev)
  }

  lemma PlainIsUnmasked(cols: nat, cur: seq<Cell>, prev: seq<Cell>)
    requires |cur| == |prev| && (forall k :: 0 <= k < |prev| ==> |prev[k].g| == 4)
    requires Fits(Frame(cur), cols, |prev|)
    ensures Unmasked(cur, prev)
  {}

  /** A frame shows its cells if the console was in step, or if it is forced. */
  lemma FrameShows(s: State, cur: seq<Cell>)
    requires Sound(s, |s.prev|) && Fits(Frame(cur), s.term.cols, |s.prev|)
    requires InSync(s) || (s.frame + 1) % 15 == 0
    ensures Shows(Step(s, Frame(cur)).term, cur) && InSync(Step(s, Frame(cur)))
  {
    hide Show, CellEq, CStr, Receive, SpellAll, Drawable, Shows;
    var p := Prepared(s.prev, s.frame + 1);
    FlushShows(s.term, cur, p);
    if (s.frame + 1) % 15 == 0 {
      PlainIsUnmasked(s.term.cols, cur, s.prev);
      ForcedRepaint(s.term.cols, cur, s.prev);
    } else {
      AgreesInSync(s.term, cur, s.prev);
    }
  }

  lemma AgreesInSync(t: Term, cur: seq<Cell>, prev: seq<Cell>)
    requires Shows(t, prev) && |cur| == |prev|
    ensures Agrees(t, cur, prev)
  {}

  /** The blank console shows the blank first prev. */
  lemma StartsInSync(rows: nat, cols: nat)
    requires cols > 0
    ensures Sound(Start(rows, cols), rows * cols) && InSync(Start(rows, cols))
  {
    MulMonotone(0, rows, cols);
    CStrIs(BLANK.g, " ");
  }

  predicate NoStray(es: seq<Event>) {
    forall i :: 0 <= i < |es| ==> es[i].Frame?
  }

  lemma {:induction false} RunConcat(s: State, a: seq<Event>, b: seq<Event>)
    requires Sound(s, |s.prev|) && AllFit(a + b, s.term.cols, |s.prev|)
    ensures AllFit(a, s.term.cols, |s.prev|) && AllFit(b, s.term.cols, |s.prev|)
    ensures Run(s, a + b) == Run(Run(s, a), b)
    decreases |b|
  {
    hide Step;
    assert forall i :: 0 <= i < |a| ==> (a + b)[i] == a[i];
    assert forall i :: 0 <= i < |b| ==> (a + b)[|a| + i] == b[i];
    if b == [] {
      assert a + b == a;
    } else {
      var c := b[..|b| - 1];
      assert (a + b)[..|a + b| - 1] == a + c;
      RunConcat(s, a, c);
    }
  }

  /** From a console in step, and until something else writes on it, every frame
      shows; frames are counted. */
  lemma {:induction false} FramesShow(s: State, es: seq<Event>)
    requires Sound(s, |s.prev|) && AllFit(es, s.term.cols, |s.prev|) && NoStray(es) && InSync(s)
    ensures InSync(Run(s, es)) && Run(s, es).frame == s.frame + |es|
    ensures es != [] ==> Shows(Run(s, es).term, es[|es| - 1].cur)
    decreases |es|
  {
    hide InSync, Shows, Drawable;
    if es != [] {
      var front := es[..|es| - 1];
      FramesShow(s, front);
      FrameShows(Run(s, front), es[|es| - 1].cur);
    }
  }

  lemma {:induction false} FramesCounted(s: State, es: seq<Event>)
    requires Sound(s, |s.prev|) && AllFit(es, s.term.cols, |s.prev|) && NoStray(es)
    ensures Run(s, es).frame == s.frame + |es|
    decreases |es|
  {
    if es != [] {
      FramesCounted(s, es[..|es| - 1]);
    }
  }

  lemma ForcedThenShows(s: State, es: seq<Event>)
    requires Sound(s, |s.prev|) && AllFit(es, s.term.cols, |s.prev|) && NoStray(es) && es != []
    requires (s.frame + 1) % 15 == 0
    ensures InSync(Run(s, es)) && Shows(Run(s, es).term, es[|es| - 1].cur)
  {
    hide InSync, Shows, Step, Fits, Sound;
    var b := [es[0]];
    assert es == b + es[1..] && b[..0] == [];
    RunConcat(s, b, es[1..]);
    assert Run(s, b) == Step(s, es[0]);
    assert Fits(es[0], s.term.cols, |s.prev|);
    FrameShows(s, es[0].cur);
    FramesShow(Step(s, es[0]), es[1..]);
  }

  lemma NextForced(frame: nat)
    ensures (frame + (14 - frame % 15) + 1) % 15 == 0
  {}

  /** Fifteen frames undo anything that was written on the console. */
  lemma RepairedWithinFifteen(s: State, es: seq<Event>)
    requires Sound(s, |s.prev|) && AllFit(es, s.term.cols, |s.prev|) && NoStray(es) && |es| >= 15
    ensures InSync(Run(s, es)) && Shows(Run(s, es).term, es[|es| - 1].cur)
  {
    hide InSync, Shows, Step, Fits, Sound, Run;
    // The frame that brings the counter to a multiple of fifteen.
    var j := 14 - s.frame % 15;
    var a, b := es[..j], es[j..];
    assert es == a + b;
    RunConcat(s, a, b);
    FramesCounted(s, a);
    NextForced(s.frame);
    ForcedThenShows(Run(s, a), b);
  }

  /** The whole life of the splash: once fifteen frames were drawn without
      anything else writing, or if nothing else ever wrote, the console shows
      the frame drawn last. */
  lemma ConsoleFollows(rows: nat, cols: nat, before: seq<Event>, es: seq<Event>)
    requires cols > 0 && AllFit(before + es, cols, rows * cols)
    requires NoStray(es) && es != [] && (before == [] || |es| >= 15)
    ensures Sound(Start(rows, cols), rows * cols) && |Start(rows, cols).prev| == rows * cols
    ensures Shows(Run(Start(rows, cols), before + es).term, es[|es| - 1].cur)
  {
    StartsInSync(rows, cols);
    var s := Start(rows, cols);
    hide InSync, Shows, Step, Fits, Start;
    RunConcat(s, before, es);
    if before == [] {
      FramesShow(s, es);
    } else {
      RepairedWithinFifteen(Run(s, before), es);
    }
  }

  const X := Shown("x", DefaultColor)

  /** A one-cell console: something writes x, then n blank frames are drawn. */
  function XThenBlanks(n: nat): (es: seq<Event>)
    ensures |es| == n + 1 && AllFit(es, 1, 1)
  {
    CStrIs(BLANK.g, " ");
    [Stray(Term(1, 0, 0, DefaultColor, [X]))] + seq(n, i => Frame([BLANK]))
  }

  lemma NothingChanges(t: Term)
    ensures FlushFrom([BLANK], [BLANK], 1, 0, -1) == [] && Flushed([BLANK], [BLANK]) == [BLANK]
    ensures Receive(t, SpellAll([])) == t
  {
    hide CStr, EmitCell, Interpret;
    assert CellEq(BLANK, BLANK);
    assert FlushFrom([BLANK], [BLANK], 1, 1, -1) == [];
  }

  lemma BlankFits()
    ensures Fits(Frame([BLANK]), 1, 1) && CellOk(BLANK)
  {
    CStrIs(BLANK.g, " ");
  }

  lemma BlankFrame(frame: nat)
    requires frame < 14
    ensures var s := State(Term(1, 0, 0, DefaultColor, [X]), [BLANK], frame);
            Sound(s, 1) && Fits(Frame([BLANK]), 1, 1) && Step(s, Frame([BLANK])) == s.(frame := frame + 1)
  {
    BlankFits();
    NothingChanges(Term(1, 0, 0, DefaultColor, [X]));
    NotForced([BLANK], frame + 1);
    hide Prepared, EmitCell, Show, Marked, CStr, CellEq, Interpret, InterpretAll, Painted, Receive, FlushFrom, Flushed,
         SpellAll, Fits, CellOk, Drawable;
  }

  lemma NotForced(prev: seq<Cell>, frame: nat)
    requires frame % 15 != 0 && forall k :: 0 <= k < |prev| ==> CellOk(prev[k])
    ensures Prepared(prev, frame) == prev
  {
  }

  lemma OneBlankMore(n: nat)
    requires n > 0
    ensures XThenBlanks(n)[n] == Frame([BLANK]) && XThenBlanks(n)[..n] == XThenBlanks(n - 1)
  {
    hide AllFit;
  }

  lemma StrayFirst()
    ensures Sound(Start(1, 1), 1) && Start(1, 1).prev == [BLANK] && Start(1, 1).frame == 0 && Start(1, 1).term.cols == 1
    ensures Run(Start(1, 1), XThenBlanks(0)) == State(Term(1, 0, 0, DefaultColor, [X]), [BLANK], 0)
  {
    StartsInSync(1, 1);
    hide CStr, CellEq, Marked, Shows;
    assert Start(1, 1).prev == [BLANK];
    assert XThenBlanks(0)[..0] == [];
    assert Run(Start(1, 1), []) == Start(1, 1);
  }

  lemma {:induction false} XStays(n: nat)
    requires n <= 14
    ensures Sound(Start(1, 1), 1) && |Start(1, 1).prev| == 1
    ensures Run(Start(1, 1), XThenBlanks(n)) == State(Term(1, 0, 0, DefaultColor, [X]), [BLANK], n)
    decreases n
  {
    StrayFirst();
    hide Fits, InSync, Sound, CStr, CellEq, Marked, Start, XThenBlanks;
    if n > 0 {
      XStays(n - 1);
      BlankFrame(n - 1);
      OneBlankMore(n);
      hide Step;
    }
  }

  /** Fourteen are too few: what was written before the first frame stays while
      the frames agree with prev. */
  lemma FourteenAreTooFew()
    ensures Sound(Start(1, 1), 1) && |Start(1, 1).prev| == 1
    ensures var es := XThenBlanks(14);
            es[14] == Frame([BLANK]) && !Shows(Run(Start(1, 1), es).term, [BLANK])
  {
    XStays(14);
    CStrIs(BLANK.g, " ");
  }
}
