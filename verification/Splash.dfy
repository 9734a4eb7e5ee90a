/** splash/main.c, the text renderer: cells, the differential flush_grid and the
    forced repaint, against a terminal that interprets what is emitted. */
module Splash {
  import opened Arith
  import opened Terminal
  import opened Text

  const NUL: char := '\0'
  const MARK: char := 1 as char

  /** char g[4], a C string, and a byte for the colour; the palette has 16. */
  datatype Cell = Cell(g: string, color: nat)

  /** No writer touches the last byte of a cell with anything but a NUL. */
  predicate CellOk(x: Cell) {
    |x.g| == 4 && x.g[3] == NUL && x.color < 256
  }

  /** The bytes before the first NUL: what strcmp compares and fputs prints. */
  function CStr(g: string): (s: string)
    ensures NUL !in s && s <= g
    ensures NUL in g ==> |s| < |g| && g[|s|] == NUL
  {
    if g == "" || g[0] == NUL then "" else [g[0]] + CStr(g[1..])
  }

  predicate CellEq(a: Cell, b: Cell) {
    a.color == b.color && CStr(a.g) == CStr(b.g)
  }

  /** The first frame of a grid: calloc, then a space in each cell. */
  const BLANK := Cell([' ', NUL, NUL, NUL], 0)

  lemma {:induction false} CStrIs(g: string, s: string)
    requires NUL !in s && |s| < |g| && s <= g && g[|s|] == NUL
    ensures CStr(g) == s
  {
    if s != "" {
      CStrIs(g[1..], s[1..]);
    }
  }

  class Grid {
    const rows: nat
    const cols: nat
    const cells: array<Cell>

    ghost predicate Valid()
      reads this, cells
    {
      cells.Length == rows * cols && forall i :: 0 <= i < cells.Length ==> CellOk(cells[i])
    }

    constructor (r: nat, c: nat)
      ensures Valid() && rows == r && cols == c && fresh(cells)
      ensures forall i :: 0 <= i < cells.Length ==> cells[i] == BLANK
    {
      MulMonotone(0, r, c);
      rows, cols := r, c;
      cells := new Cell[r * c](_ => BLANK);
    }

    /** g_clear: every cell a space in the default colour; the bytes after the
        new NUL keep what they held. */
    method Clear()
      requires Valid()
      modifies cells
      ensures Valid()
      ensures forall i :: 0 <= i < cells.Length ==> CStr(cells[i].g) == " " && cells[i].color == 0
    {
      for i := 0 to cells.Length
        invariant Valid()
        invariant forall k :: 0 <= k < i ==> CStr(cells[k].g) == " " && cells[k].color == 0
      {
        cells[i] := Cell(cells[i].g[0 := ' '][1 := NUL], 0);
        CStrIs(cells[i].g, " ");
      }
    }

    /** g_set: outside the grid nothing; inside, the cell reads as the first
        three bytes of s at most, in the colour given. */
    method Set(r: int, c: int, s: string, col: nat)
      requires Valid() && NUL !in s && col < 256
      modifies cells
      ensures Valid()
      ensures var inside := 0 <= r < rows && 0 <= c < cols;
              forall i :: 0 <= i < cells.Length ==>
                if inside && i == r * cols + c then
                  CStr(cells[i].g) == (if |s| < 3 then s else s[..3]) && cells[i].color == col
                else cells[i] == old(cells[i])
    {
      if r < 0 || r >= rows || c < 0 || c >= cols { return; }
      InGrid(r, c, rows, cols);
      var at := r * cols + c;
      var g := cells[at].g;
      var i := 0;
      while i < 3 && i < |s|
        invariant 0 <= i <= 3 && i <= |s| && |g| == 4 && g[3] == NUL
        invariant g[..i] == s[..i]
      {
        g := g[i := s[i]];
        i := i + 1;
      }
      g := g[i := NUL];
      assert s[..i] <= g;
      CStrIs(g, s[..i]);
      cells[at] := Cell(g, col);
    }

    /** The periodic step of text_run: no cell of this grid equals a cell whose
        text starts otherwise. */
    method ForceRepaint()
      requires Valid()
      modifies cells
      ensures Valid()
      ensures cells[..] == Marked(old(cells[..]))
    {
      for i := 0 to cells.Length
        invariant Valid()
        invariant forall k :: 0 <= k < i ==> cells[k] == MarkedCell(old(cells[k]))
        invariant forall k :: i <= k < cells.Length ==> cells[k] == old(cells[k])
      {
        cells[i] := MarkedCell(cells[i]);
      }
    }
  }

  lemma InGrid(r: int, c: int, rows: nat, cols: nat)
    requires 0 <= r < rows && 0 <= c < cols
    ensures 0 <= r * cols + c < rows * cols
  {
    MulMonotone(0, r, cols);
    MulMonotone(r + 1, rows, cols);
    assert (r + 1) * cols == r * cols + cols;
  }

  function MarkedCell(x: Cell): Cell
    requires |x.g| == 4
  {
    x.(g := x.g[0 := MARK])
  }

  function Marked(cells: seq<Cell>): seq<Cell>
    requires forall i :: 0 <= i < |cells| ==> |cells[i].g| == 4
  {
    seq(|cells|, i requires 0 <= i < |cells| => MarkedCell(cells[i]))
  }

  /** The bytes written for a cell's text. */
  function ShownText(x: Cell): (s: string)
    ensures s != ""
  {
    if CStr(x.g) == "" then " " else CStr(x.g)
  }

  /** What a terminal shows for a cell. */
  function Show(x: Cell): Shown {
    Shown(ShownText(x), if x.color == 0 then DefaultColor else Fg(x.color))
  }

  // ---------------------------------------------------------------------
  // flush_grid
  // ---------------------------------------------------------------------

  /** The rendition parameters for a colour. */
  function ColorParams(w: nat): seq<nat> {
    if w == 0 then [0] else [0, if w < 8 then 30 + w else 90 + (w - 8)]
  }

  /** What one changed cell at position i emits; sgr is the colour set last in
      this flush, or -1. */
  function EmitCell(i: nat, cols: nat, x: Cell, sgr: int): seq<Emit>
    requires cols > 0
  {
    [Csi([i / cols + 1, i % cols + 1], 'H')]
    + (if x.color != sgr then [Csi(ColorParams(x.color), 'm')] else [])
    + [Glyph(ShownText(x))]
  }

  function FlushFrom(cur: seq<Cell>, prev: seq<Cell>, cols: nat, i: nat, sgr: int): seq<Emit>
    requires |cur| == |prev| && cols > 0 && i <= |cur|
    decreases |cur| - i
  {
    if i == |cur| then []
    else if CellEq(cur[i], prev[i]) then FlushFrom(cur, prev, cols, i + 1, sgr)
    else EmitCell(i, cols, cur[i], sgr) + FlushFrom(cur, prev, cols, i + 1, cur[i].color)
  }

  /** A cell of prev after a flush: a changed cell is copied. */
  function FlushedCell(a: Cell, b: Cell): Cell {
    if CellEq(a, b) then b else a
  }

  function Flushed(cur: seq<Cell>, prev: seq<Cell>): (p: seq<Cell>)
    requires |cur| == |prev|
    ensures |p| == |cur|
  {
    seq(|cur|, i requires 0 <= i < |cur| => FlushedCell(cur[i], prev[i]))
  }

  /** The first n cells are flushed, the others as they were. */
  predicate FlushedTo(p: seq<Cell>, cur: seq<Cell>, prev: seq<Cell>, n: nat) {
    |p| == |cur| == |prev|
    && (forall k :: 0 <= k < |p| ==> p[k] == if k < n then FlushedCell(cur[k], prev[k]) else prev[k])
  }

  /** out and the flush of the cells from n on make up the whole flush. */
  predicate EmittedTo(out: string, sgr: int, cur: seq<Cell>, prev: seq<Cell>, cols: nat, n: nat) {
    |cur| == |prev| && cols > 0 && n <= |cur|
    && out + SpellAll(FlushFrom(cur, prev, cols, n, sgr)) == SpellAll(FlushFrom(cur, prev, cols, 0, -1))
  }

  lemma CellSkipped(p: seq<Cell>, out: string, sgr: int, cur: seq<Cell>, prev: seq<Cell>, cols: nat, n: nat)
    requires FlushedTo(p, cur, prev, n) && EmittedTo(out, sgr, cur, prev, cols, n)
    requires n < |cur| && CellEq(cur[n], p[n])
    ensures FlushedTo(p, cur, prev, n + 1) && EmittedTo(out, sgr, cur, prev, cols, n + 1)
  {}

  lemma CellEmitted(p: seq<Cell>, so: string, out: string, sgr: int, cur: seq<Cell>, prev: seq<Cell>,
                    cols: nat, r: nat, c: nat, n: nat)
    requires FlushedTo(p, cur, prev, n) && EmittedTo(so, sgr, cur, prev, cols, n)
    requires c < cols && n == r * cols + c && n < |cur| && !CellEq(cur[n], p[n])
    requires out == so + Position(r, c) + (if cur[n].color != sgr then ColorBytes(cur[n].color) else "")
                    + ShownText(cur[n])
    ensures FlushedTo(p[n := cur[n]], cur, prev, n + 1)
    ensures EmittedTo(out, cur[n].color, cur, prev, cols, n + 1)
  {
    DivModUnique(n, r, c, cols);
    CellBytes(n, cols, cur[n], sgr);
    hide CellEq, CStr, ColorParams, SpellAll, Position, ColorBytes, EmitCell, ShownText;
    var e := EmitCell(n, cols, cur[n], sgr);
    var rest := FlushFrom(cur, prev, cols, n + 1, cur[n].color);
    SpellConcat(e, rest);
    Regroup(so, Position(r, c), if cur[n].color != sgr then ColorBytes(cur[n].color) else "", ShownText(cur[n]));
    Assoc(so, SpellAll(e), SpellAll(rest));
  }

  /** The bytes flush_grid writes for a changed cell are those of EmitCell. */
  lemma CellBytes(n: nat, cols: nat, x: Cell, sgr: int)
    requires cols > 0
    ensures SpellAll(EmitCell(n, cols, x, sgr))
         == Position(n / cols, n % cols) + (if x.color != sgr then ColorBytes(x.color) else "") + ShownText(x)
  {
    var at, sg, text := Csi([n / cols + 1, n % cols + 1], 'H'), Csi(ColorParams(x.color), 'm'), Glyph(ShownText(x));
    SpellPair(n / cols + 1, n % cols + 1);
    if x.color != 0 { SpellPair(0, sg.params[1]); }
    assert Spell(at) == Position(n / cols, n % cols);
    assert Spell(sg) == ColorBytes(x.color);
    hide Position, ColorBytes, ColorParams, ShownText, Spell;
    assert Spell(text) == ShownText(x) by { SpellGlyph(ShownText(x)); }
    if x.color != sgr {
      SpellThree(at, sg, text);
    } else {
      SpellTwo(at, text);
    }
  }

  lemma SpellGlyph(text: string)
    ensures Spell(Glyph(text)) == text
  {}

  lemma SpellPair(a: nat, b: nat)
    ensures SpellParams([a, b]) == Decimal(a) + ";" + Decimal(b)
    ensures Decimal(0) == "0"
  {
    assert [a, b][1..] == [b];
    assert SpellParams([b]) == Decimal(b);
  }

  lemma SpellOne(a: Emit)
    ensures SpellAll([a]) == Spell(a) && SpellAll([]) == ""
  {
    assert SpellAll([a]) == Spell([a][0]) + SpellAll([a][1..]);
  }

  lemma SpellTwo(a: Emit, b: Emit)
    ensures SpellAll([a] + [] + [b]) == Spell(a) + "" + Spell(b)
  {
    SpellConcat([a] + [], [b]);
    SpellConcat([a], []);
    SpellOne(a);
    SpellOne(b);
  }

  lemma SpellThree(a: Emit, b: Emit, c: Emit)
    ensures SpellAll([a] + [b] + [c]) == Spell(a) + Spell(b) + Spell(c)
  {
    SpellConcat([a] + [b], [c]);
    SpellConcat([a], [b]);
    SpellOne(a);
    SpellOne(b);
    SpellOne(c);
  }

  /** printf("\033[%d;%dH", r + 1, c + 1). */
  function Position(r: nat, c: nat): string {
    [ESC, '['] + (Decimal(r + 1) + ";" + Decimal(c + 1)) + "H"
  }

  function ColorBytes(w: nat): string {
    if w == 0 then [ESC, '['] + "0" + "m"
    else [ESC, '['] + ("0;" + Decimal(if w < 8 then 30 + w else 90 + (w - 8))) + "m"
  }

  method FlushGrid(cur: Grid, prev: Grid) returns (out: string)
    requires cur.Valid() && prev.Valid() && cur.cells != prev.cells
    requires cur.rows == prev.rows && cur.cols == prev.cols > 0
    modifies prev.cells
    ensures prev.Valid()
    ensures out == SpellAll(FlushFrom(cur.cells[..], old(prev.cells[..]), cur.cols, 0, -1))
    ensures prev.cells[..] == Flushed(cur.cells[..], old(prev.cells[..]))
  {
    hide CellEq, EmitCell, CStr, FlushFrom, FlushedTo, FlushedCell, EmittedTo, SpellAll;
    ghost var c0, p0 := cur.cells[..], prev.cells[..];
    var cols := cur.cols;
    out := "";
    var sgr: int := -1;
    FlushStart(c0, p0, cols);
    for r := 0 to cur.rows
      invariant 0 <= r * cols <= |c0| && prev.Valid()
      invariant FlushedTo(prev.cells[..], c0, p0, r * cols)
      invariant EmittedTo(out, sgr, c0, p0, cols, r * cols)
    {
      MulMonotone(r + 1, cur.rows, cols);
      assert (r + 1) * cols == r * cols + cols;
      for c := 0 to cols
        invariant prev.Valid()
        invariant FlushedTo(prev.cells[..], c0, p0, r * cols + c)
        invariant EmittedTo(out, sgr, c0, p0, cols, r * cols + c)
      {
        var i := r * cols + c;
        var a, b := cur.cells[i], prev.cells[i];
        ghost var p, so, was := prev.cells[..], out, sgr;
        if CellEq(a, b) {
          CellSkipped(p, out, sgr, c0, p0, cols, i);
          continue;
        }
        out := out + Position(r, c);
        if a.color != sgr {
          out := out + ColorBytes(a.color);
          sgr := a.color;
        }
        out := out + ShownText(a);
        prev.cells[i] := a;
        CellEmitted(p, so, out, was, c0, p0, cols, r, c, i);
        assert prev.cells[..] == p[i := a];
      }
    }
    FlushDone(prev.cells[..], out, sgr, c0, p0, cols);
  }

  lemma FlushStart(cur: seq<Cell>, prev: seq<Cell>, cols: nat)
    requires |cur| == |prev| && cols > 0
    ensures FlushedTo(prev, cur, prev, 0) && EmittedTo("", -1, cur, prev, cols, 0)
  {}

  lemma FlushDone(p: seq<Cell>, out: string, sgr: int, cur: seq<Cell>, prev: seq<Cell>, cols: nat)
    requires FlushedTo(p, cur, prev, |cur|) && EmittedTo(out, sgr, cur, prev, cols, |cur|)
    ensures p == Flushed(cur, prev) && out == SpellAll(FlushFrom(cur, prev, cols, 0, -1))
  {}
}
