/** The decorative fields drawn under the map: a field of tea-leaf bit
    patterns, the speckled ground and the wooden log texture. Every random
    draw is an input: the index of a chosen candidate or glyph, or a colour
    already inside its channel ranges. */
module Fields {
  import opened Common
  import opened Rgb

  /** A rectangular grid stored row by row. */
  datatype Grid<T> = Grid(size: Size, cells: seq<T>) {
    predicate Valid() {
      |cells| == Area(size)
    }

    /** The cell at a coordinate; none outside the grid. */
    function Get(c: Coord): (r: Option<T>)
      requires Valid()
      ensures r.Some? <==> InBounds(size, c)
      ensures r.Some? ==> r.value == cells[Index(size, c)]
    {
      if InBounds(size, c) then Some(cells[Index(size, c)]) else None
    }
  }

  function Swap(c: Coord): Coord {
    Coord(c.y, c.x)
  }

  /** The grid with rows and columns exchanged. */
  function Transpose<T>(g: Grid<T>): (t: Grid<T>)
    requires g.Valid()
    ensures t.Valid() && t.size == Size(g.size.height, g.size.width)
    ensures forall c :: t.Get(c) == g.Get(Swap(c))
  {
    var ts := Size(g.size.height, g.size.width);
    var t := Grid(ts, seq(Area(ts), i requires 0 <= i < Area(ts) => g.cells[Index(g.size, Swap(CoordOfIndex(ts, i)))]));
    assert forall c :: t.Get(c) == g.Get(Swap(c)) by {
      forall c
        ensures t.Get(c) == g.Get(Swap(c))
      {
        if InBounds(ts, c) {
          IndexInjective(ts, c, CoordOfIndex(ts, Index(ts, c)));
        }
      }
    }
    t
  }

  /** Transposing twice gives the grid back. */
  lemma TransposeInvolution<T>(g: Grid<T>)
    requires g.Valid()
    ensures Transpose(Transpose(g)) == g
  {
    var t := Transpose(Transpose(g));
    forall i | 0 <= i < |g.cells|
      ensures t.cells[i] == g.cells[i]
    {
      var c := CoordOfIndex(g.size, i);
      assert t.Get(c) == g.Get(Swap(Swap(c)));
    }
  }

  // ----- Tea field -----

  /** The number of set bits. */
  function PopCount(u: nat): nat {
    if u == 0 then 0 else u % 2 + PopCount(u / 2)
  }

  /** The values below `n` with five or six set bits, in increasing order. */
  function CandidatesBelow(n: nat): (r: seq<U16>)
    requires n <= MAX_TEA + 1
    ensures forall u: nat :: u in r <==> u < n && 4 < PopCount(u) < 7
    ensures forall i :: 0 <= i < |r| ==> r[i] < n
    ensures forall i, j :: 0 <= i < j < |r| ==> r[i] < r[j]
  {
    if n == 0 then []
    else
      var prev := CandidatesBelow(n - 1);
      if 4 < PopCount(n - 1) < 7 then prev + [n - 1] else prev
  }

  predicate IsTeaCandidate(u: nat) {
    u <= MAX_TEA && 4 < PopCount(u) < 7
  }

  /** The largest value considered for a tea pattern. */
  const MAX_TEA: nat := 512

  /** The values from 0 to 512 inclusive with five or six set bits. */
  function Candidates(): seq<U16> {
    CandidatesBelow(MAX_TEA + 1)
  }

  /** The candidates are exactly the values up to 512 with five or six set
      bits, so choosing one always succeeds. */
  lemma CandidatesExact()
    ensures forall u: nat :: u in Candidates() <==> IsTeaCandidate(u)
    ensures |Candidates()| > 0
  {
    assert PopCount(31) == 5;
    assert 31 in Candidates();
  }

  datatype TeaField = TeaField(grid: Grid<U16>)

  predicate ValidTeaField(f: TeaField) {
    && f.grid.Valid()
    && forall i :: 0 <= i < |f.grid.cells| ==> IsTeaCandidate(f.grid.cells[i])
  }

  /** A tea field whose cells are the candidates chosen by `picks`, one
      index per cell in row-major order. */
  function NewTeaField(size: Size, picks: seq<nat>): (f: TeaField)
    requires |picks| == Area(size)
    requires forall i :: 0 <= i < |picks| ==> picks[i] < |Candidates()|
    ensures ValidTeaField(f) && f.grid.size == size
  {
    CandidatesExact();
    var cells := seq(Area(size), i requires 0 <= i < Area(size) => Candidates()[picks[i]]);
    assert forall i :: 0 <= i < |cells| ==> cells[i] in Candidates();
    TeaField(Grid(size, cells))
  }

  /** The tea pattern at a coordinate: none outside the field, and a
      candidate inside a well-formed one. */
  function TeaGet(f: TeaField, c: Coord): (r: Option<U16>)
    requires f.grid.Valid()
    ensures r.None? <==> !InBounds(f.grid.size, c)
    ensures ValidTeaField(f) && r.Some? ==> IsTeaCandidate(r.value)
  {
    f.grid.Get(c)
  }

  // ----- Ground field -----

  /** The channel ranges a ground colour is drawn from. */
  predicate GroundColour(c: Rgb24) {
    40 <= c.r <= 90 && 80 <= c.g <= 120 && c.b <= 30
  }

  /** The draws for one ground cell: its colour and, for a cell that is not
      a centre, the index of its glyph. */
  datatype GroundDraw = GroundDraw(colour: Rgb24, glyph: nat)

  datatype GroundCell = GroundCell(fg: Rgb24, bg: Rgb24, ch: char)

  const CENTRE_GLYPH: char := '\U{25AA}'

  const GROUND_GLYPHS: seq<char> := [' ', ' ', ' ', ' ', '`', ',', '\'', ';']

  /** The middle cell of each 3x3 block. The coordinate is signed and the
      remainder truncates, so a negative coordinate is never a centre. */
  predicate IsCentre(c: Coord) {
    c.x >= 0 && c.x % 3 == 1 && c.y >= 0 && c.y % 3 == 1
  }

  /** A centre cell shows the centre glyph in the full colour; any other
      cell shows a chosen glyph at half brightness; the background is always
      a fifth of the colour. */
  function GroundChoose(c: Coord, d: GroundDraw): (cell: GroundCell)
    requires d.glyph < |GROUND_GLYPHS|
    ensures cell.ch == CENTRE_GLYPH <==> IsCentre(c)
    ensures IsCentre(c) ==> cell.fg == d.colour
    ensures !IsCentre(c) ==> cell.fg == SaturatingScalarMulDiv(d.colour, 1, 2)
    ensures !IsCentre(c) ==> cell.ch == GROUND_GLYPHS[d.glyph]
    ensures cell.bg == SaturatingScalarMulDiv(d.colour, 1, 5)
    ensures NoDarker(cell.fg, cell.bg)
  {
    var colour := d.colour;
    if IsCentre(c) then
      GroundCell(colour, SaturatingScalarMulDiv(colour, 1, 5), CENTRE_GLYPH)
    else
      GroundCell(SaturatingScalarMulDiv(colour, 1, 2), SaturatingScalarMulDiv(colour, 1, 5), GROUND_GLYPHS[d.glyph])
  }

  /** With an in-range colour, the background is a dim green-brown and the
      foreground is brighter than it in every channel but a black blue. */
  lemma GroundCellRanges(c: Coord, d: GroundDraw)
    requires GroundColour(d.colour) && d.glyph < |GROUND_GLYPHS|
    ensures var cell := GroundChoose(c, d);
      && 8 <= cell.bg.r <= 18 && 16 <= cell.bg.g <= 24 && cell.bg.b <= 6
      && 20 <= cell.fg.r <= 90 && 40 <= cell.fg.g <= 120 && cell.fg.b <= 30
  {
  }

  datatype GroundField = GroundField(grid: Grid<GroundCell>)

  function GroundSize(size: Size): Size {
    Size(size.width * 3, size.height * 3)
  }

  /** A ground field three times the size of the map in each direction, one
      draw per cell in row-major order. */
  function NewGroundField(size: Size, draws: seq<GroundDraw>): (f: GroundField)
    requires |draws| == Area(GroundSize(size))
    requires forall i :: 0 <= i < |draws| ==> draws[i].glyph < |GROUND_GLYPHS|
    ensures f.grid.Valid() && f.grid.size == GroundSize(size)
    ensures forall c :: InBounds(GroundSize(size), c) ==>
              f.grid.Get(c) == Some(GroundChoose(c, draws[Index(GroundSize(size), c)]))
  {
    var gs := GroundSize(size);
    var g := Grid(gs, seq(Area(gs), i requires 0 <= i < Area(gs) => GroundChoose(CoordOfIndex(gs, i), draws[i])));
    assert forall c :: InBounds(gs, c) ==> g.Get(c) == Some(GroundChoose(c, draws[Index(gs, c)])) by {
      forall c | InBounds(gs, c)
        ensures g.Get(c) == Some(GroundChoose(c, draws[Index(gs, c)]))
      {
        IndexInjective(gs, c, CoordOfIndex(gs, Index(gs, c)));
      }
    }
    GroundField(g)
  }

  /** Each map cell owns a 3x3 block of the ground field, and exactly the
      middle of that block shows the centre glyph. */
  lemma GroundBlock(size: Size, draws: seq<GroundDraw>, c: Coord, offset: Coord)
    requires |draws| == Area(GroundSize(size))
    requires forall i :: 0 <= i < |draws| ==> draws[i].glyph < |GROUND_GLYPHS|
    requires InBounds(size, c) && InBounds(Size(3, 3), offset)
    ensures var g := NewGroundField(size, draws).grid;
      var b := Coord(c.x * 3 + offset.x, c.y * 3 + offset.y);
      g.Get(b).Some? && (g.Get(b).value.ch == CENTRE_GLYPH <==> offset == Coord(1, 1))
  {
    var b := Coord(c.x * 3 + offset.x, c.y * 3 + offset.y);
    assert b.x % 3 == offset.x && b.y % 3 == offset.y;
    assert InBounds(GroundSize(size), b);
  }

  // ----- Log field -----

  /** The channel ranges a log colour is drawn from. */
  predicate LogColour(c: Rgb24) {
    60 <= c.r <= 80 && 40 <= c.g <= 50 && c.b <= 20
  }

  /** The counter a row starts from: 5 on even rows, 10 on odd rows. */
  function FirstCount(y: nat): nat {
    if y % 2 == 0 then 5 else 10
  }

  /** A new colour is drawn at the start of a row and whenever the counter
      has run down to zero. */
  predicate IsRunStart(x: nat, y: nat) {
    x == 0 || (x >= FirstCount(y) + 1 && (x - FirstCount(y) - 1) % 11 == 0)
  }

  /** The counter after filling cell `x` of row `y`. */
  function CountAfter(x: nat, y: nat): nat {
    if x < FirstCount(y) + 1 then FirstCount(y) - x else 10 - (x - FirstCount(y) - 1) % 11
  }

  /** The number of colours drawn for cells 0 to `x` of row `y`. */
  function RunStarts(x: nat, y: nat): (n: nat)
    ensures 1 <= n <= x + 1
  {
    if x == 0 then 1 else RunStarts(x - 1, y) + (if IsRunStart(x, y) then 1 else 0)
  }

  /** The number of colours drawn for a whole row of width `w`. */
  function RowDraws(w: nat, y: nat): nat {
    if w == 0 then 0 else RunStarts(w - 1, y)
  }

  /** The number of colours drawn for the rows above row `y`. */
  function DrawsBefore(w: nat, y: nat): nat {
    if y == 0 then 0 else DrawsBefore(w, y - 1) + RowDraws(w, y - 1)
  }

  /** Which draw colours cell (x, y) of a grid of width `w`. */
  function DrawIndex(w: nat, x: nat, y: nat): nat {
    DrawsBefore(w, y) + RunStarts(x, y) - 1
  }

  /** The counter hits zero exactly before a run start, restarts at 10
      there and otherwise counts down. */
  lemma CountStep(x: nat, y: nat)
    requires x > 0
    ensures CountAfter(x - 1, y) == 0 <==> IsRunStart(x, y)
    ensures IsRunStart(x, y) ==> CountAfter(x, y) == 10
    ensures !IsRunStart(x, y) ==> CountAfter(x, y) == CountAfter(x - 1, y) - 1
  {
    var f := FirstCount(y);
    if x >= f + 2 {
      var m := x - f - 1;
      var q := (m - 1) / 11;
      var r := (m - 1) % 11;
      assert m - 1 == 11 * q + r;
      if r == 10 {
        assert m == 11 * (q + 1);
      } else {
        assert m == 11 * q + (r + 1);
      }
    }
  }

  /** The number of runs up to cell `x`: one, plus one for every eleven
      cells past the first run. */
  lemma {:induction false} RunStartsClosedForm(x: nat, y: nat)
    ensures RunStarts(x, y) == 1 + (if x >= FirstCount(y) + 1 then (x - FirstCount(y) - 1) / 11 + 1 else 0)
  {
    if x > 0 {
      RunStartsClosedForm(x - 1, y);
      var f := FirstCount(y);
      if x >= f + 2 {
        var m := x - f - 1;
        var q := (m - 1) / 11;
        var r := (m - 1) % 11;
        assert m - 1 == 11 * q + r;
        if r == 10 {
          assert m == 11 * (q + 1);
        } else {
          assert m == 11 * q + (r + 1);
        }
      }
    }
  }

  /** The length of the run starting at a run start: 6 or 11 cells for the
      first run of a row, 11 for every later one. */
  function RunLength(x: nat, y: nat): nat {
    if x == 0 then FirstCount(y) + 1 else 11
  }

  /** After a run start the next one comes exactly a run length later. */
  lemma NextRunStart(x: nat, y: nat)
    requires IsRunStart(x, y)
    ensures IsRunStart(x + RunLength(x, y), y)
    ensures forall i :: x < i < x + RunLength(x, y) ==> !IsRunStart(i, y)
  {
    var f := FirstCount(y);
    if x > 0 {
      var q := (x - f - 1) / 11;
      assert x - f - 1 == 11 * q;
      assert x + 11 - f - 1 == 11 * (q + 1);
      forall i | x < i < x + 11
        ensures !IsRunStart(i, y)
      {
        assert i - f - 1 == 11 * q + (i - x);
      }
    }
  }

  /** Every cell of a run shows the colour drawn at its start. */
  lemma {:induction false} RunSharesColour(w: nat, x: nat, y: nat, i: nat)
    requires IsRunStart(x, y) && x <= i < x + RunLength(x, y)
    ensures DrawIndex(w, i, y) == DrawIndex(w, x, y)
  {
    if i > x {
      RunSharesColour(w, x, y, i - 1);
      NextRunStart(x, y);
    }
  }

  /** Fills one row left to right, drawing a colour at the row start and
      whenever the counter reaches zero and reusing the current one
      otherwise; `next` is the index of the next unused draw. */
  method FillRow(w: nat, y: nat, draws: nat -> Rgb24, k: nat) returns (row: seq<Rgb24>, next: nat)
    ensures |row| == w
    ensures next == k + RowDraws(w, y)
    ensures forall x :: 0 <= x < w ==> row[x] == draws(k + RunStarts(x, y) - 1)
  {
    var currentColour := Grey(0);
    var count: nat := 0;
    next := k;
    row := [];
    var x: nat := 0;
    while x < w
      invariant x <= w && |row| == x
      invariant x == 0 ==> next == k
      invariant x > 0 ==> count == CountAfter(x - 1, y) && next == k + RunStarts(x - 1, y)
      invariant x > 0 ==> currentColour == draws(next - 1)
      invariant forall i {:trigger row[i]} :: 0 <= i < x ==> row[i] == draws(k + RunStarts(i, y) - 1)
    {
      RowStep(x, y, count);
      if x == 0 || count == 0 {
        if x == 0 && y % 2 == 0 {
          count := 5;
        } else {
          count := 10;
        }
        currentColour := draws(next);
        next := next + 1;
      } else {
        count := count - 1;
      }
      assert currentColour == draws(k + RunStarts(x, y) - 1);
      row := row + [currentColour];
      x := x + 1;
    }
  }

  /** One cell of the row fill in terms of the closed forms: the cell starts
      a run exactly when it is the first or the counter is zero, and the
      counter then becomes its closed form. */
  lemma RowStep(x: nat, y: nat, count: nat)
    requires x > 0 ==> count == CountAfter(x - 1, y)
    ensures IsRunStart(x, y) <==> x == 0 || count == 0
    ensures RunStarts(x, y) == (if x == 0 then 1 else RunStarts(x - 1, y) + (if IsRunStart(x, y) then 1 else 0))
    ensures x == 0 ==> CountAfter(x, y) == (if y % 2 == 0 then 5 else 10)
    ensures x > 0 && count == 0 ==> CountAfter(x, y) == 10
    ensures x > 0 && count != 0 ==> CountAfter(x, y) == count - 1
  {
    if x > 0 {
      CountStep(x, y);
    }
  }

  /** `cells` holds rows 0 to `y - 1` of the log texture of width `w`. */
  ghost predicate RowsFilled(cells: seq<Rgb24>, w: nat, y: nat, draws: nat -> Rgb24, k0: nat) {
    && |cells| == Area(Size(w, y))
    && forall c :: InBounds(Size(w, y), c) ==> cells[Index(Size(w, y), c)] == draws(k0 + DrawIndex(w, c.x, c.y))
  }

  /** Once every row is filled, the cells make the grid. */
  lemma FilledGrid(cells: seq<Rgb24>, size: Size, draws: nat -> Rgb24, k0: nat)
    requires RowsFilled(cells, size.width, size.height, draws, k0)
    ensures Grid(size, cells).Valid()
    ensures forall c :: InBounds(size, c) ==> Grid(size, cells).Get(c) == Some(draws(k0 + DrawIndex(size.width, c.x, c.y)))
  {
    assert Size(size.width, size.height) == size;
  }

  /** Appending row `y`, filled from the draws that follow the rows above,
      gives rows 0 to `y`. */
  lemma AppendRow(cells: seq<Rgb24>, row: seq<Rgb24>, w: nat, y: nat, draws: nat -> Rgb24, k0: nat)
    requires RowsFilled(cells, w, y, draws, k0)
    requires |row| == w
    requires forall x :: 0 <= x < w ==> row[x] == draws(k0 + DrawsBefore(w, y) + RunStarts(x, y) - 1)
    ensures RowsFilled(cells + row, w, y + 1, draws, k0)
  {
    assert Area(Size(w, y + 1)) == (y + 1) * w == y * w + w;
    forall c | InBounds(Size(w, y + 1), c)
      ensures (cells + row)[Index(Size(w, y + 1), c)] == draws(k0 + DrawIndex(w, c.x, c.y))
    {
      if c.y < y {
        IndexBound(Size(w, y), c);
        assert Index(Size(w, y + 1), c) == Index(Size(w, y), c);
      } else {
        assert Index(Size(w, y + 1), c) == y * w + c.x;
      }
    }
  }

  /** The log texture generator: a grid filled row by row where each row is
      cut into runs of one colour. Draws are taken from index `k0` on. */
  method NewHorizontal(size: Size, draws: nat -> Rgb24, k0: nat) returns (g: Grid<Rgb24>, next: nat)
    ensures g.Valid() && g.size == size
    ensures next == k0 + DrawsBefore(size.width, size.height)
    ensures forall c :: InBounds(size, c) ==> g.Get(c) == Some(draws(k0 + DrawIndex(size.width, c.x, c.y)))
  {
    var w := size.width;
    var cells: seq<Rgb24> := [];
    next := k0;
    var y: nat := 0;
    while y < size.height
      invariant y <= size.height
      invariant next == k0 + DrawsBefore(w, y)
      invariant RowsFilled(cells, w, y, draws, k0)
    {
      var row, n := FillRow(w, y, draws, next);
      AppendRow(cells, row, w, y, draws, k0);
      cells := cells + row;
      next := n;
      y := y + 1;
    }
    FilledGrid(cells, size, draws, k0);
    g := Grid(size, cells);
  }

  datatype LogField = LogField(horizontal: Grid<Rgb24>, vertical: Grid<Rgb24>)

  function HorizontalSize(size: Size): Size {
    Size(size.width * 3, size.height * 6)
  }

  function VerticalSize(size: Size): Size {
    Size(size.width * 6, size.height * 3)
  }

  /** The horizontal grain is 3w by 6h; the vertical grain is generated on
      a 3h-wide, 6w-high grid with the draws that follow and then
      transposed, so it is 6w by 3h with its runs going down the columns.
      With every draw in the log colour range, every cell is a log colour. */
  method NewLogField(size: Size, draws: nat -> Rgb24) returns (f: LogField)
    ensures f.horizontal.Valid() && f.horizontal.size == HorizontalSize(size)
    ensures f.vertical.Valid() && f.vertical.size == VerticalSize(size)
    ensures forall c :: InBounds(HorizontalSize(size), c) ==>
              f.horizontal.Get(c) == Some(draws(DrawIndex(size.width * 3, c.x, c.y)))
    ensures forall c :: InBounds(VerticalSize(size), c) ==>
              f.vertical.Get(c) == Some(draws(DrawsBefore(size.width * 3, size.height * 6) + DrawIndex(size.height * 3, c.y, c.x)))
    ensures (forall i :: LogColour(draws(i))) ==>
              && (forall c :: InBounds(HorizontalSize(size), c) ==> LogColour(f.horizontal.Get(c).value))
              && (forall c :: InBounds(VerticalSize(size), c) ==> LogColour(f.vertical.Get(c).value))
  {
    var horizontal, k := NewHorizontal(HorizontalSize(size), draws, 0);
    var vertical := NewVertical(size, draws, k);
    f := LogField(horizontal, vertical);
  }

  /** The vertical grain: generated on a 3h-wide, 6w-high grid from draw `k`
      on, then transposed. */
  method NewVertical(size: Size, draws: nat -> Rgb24, k: nat) returns (g: Grid<Rgb24>)
    ensures g.Valid() && g.size == VerticalSize(size)
    ensures forall c :: InBounds(VerticalSize(size), c) ==>
              g.Get(c) == Some(draws(k + DrawIndex(size.height * 3, c.y, c.x)))
  {
    var pre, _ := NewHorizontal(Size(size.height * 3, size.width * 6), draws, k);
    VerticalGrain(pre, size, draws, k);
    g := Transpose(pre);
  }

  /** Transposing the grain generated on the 3h by 6w grid gives the 6w by
      3h vertical grain, each cell reading its draw with the coordinates
      exchanged. */
  lemma VerticalGrain(pre: Grid<Rgb24>, size: Size, draws: nat -> Rgb24, k: nat)
    requires pre.Valid() && pre.size == Size(size.height * 3, size.width * 6)
    requires forall c :: InBounds(pre.size, c) ==> pre.Get(c) == Some(draws(k + DrawIndex(size.height * 3, c.x, c.y)))
    ensures Transpose(pre).Valid() && Transpose(pre).size == VerticalSize(size)
    ensures forall c :: InBounds(VerticalSize(size), c) ==>
              Transpose(pre).Get(c) == Some(draws(k + DrawIndex(size.height * 3, c.y, c.x)))
  {
    var t := Transpose(pre);
    forall c | InBounds(VerticalSize(size), c)
      ensures t.Get(c) == Some(draws(k + DrawIndex(size.height * 3, c.y, c.x)))
    {
      assert InBounds(pre.size, Swap(c));
    }
  }

  /** The horizontal grain colour at a coordinate; none outside the grid. */
  function GetHorizontal(f: LogField, c: Coord): (r: Option<Rgb24>)
    requires f.horizontal.Valid()
    ensures r.None? <==> !InBounds(f.horizontal.size, c)
  {
    f.horizontal.Get(c)
  }

  /** The vertical grain colour at a coordinate; none outside the grid. */
  function GetVertical(f: LogField, c: Coord): (r: Option<Rgb24>)
    requires f.vertical.Valid()
    ensures r.None? <==> !InBounds(f.vertical.size, c)
  {
    f.vertical.Get(c)
  }
}
