/** The integer arithmetic of the curses front end (src/main-gcu.c): how the
    screen is split among up to six terms, the `27,15,*` size-list parser,
    the colour-cube index and the folding of curses key codes. */
module Gcu {

  /** MAX_TERM_DATA: the most terms the front end drives. */
  const MaxTermData := 6
  /** The smallest main term, and the size at which a subterm is comfortable. */
  const MinTerm0Lines := 24
  const MinTerm0Cols := 80
  const ComfySubtermLines := 5
  const ComfySubtermCols := 40

  /** C's `/` on `int`: the quotient is truncated toward zero. */
  function CDiv(a: int, b: int): (q: int)
    requires b > 0
    ensures a >= 0 ==> q == a / b
    ensures a < 0 ==> q == -((-a) / b)
  {
    if a >= 0 then a / b else -((-a) / b)
  }

  function Max(a: int, b: int): int { if a >= b then a else b }
  function Min(a: int, b: int): int { if a <= b then a else b }

  // ---------------------------------------------------------------------
  // balance_dimension
  // ---------------------------------------------------------------------

  /** Where a group of terms sits along one dimension: `start` is its first
      row or column, `size` how many it has. */
  datatype Span = Span(size: int, start: int)

  /** balance_dimension: the span of group `index` out of `count` groups
      along a dimension of `window` cells. Group 0 is the main term, group
      count-1 the outer subterm, the others middle subterms; one cell
      separates neighbours. */
  function Balance(index: int, count: int, window: int, minTerm0: int, comfy: int): (r: Span)
    requires 0 <= index < count
    ensures index == 0 ==> r.start == 0 && r.size >= minTerm0
    ensures 0 < index == count - 1 ==> r.start + r.size == window
    ensures 0 < index < count - 1 ==> r.start == Balance(0, count, window, minTerm0, comfy).size + 1
  {
    var sub := count - 1;
    if index == 0 then
      Span(Max(minTerm0, window - sub * (minTerm0 + 1)), 0)
    else if index == count - 1 then
      var size :=
        if window <= minTerm0 + sub * (comfy + 1) then
          var down := CDiv(window - minTerm0 - sub, sub);
          if window > minTerm0 + sub + down * sub then down + 1 else down
        else
          Min(minTerm0, window - minTerm0 - comfy * (sub - 1) - sub);
      Span(size, window - size)
    else
      var size :=
        if window <= sub * (minTerm0 + 1) + comfy then
          Min(comfy, CDiv(window - minTerm0 - sub, sub))
        else
          Min(minTerm0, window - sub * (minTerm0 + 1));
      Span(size, 1 + Max(minTerm0, window - sub * (minTerm0 + 1)))
  }

  /** The last cell of a span, plus one. */
  function End(s: Span): int { s.start + s.size }

  /** With one, two or three groups and a window the guard of
      get_gcu_term_size accepts (room for the main term and one separator
      per extra group), the groups tile the window: group 0 starts at 0,
      each group starts one cell after the previous one ends, the last one
      ends at the window's edge, and no group is empty. */
  lemma BalanceTiles(count: int, window: int, minTerm0: int, comfy: int)
    requires 1 <= count <= 3 && 1 <= comfy < minTerm0
    requires window >= minTerm0 + 2 * (count - 1)
    ensures Balance(0, count, window, minTerm0, comfy).start == 0
    ensures forall k :: 0 <= k < count ==> Balance(k, count, window, minTerm0, comfy).size >= 1
    ensures forall k :: 0 <= k < count - 1 ==>
              End(Balance(k, count, window, minTerm0, comfy)) + 1 == Balance(k + 1, count, window, minTerm0, comfy).start
    ensures End(Balance(count - 1, count, window, minTerm0, comfy)) == window
  {
    if count == 3 {
      ThreeGroupsTile(window, minTerm0, comfy);
    } else if count == 2 {
      TwoGroupsLeaveOneSeparator(window, minTerm0, comfy);
    }
  }

  /** Three groups: the outer subterm grows first, then the middle one, then
      the main term, and together with two separators they fill the window. */
  lemma ThreeGroupsTile(window: int, minTerm0: int, comfy: int)
    requires 1 <= comfy < minTerm0 && window >= minTerm0 + 4
    ensures var main, mid, outer := Balance(0, 3, window, minTerm0, comfy), Balance(1, 3, window, minTerm0, comfy),
                                    Balance(2, 3, window, minTerm0, comfy);
            && main.size >= 1 && mid.size >= 1 && outer.size >= 1
            && End(main) + 1 == mid.start && End(mid) + 1 == outer.start && End(outer) == window
  {
    var d := window - minTerm0 - 2;
    assert CDiv(d, 2) == d / 2;
    if window <= minTerm0 + 2 * (comfy + 1) {
      assert Balance(1, 3, window, minTerm0, comfy).size == d / 2;
      assert Balance(2, 3, window, minTerm0, comfy).size == d - d / 2;
    }
  }

  /** With two groups and a comfortable size below the main term's
      minimum, the main term, one separator and the subterm always add up
      to the window, whatever its size. */
  lemma TwoGroupsLeaveOneSeparator(window: int, minTerm0: int, comfy: int)
    requires comfy < minTerm0
    ensures Balance(0, 2, window, minTerm0, comfy).size + 1 + Balance(1, 2, window, minTerm0, comfy).size == window
    ensures Balance(1, 2, window, minTerm0, comfy).start == Balance(0, 2, window, minTerm0, comfy).size + 1
  {
    assert CDiv(window - minTerm0 - 1, 1) == window - minTerm0 - 1;
  }

  // ---------------------------------------------------------------------
  // get_gcu_term_size: the grid of terms
  // ---------------------------------------------------------------------

  function Pronic(s: int): int { s * (s + 1) }
  function Square(s: int): int { s * s }

  /** The least r >= from with r * (r + 1) >= n. */
  function PronicRoot(n: int, from: nat): (r: nat)
    requires from >= 1
    ensures r >= from && Pronic(r) >= n
    ensures forall s :: from <= s < r ==> Pronic(s) < n
    decreases Max(n - from, 0)
  {
    if from * (from + 1) >= n then from else PronicRoot(n, from + 1)
  }

  /** The least r >= from with r * r >= n. */
  function SquareRoot(n: int, from: nat): (r: nat)
    requires from >= 1
    ensures r >= from && Square(r) >= n
    ensures forall s :: from <= s < r ==> Square(s) < n
    decreases Max(n - from, 0)
  {
    if from * from >= n then from else SquareRoot(n, from + 1)
  }

  /** The grid of terms for n terms: on a wide screen one more column than
      rows when n is not a square, on a tall one the reverse; three terms
      always sit in a single row (wide) or column (tall). */
  datatype Grid = Grid(rows: nat, cols: nat)

  function GridFor(n: int, wide: bool): (g: Grid)
    ensures g.rows >= 1 && g.cols >= 1
  {
    if n == 3 then (if wide then Grid(1, 3) else Grid(3, 1))
    else if wide then Grid(PronicRoot(n, 1), SquareRoot(n, 1))
    else Grid(SquareRoot(n, 1), PronicRoot(n, 1))
  }

  /** The two counting loops of get_gcu_term_size and the three-term
      special case. */
  method GridShape(n: int, wide: bool) returns (rows: nat, cols: nat)
    ensures Grid(rows, cols) == GridFor(n, wide)
  {
    rows, cols := 1, 1;
    if wide {
      while rows * (rows + 1) < n
        invariant 1 <= rows && PronicRoot(n, 1) == PronicRoot(n, rows)
        decreases n - rows
      {
        rows := rows + 1;
      }
      while cols * cols < n
        invariant 1 <= cols && SquareRoot(n, 1) == SquareRoot(n, cols)
        decreases n - cols
      {
        cols := cols + 1;
      }
      if n == 3 {
        rows, cols := 1, 3;
      }
    } else {
      while rows * rows < n
        invariant 1 <= rows && SquareRoot(n, 1) == SquareRoot(n, rows)
        decreases n - rows
      {
        rows := rows + 1;
      }
      while cols * (cols + 1) < n
        invariant 1 <= cols && PronicRoot(n, 1) == PronicRoot(n, cols)
        decreases n - cols
      {
        cols := cols + 1;
      }
      if n == 3 {
        rows, cols := 3, 1;
      }
    }
  }

  /** The least pronic root is the least square root or one less. */
  lemma RootsClose(n: int)
    requires n >= 1
    ensures SquareRoot(n, 1) - 1 <= PronicRoot(n, 1) <= SquareRoot(n, 1)
  {
    var c, r := SquareRoot(n, 1), PronicRoot(n, 1);
    assert Pronic(c) >= Square(c) >= n;
    if c >= 2 {
      assert Square(c - 1) < n;
      MulMono(r, r + 1, c - 1, c - 1);
    }
  }

  /** a * b <= c * d for smaller factors. */
  lemma MulMono(a: nat, b: nat, c: nat, d: nat)
    ensures a <= c && b <= d ==> a * b <= c * d
  {
    if a <= c && b <= d {
      assert a * b <= c * b;
      assert c * b <= c * d;
    }
  }

  /** Enough cells for every term: rows * cols >= n for every n >= 1. With
      at most MAX_TERM_DATA terms, neither dimension has more than three
      groups. */
  lemma GridCovers(n: int, wide: bool)
    requires n >= 1
    ensures GridFor(n, wide).rows * GridFor(n, wide).cols >= n
    ensures n <= MaxTermData ==> GridFor(n, wide).rows <= 3 && GridFor(n, wide).cols <= 3
  {
    if n != 3 {
      RootsClose(n);
      var c, r := SquareRoot(n, 1), PronicRoot(n, 1);
      if r == c {
        assert r * c == c * c;
      } else {
        assert c == r + 1;
      }
      if n <= MaxTermData {
        assert 3 * 3 >= n && 2 * 3 >= n;
        assert c <= 3 && r <= 2;
      }
    }
  }

  /** The grid cell of term i: (row, column). */
  datatype Cell = Cell(row: int, col: int)

  function CellOf(i: nat, g: Grid, wide: bool): Cell
    requires g.rows >= 1 && g.cols >= 1
  {
    if wide then Cell(i / g.cols, i % g.cols) else Cell(i % g.rows, i / g.rows)
  }

  /** Each term below n gets a cell inside the grid, and different terms
      get different cells. */
  lemma CellsDistinct(n: int, wide: bool, i: nat, j: nat)
    requires n >= 1 && i < n && j < n
    ensures var g := GridFor(n, wide);
            0 <= CellOf(i, g, wide).row < g.rows && 0 <= CellOf(i, g, wide).col < g.cols
    ensures i != j ==> CellOf(i, GridFor(n, wide), wide) != CellOf(j, GridFor(n, wide), wide)
  {
    GridCovers(n, wide);
    CellsOfGrid(GridFor(n, wide), wide, i, j);
  }

  lemma CellsOfGrid(g: Grid, wide: bool, i: nat, j: nat)
    requires g.rows >= 1 && g.cols >= 1 && i < g.rows * g.cols && j < g.rows * g.cols
    ensures 0 <= CellOf(i, g, wide).row < g.rows && 0 <= CellOf(i, g, wide).col < g.cols
    ensures i != j ==> CellOf(i, g, wide) != CellOf(j, g, wide)
  {
    var r, c := g.rows, g.cols;
    if wide {
      DivBound(i, r, c);
      DivModInjective(i, j, c);
      assert CellOf(i, g, wide) == Cell(i / c, i % c) && CellOf(j, g, wide) == Cell(j / c, j % c);
    } else {
      MulComm(r, c);
      DivBound(i, c, r);
      DivModInjective(i, j, r);
      assert CellOf(i, g, wide) == Cell(i % r, i / r) && CellOf(j, g, wide) == Cell(j % r, j / r);
    }
  }

  lemma MulComm(a: int, b: int)
    ensures a * b == b * a
  {
  }

  /** Numbering the cells of an m x d grid row by row: each number below
      m * d has its row below m. */
  lemma DivBound(i: nat, m: nat, d: nat)
    requires d >= 1 && i < m * d
    ensures i / d < m
  {
    assert (i / d) * d <= i;
    MulMono(m, d, i / d, d);
  }

  /** Two naturals with the same quotient and remainder are equal. */
  lemma DivModInjective(i: nat, j: nat, d: nat)
    requires d >= 1
    ensures i / d == j / d && i % d == j % d ==> i == j
  {
    assert i == (i / d) * d + i % d;
    assert j == (j / d) * d + j % d;
  }

  /** The quotient and remainder of v by d are the only q and m with
      v == d * q + m and 0 <= m < d. */
  lemma ModUnique(v: int, d: int, q: int, m: int)
    requires d >= 1 && 0 <= m < d && v == d * q + m
    ensures v / d == q && v % d == m
  {
    var q', m' := v / d, v % d;
    assert v == d * q' + m';
    var k := q - q';
    assert d * k == m' - m;
    MulBounds(d, k);
  }

  lemma {:induction false} MulBounds(d: int, k: int)
    requires d >= 0
    ensures k >= 1 ==> d * k >= d
    ensures k <= -1 ==> d * k <= -d
    decreases if k >= 0 then k else -k
  {
    if k > 1 {
      MulBounds(d, k - 1);
      assert d * k == d * (k - 1) + d;
    } else if k < -1 {
      MulBounds(d, k + 1);
      assert d * k == d * (k + 1) - d;
    }
  }

  /** A term's place on the screen: rows and columns, top row and left
      column. */
  datatype Rect = Rect(rows: int, cols: int, y: int, x: int)

  /** The guard of get_gcu_term_size: room for the main term plus two
      cells (a separator and at least one line) per extra group. */
  predicate Fits(lines: int, columns: int, g: Grid)
  {
    lines >= MinTerm0Lines + 2 * (g.rows - 1) && columns >= MinTerm0Cols + 2 * (g.cols - 1)
  }

  /** The screen is wide when its width is more than 10/3 of its height. */
  predicate Wide(lines: int, columns: int) { 10 * lines < 3 * columns }

  /** Where term i of n goes. When the grid does not fit, every term is
      given the whole screen as if it were the only one. */
  function TermRect(lines: int, columns: int, n: int, i: nat): Rect
    requires i < n
  {
    var wide := Wide(lines, columns);
    var g := GridFor(n, wide);
    if Fits(lines, columns, g) then
      var c := CellOf(i, g, wide);
      GridCovers(n, wide);
      CellsDistinct(n, wide, i, i);
      var h := Balance(c.col, g.cols, columns, MinTerm0Cols, ComfySubtermCols);
      var v := Balance(c.row, g.rows, lines, MinTerm0Lines, ComfySubtermLines);
      Rect(v.size, h.size, v.start, h.start)
    else
      var h := Balance(0, 1, columns, MinTerm0Cols, ComfySubtermCols);
      var v := Balance(0, 1, lines, MinTerm0Lines, ComfySubtermLines);
      Rect(v.size, h.size, v.start, h.start)
  }

  /** Two spans of the same tiling, of different groups, are apart. */
  lemma TiledApart(count: int, window: int, minTerm0: int, comfy: int, a: int, b: int)
    requires 1 <= count <= 3 && 1 <= comfy < minTerm0
    requires window >= minTerm0 + 2 * (count - 1)
    requires 0 <= a < b < count
    ensures End(Balance(a, count, window, minTerm0, comfy)) < Balance(b, count, window, minTerm0, comfy).start
  {
    BalanceTiles(count, window, minTerm0, comfy);
    if b == a + 2 {
      assert End(Balance(a + 1, count, window, minTerm0, comfy)) < Balance(b, count, window, minTerm0, comfy).start;
    }
  }

  /** Every group of a tiling lies inside the window. */
  lemma TiledInside(count: int, window: int, minTerm0: int, comfy: int, a: int)
    requires 1 <= count <= 3 && 1 <= comfy < minTerm0
    requires window >= minTerm0 + 2 * (count - 1)
    requires 0 <= a < count
    ensures 0 <= Balance(a, count, window, minTerm0, comfy).start
    ensures End(Balance(a, count, window, minTerm0, comfy)) <= window
  {
    BalanceTiles(count, window, minTerm0, comfy);
    if a < count - 1 {
      TiledApart(count, window, minTerm0, comfy, a, count - 1);
    }
    if a > 0 {
      TiledApart(count, window, minTerm0, comfy, 0, a);
    }
  }

  /** When the grid fits, every term of at most MAX_TERM_DATA lies on the
      screen, is not empty, and does not overlap any other term. */
  lemma TermsTile(lines: int, columns: int, n: int, i: nat, j: nat)
    requires 1 <= n <= MaxTermData && i < n && j < n
    requires Fits(lines, columns, GridFor(n, Wide(lines, columns)))
    ensures var r := TermRect(lines, columns, n, i);
            0 <= r.y && r.rows >= 1 && r.y + r.rows <= lines && 0 <= r.x && r.cols >= 1 && r.x + r.cols <= columns
    ensures i != j ==>
              var r, s := TermRect(lines, columns, n, i), TermRect(lines, columns, n, j);
              r.y + r.rows < s.y || s.y + s.rows < r.y || r.x + r.cols < s.x || s.x + s.cols < r.x
  {
    var wide := Wide(lines, columns);
    var g := GridFor(n, wide);
    GridCovers(n, wide);
    CellsDistinct(n, wide, i, j);
    CellsDistinct(n, wide, j, i);
    var ci, cj := CellOf(i, g, wide), CellOf(j, g, wide);
    assert TermRect(lines, columns, n, i)
        == Rect(Balance(ci.row, g.rows, lines, MinTerm0Lines, ComfySubtermLines).size,
                Balance(ci.col, g.cols, columns, MinTerm0Cols, ComfySubtermCols).size,
                Balance(ci.row, g.rows, lines, MinTerm0Lines, ComfySubtermLines).start,
                Balance(ci.col, g.cols, columns, MinTerm0Cols, ComfySubtermCols).start);
    assert TermRect(lines, columns, n, j)
        == Rect(Balance(cj.row, g.rows, lines, MinTerm0Lines, ComfySubtermLines).size,
                Balance(cj.col, g.cols, columns, MinTerm0Cols, ComfySubtermCols).size,
                Balance(cj.row, g.rows, lines, MinTerm0Lines, ComfySubtermLines).start,
                Balance(cj.col, g.cols, columns, MinTerm0Cols, ComfySubtermCols).start);
    BalanceTiles(g.cols, columns, MinTerm0Cols, ComfySubtermCols);
    BalanceTiles(g.rows, lines, MinTerm0Lines, ComfySubtermLines);
    TiledInside(g.cols, columns, MinTerm0Cols, ComfySubtermCols, ci.col);
    TiledInside(g.rows, lines, MinTerm0Lines, ComfySubtermLines, ci.row);
    if i != j {
      if ci.col < cj.col {
        TiledApart(g.cols, columns, MinTerm0Cols, ComfySubtermCols, ci.col, cj.col);
      } else if cj.col < ci.col {
        TiledApart(g.cols, columns, MinTerm0Cols, ComfySubtermCols, cj.col, ci.col);
      } else if ci.row < cj.row {
        TiledApart(g.rows, lines, MinTerm0Lines, ComfySubtermLines, ci.row, cj.row);
      } else {
        TiledApart(g.rows, lines, MinTerm0Lines, ComfySubtermLines, cj.row, ci.row);
      }
    }
  }

  /** The screen as the front end sees it: LINES, COLS and the number of
      terms, which get_gcu_term_size drops to one when they do not fit. */
  class Screen {
    const lines: int
    const columns: int
    var termCount: int

    constructor (lines: int, columns: int, termCount: int)
      ensures this.lines == lines && this.columns == columns && this.termCount == termCount
    {
      this.lines, this.columns, this.termCount := lines, columns, termCount;
    }

    /** get_gcu_term_size: the place of term i; when the grid does not fit
        the screen, term_count falls to 1. */
    method GetTermSize(i: int) returns (rows: int, cols: int, y: int, x: int)
      requires 0 <= i < termCount
      modifies this
      ensures Rect(rows, cols, y, x) == TermRect(lines, columns, old(termCount), i)
      ensures termCount == if Fits(lines, columns, GridFor(old(termCount), Wide(lines, columns))) then old(termCount) else 1
    {
      var wide := 10 * lines < 3 * columns;
      var termRows, termCols := GridShape(termCount, wide);
      GridCovers(termCount, wide);
      CellsDistinct(termCount, wide, i, i);
      var rowIndex, colIndex;
      if wide {
        colIndex := i % termCols;
        rowIndex := i / termCols;
      } else {
        colIndex := i / termRows;
        rowIndex := i % termRows;
      }
      if lines < MinTerm0Lines + 2 * (termRows - 1) || columns < MinTerm0Cols + 2 * (termCols - 1) {
        termRows, termCols, termCount := 1, 1, 1;
        colIndex, rowIndex := 0, 0;
      }
      var h := Balance(colIndex, termCols, columns, MinTerm0Cols, ComfySubtermCols);
      var v := Balance(rowIndex, termRows, lines, MinTerm0Lines, ComfySubtermLines);
      cols, x := h.size, h.start;
      rows, y := v.size, v.start;
    }
  }

  /** When the grid does not fit, the term gets the whole screen, or the
      main term's minimum where the screen is smaller than that. */
  lemma FallbackIsWholeScreen(lines: int, columns: int, n: int, i: nat)
    requires i < n && !Fits(lines, columns, GridFor(n, Wide(lines, columns)))
    ensures TermRect(lines, columns, n, i) == Rect(Max(MinTerm0Lines, lines), Max(MinTerm0Cols, columns), 0, 0)
  {
  }

  // ---------------------------------------------------------------------
  // init_gcu: the -n option
  // ---------------------------------------------------------------------

  /** The number of terms asked for with -n, clamped to 1..MAX_TERM_DATA. */
  function ClampTermCount(asked: int): (n: int)
    ensures 1 <= n <= MaxTermData
    ensures 1 <= asked <= MaxTermData ==> n == asked
    ensures asked > MaxTermData ==> n == MaxTermData
    ensures asked < 1 ==> n == 1
  {
    if asked > MaxTermData then MaxTermData else if asked < 1 then 1 else asked
  }

  // ---------------------------------------------------------------------
  // _parse_size_list
  // ---------------------------------------------------------------------

  /** The character at position p of a C string: NUL past the end. */
  function At(s: seq<char>, p: int): char
  {
    if 0 <= p < |s| then s[p] else '\0'
  }

  predicate IsDigit(c: char) { '0' <= c <= '9' }

  predicate IsSpace(c: char) { c == ' ' || c == '\t' || c == '\n' || c == 11 as char || c == 12 as char || c == '\r' }

  /** The first position at or after p that is not a digit. */
  function DigitsEnd(s: seq<char>, p: nat): (q: nat)
    ensures p <= q && !IsDigit(At(s, q))
    decreases |s| - p
  {
    if IsDigit(At(s, p)) then DigitsEnd(s, p + 1) else p
  }

  /** Every position from p up to DigitsEnd holds a digit. */
  lemma {:induction false} DigitsEndDigits(s: seq<char>, p: nat, k: nat)
    requires p <= k < DigitsEnd(s, p)
    ensures IsDigit(At(s, k))
    decreases |s| - p
  {
    if k > p {
      DigitsEndDigits(s, p + 1, k);
    }
  }

  /** The value of the digits s[p..q]. */
  function DigitsValue(s: seq<char>, p: nat, q: nat): (v: nat)
    requires p <= q
    decreases q - p
  {
    if q == p then 0 else 10 * DigitsValue(s, p, q - 1) + DigitValue(At(s, q - 1))
  }

  /** The value of one decimal digit. */
  function DigitValue(c: char): nat
  {
    if IsDigit(c) then c as int - '0' as int else 0
  }

  /** atoi on the string starting at p: white space, an optional sign,
      then the longest run of digits. */
  function Atoi(s: seq<char>, p: nat): int
    decreases |s| - p
  {
    if IsSpace(At(s, p)) then Atoi(s, p + 1)
    else
      var d := if At(s, p) == '+' || At(s, p) == '-' then p + 1 else p;
      var v: int := DigitsValue(s, d, DigitsEnd(s, d));
      if At(s, p) == '-' then -v else v
  }

  /** The entry of the segment starting at p: 255 for `*`, else atoi. */
  function SizeEntry(s: seq<char>, p: nat): int
  {
    if At(s, p) == '*' then 255 else Atoi(s, p)
  }

  /** The entries _parse_size_list stores for the segment starting at
      `start` once `count` entries are stored: a `*` stores 255 and ends the
      list; otherwise the segment's atoi value is stored and a comma after
      its digits leads on to the next segment. */
  function SizeListFrom(s: seq<char>, start: nat, max: int, count: nat): (r: seq<int>)
    ensures count >= max ==> r == []
    ensures count < max ==> 1 <= |r| <= max - count
    ensures count < max && At(s, start) == '*' ==> r == [255]
    decreases |s| + 1 - start
  {
    if count >= max then []
    else
      var stop := DigitsEnd(s, start);
      if At(s, stop) != ',' then [SizeEntry(s, start)]
      else [SizeEntry(s, start)] + SizeListFrom(s, stop + 1, max, count + 1)
  }

  /** _parse_size_list: the entries stored in sizes[0..count). */
  function SizeList(s: seq<char>, max: int): seq<int>
  {
    SizeListFrom(s, 0, max, 0)
  }

  /** The pointer walk of _parse_size_list over `arg`, writing into
      `sizes` and returning the number of entries written. */
  method ParseSizeList(arg: seq<char>, sizes: array<int>, max: int) returns (count: int)
    requires max <= sizes.Length
    modifies sizes
    ensures 0 <= count <= sizes.Length && sizes[..count] == SizeList(arg, max)
    ensures forall k :: count <= k < sizes.Length ==> sizes[k] == old(sizes[k])
  {
    ghost var whole := SizeList(arg, max);
    count := 0;
    var start := 0;
    while true
      invariant 0 <= count <= |whole| && count <= sizes.Length
      invariant whole[count..] == SizeListFrom(arg, start, max, count)
      invariant sizes[..count] == whole[..count]
      invariant forall k :: count <= k < sizes.Length ==> sizes[k] == old(sizes[k])
      decreases |arg| + 1 - start
    {
      var stop := SkipDigits(arg, start);
      if count >= max {
        break;
      }
      var more := StoreEntry(arg, sizes, max, start, stop, count, whole);
      count := count + 1;
      if !more {
        break;
      }
      start := stop + 1;
    }
  }

  /** The inner walk of `stop` over the digits of a segment. */
  method SkipDigits(arg: seq<char>, start: nat) returns (stop: nat)
    ensures stop == DigitsEnd(arg, start)
  {
    stop := start;
    while stop < |arg| && IsDigit(arg[stop])
      invariant start <= stop && DigitsEnd(arg, stop) == DigitsEnd(arg, start)
      decreases |arg| - stop
    {
      stop := stop + 1;
    }
  }

  /** One store of the walk: sizes[count] gets the entry of the segment at
      `start`, whose digits end at `stop`; the result says whether a comma
      there leads on to another segment. */
  method StoreEntry(arg: seq<char>, sizes: array<int>, max: int, start: nat, stop: nat, count: nat, ghost whole: seq<int>) returns (more: bool)
    requires count < max && count < sizes.Length && DigitsEnd(arg, start) == stop
    requires count <= |whole| && whole[count..] == SizeListFrom(arg, start, max, count)
    requires sizes[..count] == whole[..count]
    modifies sizes
    ensures more == (At(arg, stop) == ',')
    ensures count < |whole| && sizes[..count + 1] == whole[..count + 1]
    ensures more ==> whole[count + 1..] == SizeListFrom(arg, stop + 1, max, count + 1)
    ensures !more ==> count + 1 == |whole|
    ensures forall k :: 0 <= k < sizes.Length && k != count ==> sizes[k] == old(sizes[k])
  {
    var v := if At(arg, start) == '*' then 255 else Atoi(arg, start);
    EntryStep(arg, start, stop, max, count, whole);
    sizes[count] := v;
    assert sizes[..count + 1] == sizes[..count] + [v];
    more := stop < |arg| && arg[stop] == ',';
  }

  /** The entry the walk stores at `count` is the next one of the list. */
  lemma EntryStep(s: seq<char>, start: nat, stop: nat, max: int, count: nat, whole: seq<int>)
    requires count < max && DigitsEnd(s, start) == stop
    requires count <= |whole| && whole[count..] == SizeListFrom(s, start, max, count)
    ensures count < |whole| && whole[count] == SizeEntry(s, start)
    ensures whole[..count + 1] == whole[..count] + [whole[count]]
    ensures At(s, stop) == ',' ==> whole[count + 1..] == SizeListFrom(s, stop + 1, max, count + 1)
    ensures At(s, stop) != ',' ==> count + 1 == |whole|
  {
    assert whole[count + 1..] == whole[count..][1..];
    if At(s, stop) == ',' {
      SizeListFromComma(s, start, stop, max, count, SizeEntry(s, start), SizeListFrom(s, stop + 1, max, count + 1));
    } else {
      SizeListFromLast(s, start, max, count);
    }
  }

  /** One step of SizeListFrom when the segment's digits end at a comma. */
  lemma SizeListFromComma(s: seq<char>, start: nat, stop: nat, max: int, count: nat, e: int, later: seq<int>)
    requires count < max && DigitsEnd(s, start) == stop && At(s, stop) == ','
    requires SizeEntry(s, start) == e && SizeListFrom(s, stop + 1, max, count + 1) == later
    ensures SizeListFrom(s, start, max, count) == [e] + later
  {
  }

  /** One step of SizeListFrom when the segment's digits end the list. */
  lemma SizeListFromLast(s: seq<char>, start: nat, max: int, count: nat)
    requires count < max && At(s, DigitsEnd(s, start)) != ','
    ensures SizeListFrom(s, start, max, count) == [SizeEntry(s, start)]
  {
  }

  lemma DigitsEndAt(s: seq<char>, p: nat, q: nat)
    requires p <= q && !IsDigit(At(s, q))
    requires forall k :: p <= k < q ==> IsDigit(At(s, k))
    ensures DigitsEnd(s, p) == q
    decreases q - p
  {
    if p < q {
      DigitsEndAt(s, p + 1, q);
    }
  }

  // ---------------------------------------------------------------------
  // The size list read back
  // ---------------------------------------------------------------------

  /** The decimal digits of n. */
  function NatString(n: nat): (r: seq<char>)
    ensures |r| >= 1
  {
    var d := ('0' as int + n % 10) as char;
    if n < 10 then [d] else NatString(n / 10) + [d]
  }

  /** Every character of NatString(n) is a digit. */
  lemma {:induction false} NatStringDigits(n: nat, k: nat)
    requires k < |NatString(n)|
    ensures IsDigit(NatString(n)[k])
    decreases n
  {
    if n >= 10 && k < |NatString(n / 10)| {
      NatStringDigits(n / 10, k);
    }
  }

  /** A list of sizes written as the command line expects it: "27,15,40". */
  function Render(xs: seq<nat>): seq<char>
    requires |xs| >= 1
  {
    if |xs| == 1 then NatString(xs[0]) else NatString(xs[0]) + [','] + Render(xs[1..])
  }

  lemma {:induction false} ReadNat(s: seq<char>, p: nat, n: nat, rest: seq<char>)
    requires p <= |s| && s[p..] == NatString(n) + rest
    ensures DigitsValue(s, p, p + |NatString(n)|) == n
    ensures forall k :: p <= k < p + |NatString(n)| ==> IsDigit(At(s, k))
  {
    var d := ('0' as int + n % 10) as char;
    var q := p + |NatString(n)|;
    assert At(s, q - 1) == (s[p..])[q - 1 - p] == d;
    if n >= 10 {
      assert s[p..] == NatString(n / 10) + ([d] + rest);
      ReadNat(s, p, n / 10, [d] + rest);
    }
    forall k | p <= k < q
      ensures IsDigit(At(s, k))
    {
      assert At(s, k) == (s[p..])[k - p] == NatString(n)[k - p];
      NatStringDigits(n, k - p);
    }
  }

  /** One rendered number followed by a comma or the end of the string is
      read back as that number, and its digits end where the number does. */
  lemma ReadEntry(s: seq<char>, p: nat, n: nat, rest: seq<char>)
    requires p <= |s| && s[p..] == NatString(n) + rest
    requires rest == [] || rest[0] == ','
    ensures DigitsEnd(s, p) == p + |NatString(n)|
    ensures SizeEntry(s, p) == n
    ensures At(s, p + |NatString(n)|) == ',' <==> rest != []
    ensures s[p + |NatString(n)|..] == rest
  {
    SuffixAfter(s, p, NatString(n), rest);
    var digits := NatString(n);
    var stop := p + |digits|;
    ReadNat(s, p, n, rest);
    if rest != [] {
      assert At(s, stop) == (s[p..])[|digits|] == ',';
    } else {
      assert stop == |s|;
    }
    DigitsEndAt(s, p, stop);
    assert At(s, p) == digits[0] by {
      assert At(s, p) == (s[p..])[0];
    }
  }

  /** Reading back a rendered list from position p, with `count` entries
      already stored, gives the list back. */
  lemma {:induction false} ReadBack(s: seq<char>, p: nat, xs: seq<nat>, max: int, count: nat)
    requires |xs| >= 1 && count + |xs| <= max
    requires p <= |s| && s[p..] == Render(xs)
    ensures SizeListFrom(s, p, max, count) == xs
    decreases |xs|, 1
  {
    if |xs| == 1 {
      ReadLast(s, p, xs, max, count);
    } else {
      ReadMore(s, p, xs, max, count);
    }
  }

  /** ReadBack for two or more rendered numbers: the first is read, then
      the rest after its comma. */
  lemma {:induction false} ReadMore(s: seq<char>, p: nat, xs: seq<nat>, max: int, count: nat)
    requires |xs| >= 2 && count + |xs| <= max
    requires p <= |s| && s[p..] == Render(xs)
    ensures SizeListFrom(s, p, max, count) == xs
    decreases |xs|, 0
  {
    var q := ReadStep(s, p, xs);
    ReadBack(s, q, xs[1..], max, count + 1);
    ListCons(s, p, q - 1, max, count, xs);
  }

  /** The first of two or more rendered numbers is read as its entry, its
      digits end at a comma, and the rest of the list is rendered after it. */
  lemma ReadStep(s: seq<char>, p: nat, xs: seq<nat>) returns (q: nat)
    requires |xs| >= 2 && p <= |s| && s[p..] == Render(xs)
    ensures 1 <= q <= |s| && s[q..] == Render(xs[1..])
    ensures DigitsEnd(s, p) == q - 1 && At(s, q - 1) == ',' && SizeEntry(s, p) == xs[0]
  {
    RenderCons(xs);
    var stop := ReadEntryComma(s, p, xs[0], Render(xs[1..]));
    q := stop + 1;
  }

  /** An entry whose digits end at a comma, followed by the rest of the
      list, reads as the whole list. */
  lemma ListCons(s: seq<char>, p: nat, stop: nat, max: int, count: nat, xs: seq<nat>)
    requires |xs| >= 2 && count < max && DigitsEnd(s, p) == stop && At(s, stop) == ','
    requires SizeEntry(s, p) == xs[0] && SizeListFrom(s, stop + 1, max, count + 1) == xs[1..]
    ensures SizeListFrom(s, p, max, count) == xs
  {
    SizeListFromComma(s, p, stop, max, count, xs[0], xs[1..]);
    assert [xs[0]] + xs[1..] == xs;
  }

  /** The last rendered number is read back as a one-entry list. */
  lemma ReadLast(s: seq<char>, p: nat, xs: seq<nat>, max: int, count: nat)
    requires |xs| == 1 && count < max && p <= |s| && s[p..] == Render(xs)
    ensures SizeListFrom(s, p, max, count) == xs
  {
    assert s[p..] == NatString(xs[0]) + [];
    ReadEntry(s, p, xs[0], []);
    SizeListFromLast(s, p, max, count);
  }

  /** A rendered number followed by a comma: the number's digits end at a comma,
      the entry is the number, and the tail follows the comma. */
  lemma ReadEntryComma(s: seq<char>, p: nat, n: nat, tail: seq<char>) returns (stop: nat)
    requires p <= |s| && s[p..] == NatString(n) + ([','] + tail)
    ensures DigitsEnd(s, p) == stop && At(s, stop) == ',' && SizeEntry(s, p) == n
    ensures stop + 1 <= |s| && s[stop + 1..] == tail
  {
    ReadEntry(s, p, n, [','] + tail);
    stop := p + |NatString(n)|;
    SuffixAfter(s, stop, [','], tail);
  }

  /** Render of two or more sizes: the first, a comma, then the rest. */
  lemma RenderCons(xs: seq<nat>)
    requires |xs| >= 2
    ensures Render(xs) == NatString(xs[0]) + ([','] + Render(xs[1..]))
  {
  }

  /** What follows a prefix of the suffix at p is the suffix after it. */
  lemma SuffixAfter(s: seq<char>, p: nat, a: seq<char>, b: seq<char>)
    requires p <= |s| && s[p..] == a + b
    ensures p + |a| <= |s| && s[p + |a|..] == b
  {
    assert s[p + |a|..] == s[p..][|a|..];
  }

  /** _parse_size_list reads back every list of at most `max` sizes written
      in the command-line form. */
  lemma SizeListRoundTrip(xs: seq<nat>, max: int)
    requires 1 <= |xs| <= max
    ensures SizeList(Render(xs), max) == xs
  {
    ReadBack(Render(xs), 0, xs, max, 0);
  }

  // ---------------------------------------------------------------------
  // Colours
  // ---------------------------------------------------------------------

  /** scale_color: one component of a colour table entry (0..255), scaled
      to 0..scale-1 with rounding. */
  function ScaleColor(t: int, scale: int): (r: int)
    requires 0 <= t <= 255 && 1 <= scale
    ensures 0 <= r <= scale - 1
    ensures t == 0 ==> r == 0
    ensures t == 255 ==> r == scale - 1
  {
    ScaleBound(t, scale);
    (t * (scale - 1) + 127) / 255
  }

  lemma ScaleBound(t: int, scale: int)
    requires 0 <= t <= 255 && 1 <= scale
    ensures 0 <= (t * (scale - 1) + 127) / 255 <= scale - 1
    ensures t == 255 ==> (t * (scale - 1) + 127) / 255 == scale - 1
  {
    MulMono(t, scale - 1, 255, scale - 1);
    assert t * (scale - 1) + 127 < 255 * scale;
    DivBound(t * (scale - 1) + 127, scale, 255);
  }

  /** create_color: the xterm (scale 6) or rxvt (scale 4) colour-cube index
      of a colour, 16 + scale^2 r + scale g + b, except black, which uses the
      ANSI colour 0. White cannot reach its ANSI case, since no component
      scales to `scale`. */
  function CreateColor(red: int, green: int, blue: int, scale: int): (rgb: int)
    requires 0 <= red <= 255 && 0 <= green <= 255 && 0 <= blue <= 255 && (scale == 4 || scale == 6)
    ensures rgb == 0 <==> ScaleColor(red, scale) == ScaleColor(green, scale) == ScaleColor(blue, scale) == 0
    ensures rgb != 0 ==> 16 <= rgb <= 15 + scale * scale * scale
  {
    var r, g, b := ScaleColor(red, scale), ScaleColor(green, scale), ScaleColor(blue, scale);
    var rgb := 16 + scale * scale * r + scale * g + b;
    if r == g && g == b then
      if b == 0 then 0 else if b == scale then 15 else rgb
    else rgb
  }

  /** The cube index the terminal decodes back into its three components. */
  function CubeComponents(rgb: int, scale: int): (int, int, int)
    requires scale == 4 || scale == 6
  {
    ((rgb - 16) / (scale * scale), (rgb - 16) / scale % scale, (rgb - 16) % scale)
  }

  /** Every colour other than black lands on the cube cell of its scaled
      components, so distinct scaled colours get distinct indices. */
  lemma CreateColorDecodes(red: int, green: int, blue: int, scale: int)
    requires 0 <= red <= 255 && 0 <= green <= 255 && 0 <= blue <= 255 && (scale == 4 || scale == 6)
    requires CreateColor(red, green, blue, scale) != 0
    ensures CubeComponents(CreateColor(red, green, blue, scale), scale)
            == (ScaleColor(red, scale), ScaleColor(green, scale), ScaleColor(blue, scale))
  {
    var r, g, b := ScaleColor(red, scale), ScaleColor(green, scale), ScaleColor(blue, scale);
    if scale == 4 {
      CubeCell4(r, g, b);
    } else {
      CubeCell6(r, g, b);
    }
  }

  lemma CubeCell4(r: int, g: int, b: int)
    requires 0 <= r < 4 && 0 <= g < 4 && 0 <= b < 4
    ensures CubeComponents(16 + 16 * r + 4 * g + b, 4) == (r, g, b)
  {
  }

  lemma CubeCell6(r: int, g: int, b: int)
    requires 0 <= r < 6 && 0 <= g < 6 && 0 <= b < 6
    ensures CubeComponents(16 + 36 * r + 6 * g + b, 6) == (r, g, b)
  {
  }

  // ---------------------------------------------------------------------
  // Key folding
  // ---------------------------------------------------------------------

  /** ncurses KEY_MIN (octal 0401) and KEY_F(63) (KEY_F0, octal 0410, plus 63). */
  const KeyMin := 257
  const KeyF63 := 327

  /** The default case of the key switch: codes below KEY_MIN pass through;
      other curses codes are folded into 128..255. `arrowDown` is the
      game's ARROW_DOWN code. `& 127` on a two's complement int is the
      Euclidean remainder by 128. */
  function FoldKey(i: int, arrowDown: int): (r: int)
    ensures i < KeyMin ==> r == i
    ensures i >= KeyMin ==> 128 <= r <= 255
  {
    if i < KeyMin then i
    else
      var a := if i >= 252 then KeyF63 - (i - 252) else i;
      var b := if a >= arrowDown then a + 4 else a;
      128 + b % 128
  }

  /** The 64 function keys KEY_F(0)..KEY_F(63) fold to 64 different codes,
      whatever ARROW_DOWN is. */
  lemma FunctionKeysDistinct(m: int, n: int, arrowDown: int)
    requires 0 <= m < n <= 63
    ensures FoldKey(KeyF63 - 63 + m, arrowDown) != FoldKey(KeyF63 - 63 + n, arrowDown)
  {
    var am, an := KeyF63 - (KeyF63 - 63 + m - 252), KeyF63 - (KeyF63 - 63 + n - 252);
    var bm := if am >= arrowDown then am + 4 else am;
    var bn := if an >= arrowDown then an + 4 else an;
    assert 252 <= bn < bm <= 319;
  }
}
