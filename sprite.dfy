/** Glyph extraction (codegen/font/sprite.go:13-72, 118-136): cut one grid
    cell out of a sprite sheet, threshold the red channel to a 0/1 matrix and
    trim blank columns and rows from the four edges within per-edge limits. */
module Sprite {
  import opened Wrappers
  import opened Matrices
  import Pattern

  /** The geometry of a sprite sheet (the FontSpec struct without its file
      names and legal text). */
  datatype FontSpec = FontSpec(name: string, size: int, cols: int, gutter: int, border: int)

  /** A decoded image as the sampler sees it: the largest y bound of its
      rectangle and the red sample of `img.At(x, y)` at every coordinate.  What
      the platform returns outside the picture is the platform's business, so
      the sample function is total. */
  datatype Image = Image(maxY: int, red: (int, int) -> int)

  /** What ConvertGlyphBoxToMatrix gives back: the trimmed matrix and the number
      of rows removed from the top (before its conversion to uint32). */
  datatype Glyph = Glyph(pixels: Matrix, yOffset: nat)

  /** The panics of ConvertGlyphBoxToMatrix: a cell outside the grid
      (sprite.go:33-35), and a trim that indexes an empty slice (sprite.go:106). */
  datatype ExtractError = OutOfRange | TrimPanic

  /** Go's integer division, which truncates toward zero. */
  function GoQuot(a: int, b: int): int
    requires b > 0
  {
    if a >= 0 then a / b else -((-a) / b)
  }

  function GridSize(f: FontSpec): int
  {
    f.size + f.gutter
  }

  /** Grid rows the image holds (sprite.go:32). */
  function GridRows(img: Image, f: FontSpec): int
    requires GridSize(f) > 0
  {
    GoQuot(img.maxY - f.border, GridSize(f))
  }

  predicate InGrid(img: Image, f: FontSpec, row: int, col: int)
    requires GridSize(f) > 0
  {
    0 <= row < GridRows(img, f) && 0 <= col < f.cols
  }

  /** Side of the sampled square: the loops run from `border + k*gridSize` up
      to `(k+1)*gridSize`. */
  function CellSide(f: FontSpec): nat
  {
    if GridSize(f) - f.border > 0 then GridSize(f) - f.border else 0
  }

  /** The thresholded cell before trimming: 1 exactly where the red sample is 0. */
  function RawCell(img: Image, f: FontSpec, row: int, col: int): (cell: Matrix)
    ensures |cell| == CellSide(f) && RowsOfWidth(cell, CellSide(f))
  {
    var n := CellSide(f);
    var y0 := f.border + row * GridSize(f);
    var x0 := f.border + col * GridSize(f);
    seq(n, i => seq(n, j => if img.red(x0 + j, y0 + i) == 0 then 1 else 0))
  }

  lemma RawCellShape(img: Image, f: FontSpec, row: int, col: int)
    ensures Rectangular(RawCell(img, f, row, col))
  {
  }

  /** The sampled cell is an n-by-n 0/1 matrix, n = Size + Gutter - Border,
      holding 1 exactly where the red sample is zero. */
  lemma RawCellSpec(img: Image, f: FontSpec, row: int, col: int)
    ensures var cell := RawCell(img, f, row, col);
      && |cell| == CellSide(f) && RowsOfWidth(cell, CellSide(f)) && Binary(cell)
      && (GridSize(f) > f.border ==> CellSide(f) == f.size + f.gutter - f.border)
      && forall i, j :: 0 <= i < |cell| && 0 <= j < |cell| ==>
           (cell[i][j] == 1 <==> img.red(f.border + col * GridSize(f) + j, f.border + row * GridSize(f) + i) == 0)
  {
  }

  /** Per-edge trim limits in the source's order: top, right, bottom, left. */
  function TrimLimits(f: FontSpec, row: int, col: int): (lim: seq<int>)
    ensures |lim| == 4
  {
    if (f.name == "Bold" || f.name == "Regular") && col == 0 && row >= 5 && row <= 9 then
      // radio strength bars are trimmed to the bounds of the three-bar icon
      [7, 5, 6, 4]
    else if (f.name == "Bold" || f.name == "Regular" || f.name == "Small") && col == 2 && row == 0 then
      // the space keeps 4px of width and 2px of height
      var lr := GoQuot(f.size, 2) - 2;
      var tb := GoQuot(f.size, 2) - 1;
      [tb, lr, tb, lr]
    else
      [f.size, f.size, f.size, f.size]
  }

  /** The three trim policies, each with the cells it applies to. */
  lemma TrimLimitsCases(f: FontSpec, row: int, col: int)
    requires f.size >= 0
    ensures |TrimLimits(f, row, col)| == 4
    ensures (f.name == "Bold" || f.name == "Regular") && col == 0 && 5 <= row <= 9
      ==> TrimLimits(f, row, col) == [7, 5, 6, 4]
    ensures (f.name == "Bold" || f.name == "Regular" || f.name == "Small") && col == 2 && row == 0
      ==> TrimLimits(f, row, col) == [f.size / 2 - 1, f.size / 2 - 2, f.size / 2 - 1, f.size / 2 - 2]
    ensures !((f.name == "Bold" || f.name == "Regular") && col == 0 && 5 <= row <= 9)
         && !((f.name == "Bold" || f.name == "Regular" || f.name == "Small") && col == 2 && row == 0)
      ==> TrimLimits(f, row, col) == [f.size, f.size, f.size, f.size]
  {
  }

  /** Trim blank rows from the top of `m` within `first`, then from the
      bottom within `second`: the trim, reverse, trim, reverse sequence that
      ConvertGlyphBoxToMatrix runs once on columns and once on rows. */
  function TrimEnds(m: Matrix, first: int, second: int): Result<Matrix, ExtractError>
  {
    if !TrimSafe(m, first) then Err(TrimPanic)
    else
      var rest := Reversed(TrimmedLeading(m, first));
      if !TrimSafe(rest, second) then Err(TrimPanic)
      else Ok(Reversed(TrimmedLeading(rest, second)))
  }

  lemma TrimEndsKeepsRowsOfWidth(m: Matrix, first: int, second: int, w: nat)
    requires RowsOfWidth(m, w)
    ensures TrimEnds(m, first, second).Ok? ==> RowsOfWidth(TrimEnds(m, first, second).value, w)
  {
    if TrimSafe(m, first) {
      TrimmedKeepsRowsOfWidth(m, first, w);
      var rest := Reversed(TrimmedLeading(m, first));
      if TrimSafe(rest, second) {
        TrimmedKeepsRowsOfWidth(rest, second, w);
      }
    }
  }

  /** The row pass: trim the top within `top`, the bottom within `bottom`,
      and count the rows the top trim removed. */
  function RowPass(c: Matrix, top: int, bottom: int): Result<Glyph, ExtractError>
  {
    match TrimEnds(c, top, bottom)
    case Err(e) => Err(e)
    case Ok(px) => Ok(Glyph(px, TrimCount(c, top)))
  }

  /** The column pass: transpose, then trim the left within `left` and the
      right within `right`. */
  function ColumnPass(cell: Matrix, left: int, right: int): Result<Matrix, ExtractError>
    requires Rectangular(cell)
  {
    TrimEnds(Transpose(cell), left, right)
  }

  lemma ColumnPassWidth(cell: Matrix, left: int, right: int)
    requires Rectangular(cell)
    ensures ColumnPass(cell, left, right).Ok? ==> RowsOfWidth(ColumnPass(cell, left, right).value, |cell|)
  {
    TrimEndsKeepsRowsOfWidth(Transpose(cell), left, right, |cell|);
  }

  /** The four trims of sprite.go:53-69 applied to a sampled cell: left (limit
      index 3) and right (index 1) on the transposed matrix, then top (index 0)
      and bottom (index 2); yOffset counts the rows the top trim removed. */
  function TrimGlyph(cell: Matrix, lim: seq<int>): Result<Glyph, ExtractError>
    requires |lim| == 4 && Rectangular(cell)
  {
    ColumnPassWidth(cell, lim[3], lim[1]);
    match ColumnPass(cell, lim[3], lim[1])
    case Err(e) => Err(e)
    case Ok(cols) => RowPass(Transpose(cols), lim[0], lim[2])
  }

  /** What ConvertGlyphBoxToMatrix computes. */
  function ExtractGlyph(img: Image, f: FontSpec, row: int, col: int): Result<Glyph, ExtractError>
    requires GridSize(f) > 0
  {
    if !InGrid(img, f, row, col) then Err(OutOfRange)
    else
      RawCellShape(img, f, row, col);
      TrimGlyph(RawCell(img, f, row, col), TrimLimits(f, row, col))
  }

  method ConvertGlyphBoxToMatrix(img: Image, font: FontSpec, row: int, col: int)
    returns (res: Result<Glyph, ExtractError>)
    requires GridSize(font) > 0
    ensures res == ExtractGlyph(img, font, row, col)
  {
    var rows := GridRows(img, font);
    if row < 0 || row >= rows || col < 0 || col >= font.cols {
      return Err(OutOfRange);
    }
    var pxMatrix := SampleCell(img, font, row, col);
    RawCellShape(img, font, row, col);
    res := TrimCell(pxMatrix, TrimLimits(font, row, col));
    assert ExtractGlyph(img, font, row, col) == TrimGlyph(RawCell(img, font, row, col), TrimLimits(font, row, col));
  }

  /** The bounds `border + k*gridSize` and `(k+1)*gridSize` of the sampling
      loops along one axis (sprite.go:37-42); the range holds CellSide pixels. */
  method CellRange(font: FontSpec, k: int) returns (start: int, end: int)
    ensures start == font.border + k * GridSize(font)
    ensures end - start == GridSize(font) - font.border
    ensures CellSide(font) == if start < end then end - start else 0
  {
    var gridSize := font.size + font.gutter;
    start := font.border + k * gridSize;
    end := (k + 1) * gridSize;
  }

  /** The sampling loops of sprite.go:37-52. */
  method SampleCell(img: Image, font: FontSpec, row: int, col: int) returns (pxMatrix: Matrix)
    ensures pxMatrix == RawCell(img, font, row, col)
  {
    ghost var cell := RawCell(img, font, row, col);
    var y0, yEnd := CellRange(font, row);
    var x0, xEnd := CellRange(font, col);
    pxMatrix := [];
    var y := y0;
    while y < yEnd
      invariant 0 <= y - y0 <= |cell|
      invariant y0 < yEnd ==> y <= yEnd
      invariant pxMatrix == cell[..y - y0]
    {
      var pxRow: Row := [];
      var x := x0;
      while x < xEnd
        invariant x0 <= x <= xEnd
        invariant |pxRow| == x - x0
        invariant forall j :: 0 <= j < x - x0 ==> pxRow[j] == cell[y - y0][j]
      {
        var r := img.red(x, y);
        if r == 0 {
          pxRow := pxRow + [1];
        } else {
          pxRow := pxRow + [0];
        }
        x := x + 1;
      }
      assert pxRow == cell[y - y0];
      pxMatrix := pxMatrix + [pxRow];
      y := y + 1;
    }
    assert pxMatrix == cell;
  }

  // ---------------------------------------------------------------------
  // Properties of the trim

  lemma LeadingBlankBelowInk(m: Matrix, k: nat)
    requires k < |m| && RowSum(m[k]) != 0
    ensures LeadingBlank(m) <= k
  {
    LeadingBlankSpec(m);
  }

  /** Trimming the reversed matrix and reversing back drops blank rows
      from the bottom: the result is a prefix. */
  lemma TrimBottomIsPrefix(x: Matrix, limit: int)
    requires TrimSafe(Reversed(x), limit)
    ensures var k := TrimCount(Reversed(x), limit);
      && k <= |x| && k <= (if limit < 0 then 0 else limit)
      && Reversed(TrimmedLeading(Reversed(x), limit)) == x[..|x| - k]
      && forall j :: |x| - k <= j < |x| ==> RowSum(x[j]) == 0
  {
    LeadingBlankSpec(Reversed(x));
    var k := TrimCount(Reversed(x), limit);
    assert forall j :: |x| - k <= j < |x| ==> x[j] == Reversed(x)[|x| - 1 - j];
  }

  /** A successful two-sided trim keeps a contiguous run `m[lo..hi]` of rows,
      where `lo` is at most `first` and at most `second` rows went from the
      bottom. */
  lemma TrimEndsSlice(m: Matrix, first: int, second: int)
    requires TrimEnds(m, first, second).Ok?
    ensures var r := TrimEnds(m, first, second).value;
      var lo := TrimCount(m, first);
      && lo + |r| <= |m| && r == m[lo..lo + |r|]
      && lo <= (if first < 0 then 0 else first)
      && |m| - lo - |r| <= (if second < 0 then 0 else second)
  {
    LeadingBlankSpec(m);
    var lo := TrimCount(m, first);
    var t := TrimmedLeading(m, first);
    ReversedInvolution(t);
    TrimBottomIsPrefix(t, second);
  }

  /** The rows a successful two-sided trim removes, above and below the run
      it keeps, are blank. */
  lemma TrimEndsRemovesBlank(m: Matrix, first: int, second: int)
    requires TrimEnds(m, first, second).Ok?
    ensures var r := TrimEnds(m, first, second).value;
      var lo := TrimCount(m, first);
      && (forall k :: 0 <= k < lo ==> RowSum(m[k]) == 0)
      && (forall k :: lo + |r| <= k < |m| ==> RowSum(m[k]) == 0)
  {
    LeadingBlankSpec(m);
    var lo := TrimCount(m, first);
    var t := TrimmedLeading(m, first);
    assert t == m[lo..];
    ReversedInvolution(t);
    TrimBottomIsPrefix(t, second);
    var k := TrimCount(Reversed(t), second);
    assert TrimEnds(m, first, second).value == t[..|t| - k];
    assert forall j :: lo + |t| - k <= j < |m| ==> m[j] == t[j - lo];
  }

  /** Limits that a cell of `n` rows can always absorb: neither exceeds `n`,
      and either they fit together or the first takes the whole side. */
  predicate PairFits(a: int, b: int, n: int)
  {
    a <= n && b <= n && (a + b <= n || a == n)
  }

  /** Under fitting limits the two-sided trim never panics. */
  lemma TrimEndsSafe(m: Matrix, first: int, second: int)
    requires PairFits(first, second, |m|)
    ensures TrimEnds(m, first, second).Ok?
  {
    assert TrimSafe(m, first);
    TrimmedLeadingSpec(m, first);
    var t := TrimmedLeading(m, first);
    var rest := Reversed(t);
    if first + second > |m| && |m| > 0 && |t| > 0 {
      LeadingBlankSpec(m);
      assert TrimCount(m, first) < first;
      assert rest[|rest| - 1] == t[0];
      LeadingBlankBelowInk(rest, |rest| - 1);
    }
    assert TrimSafe(rest, second);
  }

  /** The only way TrimGlyph fails is a trim that would panic. */
  lemma TrimGlyphFailsOnlyByPanic(cell: Matrix, lim: seq<int>)
    requires |lim| == 4 && Rectangular(cell)
    ensures TrimGlyph(cell, lim).Err? ==> TrimGlyph(cell, lim).error == TrimPanic
  {
  }

  /** A successful row pass keeps rows `yOffset..yOffset+h` of its input. */
  lemma RowPassSlice(c: Matrix, top: int, bottom: int)
    requires RowPass(c, top, bottom).Ok?
    ensures var g := RowPass(c, top, bottom).value;
      g.yOffset + |g.pixels| <= |c| && g.pixels == c[g.yOffset..g.yOffset + |g.pixels|]
  {
    TrimEndsSlice(c, top, bottom);
  }

  /** A successful trim is the row pass over the transposed result of a
      successful column pass. */
  lemma TrimGlyphStages(cell: Matrix, lim: seq<int>)
    requires |lim| == 4 && Rectangular(cell) && TrimGlyph(cell, lim).Ok?
    ensures ColumnPass(cell, lim[3], lim[1]).Ok?
    ensures RowsOfWidth(ColumnPass(cell, lim[3], lim[1]).value, |cell|)
    ensures TrimGlyph(cell, lim) == RowPass(Transpose(ColumnPass(cell, lim[3], lim[1]).value), lim[0], lim[2])
  {
    ColumnPassWidth(cell, lim[3], lim[1]);
  }

  /** What TrimGlyph promises: the rows removed from the top (yOffset) plus
      the rows kept never exceed the side of the cell, and the glyph's rows
      all have one width, no wider than the cell. */
  lemma TrimGlyphSpec(cell: Matrix, lim: seq<int>, n: nat)
    requires |lim| == 4 && |cell| == n && RowsOfWidth(cell, n)
    requires TrimGlyph(cell, lim).Ok?
    ensures var g := TrimGlyph(cell, lim).value;
      && g.yOffset + |g.pixels| <= n
      && (|g.pixels| > 0 ==> |g.pixels[0]| <= n && RowsOfWidth(g.pixels, |g.pixels[0]|))
  {
    TrimGlyphStages(cell, lim);
    ColumnPassSize(cell, lim[3], lim[1], n);
    var cols := ColumnPass(cell, lim[3], lim[1]).value;
    RowPassShape(Transpose(cols), lim[0], lim[2], |cols|);
  }

  /** The column pass keeps at most `n` columns of an `n`-square cell, each
      of height `n`. */
  lemma ColumnPassSize(cell: Matrix, left: int, right: int, n: nat)
    requires |cell| == n && RowsOfWidth(cell, n) && ColumnPass(cell, left, right).Ok?
    ensures |ColumnPass(cell, left, right).value| <= n
    ensures RowsOfWidth(ColumnPass(cell, left, right).value, n)
  {
    TrimEndsSlice(Transpose(cell), left, right);
    ColumnPassWidth(cell, left, right);
  }

  /** The row pass keeps a run of rows of its input, so their width too. */
  lemma RowPassShape(c: Matrix, top: int, bottom: int, w: nat)
    requires RowsOfWidth(c, w) && RowPass(c, top, bottom).Ok?
    ensures var g := RowPass(c, top, bottom).value;
      g.yOffset + |g.pixels| <= |c| && RowsOfWidth(g.pixels, w)
  {
    RowPassSlice(c, top, bottom);
    var g := RowPass(c, top, bottom).value;
    RowsOfWidthSlice(c, w, g.yOffset, g.yOffset + |g.pixels|);
  }

  lemma BinarySlice(m: Matrix, lo: nat, hi: nat)
    requires lo <= hi <= |m| && Binary(m)
    ensures Binary(m[lo..hi])
  {
    assert forall r :: 0 <= r < hi - lo ==> m[lo..hi][r] == m[lo + r];
  }

  lemma TrimEndsKeepsBinary(m: Matrix, first: int, second: int)
    requires TrimEnds(m, first, second).Ok? && Binary(m)
    ensures Binary(TrimEnds(m, first, second).value)
  {
    TrimEndsSlice(m, first, second);
    var lo := TrimCount(m, first);
    BinarySlice(m, lo, lo + |TrimEnds(m, first, second).value|);
  }

  lemma ColumnPassBinary(cell: Matrix, left: int, right: int)
    requires Rectangular(cell) && Binary(cell) && ColumnPass(cell, left, right).Ok?
    ensures Binary(ColumnPass(cell, left, right).value)
  {
    TransposeKeepsBinary(cell);
    TrimEndsKeepsBinary(Transpose(cell), left, right);
  }

  lemma RowPassBinary(c: Matrix, top: int, bottom: int)
    requires Binary(c) && RowPass(c, top, bottom).Ok?
    ensures Binary(RowPass(c, top, bottom).value.pixels)
  {
    TrimEndsKeepsBinary(c, top, bottom);
  }

  lemma RowsOfWidthWide(m: Matrix, w: nat)
    requires RowsOfWidth(m, w)
    ensures Wide(m)
  {
  }

  /** The glyph keeps the sampler's 0/1 pixels. */
  lemma TrimGlyphBinary(cell: Matrix, lim: seq<int>)
    requires |lim| == 4 && Rectangular(cell) && Binary(cell)
    requires TrimGlyph(cell, lim).Ok?
    ensures Binary(TrimGlyph(cell, lim).value.pixels)
  {
    TrimGlyphStages(cell, lim);
    ColumnPassBinary(cell, lim[3], lim[1]);
    var cols := ColumnPass(cell, lim[3], lim[1]).value;
    RowsOfWidthWide(cols, |cell|);
    TransposeKeepsBinary(cols);
    RowPassBinary(Transpose(cols), lim[0], lim[2]);
  }

  lemma RowsOfWidthSlice(m: Matrix, w: nat, lo: nat, hi: nat)
    requires lo <= hi <= |m| && RowsOfWidth(m, w)
    ensures RowsOfWidth(m[lo..hi], w)
  {
  }

  /** With fitting limits on both axes a cell never makes the trim panic. */
  lemma TrimGlyphSafe(cell: Matrix, lim: seq<int>, n: nat)
    requires |lim| == 4 && |cell| == n && RowsOfWidth(cell, n)
    requires PairFits(lim[3], lim[1], n) && PairFits(lim[0], lim[2], n)
    ensures TrimGlyph(cell, lim).Ok?
  {
    TransposeRectangular(cell);
    var t := Transpose(cell);
    assert |t| == n;
    TrimEndsSafe(t, lim[3], lim[1]);
    TrimEndsKeepsRowsOfWidth(t, lim[3], lim[1], n);
    var cols := TrimEnds(t, lim[3], lim[1]).value;
    var c := Transpose(cols);
    if |cols| > 0 && n > 0 {
      TransposeShape(cols);
      TrimEndsSafe(c, lim[0], lim[2]);
    } else {
      TransposeOfDegenerate(cols);
      assert TrimEnds(c, lim[0], lim[2]).Ok?;
    }
  }

  /** When the `a` rows at the top and the `b` rows at the bottom are blank,
      the two-sided trim removes exactly those rows. */
  lemma TrimEndsExact(m: Matrix, a: nat, b: nat)
    requires a + b <= |m|
    requires forall k :: 0 <= k < a ==> BlankRow(m[k])
    requires forall k :: |m| - b <= k < |m| ==> BlankRow(m[k])
    ensures TrimEnds(m, a, b) == Ok(m[a..|m| - b]) && TrimCount(m, a) == a
  {
    TrimmedLeadingExact(m, a);
    assert |m[TrimCount(m, a)..]| == |m[a..]|;
    var rest := Reversed(m[a..]);
    assert forall k :: 0 <= k < b ==> rest[k] == m[|m| - 1 - k];
    TrimmedLeadingExact(rest, b);
    assert Reversed(rest[b..]) == m[a..|m| - b];
  }

  /** Every ink pixel lies in rows `top..bottom` and columns `left..right`. */
  predicate InkWithin(m: Matrix, top: int, bottom: int, left: int, right: int)
  {
    forall r, c :: 0 <= r < |m| && 0 <= c < |m[r]| && m[r][c] != 0 ==>
      top <= r < bottom && left <= c < right
  }

  /** Rows `top..bottom` of the matrix, each cut to columns `left..right`. */
  function Window(m: Matrix, top: nat, bottom: nat, left: nat, right: nat): Matrix
    requires top <= bottom <= |m| && left <= right
    requires forall r :: 0 <= r < |m| ==> right <= |m[r]|
  {
    seq(bottom - top, i requires 0 <= i < bottom - top => m[top + i][left..right])
  }

  /** A fully blank cell whose left limit is the whole side trims to the
      empty glyph, with yOffset 0: the left trim removes every column, so the
      top trim has no rows to count. */
  lemma TrimGlyphBlank(cell: Matrix, lim: seq<int>, n: nat)
    requires |lim| == 4 && |cell| == n && RowsOfWidth(cell, n) && NoInk(cell)
    requires lim[3] == n
    ensures TrimGlyph(cell, lim) == Ok(Glyph([], 0))
  {
    ColumnPassBlank(cell, lim[3], lim[1], n);
    ColumnPassWidth(cell, lim[3], lim[1]);
    TrimEndsEmpty(lim[0], lim[2]);
  }

  /** Trimming a matrix without rows gives it back and removes nothing. */
  lemma TrimEndsEmpty(first: int, second: int)
    ensures TrimEnds([], first, second) == Ok([]) && TrimCount([], first) == 0
  {
    assert TrimmedLeading([], first) == [];
    assert Reversed([]) == [];
  }

  /** A blank cell loses every column to a left limit of the whole side. */
  lemma ColumnPassBlank(cell: Matrix, left: int, right: int, n: nat)
    requires |cell| == n && RowsOfWidth(cell, n) && NoInk(cell) && left == n
    ensures Rectangular(cell) && ColumnPass(cell, left, right) == Ok([])
  {
    TransposeRectangular(cell);
    var t := Transpose(cell);
    if n > 0 {
      TransposeShape(cell);
      TrimmedLeadingExact(t, n);
      assert TrimmedLeading(t, left) == [];
    }
    TrimEndsEmpty(right, right);
  }

  /** Columns outside `left..n-right` of a cell inked only inside them are
      the blank rows of its transpose. */
  lemma BlankOuterColumns(cell: Matrix, left: nat, right: nat, n: nat)
    requires |cell| == n && RowsOfWidth(cell, n) && left + right < n
    requires InkWithin(cell, 0, n, left, n - right)
    ensures |Transpose(cell)| == n
    ensures forall k :: 0 <= k < left ==> BlankRow(Transpose(cell)[k])
    ensures forall k :: n - right <= k < n ==> BlankRow(Transpose(cell)[k])
  {
    TransposeShape(cell);
  }

  /** Cutting the transpose to rows `lo..hi` and transposing back cuts every
      row of the cell to columns `lo..hi`. */
  lemma TransposeColumnSlice(cell: Matrix, lo: nat, hi: nat, n: nat, cols: Matrix, rows: Matrix)
    requires |cell| == n && RowsOfWidth(cell, n) && lo < hi <= n
    requires cols == Transpose(cell)[lo..hi] && rows == Window(cell, 0, n, lo, hi)
    ensures RowsOfWidth(cols, n) && Transpose(cols) == rows
  {
    TransposeShape(cell);
    assert RowsOfWidth(cols, n);
    TransposeShape(cols);
    forall r | 0 <= r < n
      ensures Transpose(cols)[r] == cell[r][lo..hi]
    {
      assert forall k :: 0 <= k < hi - lo ==> Transpose(cols)[r][k] == cols[k][r] == cell[r][lo + k];
    }
  }

  /** The column pass on a cell whose ink lies in columns `left..n-right`
      removes exactly those margins. */
  lemma ColumnPassWindow(cell: Matrix, left: nat, right: nat, n: nat)
    requires |cell| == n && RowsOfWidth(cell, n) && left + right < n
    requires InkWithin(cell, 0, n, left, n - right)
    ensures ColumnPass(cell, left, right) == Ok(Transpose(cell)[left..n - right])
  {
    BlankOuterColumns(cell, left, right, n);
    TrimEndsExact(Transpose(cell), left, right);
  }

  /** The row pass on a matrix whose first `top` and last `bottom` rows
      are blank removes exactly those rows and reports `top` as the yOffset. */
  lemma RowPassWindow(c: Matrix, top: nat, bottom: nat)
    requires top + bottom <= |c|
    requires forall r :: 0 <= r < top ==> BlankRow(c[r])
    requires forall r :: |c| - bottom <= r < |c| ==> BlankRow(c[r])
    ensures RowPass(c, top, bottom) == Ok(Glyph(c[top..|c| - bottom], top))
  {
    TrimEndsExact(c, top, bottom);
  }

  /** Rows outside `top..bottom` of a cell inked only inside the window stay
      blank when every row is cut to the window's columns. */
  lemma BlankOuterRows(cell: Matrix, top: nat, bottom: nat, left: nat, right: nat, n: nat)
    requires |cell| == n && RowsOfWidth(cell, n) && left <= right <= n && top <= bottom <= n
    requires InkWithin(cell, top, bottom, left, right)
    ensures var c := Window(cell, 0, n, left, right);
      && (forall r :: 0 <= r < top ==> BlankRow(c[r]))
      && (forall r :: bottom <= r < n ==> BlankRow(c[r]))
  {
  }

  /** Rows `top..bottom` of the full-height window are the window of those rows. */
  lemma WindowRows(m: Matrix, top: nat, bottom: nat, left: nat, right: nat)
    requires top <= bottom <= |m| && left <= right
    requires forall r :: 0 <= r < |m| ==> right <= |m[r]|
    ensures Window(m, 0, |m|, left, right)[top..bottom] == Window(m, top, bottom, left, right)
  {
  }

  /** The row pass over the full-height window of a cell inked only between
      the margins removes exactly the top and bottom margins. */
  lemma WindowRowPass(cell: Matrix, top: nat, bottom: nat, left: nat, right: nat, n: nat, rows: Matrix, px: Matrix)
    requires |cell| == n && RowsOfWidth(cell, n) && left <= right <= n && top + bottom <= n
    requires InkWithin(cell, top, n - bottom, left, right)
    requires rows == Window(cell, 0, n, left, right) && px == Window(cell, top, n - bottom, left, right)
    ensures RowPass(rows, top, bottom) == Ok(Glyph(px, top))
  {
    BlankOuterRows(cell, top, n - bottom, left, right, n);
    RowPassWindow(Window(cell, 0, n, left, right), top, bottom);
    WindowRows(cell, top, n - bottom, left, right);
  }

  /** When all ink lies inside the margins the limits name, each trim removes
      exactly its limit: the glyph is the window between the margins and its
      yOffset is the top limit. */
  lemma TrimGlyphWindow(cell: Matrix, top: nat, right: nat, bottom: nat, left: nat, n: nat)
    requires |cell| == n && RowsOfWidth(cell, n)
    requires left + right < n && top + bottom <= n
    requires InkWithin(cell, top, n - bottom, left, n - right)
    ensures Rectangular(cell)
    ensures TrimGlyph(cell, [top, right, bottom, left]) == Ok(Glyph(Window(cell, top, n - bottom, left, n - right), top))
  {
    var lim := [top, right, bottom, left];
    var cols := Transpose(cell)[left..n - right];
    var rows := Window(cell, 0, n, left, n - right);
    var px := Window(cell, top, n - bottom, left, n - right);
    WindowRowPass(cell, top, bottom, left, n - right, n, rows, px);
    ColumnStage(cell, left, right, top, n - bottom, n, cols, rows);
    TrimGlyphOfColumns(cell, lim, cols, rows);
  }

  /** The column pass of such a cell keeps columns `left..n-right`, which
      transposed back are the full-height window between the side margins. */
  lemma ColumnStage(cell: Matrix, left: nat, right: nat, top: nat, bottom: nat, n: nat, cols: Matrix, rows: Matrix)
    requires |cell| == n && RowsOfWidth(cell, n) && left + right < n
    requires InkWithin(cell, top, bottom, left, n - right)
    requires cols == Transpose(cell)[left..n - right] && rows == Window(cell, 0, n, left, n - right)
    ensures Rectangular(cell)
    ensures ColumnPass(cell, left, right) == Ok(cols)
    ensures RowsOfWidth(cols, |cell|) && Transpose(cols) == rows
  {
    assert InkWithin(cell, 0, n, left, n - right);
    ColumnPassWindow(cell, left, right, n);
    TransposeColumnSlice(cell, left, n - right, n, cols, rows);
    ColumnPassWidth(cell, left, right);
  }

  /** Once the column pass and its transpose `rows` are known, the trim is
      the row pass over `rows`. */
  lemma TrimGlyphOfColumns(cell: Matrix, lim: seq<int>, cols: Matrix, rows: Matrix)
    requires |lim| == 4 && Rectangular(cell) && ColumnPass(cell, lim[3], lim[1]) == Ok(cols)
    requires RowsOfWidth(cols, |cell|) ==> Transpose(cols) == rows
    ensures TrimGlyph(cell, lim) == RowPass(rows, lim[0], lim[2])
  {
    ColumnPassWidth(cell, lim[3], lim[1]);
  }

  // ---------------------------------------------------------------------
  // Trimming with full limits stops at ink

  /** Column `c` holds no ink. */
  predicate ColumnBlank(m: Matrix, c: nat)
  {
    forall r :: 0 <= r < |m| && c < |m[r]| ==> m[r][c] == 0
  }

  /** A 0/1 row with an ink pixel does not sum to zero. */
  lemma InkedRowSum(row: Row, c: nat)
    requires forall k :: 0 <= k < |row| ==> row[k] == 0 || row[k] == 1
    requires c < |row| && row[c] != 0
    ensures RowSum(row) != 0
  {
    RowSumZeroIffBlank(row);
  }

  /** A row that does not sum to zero holds ink. */
  lemma NonZeroRowInked(row: Row)
    requires RowSum(row) != 0
    ensures !BlankRow(row)
  {
    if BlankRow(row) {
      BlankRowSum(row);
    }
  }

  /** With limits of at least the matrix's height, a two-sided trim of a
      matrix with a row `k` that does not sum to zero keeps that row and
      stops at such rows on both ends. */
  lemma TrimEndsTight(m: Matrix, first: int, second: int, k: nat)
    requires k < |m| && RowSum(m[k]) != 0 && first >= |m| && second >= |m|
    ensures TrimEnds(m, first, second).Ok?
    ensures var r := TrimEnds(m, first, second).value;
      var lo := TrimCount(m, first);
      && lo <= k < lo + |r| && lo + |r| <= |m|
      && RowSum(r[0]) != 0 && RowSum(r[|r| - 1]) != 0
  {
    LeadingBlankBelowInk(m, k);
    LeadingBlankSpec(m);
    var lo := TrimCount(m, first);
    assert lo == LeadingBlank(m);
    var t := TrimmedLeading(m, first);
    assert t == m[lo..] && t[0] == m[lo];
    var rest := Reversed(t);
    assert rest[|rest| - 1] == t[0];
    LeadingBlankBelowInk(rest, |rest| - 1);
    LeadingBlankSpec(rest);
    var j := TrimCount(rest, second);
    assert j == LeadingBlank(rest) < |rest|;
    assert TrimSafe(rest, second);
    var r := Reversed(TrimmedLeading(rest, second));
    assert TrimEnds(m, first, second) == Ok(r);
    assert r[|r| - 1] == rest[j];
    assert r[0] == rest[|rest| - 1];
    TrimEndsRemovesBlank(m, first, second);
    TrimEndsSlice(m, first, second);
  }

  /** The rows a two-sided trim keeps include every row that does not sum
      to zero. */
  lemma InkedRowsKept(m: Matrix, first: int, second: int, k: nat)
    requires TrimEnds(m, first, second).Ok? && k < |m| && RowSum(m[k]) != 0
    ensures var lo := TrimCount(m, first);
      lo <= k < lo + |TrimEnds(m, first, second).value|
  {
    TrimEndsRemovesBlank(m, first, second);
  }

  /** The column of an ink pixel is a 0/1 row of the transpose that does
      not sum to zero. */
  lemma InkedColumn(cell: Matrix, n: nat, r: nat, c: nat)
    requires |cell| == n && RowsOfWidth(cell, n) && Binary(cell)
    requires r < n && c < n && cell[r][c] != 0
    ensures |Transpose(cell)| == n && RowsOfWidth(Transpose(cell), n)
    ensures RowSum(Transpose(cell)[c]) != 0
  {
    TransposeShape(cell);
    var col := Transpose(cell)[c];
    assert forall k :: 0 <= k < n ==> col[k] == cell[k][c];
    InkedRowSum(col, r);
  }

  /** A tight column pass keeps every inked column. */
  lemma InkedColumnsKept(cell: Matrix, left: int, right: int, n: nat, lo: nat, hi: nat)
    requires |cell| == n && RowsOfWidth(cell, n) && Binary(cell)
    requires TrimEnds(Transpose(cell), left, right).Ok?
    requires lo == TrimCount(Transpose(cell), left) && hi == lo + |TrimEnds(Transpose(cell), left, right).value|
    ensures InkWithin(cell, 0, n, lo, hi)
  {
    forall r, c | 0 <= r < |cell| && 0 <= c < |cell[r]| && cell[r][c] != 0
      ensures lo <= c < hi
    {
      InkedColumn(cell, n, r, c);
      InkedRowsKept(Transpose(cell), left, right, c);
    }
  }

  /** After a tight column pass, the transposed columns are the full-height
      window of the cell between its first and last inked columns; the
      columns outside it are blank. */
  lemma TightColumns(cell: Matrix, left: int, right: int, n: nat, r0: nat, c0: nat)
    returns (lo: nat, hi: nat)
    requires |cell| == n && RowsOfWidth(cell, n) && Binary(cell)
    requires r0 < n && c0 < n && cell[r0][c0] != 0 && left >= n && right >= n
    ensures Rectangular(cell) && ColumnPass(cell, left, right).Ok?
    ensures lo <= c0 < hi <= n
    ensures var cols := ColumnPass(cell, left, right).value;
      && RowsOfWidth(cols, n) && Transpose(cols) == Window(cell, 0, n, lo, hi)
      && !BlankRow(Transpose(cell)[lo]) && !BlankRow(Transpose(cell)[hi - 1])
    ensures InkWithin(cell, 0, n, lo, hi)
  {
    InkedColumn(cell, n, r0, c0);
    var t := Transpose(cell);
    TrimEndsTight(t, left, right, c0);
    lo := TrimCount(t, left);
    hi := lo + |TrimEnds(t, left, right).value|;
    KeptColumns(cell, t, left, right, n, lo, hi);
    InkedColumnsKept(cell, left, right, n, lo, hi);
  }

  /** The columns a column pass keeps, transposed back, are the full-height
      window between them; its end columns are those of the kept run. */
  lemma KeptColumns(cell: Matrix, t: Matrix, left: int, right: int, n: nat, lo: nat, hi: nat)
    requires |cell| == n && RowsOfWidth(cell, n) && t == Transpose(cell)
    requires TrimEnds(t, left, right).Ok? && lo < hi
    requires lo == TrimCount(t, left) && hi == lo + |TrimEnds(t, left, right).value|
    requires RowSum(TrimEnds(t, left, right).value[0]) != 0
    requires RowSum(TrimEnds(t, left, right).value[hi - lo - 1]) != 0
    ensures hi <= n && Rectangular(cell)
    ensures var cols := TrimEnds(t, left, right).value;
      && RowsOfWidth(cols, n) && Transpose(cols) == Window(cell, 0, n, lo, hi)
      && !BlankRow(t[lo]) && !BlankRow(t[hi - 1])
  {
    var cols := TrimEnds(t, left, right).value;
    assert hi <= n && cols == t[lo..hi] by {
      TrimEndsSlice(t, left, right);
    }
    assert !BlankRow(t[lo]) && !BlankRow(t[hi - 1]) by {
      NonZeroRowInked(cols[0]);
      NonZeroRowInked(cols[hi - lo - 1]);
    }
    TransposeColumnSlice(cell, lo, hi, n, cols, Window(cell, 0, n, lo, hi));
  }

  /** Trimming a cell that holds ink at `(r0, c0)` with limits of at least
      its side cuts it to the bounding box of its ink: the glyph is the
      window of the cell between its first and last inked rows and columns,
      each of its four edges holds ink, no ink of the cell lies outside it,
      and its yOffset is the first inked row of the cell. */
  lemma TrimGlyphTight(cell: Matrix, lim: seq<int>, n: nat, r0: nat, c0: nat) returns (left: nat, g: Glyph)
    requires |cell| == n && RowsOfWidth(cell, n) && Binary(cell)
    requires r0 < n && c0 < n && cell[r0][c0] != 0
    requires |lim| == 4 && lim[0] >= n && lim[1] >= n && lim[2] >= n && lim[3] >= n
    ensures Rectangular(cell) && TrimGlyph(cell, lim) == Ok(g)
    ensures 0 < |g.pixels| && g.yOffset + |g.pixels| <= n
    ensures 0 < |g.pixels[0]| && left + |g.pixels[0]| <= n
    ensures g.pixels == Window(cell, g.yOffset, g.yOffset + |g.pixels|, left, left + |g.pixels[0]|)
    ensures InkWithin(cell, g.yOffset, g.yOffset + |g.pixels|, left, left + |g.pixels[0]|)
    ensures !BlankRow(g.pixels[0]) && !BlankRow(g.pixels[|g.pixels| - 1])
    ensures !ColumnBlank(g.pixels, 0) && !ColumnBlank(g.pixels, |g.pixels[0]| - 1)
  {
    var lo, hi := TightColumns(cell, lim[3], lim[1], n, r0, c0);
    left := lo;
    var cols := ColumnPass(cell, lim[3], lim[1]).value;
    var rows := Window(cell, 0, n, lo, hi);
    TrimGlyphOfColumns(cell, lim, cols, rows);
    var y, px := TightRows(cell, rows, lim[0], lim[2], n, lo, hi, r0, c0);
    g := Glyph(px, y);
  }

  /** A row of the window that holds ink in the cell does not sum to zero. */
  lemma InkedWindowRow(cell: Matrix, rows: Matrix, n: nat, lo: nat, hi: nat, r: nat, c: nat)
    requires |cell| == n && RowsOfWidth(cell, n) && Binary(cell) && lo <= c < hi <= n && r < n
    requires rows == Window(cell, 0, n, lo, hi) && cell[r][c] != 0
    ensures RowSum(rows[r]) != 0
  {
    var row := rows[r];
    assert row == cell[r][lo..hi];
    assert forall k :: 0 <= k < |row| ==> row[k] == cell[r][lo + k];
    InkedRowSum(row, c - lo);
  }

  /** The row pass over the window keeps every row that holds ink. */
  lemma InkedRowsOfWindowKept(cell: Matrix, rows: Matrix, top: int, bottom: int, n: nat, lo: nat, hi: nat, y: nat, b: nat)
    requires |cell| == n && RowsOfWidth(cell, n) && Binary(cell) && lo <= hi <= n
    requires rows == Window(cell, 0, n, lo, hi) && InkWithin(cell, 0, n, lo, hi)
    requires TrimEnds(rows, top, bottom).Ok?
    requires y == TrimCount(rows, top) && b == y + |TrimEnds(rows, top, bottom).value|
    ensures InkWithin(cell, y, b, lo, hi)
  {
    forall r, c | 0 <= r < |cell| && 0 <= c < |cell[r]| && cell[r][c] != 0
      ensures y <= r < b
    {
      InkedWindowRow(cell, rows, n, lo, hi, r, c);
      InkedRowsKept(rows, top, bottom, r);
    }
  }

  /** The tight row pass over the window keeps a run of its rows, each end
      of which holds ink. */
  lemma TightRowPass(cell: Matrix, rows: Matrix, top: int, bottom: int, n: nat, lo: nat, hi: nat, r0: nat)
    returns (y: nat, px: Matrix)
    requires |cell| == n && lo <= hi <= n && r0 < n
    requires forall r :: 0 <= r < |cell| ==> hi <= |cell[r]|
    requires rows == Window(cell, 0, n, lo, hi) && RowSum(rows[r0]) != 0
    requires top >= n && bottom >= n
    ensures TrimEnds(rows, top, bottom) == Ok(px) && y == TrimCount(rows, top)
    ensures RowPass(rows, top, bottom) == Ok(Glyph(px, y))
    ensures 0 < |px| && y + |px| <= n && px == Window(cell, y, y + |px|, lo, hi)
    ensures !BlankRow(px[0]) && !BlankRow(px[|px| - 1])
  {
    TrimEndsTight(rows, top, bottom, r0);
    TrimEndsSlice(rows, top, bottom);
    px := TrimEnds(rows, top, bottom).value;
    y := TrimCount(rows, top);
    WindowRows(cell, y, y + |px|, lo, hi);
    NonZeroRowInked(px[0]);
    NonZeroRowInked(px[|px| - 1]);
  }

  /** The row pass over the full-height window of the inked columns keeps
      the rows between the first and last inked rows. */
  lemma TightRows(cell: Matrix, rows: Matrix, top: int, bottom: int, n: nat, lo: nat, hi: nat, r0: nat, c0: nat)
    returns (y: nat, px: Matrix)
    requires |cell| == n && RowsOfWidth(cell, n) && Binary(cell)
    requires lo <= c0 < hi <= n && r0 < n && cell[r0][c0] != 0
    requires rows == Window(cell, 0, n, lo, hi)
    requires InkWithin(cell, 0, n, lo, hi) && top >= n && bottom >= n
    requires !BlankRow(Transpose(cell)[lo]) && !BlankRow(Transpose(cell)[hi - 1])
    ensures RowPass(rows, top, bottom) == Ok(Glyph(px, y))
    ensures 0 < |px| && y + |px| <= n && |px[0]| == hi - lo
    ensures px == Window(cell, y, y + |px|, lo, hi)
    ensures InkWithin(cell, y, y + |px|, lo, hi)
    ensures !BlankRow(px[0]) && !BlankRow(px[|px| - 1])
    ensures !ColumnBlank(px, 0) && !ColumnBlank(px, hi - lo - 1)
  {
    InkedWindowRow(cell, rows, n, lo, hi, r0, c0);
    y, px := TightRowPass(cell, rows, top, bottom, n, lo, hi, r0);
    InkedRowsOfWindowKept(cell, rows, top, bottom, n, lo, hi, y, y + |px|);
    InkedEdgeColumns(cell, px, y, y + |px|, lo, hi, n);
  }

  /** The first and last columns of the window of the kept rows hold ink
      when the cell's columns `lo` and `hi-1` do. */
  lemma InkedEdgeColumns(cell: Matrix, px: Matrix, y: nat, b: nat, lo: nat, hi: nat, n: nat)
    requires |cell| == n && RowsOfWidth(cell, n) && y < b <= n && lo < hi <= n
    requires px == Window(cell, y, b, lo, hi) && InkWithin(cell, y, b, lo, hi)
    requires !BlankRow(Transpose(cell)[lo]) && !BlankRow(Transpose(cell)[hi - 1])
    ensures |px[0]| == hi - lo && !ColumnBlank(px, 0) && !ColumnBlank(px, hi - lo - 1)
  {
    InkedEdgeColumn(cell, px, y, b, lo, hi, n, lo);
    InkedEdgeColumn(cell, px, y, b, lo, hi, n, hi - 1);
  }

  /** A column of the cell that holds ink stays inked in the window of the
      kept rows when every ink pixel lies in those rows. */
  lemma InkedEdgeColumn(cell: Matrix, px: Matrix, y: nat, b: nat, lo: nat, hi: nat, n: nat, c: nat)
    requires |cell| == n && RowsOfWidth(cell, n) && y <= b <= n && lo <= c < hi <= n
    requires px == Window(cell, y, b, lo, hi) && InkWithin(cell, y, b, lo, hi)
    requires !BlankRow(Transpose(cell)[c])
    ensures !ColumnBlank(px, c - lo)
  {
    TransposeShape(cell);
    var r :| 0 <= r < n && Transpose(cell)[c][r] != 0;
    assert cell[r][c] != 0;
    assert px[r - y][c - lo] == cell[r][c];
  }

  /** The worked example of the trim: a single ink pixel at row 3, column 5
      of a 10-by-10 cell, trimmed with full limits, gives the 1-by-1 glyph
      with yOffset 3. */
  lemma SinglePixelGlyph(cell: Matrix, lim: seq<int>)
    requires |cell| == 10 && RowsOfWidth(cell, 10)
    requires forall r, c :: 0 <= r < 10 && 0 <= c < 10 ==> cell[r][c] == if r == 3 && c == 5 then 1 else 0
    requires |lim| == 4 && lim[0] >= 10 && lim[1] >= 10 && lim[2] >= 10 && lim[3] >= 10
    ensures Rectangular(cell) && TrimGlyph(cell, lim) == Ok(Glyph([[1]], 3))
  {
    var left, g := TrimGlyphTight(cell, lim, 10, 3, 5);
    SinglePixelBox(cell, g.pixels, g.yOffset, left);
  }

  /** The only window of that cell that holds all its ink and has ink on
      each of its four edges is the pixel itself. */
  lemma SinglePixelBox(cell: Matrix, px: Matrix, top: nat, left: nat)
    requires |cell| == 10 && RowsOfWidth(cell, 10)
    requires forall r, c :: 0 <= r < 10 && 0 <= c < 10 ==> cell[r][c] == if r == 3 && c == 5 then 1 else 0
    requires 0 < |px| && top + |px| <= 10 && 0 < |px[0]| && left + |px[0]| <= 10
    requires px == Window(cell, top, top + |px|, left, left + |px[0]|)
    requires !BlankRow(px[0]) && !BlankRow(px[|px| - 1])
    requires !ColumnBlank(px, 0) && !ColumnBlank(px, |px[0]| - 1)
    ensures px == [[1]] && top == 3
  {
    var h := |px|;
    var w := |px[0]|;
    assert forall r :: 0 <= r < h ==> px[r] == cell[top + r][left..left + w];
    var c0 :| 0 <= c0 < w && px[0][c0] != 0;
    assert cell[top][left + c0] != 0;
    var c1 :| 0 <= c1 < |px[h - 1]| && px[h - 1][c1] != 0;
    assert cell[top + h - 1][left + c1] != 0;
    var r0 :| 0 <= r0 < h && 0 < |px[r0]| && px[r0][0] != 0;
    assert cell[top + r0][left] != 0;
    var r1 :| 0 <= r1 < h && w - 1 < |px[r1]| && px[r1][w - 1] != 0;
    assert cell[top + r1][left + w - 1] != 0;
    assert top == 3 && h == 1 && left == 5 && w == 1;
    assert px[0] == [cell[3][5]];
  }

  // ---------------------------------------------------------------------
  // Properties of the extraction

  /** A matrix without ink has its ink within any margins. */
  lemma BlankInkWithin(m: Matrix, top: int, bottom: int, left: int, right: int)
    requires NoInk(m)
    ensures InkWithin(m, top, bottom, left, right)
  {
  }

  /** The window between the margins has their distance as its height, and
      as the width of every row. */
  lemma WindowShape(m: Matrix, top: nat, bottom: nat, left: nat, right: nat)
    requires top <= bottom <= |m| && left <= right
    requires forall r :: 0 <= r < |m| ==> right <= |m[r]|
    ensures |Window(m, top, bottom, left, right)| == bottom - top
    ensures RowsOfWidth(Window(m, top, bottom, left, right), right - left)
  {
  }

  /** A window of a matrix without ink holds no ink. */
  lemma WindowBlank(m: Matrix, top: nat, bottom: nat, left: nat, right: nat, w: Matrix)
    requires top <= bottom <= |m| && left <= right
    requires forall r :: 0 <= r < |m| ==> right <= |m[r]|
    requires w == Window(m, top, bottom, left, right) && NoInk(m)
    ensures NoInk(w)
  {
    forall r, c | 0 <= r < |w| && 0 <= c < |w[r]|
      ensures w[r][c] == 0
    {
      assert w[r][c] == m[top + r][left + c];
    }
  }

  /** A cell in the grid whose ink lies within the margins its trim limits
      name extracts to the window between those margins, with the top
      limit as its yOffset. */
  lemma ExtractWindow(img: Image, f: FontSpec, row: int, col: int, cell: Matrix, n: nat,
                      top: nat, right: nat, bottom: nat, left: nat)
    requires GridSize(f) > 0 && InGrid(img, f, row, col)
    requires cell == RawCell(img, f, row, col) && n == CellSide(f)
    requires TrimLimits(f, row, col) == [top, right, bottom, left]
    requires left + right < n && top + bottom <= n
    requires InkWithin(cell, top, n - bottom, left, n - right)
    ensures |cell| == n && RowsOfWidth(cell, n)
    ensures ExtractGlyph(img, f, row, col) == Ok(Glyph(Window(cell, top, n - bottom, left, n - right), top))
  {
    ExtractInGrid(img, f, row, col);
    TrimGlyphWindow(cell, top, right, bottom, left, n);
  }

  /** A blank cell has its ink within any margins, and its window between
      them is a blank rectangle of their distances. */
  lemma BlankWindow(cell: Matrix, n: nat, top: nat, right: nat, bottom: nat, left: nat, px: Matrix)
    requires |cell| == n && RowsOfWidth(cell, n) && left + right < n && top + bottom <= n
    requires NoInk(cell) && px == Window(cell, top, n - bottom, left, n - right)
    ensures InkWithin(cell, top, n - bottom, left, n - right)
    ensures |px| == n - bottom - top && RowsOfWidth(px, n - right - left) && NoInk(px)
  {
    BlankInkWithin(cell, top, n - bottom, left, n - right);
    WindowShape(cell, top, n - bottom, left, n - right);
    WindowBlank(cell, top, n - bottom, left, n - right, px);
  }

  /** A blank cell in the grid extracts to the blank window its trim limits
      name, with the top limit as its yOffset. */
  lemma ExtractBlank(img: Image, f: FontSpec, row: int, col: int, cell: Matrix, n: nat,
                     top: nat, right: nat, bottom: nat, left: nat)
    requires GridSize(f) > 0 && InGrid(img, f, row, col)
    requires cell == RawCell(img, f, row, col) && n == CellSide(f)
    requires TrimLimits(f, row, col) == [top, right, bottom, left]
    requires left + right < n && top + bottom <= n
    requires NoInk(cell)
    ensures var px := Window(cell, top, n - bottom, left, n - right);
      && ExtractGlyph(img, f, row, col) == Ok(Glyph(px, top))
      && |px| == n - bottom - top && RowsOfWidth(px, n - right - left) && NoInk(px)
  {
    var px := Window(cell, top, n - bottom, left, n - right);
    BlankWindow(cell, n, top, right, bottom, left, px);
    ExtractWindow(img, f, row, col, cell, n, top, right, bottom, left);
  }

  /** Inside the grid, extraction is the trim of the sampled cell. */
  lemma ExtractInGrid(img: Image, f: FontSpec, row: int, col: int)
    requires GridSize(f) > 0 && InGrid(img, f, row, col)
    ensures ExtractGlyph(img, f, row, col) == TrimGlyph(RawCell(img, f, row, col), TrimLimits(f, row, col))
  {
  }

  /** Extraction reports OutOfRange exactly for cells outside the grid. */
  lemma ExtractOutOfRange(img: Image, f: FontSpec, row: int, col: int)
    requires GridSize(f) > 0
    ensures ExtractGlyph(img, f, row, col) == Err(OutOfRange) <==> !InGrid(img, f, row, col)
  {
    if InGrid(img, f, row, col) {
      RawCellShape(img, f, row, col);
      TrimGlyphFailsOnlyByPanic(RawCell(img, f, row, col), TrimLimits(f, row, col));
    }
  }

  /** A successful extraction gives a 0/1 glyph with rows of one width no
      wider than the cell, and the rows trimmed from the top plus the rows
      kept fit in the cell's side. */
  lemma ExtractBounds(img: Image, f: FontSpec, row: int, col: int)
    requires GridSize(f) > 0 && ExtractGlyph(img, f, row, col).Ok?
    ensures var g := ExtractGlyph(img, f, row, col).value;
      && g.yOffset + |g.pixels| <= CellSide(f)
      && Binary(g.pixels)
      && (|g.pixels| > 0 ==> |g.pixels[0]| <= CellSide(f) && RowsOfWidth(g.pixels, |g.pixels[0]|))
  {
    RawCellSpec(img, f, row, col);
    var cell := RawCell(img, f, row, col);
    TrimGlyphSpec(cell, TrimLimits(f, row, col), CellSide(f));
    TrimGlyphBinary(cell, TrimLimits(f, row, col));
  }

  /** Every glyph extraction returns is packable: its rows share one width,
      so the packing loop never reads past the end of a row. */
  lemma ExtractPackable(img: Image, f: FontSpec, row: int, col: int)
    requires GridSize(f) > 0 && ExtractGlyph(img, f, row, col).Ok?
    ensures Pattern.Packable(ExtractGlyph(img, f, row, col).value.pixels)
  {
    ExtractBounds(img, f, row, col);
    var m := ExtractGlyph(img, f, row, col).value.pixels;
    if |m| > 0 {
      Pattern.RowsOfWidthPackable(m, |m[0]|);
    }
  }

  /** For a sheet whose gutter equals its border the cell is `Size` square,
      and with `Size >= 13` every trim policy fits it, so extraction of a
      cell in the grid always succeeds. */
  lemma ExtractNeverPanics(img: Image, f: FontSpec, row: int, col: int)
    requires GridSize(f) > 0 && f.gutter == f.border && f.size >= 13
    requires InGrid(img, f, row, col)
    ensures ExtractGlyph(img, f, row, col).Ok?
  {
    RawCellSpec(img, f, row, col);
    var lim := TrimLimits(f, row, col);
    assert CellSide(f) == f.size;
    assert PairFits(lim[3], lim[1], f.size) && PairFits(lim[0], lim[2], f.size);
    TrimGlyphSafe(RawCell(img, f, row, col), lim, f.size);
  }

  /** A blank cell trimmed with full limits ends as the empty glyph with
      yOffset 0. */
  lemma ExtractBlankCell(img: Image, f: FontSpec, row: int, col: int)
    requires GridSize(f) > 0 && InGrid(img, f, row, col)
    requires NoInk(RawCell(img, f, row, col))
    requires TrimLimits(f, row, col)[3] == CellSide(f)
    ensures ExtractGlyph(img, f, row, col) == Ok(Glyph([], 0))
  {
    RawCellSpec(img, f, row, col);
    TrimGlyphBlank(RawCell(img, f, row, col), TrimLimits(f, row, col), CellSide(f));
  }

  /** The trimming steps of sprite.go:53-71. */
  method TrimCell(cell: Matrix, lim: seq<int>) returns (res: Result<Glyph, ExtractError>)
    requires |lim| == 4 && Rectangular(cell)
    ensures res == TrimGlyph(cell, lim)
  {
    // Trim left and right whitespace
    var pxMatrix := MatrixTranspose(cell);
    TransposeRectangular(cell);
    TrimEndsKeepsRowsOfWidth(pxMatrix, lim[3], lim[1], |cell|);
    var cols := TrimEndsSteps(pxMatrix, lim[3], lim[1]);
    if cols.Err? {
      return Err(cols.error);
    }
    pxMatrix := MatrixTranspose(cols.value);
    ghost var c := pxMatrix;
    // Trim top whitespace and count the removed rows
    var preTrimH := |pxMatrix|;
    if !TrimSafe(pxMatrix, lim[0]) {
      return Err(TrimPanic);
    }
    pxMatrix := TrimLeadingEmptyRows(pxMatrix, lim[0]);
    var yOffset := preTrimH - |pxMatrix|;
    // Trim bottom whitespace
    pxMatrix := ReverseRows(pxMatrix);
    if !TrimSafe(pxMatrix, lim[2]) {
      return Err(TrimPanic);
    }
    pxMatrix := TrimLeadingEmptyRows(pxMatrix, lim[2]);
    pxMatrix := ReverseRows(pxMatrix);
    assert TrimEnds(c, lim[0], lim[2]) == Ok(pxMatrix);
    return Ok(Glyph(pxMatrix, yOffset));
  }

  /** Trim, reverse, trim, reverse, stopping where a trim would panic. */
  method TrimEndsSteps(m: Matrix, first: int, second: int) returns (res: Result<Matrix, ExtractError>)
    ensures res == TrimEnds(m, first, second)
  {
    if !TrimSafe(m, first) {
      return Err(TrimPanic);
    }
    var pxMatrix := TrimLeadingEmptyRows(m, first);
    pxMatrix := ReverseRows(pxMatrix);
    if !TrimSafe(pxMatrix, second) {
      return Err(TrimPanic);
    }
    pxMatrix := TrimLeadingEmptyRows(pxMatrix, second);
    pxMatrix := ReverseRows(pxMatrix);
    return Ok(pxMatrix);
  }
}
