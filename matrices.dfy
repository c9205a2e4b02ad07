/** The matrix helpers of the glyph trimmer (codegen/font/sprite.go): a glyph
    is a row-major matrix of pixel values (1 = ink, 0 = background).  Each Go
    helper that builds a matrix by appending in a loop is a method here,
    proved against a function that says what the result is. */
module Matrices {

  type Row = seq<int>
  type Matrix = seq<Row>

  /** Every row is at least as long as the first one: what indexing
      `m[r][c]` for every `c < len(m[0])` needs. */
  predicate Wide(m: Matrix)
  {
    forall r :: 0 <= r < |m| ==> |m[r]| >= |m[0]|
  }

  /** All rows have the same length. */
  predicate Rectangular(m: Matrix)
  {
    forall r :: 0 <= r < |m| ==> |m[r]| == |m[0]|
  }

  /** All rows have length `w`. */
  predicate RowsOfWidth(m: Matrix, w: nat)
  {
    forall r :: 0 <= r < |m| ==> |m[r]| == w
  }

  /** Pixel values are 0 or 1, as the sampler produces them. */
  predicate Binary(m: Matrix)
  {
    forall r, c :: 0 <= r < |m| && 0 <= c < |m[r]| ==> m[r][c] == 0 || m[r][c] == 1
  }

  /** Sum of a row, as the `for _, n := range row { sum += n }` loop computes it. */
  function RowSum(row: Row): int
  {
    if row == [] then 0 else RowSum(row[..|row| - 1]) + row[|row| - 1]
  }

  predicate BlankRow(row: Row)
  {
    forall c :: 0 <= c < |row| ==> row[c] == 0
  }

  /** No pixel of the matrix holds ink. */
  predicate NoInk(m: Matrix)
  {
    forall r, c :: 0 <= r < |m| && 0 <= c < |m[r]| ==> m[r][c] == 0
  }

  /** For non-negative pixels a row sums to zero exactly when it holds no ink. */
  lemma {:induction false} RowSumZeroIffBlank(row: Row)
    requires forall c :: 0 <= c < |row| ==> row[c] >= 0
    ensures RowSum(row) == 0 <==> BlankRow(row)
    ensures RowSum(row) >= 0
  {
    if row != [] {
      var init := row[..|row| - 1];
      RowSumZeroIffBlank(init);
      if RowSum(row) == 0 {
        assert forall c :: 0 <= c < |init| ==> row[c] == init[c];
      }
    }
  }

  /** A blank row sums to zero, whatever other values the matrix may hold. */
  lemma {:induction false} BlankRowSum(row: Row)
    requires BlankRow(row)
    ensures RowSum(row) == 0
  {
    if row != [] {
      BlankRowSum(row[..|row| - 1]);
    }
  }

  // ---------------------------------------------------------------------
  // reverseRows (sprite.go:91-97)

  function Reversed(m: Matrix): Matrix
  {
    seq(|m|, i requires 0 <= i < |m| => m[|m| - 1 - i])
  }

  /** Reversing the rows twice gives the matrix back. */
  lemma ReversedInvolution(m: Matrix)
    ensures Reversed(Reversed(m)) == m
  {
  }

  lemma ReversedKeepsRowsOfWidth(m: Matrix, w: nat)
    requires RowsOfWidth(m, w)
    ensures RowsOfWidth(Reversed(m), w)
  {
  }

  method ReverseRows(src: Matrix) returns (dest: Matrix)
    ensures dest == Reversed(src)
  {
    dest := [];
    var i := |src| - 1;
    while i >= 0
      invariant -1 <= i < |src|
      invariant |dest| == |src| - 1 - i
      invariant forall k :: 0 <= k < |dest| ==> dest[k] == src[|src| - 1 - k]
    {
      dest := dest + [src[i]];
      i := i - 1;
    }
  }

  // ---------------------------------------------------------------------
  // matrixTranspose (sprite.go:202-217)

  /** Column `c` of `m` becomes row `c`.  A matrix with no rows is returned as
      it is, and one whose first row is empty gives no rows at all. */
  function Transpose(m: Matrix): (t: Matrix)
    requires Wide(m)
    ensures |t| == (if |m| == 0 then 0 else |m[0]|) && RowsOfWidth(t, |m|)
  {
    if |m| == 0 then m
    else seq(|m[0]|, c requires 0 <= c < |m[0]| => seq(|m|, r requires 0 <= r < |m| => m[r][c]))
  }

  /** An h-by-w matrix (h, w > 0) transposes to a w-by-h one with t[c][r] == m[r][c]. */
  lemma TransposeShape(m: Matrix)
    requires |m| > 0 && |m[0]| > 0 && Wide(m)
    ensures |Transpose(m)| == |m[0]| && RowsOfWidth(Transpose(m), |m|)
    ensures forall r, c :: 0 <= r < |m| && 0 <= c < |m[0]| ==> Transpose(m)[c][r] == m[r][c]
  {
  }

  /** With no rows, or rows of width zero, the transpose is empty. */
  lemma TransposeOfDegenerate(m: Matrix)
    requires Wide(m) && (|m| == 0 || |m[0]| == 0)
    ensures Transpose(m) == []
  {
  }

  /** The transpose of any matrix has rows of one width. */
  lemma TransposeRectangular(m: Matrix)
    requires Wide(m)
    ensures Rectangular(Transpose(m)) && Wide(Transpose(m))
    ensures RowsOfWidth(Transpose(m), |m|)
  {
  }

  lemma TransposeKeepsBinary(m: Matrix)
    requires Wide(m) && Binary(m)
    ensures Binary(Transpose(m))
  {
  }

  /** Transposing a rectangular matrix twice gives it back when it has at
      least one column; without columns the result is empty. */
  lemma {:induction false} TransposeInvolution(m: Matrix)
    requires Rectangular(m)
    ensures |m| > 0 && |m[0]| > 0 ==> Transpose(Transpose(m)) == m
    ensures |m| == 0 || |m[0]| == 0 ==> Transpose(Transpose(m)) == []
  {
    if |m| > 0 && |m[0]| > 0 {
      TransposeShape(m);
      var t := Transpose(m);
      TransposeShape(t);
      assert forall r :: 0 <= r < |m| ==> Transpose(t)[r] == m[r];
    }
  }

  method MatrixTranspose(matrix: Matrix) returns (transposed: Matrix)
    requires Wide(matrix)
    ensures transposed == Transpose(matrix)
  {
    if |matrix| < 1 {
      return matrix;
    }
    var w := |matrix[0]|;
    var h := |matrix|;
    transposed := [];
    var col := 0;
    while col < w
      invariant 0 <= col <= w
      invariant transposed == Transpose(matrix)[..col]
    {
      var trRow := [];
      var row := 0;
      while row < h
        invariant 0 <= row <= h
        invariant |trRow| == row
        invariant forall r :: 0 <= r < row ==> trRow[r] == matrix[r][col]
      {
        trRow := trRow + [matrix[row][col]];
        row := row + 1;
      }
      assert trRow == Transpose(matrix)[col];
      transposed := transposed + [trRow];
      col := col + 1;
    }
  }

  // ---------------------------------------------------------------------
  // trimLeadingEmptyRows (sprite.go:100-116)

  /** Number of leading rows that sum to zero. */
  function LeadingBlank(m: Matrix): nat
  {
    if m == [] || RowSum(m[0]) != 0 then 0 else 1 + LeadingBlank(m[1..])
  }

  /** The leading blank rows are exactly the rows before the first row whose
      sum is not zero. */
  lemma {:induction false} LeadingBlankSpec(m: Matrix)
    ensures LeadingBlank(m) <= |m|
    ensures forall k :: 0 <= k < LeadingBlank(m) ==> RowSum(m[k]) == 0
    ensures LeadingBlank(m) < |m| ==> RowSum(m[LeadingBlank(m)]) != 0
  {
    if m != [] && RowSum(m[0]) == 0 {
      LeadingBlankSpec(m[1..]);
    }
  }

  /** If the first `k` rows sum to zero then at least `k` rows are leading blank. */
  lemma {:induction false} LeadingBlankAtLeast(m: Matrix, k: nat)
    requires k <= |m|
    requires forall i :: 0 <= i < k ==> RowSum(m[i]) == 0
    ensures LeadingBlank(m) >= k
  {
    if k > 0 {
      LeadingBlankAtLeast(m[1..], k - 1);
    }
  }

  /** The loop of trimLeadingEmptyRows reads `pxMatrix[0]` while it still has
      budget; it indexes an empty slice (and panics) exactly when every row is
      blank and the limit exceeds the number of rows. */
  predicate TrimSafe(m: Matrix, limit: int)
  {
    |m| == 0 || LeadingBlank(m) < |m| || limit <= |m|
  }

  /** How many rows the trim removes: the blank prefix, capped by the limit. */
  function TrimCount(m: Matrix, limit: int): nat
  {
    if limit <= 0 then 0
    else if limit < LeadingBlank(m) then limit
    else LeadingBlank(m)
  }

  function TrimmedLeading(m: Matrix, limit: int): Matrix
    requires TrimSafe(m, limit)
  {
    LeadingBlankSpec(m);
    m[TrimCount(m, limit)..]
  }

  /** What trimLeadingEmptyRows promises: a suffix of the input, at most
      `limit` rows shorter, every removed row sums to zero, and when fewer
      than `limit` rows went the first remaining row holds ink. */
  lemma TrimmedLeadingSpec(m: Matrix, limit: int)
    requires TrimSafe(m, limit)
    ensures var r := TrimmedLeading(m, limit);
      && |r| <= |m| && r == m[|m| - |r|..]
      && |m| - |r| <= (if limit < 0 then 0 else limit)
      && (forall k :: 0 <= k < |m| - |r| ==> RowSum(m[k]) == 0)
      && (|m| - |r| < limit && |m| > 0 ==> |r| > 0 && RowSum(r[0]) != 0)
    ensures |m| == 0 ==> TrimmedLeading(m, limit) == m
  {
    LeadingBlankSpec(m);
  }

  /** When the first `limit` rows are blank the trim removes exactly `limit` rows. */
  lemma TrimmedLeadingExact(m: Matrix, limit: nat)
    requires limit <= |m|
    requires forall k :: 0 <= k < limit ==> BlankRow(m[k])
    ensures TrimSafe(m, limit) && TrimmedLeading(m, limit) == m[limit..]
  {
    forall k | 0 <= k < limit ensures RowSum(m[k]) == 0 {
      BlankRowSum(m[k]);
    }
    LeadingBlankAtLeast(m, limit);
  }

  lemma TrimmedKeepsRowsOfWidth(m: Matrix, limit: int, w: nat)
    requires TrimSafe(m, limit) && RowsOfWidth(m, w)
    ensures RowsOfWidth(TrimmedLeading(m, limit), w)
  {
  }

  method TrimLeadingEmptyRows(pxMatrix: Matrix, limit: int) returns (r: Matrix)
    requires TrimSafe(pxMatrix, limit)
    ensures r == TrimmedLeading(pxMatrix, limit)
  {
    LeadingBlankSpec(pxMatrix);
    r := pxMatrix;
    if |r| < 1 {
      return;
    }
    var i := 0;
    while i < limit
      invariant 0 <= i <= LeadingBlank(pxMatrix)
      invariant if limit > 0 then i <= limit else i == 0
      invariant r == pxMatrix[i..]
      decreases limit - i
    {
      var sum := 0;
      var j := 0;
      while j < |r[0]|
        invariant 0 <= j <= |r[0]|
        invariant sum == RowSum(r[0][..j])
      {
        assert r[0][..j + 1][..j] == r[0][..j];
        sum := sum + r[0][j];
        j := j + 1;
      }
      assert r[0][..j] == r[0];
      if |r| > 0 && sum == 0 {
        r := r[1..];
      } else {
        break;
      }
      i := i + 1;
    }
    assert TrimCount(pxMatrix, limit) == i;
  }

  // ---------------------------------------------------------------------
  // min (sprite.go:220-225), over uint32

  function Min(a: bv32, b: bv32): (r: bv32)
    ensures r <= a && r <= b && (r == a || r == b)
  {
    if b > a then a else b
  }
}
