/** Blit-pattern packing (codegen/font/sprite.go:138-174): a header word
    `w<<16 | h<<8 | yOffset` followed by the glyph's pixels, one bit each,
    packed most significant bit first into 32-bit words, the last word padded
    with zero bits.  Each row is read from its rightmost pixel to its leftmost,
    so the top-right pixel of the glyph lands in the most significant bit of
    the first data word.

    Words are `bv32`, as Go's `uint32`.  What a word means bit by bit is said
    through its value as a natural number: `Bit(w as int, k)` is bit `k`
    counted from the least significant end. */
module Pattern {
  import opened Matrices

  const WORD_MOD: nat := 0x1_0000_0000

  // ---------------------------------------------------------------------
  // Natural-number view of words

  function Pow2(k: nat): (p: nat)
    ensures p > 0
  {
    if k == 0 then 1 else 2 * Pow2(k - 1)
  }

  lemma {:induction false} Pow2Monotone(a: nat, b: nat)
    requires a <= b
    ensures Pow2(a) <= Pow2(b)
  {
    if a < b {
      Pow2Monotone(a, b - 1);
    }
  }

  lemma Pow2Of31()
    ensures Pow2(28) == 0x1000_0000 && Pow2(31) == 0x8000_0000
  {
    assert Pow2(8) == 0x100;
    assert Pow2(16) == 0x1_0000;
    assert Pow2(24) == 0x100_0000;
    assert Pow2(28) == 0x1000_0000;
  }

  /** Bit `k` of `n`, counted from the least significant end. */
  function Bit(n: nat, k: nat): bool
  {
    if k == 0 then n % 2 == 1 else Bit(n / 2, k - 1)
  }

  lemma {:induction false} ZeroHasNoBits(k: nat)
    ensures !Bit(0, k)
  {
    if k > 0 {
      ZeroHasNoBits(k - 1);
    }
  }

  /** The number a sequence of bits spells, most significant first. */
  function Value(bs: seq<bool>): nat
  {
    if bs == [] then 0 else 2 * Value(bs[..|bs| - 1]) + (if bs[|bs| - 1] then 1 else 0)
  }

  lemma {:induction false} ValueBound(bs: seq<bool>)
    ensures Value(bs) < Pow2(|bs|)
  {
    if bs != [] {
      ValueBound(bs[..|bs| - 1]);
    }
  }

  /** Bit `k` of the value is the `k`-th bit from the end of the sequence,
      and every bit above its length is clear. */
  lemma {:induction false} ValueBits(bs: seq<bool>, k: nat)
    ensures Bit(Value(bs), k) == (k < |bs| && bs[|bs| - 1 - k])
  {
    if bs == [] {
      ZeroHasNoBits(k);
    } else {
      var init := bs[..|bs| - 1];
      var b := if bs[|bs| - 1] then 1 else 0;
      assert (2 * Value(init) + b) / 2 == Value(init);
      if k > 0 {
        ValueBits(init, k - 1);
      }
    }
  }

  function Zeros(n: nat): (z: seq<bool>)
    ensures |z| == n && forall i :: 0 <= i < n ==> !z[i]
  {
    seq(n, i => false)
  }

  /** One more zero bit doubles the value. */
  lemma ValueAppendZero(bs: seq<bool>, n: nat)
    requires n > 0
    ensures Value(bs + Zeros(n)) == 2 * Value(bs + Zeros(n - 1))
  {
    var s := bs + Zeros(n);
    assert s[..|s| - 1] == bs + Zeros(n - 1);
  }

  /** Appending `n` zero bits multiplies the value by 2^n. */
  lemma {:induction false} ValueAppendZeros(bs: seq<bool>, n: nat)
    ensures Value(bs + Zeros(n)) == Value(bs) * Pow2(n)
  {
    if n == 0 {
      assert bs + Zeros(0) == bs;
    } else {
      ValueAppendZeros(bs, n - 1);
      ValueAppendZero(bs, n);
      DoubleProduct(Value(bs), Pow2(n - 1));
    }
  }

  lemma DoubleProduct(a: nat, b: nat)
    ensures a * (2 * b) == 2 * (a * b)
  {
  }

  // ---------------------------------------------------------------------
  // Words

  /** `(w << 1) | b`: one more bit shifted in at the bottom. */
  function ShiftIn(w: bv32, b: bool): bv32
  {
    (w << 1) | (if b then 1 else 0)
  }

  lemma DoubleValue(w: bv32)
    requires w as int < 0x8000_0000
    ensures (w << 1) as int == 2 * (w as int)
  {
  }

  lemma DoubleValuePlusOne(w: bv32)
    requires w as int < 0x8000_0000
    ensures ((w << 1) | 1) as int == 2 * (w as int) + 1
  {
  }

  lemma ShiftInValue(w: bv32, b: bool)
    requires w as int < 0x8000_0000
    ensures ShiftIn(w, b) as int == 2 * (w as int) + (if b then 1 else 0)
  {
    if b {
      DoubleValuePlusOne(w);
    } else {
      DoubleValue(w);
      assert (w << 1) | 0 == w << 1;
    }
  }

  /** The two branches of the packing loop. */
  lemma ShiftInCases(w: bv32)
    ensures ShiftIn(w, true) == (w << 1) | 1
    ensures ShiftIn(w, false) == w << 1
  {
    assert (w << 1) | 0 == w << 1;
  }

  /** The word built by shifting the bits in one by one, first bit first. */
  function Accum(bs: seq<bool>): bv32
  {
    if bs == [] then 0 else ShiftIn(Accum(bs[..|bs| - 1]), bs[|bs| - 1])
  }

  /** Up to 32 bits shifted in spell their value exactly. */
  lemma {:induction false} AccumValue(bs: seq<bool>)
    requires |bs| <= 32
    ensures Accum(bs) as int == Value(bs)
  {
    if bs != [] {
      var init := bs[..|bs| - 1];
      AccumValue(init);
      ValueBound(init);
      Pow2Monotone(|init|, 31);
      Pow2Of31();
      ShiftInValue(Accum(init), bs[|bs| - 1]);
    }
  }

  /** Go's `w << n` for a `uint32` and a variable count, which the language
      defines as `n` shifts by one. */
  function Shl(w: bv32, n: nat): bv32
  {
    if n == 0 then w else Shl(w, n - 1) << 1
  }

  /** Shifting the word of `bs` up by `n` places, with room for them, spells
      `bs` followed by `n` zero bits. */
  lemma {:induction false} ShlAccum(bs: seq<bool>, n: nat)
    requires |bs| + n <= 32
    ensures Shl(Accum(bs), n) as int == Value(bs + Zeros(n))
  {
    if n == 0 {
      assert bs + Zeros(0) == bs;
      AccumValue(bs);
    } else {
      ShlAccum(bs, n - 1);
      ValueBound(bs + Zeros(n - 1));
      Pow2Monotone(|bs| + n - 1, 31);
      Pow2Of31();
      DoubleValue(Shl(Accum(bs), n - 1));
      ValueAppendZero(bs, n);
    }
  }

  lemma {:induction false} ShlZero(n: nat)
    ensures Shl(0, n) == 0
  {
    if n > 0 {
      ShlZero(n - 1);
    }
  }

  // ---------------------------------------------------------------------
  // The bit stream of a glyph

  /** The first `w` pixels of a row in packing order, right to left. */
  function RowBits(row: Row, w: nat): (bits: seq<bool>)
    requires w <= |row|
    ensures |bits| == w
    ensures forall x :: 0 <= x < w ==> bits[x] == (row[w - 1 - x] > 0)
  {
    seq(w, x requires 0 <= x < w => row[w - 1 - x] > 0)
  }

  predicate AllAtLeast(m: Matrix, w: nat)
  {
    forall r :: 0 <= r < |m| ==> w <= |m[r]|
  }

  /** The bit stream of the first `w` columns of the rows of `m`, row by row
      from the top. */
  function Bits(m: Matrix, w: nat): seq<bool>
    requires AllAtLeast(m, w)
  {
    if m == [] then [] else Bits(m[..|m| - 1], w) + RowBits(m[|m| - 1], w)
  }

  /** `h` rows of `w` pixels give `w*h` bits. */
  lemma {:induction false} BitsLength(m: Matrix, w: nat)
    requires AllAtLeast(m, w)
    ensures |Bits(m, w)| == |m| * w
  {
    if m != [] {
      BitsLength(m[..|m| - 1], w);
      assert |m| * w == (|m| - 1) * w + w;
    }
  }

  lemma MulMonotone(a: nat, b: nat, w: nat)
    requires a <= b
    ensures a * w <= b * w
  {
  }

  /** Pixel `(y, x)` is bit `y*w + (w-1-x)` of the stream. */
  lemma {:induction false} BitPosition(m: Matrix, w: nat, y: nat, x: nat)
    requires AllAtLeast(m, w) && y < |m| && x < w
    ensures |Bits(m, w)| == |m| * w
    ensures y * w + (w - 1 - x) < |m| * w
    ensures Bits(m, w)[y * w + (w - 1 - x)] == (m[y][x] > 0)
  {
    BitsLength(m, w);
    var init := m[..|m| - 1];
    BitsLength(init, w);
    assert |m| * w == |init| * w + w;
    if y < |m| - 1 {
      BitPosition(init, w, y, x);
    } else {
      assert y * w == |init| * w;
    }
  }

  /** One more row appends its bits. */
  lemma BitsSnoc(m: Matrix, w: nat, y: nat)
    requires AllAtLeast(m, w) && y < |m|
    ensures Bits(m[..y + 1], w) == Bits(m[..y], w) + RowBits(m[y], w)
  {
    assert m[..y + 1][..y] == m[..y];
  }

  // ---------------------------------------------------------------------
  // Packing a bit stream into words

  /** The words that were complete and flushed: every 32 bits, in order. */
  function FullWords(bits: seq<bool>): (ws: seq<bv32>)
    ensures |ws| == |bits| / 32
  {
    seq(|bits| / 32, i requires 0 <= i < |bits| / 32 => Accum(bits[32 * i..32 * i + 32]))
  }

  /** The bits after the last complete word. */
  function Tail(bits: seq<bool>): (t: seq<bool>)
    ensures |t| == |bits| % 32
  {
    bits[32 * (|bits| / 32)..]
  }

  /** The whole stream packed: the complete words, then, unless the stream
      ended exactly on a word boundary, its unfinished word shifted up to the
      most significant end. */
  function Packed(bits: seq<bool>): seq<bv32>
  {
    if |bits| > 0 && |bits| % 32 == 0 then FullWords(bits)
    else FullWords(bits) + [Shl(Accum(Tail(bits)), 32 - |bits| % 32)]
  }

  /** Data word `i`'s 32 bits in MSB-first order, zero beyond the stream. */
  function Chunk(bits: seq<bool>, i: nat): (c: seq<bool>)
    ensures |c| == 32
  {
    seq(32, j requires 0 <= j < 32 => 32 * i + j < |bits| && bits[32 * i + j])
  }

  /** One word per 32 bits, rounded up, and one word for an empty stream. */
  lemma PackedLength(bits: seq<bool>)
    ensures |Packed(bits)| == if |bits| == 0 then 1 else (|bits| + 31) / 32
  {
  }

  /** Every packed word spells its chunk of the stream. */
  lemma PackedWordValue(bits: seq<bool>, i: nat)
    requires i < |Packed(bits)|
    ensures Packed(bits)[i] as int == Value(Chunk(bits, i))
  {
    if i < |bits| / 32 {
      FullWordValue(bits, i);
    } else {
      TailWordValue(bits, |bits| / 32, |bits| % 32);
    }
  }

  lemma FullWordValue(bits: seq<bool>, i: nat)
    requires i < |bits| / 32
    ensures FullWords(bits)[i] as int == Value(Chunk(bits, i))
  {
    assert bits[32 * i..32 * i + 32] == Chunk(bits, i);
    AccumValue(Chunk(bits, i));
  }

  /** The unfinished word, shifted up, spells the last chunk: the `r` bits
      after the `k` complete words, padded with zeros. */
  lemma TailWordValue(bits: seq<bool>, k: nat, r: nat)
    requires k == |bits| / 32 && r == |bits| % 32
    ensures Shl(Accum(Tail(bits)), 32 - r) as int == Value(Chunk(bits, k))
  {
    assert Tail(bits) == bits[32 * k..];
    TailChunk(bits, k, r);
    ShlAccum(bits[32 * k..], 32 - r);
  }

  lemma TailChunk(bits: seq<bool>, k: nat, r: nat)
    requires |bits| == 32 * k + r && r < 32
    ensures Chunk(bits, k) == bits[32 * k..] + Zeros(32 - r)
  {
    var t := bits[32 * k..];
    forall j | 0 <= j < 32
      ensures Chunk(bits, k)[j] == (t + Zeros(32 - r))[j]
    {
      if j < r {
        assert t[j] == bits[32 * k + j];
      }
    }
  }

  /** Stream bit `p` is bit `31 - p%32` of word `p/32`, and every bit of the
      packed words past the end of the stream is clear. */
  lemma PackedBit(bits: seq<bool>, p: nat)
    requires p < 32 * |Packed(bits)|
    ensures StreamBit(Packed(bits), p) == (p < |bits| && bits[p])
  {
    ChunkBit(bits, p);
    WordBit(bits, p / 32, p % 32);
  }

  lemma ChunkBit(bits: seq<bool>, p: nat)
    ensures Chunk(bits, p / 32)[p % 32] == (p < |bits| && bits[p])
  {
    assert 32 * (p / 32) + p % 32 == p;
  }

  /** Bit `31 - j` of data word `i` is bit `j` of its chunk. */
  lemma WordBit(bits: seq<bool>, i: nat, j: nat)
    requires i < |Packed(bits)| && j < 32
    ensures Bit(Packed(bits)[i] as int, 31 - j) == Chunk(bits, i)[j]
  {
    PackedWordValue(bits, i);
    ValueBits(Chunk(bits, i), 31 - j);
  }

  /** Bit `p` of a run of data words in packing order: bit `31 - p%32`,
      counted from the least significant end, of word `p/32`. */
  function StreamBit(words: seq<bv32>, p: nat): bool
    requires p < 32 * |words|
  {
    Bit(words[p / 32] as int, 31 - p % 32)
  }

  /** Reading the bits back, MSB first. */
  function Unpack(words: seq<bv32>, n: nat): (bits: seq<bool>)
    requires n <= 32 * |words|
    ensures |bits| == n
  {
    seq(n, p requires 0 <= p < n => StreamBit(words, p))
  }

  /** Unpacking the packed stream gives it back. */
  lemma UnpackPacked(bits: seq<bool>)
    ensures |bits| <= 32 * |Packed(bits)|
    ensures Unpack(Packed(bits), |bits|) == bits
  {
    PackedLength(bits);
    forall p | 0 <= p < |bits|
      ensures Unpack(Packed(bits), |bits|)[p] == bits[p]
    {
      PackedBit(bits, p);
    }
  }

  // ---------------------------------------------------------------------
  // ConvertMatrixToPattern (sprite.go:143-174)

  /** Width and height as the code takes them: `uint32` lengths, both zero
      unless the matrix has a row and that row a pixel. */
  function PatW(m: Matrix): nat
  {
    if |m| > 0 && |m[0]| > 0 then |m[0]| % WORD_MOD else 0
  }

  function PatH(m: Matrix): nat
  {
    if |m| > 0 && |m[0]| > 0 then |m| % WORD_MOD else 0
  }

  lemma PatBounds(m: Matrix)
    ensures PatW(m) < WORD_MOD && PatH(m) < WORD_MOD && PatH(m) <= |m|
  {
  }

  /** A glyph of `h` rows of `w > 0` pixels packs with width `w` and
      height `h`. */
  lemma RectangleDimensions(m: Matrix, w: nat, h: nat)
    requires |m| == h > 0 && RowsOfWidth(m, w) && 0 < w < WORD_MOD && h < WORD_MOD
    ensures Packable(m) && PatW(m) == w && PatH(m) == h
  {
  }

  /** Such a glyph's pattern starts with the header of its width and
      height. */
  lemma RectangleHeader(m: Matrix, yOffset: bv32, w: nat, h: nat)
    requires |m| == h > 0 && RowsOfWidth(m, w) && 0 < w < WORD_MOD && h < WORD_MOD
    ensures Packable(m) && PatternOf(m, yOffset)[0] == Header(w as bv32, h as bv32, yOffset)
  {
    RectangleDimensions(m, w, h);
  }

  /** Every row the packing loop reads is wide enough: otherwise
      `pxMatrix[y][patW-1-x]` is out of range. */
  predicate Packable(m: Matrix)
  {
    forall y :: 0 <= y < PatH(m) ==> PatW(m) <= |m[y]|
  }

  /** Rows of one width are always wide enough for the packing loop. */
  lemma RowsOfWidthPackable(m: Matrix, w: nat)
    requires RowsOfWidth(m, w)
    ensures Packable(m)
  {
  }

  /** The header word; nothing masks the fields, so a field of 256 or more
      spills into its neighbour. */
  function Header(w: bv32, h: bv32, yOffset: bv32): bv32
  {
    (w << 16) | (h << 8) | yOffset
  }

  function Rows(m: Matrix): (rows: Matrix)
    requires Packable(m)
    ensures |rows| == PatH(m) && AllAtLeast(rows, PatW(m))
  {
    m[..PatH(m)]
  }

  function PatternOf(m: Matrix, yOffset: bv32): seq<bv32>
    requires Packable(m)
  {
    [Header(PatW(m) as bv32, PatH(m) as bv32, yOffset)] + Packed(Bits(Rows(m), PatW(m)))
  }

  lemma MulCommutes(a: nat, b: nat)
    ensures a * b == b * a
  {
  }

  lemma ModOfWordMod(n: nat)
    ensures (n % WORD_MOD) % 32 == n % 32
  {
  }

  /** The stream grows by one bit. */
  lemma StreamStep(done: seq<bool>, b: bool)
    ensures |done + [b]| % 32 == 0 ==>
      FullWords(done + [b]) == FullWords(done) + [ShiftIn(Accum(Tail(done)), b)] && Tail(done + [b]) == []
    ensures |done + [b]| % 32 != 0 ==>
      FullWords(done + [b]) == FullWords(done) && Tail(done + [b]) == Tail(done) + [b]
  {
    var d := done + [b];
    var k := |done| / 32;
    assert d[..|done|] == done;
    if |d| % 32 == 0 {
      assert |d| / 32 == k + 1;
      assert d[32 * k..32 * k + 32] == Tail(done) + [b];
      assert Accum(Tail(done) + [b]) == ShiftIn(Accum(Tail(done)), b) by {
        assert (Tail(done) + [b])[..|Tail(done)|] == Tail(done);
      }
      forall i | 0 <= i < k
        ensures FullWords(d)[i] == FullWords(done)[i]
      {
        assert d[32 * i..32 * i + 32] == done[32 * i..32 * i + 32];
      }
    } else {
      assert |d| / 32 == k;
      forall i | 0 <= i < k
        ensures FullWords(d)[i] == FullWords(done)[i]
      {
        assert d[32 * i..32 * i + 32] == done[32 * i..32 * i + 32];
      }
    }
  }

  /** What the packing loop keeps: the pattern holds the header and the
      complete words of the bits seen so far, `bufWord` their unfinished
      word, and `flushed` says the last bit completed a word. */
  ghost predicate PackState(pattern: seq<bv32>, header: bv32, bufWord: bv32, flushed: bool, done: seq<bool>)
  {
    && pattern == [header] + FullWords(done)
    && bufWord == Accum(Tail(done))
    && flushed == (|done| > 0 && |done| % 32 == 0)
  }

  /** Before the loops: the header alone and nothing buffered. */
  lemma PackStart(header: bv32, rows: Matrix, patW: nat)
    requires AllAtLeast(rows, patW)
    ensures PackState([header], header, 0, false, [])
    ensures Bits(rows[..0], patW) == []
  {
    assert rows[..0] == [];
  }

  /** One pixel of the loop: shift it in, and flush when it completes a word. */
  lemma PackStep(pattern: seq<bv32>, header: bv32, bufWord: bv32, flushed: bool, done: seq<bool>, b: bool)
    requires PackState(pattern, header, bufWord, flushed, done)
    ensures |done| % 32 == 31 ==> PackState(pattern + [ShiftIn(bufWord, b)], header, 0, true, done + [b])
    ensures |done| % 32 != 31 ==> PackState(pattern, header, ShiftIn(bufWord, b), false, done + [b])
  {
    StreamStep(done, b);
  }

  /** After the last pixel: append the unfinished word unless the last bit
      flushed one. */
  lemma PackFinish(pattern: seq<bv32>, header: bv32, bufWord: bv32, flushed: bool, done: seq<bool>, finalShift: nat)
    requires PackState(pattern, header, bufWord, flushed, done)
    requires finalShift == 32 - |done| % 32
    ensures flushed ==> pattern == [header] + Packed(done)
    ensures !flushed ==> pattern + [Shl(bufWord, finalShift)] == [header] + Packed(done)
  {
  }

  /** One pass of the inner loop body, pixel `x` of row `y`. */
  lemma PackPixel(row: Row, patW: nat, y: nat, x: nat, header: bv32, done: seq<bool>, seen: seq<bool>,
                  pattern: seq<bv32>, bufWord: bv32, flushed: bool)
    requires patW <= |row| && x < patW
    requires seen == done + RowBits(row, patW)[..x] && |seen| == y * patW + x
    requires PackState(pattern, header, bufWord, flushed, seen)
    ensures seen + [row[patW - 1 - x] > 0] == done + RowBits(row, patW)[..x + 1]
    ensures ((y * patW + x) % WORD_MOD) % 32 == 31 ==>
      PackState(pattern + [ShiftIn(bufWord, row[patW - 1 - x] > 0)], header, 0, true, seen + [row[patW - 1 - x] > 0])
    ensures ((y * patW + x) % WORD_MOD) % 32 != 31 ==>
      PackState(pattern, header, ShiftIn(bufWord, row[patW - 1 - x] > 0), false, seen + [row[patW - 1 - x] > 0])
  {
    var b := row[patW - 1 - x] > 0;
    PackStep(pattern, header, bufWord, flushed, seen, b);
    ModOfWordMod(y * patW + x);
    assert RowBits(row, patW)[..x + 1] == RowBits(row, patW)[..x] + [b];
  }

  /** The inner loop of ConvertMatrixToPattern over row `y`: its pixels
      right to left, flushing each completed word. */
  method PackRow(row: Row, y: nat, patW: nat, ghost header: bv32, ghost done: seq<bool>,
                 pattern0: seq<bv32>, bufWord0: bv32, flushed0: bool)
    returns (pattern: seq<bv32>, bufWord: bv32, flushed: bool)
    requires patW <= |row| && |done| == y * patW
    requires PackState(pattern0, header, bufWord0, flushed0, done)
    ensures PackState(pattern, header, bufWord, flushed, done + RowBits(row, patW))
  {
    pattern, bufWord, flushed := pattern0, bufWord0, flushed0;
    ghost var seen := done;
    var x := 0;
    while x < patW
      invariant 0 <= x <= patW
      invariant seen == done + RowBits(row, patW)[..x] && |seen| == y * patW + x
      invariant PackState(pattern, header, bufWord, flushed, seen)
    {
      PackPixel(row, patW, y, x, header, done, seen, pattern, bufWord, flushed);
      ShiftInCases(bufWord);
      var b := row[patW - 1 - x] > 0;
      if b {
        bufWord := (bufWord << 1) | 1;
      } else {
        bufWord := bufWord << 1;
      }
      seen := seen + [b];
      flushed := false;
      if ((y * patW + x) % WORD_MOD) % 32 == 31 {
        pattern := pattern + [bufWord];
        bufWord := 0;
        flushed := true;
      }
      x := x + 1;
    }
    assert RowBits(row, patW)[..patW] == RowBits(row, patW);
  }

  /** One pass of the outer loop: row `y` appends its bits. */
  lemma PackRowsStep(rows: Matrix, patW: nat, y: nat, done: seq<bool>)
    requires AllAtLeast(rows, patW) && y < |rows|
    requires done == Bits(rows[..y], patW) && |done| == y * patW
    ensures done + RowBits(rows[y], patW) == Bits(rows[..y + 1], patW)
    ensures |done + RowBits(rows[y], patW)| == (y + 1) * patW
  {
    BitsSnoc(rows, patW, y);
    assert (y + 1) * patW == y * patW + patW;
  }

  /** The header and the stream make up the pattern. */
  lemma PatternFrom(m: Matrix, yOffset: bv32, header: bv32, done: seq<bool>)
    requires Packable(m) && header == Header(PatW(m) as bv32, PatH(m) as bv32, yOffset)
    requires done == Bits(Rows(m), PatW(m))
    ensures [header] + Packed(done) == PatternOf(m, yOffset)
  {
  }

  /** The code's `uint32` shift for the unfinished word is the one the
      stream needs. */
  lemma EndShift(patW: nat, patH: nat, n: nat)
    requires n == patH * patW
    ensures 32 - ((patW * patH) % WORD_MOD) % 32 == 32 - n % 32
  {
    MulCommutes(patH, patW);
    ModOfWordMod(patW * patH);
  }

  /** After both loops: with the unfinished word appended unless the last
      bit flushed one, shifted up by what the stream lacks of a full word,
      the pattern is complete. */
  lemma PackEnd(m: Matrix, yOffset: bv32, rows: Matrix, patW: nat, patH: nat, header: bv32,
                pattern: seq<bv32>, bufWord: bv32, flushed: bool, done: seq<bool>, finalShift: nat, result: seq<bv32>)
    requires Packable(m) && rows == Rows(m) && patW == PatW(m) && patH == PatH(m)
    requires header == Header(PatW(m) as bv32, PatH(m) as bv32, yOffset)
    requires done == Bits(rows, patW)
    requires PackState(pattern, header, bufWord, flushed, done)
    requires finalShift == 32 - |done| % 32
    requires flushed ==> result == pattern
    requires !flushed ==> result == pattern + [Shl(bufWord, finalShift)]
    ensures result == PatternOf(m, yOffset)
  {
    PackFinish(pattern, header, bufWord, flushed, done, finalShift);
    PatternFrom(m, yOffset, header, done);
  }

  /** The two loops of ConvertMatrixToPattern: rows top to bottom, each
      through PackRow, starting from the header alone. */
  method PackRows(pxMatrix: Matrix, patW: nat, patH: nat, header: bv32, ghost rows: Matrix)
    returns (pattern: seq<bv32>, bufWord: bv32, flushed: bool, ghost done: seq<bool>)
    requires patH <= |pxMatrix| && rows == pxMatrix[..patH] && AllAtLeast(rows, patW)
    ensures done == Bits(rows, patW) && |done| == patH * patW
    ensures PackState(pattern, header, bufWord, flushed, done)
  {
    pattern := [header];
    bufWord := 0;
    flushed := false;
    done := [];
    PackStart(header, rows, patW);
    var y := 0;
    while y < patH
      invariant 0 <= y <= patH
      invariant done == Bits(rows[..y], patW) && |done| == y * patW
      invariant PackState(pattern, header, bufWord, flushed, done)
    {
      PackRowsStep(rows, patW, y, done);
      pattern, bufWord, flushed := PackRow(pxMatrix[y], y, patW, header, done, pattern, bufWord, flushed);
      done := done + RowBits(rows[y], patW);
      y := y + 1;
    }
    assert rows[..patH] == rows;
  }

  /** The opening lines of ConvertMatrixToPattern: the `uint32` width and
      height, left at zero for a matrix without pixels. The contract names
      the specification functions that the packing loop is proved against;
      what they mean is stated by `PatBounds`, `RectangleDimensions` and
      `EmptyPattern`. */
  method Dimensions(pxMatrix: Matrix) returns (patW: nat, patH: nat)
    ensures patW == PatW(pxMatrix) && patH == PatH(pxMatrix)
  {
    patW := 0;
    patH := 0;
    if |pxMatrix| > 0 && |pxMatrix[0]| > 0 {
      patW := |pxMatrix[0]| % WORD_MOD;
      patH := |pxMatrix| % WORD_MOD;
    }
  }

  method ConvertMatrixToPattern(pxMatrix: Matrix, yOffset: bv32) returns (pattern: seq<bv32>)
    requires Packable(pxMatrix)
    ensures pattern == PatternOf(pxMatrix, yOffset)
  {
    var patW, patH := Dimensions(pxMatrix);
    PatBounds(pxMatrix);
    var header := Header(patW as bv32, patH as bv32, yOffset);
    ghost var rows := Rows(pxMatrix);
    var bufWord, flushed;
    ghost var done;
    pattern, bufWord, flushed, done := PackRows(pxMatrix, patW, patH, header, rows);
    ghost var complete := pattern;
    var finalShift := 32 - ((patW * patH) % WORD_MOD) % 32;
    EndShift(patW, patH, |done|);
    if !flushed {
      pattern := pattern + [Shl(bufWord, finalShift)];
    }
    PackEnd(pxMatrix, yOffset, rows, patW, patH, header, complete, bufWord, flushed, done, finalShift, pattern);
  }

  // ---------------------------------------------------------------------
  // What the pattern holds

  /** A header word, then one data word per 32 pixels rounded up; a pattern
      without pixels still gets one (zero) data word. */
  lemma PatternLength(m: Matrix, yOffset: bv32)
    requires Packable(m)
    ensures |PatternOf(m, yOffset)| ==
      1 + (if PatW(m) * PatH(m) == 0 then 1 else (PatW(m) * PatH(m) + 31) / 32)
  {
    BitsLength(Rows(m), PatW(m));
    MulCommutes(PatH(m), PatW(m));
    PackedLength(Bits(Rows(m), PatW(m)));
  }

  /** The words after the header are the packed stream. */
  lemma PatternData(m: Matrix, yOffset: bv32)
    requires Packable(m)
    ensures PatternOf(m, yOffset)[1..] == Packed(Bits(Rows(m), PatW(m)))
  {
  }

  /** Stream bit `p` is bit `p` of the data words. */
  lemma PatternBit(m: Matrix, yOffset: bv32, p: nat)
    requires Packable(m) && p < |Bits(Rows(m), PatW(m))|
    ensures p < 32 * (|PatternOf(m, yOffset)| - 1)
    ensures StreamBit(PatternOf(m, yOffset)[1..], p) == Bits(Rows(m), PatW(m))[p]
  {
    var bits := Bits(Rows(m), PatW(m));
    PackedLength(bits);
    PatternData(m, yOffset);
    PackedBit(bits, p);
  }

  /** Pixel `(y, x)` of the glyph is bit `y*w + (w-1-x)` of the data words. */
  lemma PatternPixel(m: Matrix, yOffset: bv32, y: nat, x: nat, p: nat)
    requires Packable(m) && y < PatH(m) && x < PatW(m)
    requires p == y * PatW(m) + (PatW(m) - 1 - x)
    ensures p < 32 * (|PatternOf(m, yOffset)| - 1)
    ensures StreamBit(PatternOf(m, yOffset)[1..], p) == (Rows(m)[y][x] > 0)
  {
    BitPosition(Rows(m), PatW(m), y, x);
    PatternBit(m, yOffset, p);
  }

  /** Every bit after the last pixel, up to the end of the last word, is clear. */
  lemma PatternPadding(m: Matrix, yOffset: bv32, p: nat)
    requires Packable(m)
    requires PatW(m) * PatH(m) <= p < 32 * (|PatternOf(m, yOffset)| - 1)
    ensures !StreamBit(PatternOf(m, yOffset)[1..], p)
  {
    var bits := Bits(Rows(m), PatW(m));
    BitsLength(Rows(m), PatW(m));
    MulCommutes(PatH(m), PatW(m));
    PatternData(m, yOffset);
    PackedBit(bits, p);
  }

  /** A sequence of clear bits spells zero. */
  lemma {:induction false} ValueOfClear(bs: seq<bool>)
    requires forall i | 0 <= i < |bs| :: !bs[i]
    ensures Value(bs) == 0
  {
    if bs != [] {
      ValueOfClear(bs[..|bs| - 1]);
    }
  }

  /** A stream without set bits packs to zero words. */
  lemma PackedClear(bits: seq<bool>, i: nat)
    requires forall p | 0 <= p < |bits| :: !bits[p]
    requires i < |Packed(bits)|
    ensures Packed(bits)[i] == 0
  {
    PackedWordValue(bits, i);
    ValueOfClear(Chunk(bits, i));
  }

  /** Rows without ink give a stream of clear bits. */
  lemma {:induction false} BitsOfBlank(m: Matrix, w: nat, p: nat)
    requires AllAtLeast(m, w) && NoInk(m) && p < |Bits(m, w)|
    ensures !Bits(m, w)[p]
  {
    var init := m[..|m| - 1];
    if p < |Bits(init, w)| {
      BitsOfBlank(init, w, p);
    }
  }

  /** Dropping rows from the bottom keeps a matrix free of ink. */
  lemma PrefixNoInk(m: Matrix, k: nat)
    requires NoInk(m) && k <= |m|
    ensures NoInk(m[..k])
  {
  }

  /** A glyph without ink packs to its header followed by zero words only. */
  lemma BlankPattern(m: Matrix, yOffset: bv32, i: nat)
    requires Packable(m) && NoInk(m)
    requires 1 <= i < |PatternOf(m, yOffset)|
    ensures PatternOf(m, yOffset)[i] == 0
  {
    var bits := Bits(Rows(m), PatW(m));
    assert NoInk(Rows(m)) by {
      PatBounds(m);
      PrefixNoInk(m, PatH(m));
    }
    forall p | 0 <= p < |bits|
      ensures !bits[p]
    {
      BitsOfBlank(Rows(m), PatW(m), p);
    }
    PatternData(m, yOffset);
    PackedClear(bits, i - 1);
  }

  lemma PackedEmpty(bits: seq<bool>)
    requires bits == []
    ensures Packed(bits) == [0]
  {
    ShlZero(32);
  }

  /** A matrix without pixels packs to its yOffset and one zero word. */
  lemma EmptyPattern(m: Matrix, yOffset: bv32)
    requires |m| == 0 || |m[0]| == 0
    ensures Packable(m) && PatternOf(m, yOffset) == [yOffset, 0]
  {
    assert Rows(m) == [];
    PackedEmpty(Bits(Rows(m), PatW(m)));
    assert Header(0, 0, yOffset) == yOffset;
  }

  lemma DiagonalBits()
    ensures Packable([[1, 0], [0, 1]])
    ensures Bits(Rows([[1, 0], [0, 1]]), 2) == [false, true, true, false]
  {
    var m: Matrix := [[1, 0], [0, 1]];
    assert Rows(m) == m;
    assert m[..1] == [m[0]] && m[..1][..0] == [];
    assert RowBits(m[0], 2) == [false, true];
    assert RowBits(m[1], 2) == [true, false];
  }

  lemma DiagonalWord()
    ensures Packed([false, true, true, false]) == [0x6000_0000]
  {
    var bits := [false, true, true, false];
    assert bits[..3] == [false, true, true];
    assert bits[..3][..2] == [false, true];
    assert bits[..3][..2][..1] == [false];
    assert Value([false]) == 0 by {
      assert [false][..0] == [];
    }
    assert Value([false, true]) == 1;
    assert Value([false, true, true]) == 3;
    assert Value(bits) == 6;
    assert Tail(bits) == bits;
    ShlAccum(bits, 28);
    ValueAppendZeros(bits, 28);
    Pow2Of31();
    assert Shl(Accum(bits), 28) as int == 0x6000_0000;
  }

  /** `[[1,0],[0,1]]` packs right to left to the bits 0110: 0x60000000. */
  lemma DiagonalPattern()
    ensures Packable([[1, 0], [0, 1]])
    ensures PatternOf([[1, 0], [0, 1]], 0) == [0x0002_0200, 0x6000_0000]
  {
    DiagonalBits();
    DiagonalWord();
    assert Header(2, 2, 0) == 0x0002_0200;
  }
}
