/** The runtime side of the font format (src/fonts.rs): the decoder of a
    glyph's header word and the Rust murmur3 hash, which hashes at most
    `limit` scalar values of a key and reports how many bytes it consumed. */
module Fonts {
  import Utf8
  import Murmur3
  import Uint
  import Pattern
  import Matrices

  // ---------------------------------------------------------------------
  // GlyphHeader::new (src/fonts.rs:35-49)

  /** The three fields, each below 256 (`usize` in the source). */
  datatype GlyphHeader = GlyphHeader(w: bv32, h: bv32, yOffset: bv32)

  /** Width from bits 16..23, height from bits 8..15 and y-offset from bits
      0..7 of the header word; bits 24..31 are dropped. */
  function NewGlyphHeader(header: bv32): (g: GlyphHeader)
    ensures g.w == (header >> 16) & 0xff
    ensures g.h == (header >> 8) & 0xff
    ensures g.yOffset == header & 0xff
  {
    var w := (header << 8) >> 24;
    var h := (header << 16) >> 24;
    var yOffset := header & 0x0000_00ff;
    GlyphHeader(w, h, yOffset)
  }

  /** The decoder inverts the header that ConvertMatrixToPattern writes
      whenever every field fits in a byte. */
  lemma HeaderRoundTrip(w: bv32, h: bv32, yOffset: bv32)
    requires w < 0x100 && h < 0x100 && yOffset < 0x100
    ensures NewGlyphHeader(Pattern.Header(w, h, yOffset)) == GlyphHeader(w, h, yOffset)
  {
  }

  /** A width of 256 or more spills into the dropped top byte: the decoder
      sees only the low byte of the width. */
  lemma HeaderWidthWraps(w: bv32, h: bv32, yOffset: bv32)
    requires h < 0x100 && yOffset < 0x100
    ensures NewGlyphHeader(Pattern.Header(w, h, yOffset)).w == w & 0xff
  {
  }

  /** The space glyph of the Regular font, `0x0004020e`. */
  lemma SpaceHeader()
    ensures NewGlyphHeader(0x0004020e) == GlyphHeader(4, 2, 14)
  {
  }

  /** The first word of a packed glyph decodes to the glyph's width, height
      and y-offset when each is below 256. */
  lemma PatternHeaderDecodes(m: Matrices.Matrix, yOffset: bv32, w: bv32, h: bv32)
    requires Pattern.Packable(m)
    requires w == Pattern.PatW(m) as bv32 && h == Pattern.PatH(m) as bv32
    requires w < 0x100 && h < 0x100 && yOffset < 0x100
    ensures NewGlyphHeader(Pattern.PatternOf(m, yOffset)[0]) == GlyphHeader(w, h, yOffset)
  {
    HeaderRoundTrip(w, h, yOffset);
  }

  // ---------------------------------------------------------------------
  // Glyph records (src/fonts/regular.rs:272-281, src/fonts/small.rs:254-263)

  /** Whole words that hold `bits` pixels, and one for no pixels at all. */
  function DataWords(bits: int): (n: nat)
    ensures n >= 1 && 32 * n >= bits
    ensures bits > 0 ==> 32 * (n - 1) < bits
  {
    if bits <= 0 then 1 else (bits + 31) / 32
  }

  /** The words a record of `DATA` occupies: its header, then the packed
      pixels. */
  function RecordLength(g: GlyphHeader): nat
  {
    1 + DataWords(g.w as int * g.h as int)
  }

  /** The packer writes exactly the words the record format reserves for
      its glyph's area: a record is as long as `1 + DataWords(w*h)`. */
  lemma PatternDataWords(m: Matrices.Matrix, yOffset: bv32)
    requires Pattern.Packable(m)
    ensures |Pattern.PatternOf(m, yOffset)| == 1 + DataWords(Pattern.PatW(m) * Pattern.PatH(m))
  {
    Pattern.PatternLength(m, yOffset);
  }

  /** The record `words` of `DATA` starts at `offset` and ends where the
      next record starts, at `next`: its length is what its header implies,
      and its height plus its yOffset stays within `maxHeight`. */
  predicate RecordFits(words: seq<bv32>, offset: nat, next: nat, maxHeight: nat)
  {
    && |words| > 0
    && var g := NewGlyphHeader(words[0]);
    && |words| == RecordLength(g)
    && offset + |words| == next
    && g.h as int + g.yOffset as int <= maxHeight
  }

  // ---------------------------------------------------------------------
  // murmur3(key, seed, limit) (src/fonts.rs:109-141)

  /** How many scalar values the loop mixes: all of them, or the first `limit`. */
  function HashedCount(key: string, limit: Uint.Uint32): (n: nat)
    ensures n <= |key| && n <= limit
    ensures n == |key| || n == limit
  {
    if |key| <= limit then |key| else limit
  }

  /** `bytes_hashed`: the byte offset at which the loop stopped. */
  function BytesHashed(key: string, limit: Uint.Uint32): nat
  {
    Utf8.ByteLen(key[..HashedCount(key, limit)])
  }

  /** The hash and the byte count the Rust function returns. */
  function LimitedHash(key: string, seed: bv32, limit: Uint.Uint32): (bv32, nat)
  {
    var n := HashedCount(key, limit);
    var b := BytesHashed(key, limit);
    (Murmur3.Finish(Murmur3.Blocks(seed, key[..n]), b), b)
  }

  /** The loop walks `key.char_indices()`: `i` is the byte index of the
      scalar `key[j]`.  Each pass first stops at the `limit`-th scalar,
      recording its byte index, then mixes the scalar. */
  method Murmur3Limited(key: string, seed: bv32, limit: Uint.Uint32) returns (hash: bv32, bytesHashed: nat)
    ensures (hash, bytesHashed) == LimitedHash(key, seed, limit)
  {
    var h := seed;
    var n: nat := 0;
    bytesHashed := Utf8.ByteLen(key);
    var i: nat := 0;
    var j := 0;
    while j < |key|
      invariant j <= |key| && n == j && n <= limit
      invariant i == Utf8.ByteLen(key[..j])
      invariant h == Murmur3.Blocks(seed, key[..j])
      invariant bytesHashed == Utf8.ByteLen(key)
    {
      var c := key[j];
      if n >= limit {
        bytesHashed := i;
        break;
      }
      var k := Murmur3.MixK(Murmur3.Block(c));
      h := Murmur3.MixH(h, k);
      n := n + 1;
      assert key[..j + 1] == key[..j] + [c];
      Murmur3.BlocksAppend(seed, key[..j], c);
      Utf8.ByteLenAppend(key[..j], [c]);
      assert Utf8.ByteLen([c]) == Utf8.Width(c) by { assert [c][..0] == []; }
      i := i + Utf8.Width(c);
      j := j + 1;
    }
    assert j == HashedCount(key, limit);
    if j == |key| {
      assert key[..j] == key;
    }
    hash := Murmur3.Finish(h, bytesHashed);
  }

  /** `bytes_hashed` never exceeds the key's byte length, and equals it
      when the key has at most `limit` scalars. */
  lemma BytesHashedBound(key: string, limit: Uint.Uint32)
    ensures BytesHashed(key, limit) <= Utf8.ByteLen(key)
    ensures |key| <= limit ==> BytesHashed(key, limit) == Utf8.ByteLen(key)
  {
    Utf8.PrefixByteLenMonotone(key, HashedCount(key, limit), |key|);
    assert key[..|key|] == key;
  }

  /** When the key has more than `limit` scalars, `bytes_hashed` is the byte
      index of scalar number `limit`, strictly inside the key. */
  lemma BytesHashedStops(key: string, limit: Uint.Uint32)
    requires limit < |key|
    ensures BytesHashed(key, limit) == Utf8.ByteLen(key[..limit]) < Utf8.ByteLen(key)
  {
    var n := HashedCount(key, limit);
    Utf8.ByteLenAppend(key[..n], key[n..]);
    assert key[..n] + key[n..] == key;
    Utf8.ByteLenBounds(key[n..]);
  }

  /** With `limit` 0 nothing is mixed and nothing consumed: the hash is the
      avalanche of the seed alone. */
  lemma LimitZero(key: string, seed: bv32)
    ensures LimitedHash(key, seed, 0) == (Murmur3.Fmix(seed), 0)
  {
    assert key[..HashedCount(key, 0)] == [];
    Murmur3.U32Zero();
    Murmur3.FinishZero(seed, BytesHashed(key, 0));
  }

  /** With a `limit` at least the key's scalar count, the Rust hash is the
      Go hash of codegen/main.go and the whole key is consumed. */
  lemma LimitCoversKey(key: string, seed: bv32, limit: Uint.Uint32)
    requires |key| <= limit
    ensures LimitedHash(key, seed, limit) == (Murmur3.Hash(key, seed), Utf8.ByteLen(key))
  {
    assert key[..|key|] == key;
  }

  /** Only the first `limit` scalars matter: the key and its prefix of
      `limit` scalars hash alike and report the same byte count. */
  lemma LimitedHashPrefix(key: string, seed: bv32, limit: Uint.Uint32)
    requires limit < |key|
    ensures LimitedHash(key, seed, limit) == LimitedHash(key[..limit], seed, limit)
  {
    var p := key[..limit];
    assert HashedCount(p, limit) == limit;
    assert p[..limit] == p;
  }
}
