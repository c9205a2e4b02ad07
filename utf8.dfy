/** UTF-8 byte lengths of Unicode scalar values and strings.  Go's `len(s)`
    and Rust's `str::len()` both count bytes of the UTF-8 encoding, while
    iteration over a string yields scalar values; this module relates the two. */
module Utf8 {

  /** Bytes UTF-8 uses for one scalar value (one to four). */
  function Width(c: char): nat
  {
    if c as int < 0x80 then 1
    else if c as int < 0x800 then 2
    else if c as int < 0x10000 then 3
    else 4
  }

  /** Byte length of the UTF-8 encoding of `s`. */
  function ByteLen(s: string): nat
  {
    if s == [] then 0 else ByteLen(s[..|s| - 1]) + Width(s[|s| - 1])
  }

  lemma {:induction false} ByteLenAppend(a: string, b: string)
    ensures ByteLen(a + b) == ByteLen(a) + ByteLen(b)
    decreases |b|
  {
    if b == [] {
      assert a + b == a;
    } else {
      var b' := b[..|b| - 1];
      assert (a + b)[..|a + b| - 1] == a + b';
      ByteLenAppend(a, b');
    }
  }

  /** Every scalar takes one to four bytes. */
  lemma {:induction false} ByteLenBounds(s: string)
    ensures |s| <= ByteLen(s) <= 4 * |s|
  {
    if s != [] {
      ByteLenBounds(s[..|s| - 1]);
    }
  }

  /** A string of ASCII characters has exactly one byte per scalar. */
  lemma {:induction false} AsciiByteLen(s: string)
    requires forall i :: 0 <= i < |s| ==> s[i] as int < 0x80
    ensures ByteLen(s) == |s|
  {
    if s != [] {
      AsciiByteLen(s[..|s| - 1]);
    }
  }

  /** A string holding a scalar at or above U+0080 has more bytes than scalars. */
  lemma {:induction false} NonAsciiByteLen(s: string, k: nat)
    requires k < |s| && s[k] as int >= 0x80
    ensures ByteLen(s) > |s|
  {
    ByteLenAppend(s[..k + 1], s[k + 1..]);
    assert s[..k + 1] + s[k + 1..] == s;
    assert s[..k + 1][..k] == s[..k];
    ByteLenBounds(s[..k]);
    ByteLenBounds(s[k + 1..]);
  }

  /** Byte offsets of scalar boundaries grow with the number of scalars. */
  lemma PrefixByteLenMonotone(s: string, i: nat, j: nat)
    requires i <= j <= |s|
    ensures ByteLen(s[..i]) <= ByteLen(s[..j])
  {
    ByteLenAppend(s[..i], s[i..j]);
    assert s[..i] + s[i..j] == s[..j];
  }
}
