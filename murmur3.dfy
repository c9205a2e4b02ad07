/** The MurmurHash3_x86_32 steps shared by the two hashes of the font code:
    the Go `murmur3(key, seed)` (codegen/main.go:209-230) and the Rust
    `murmur3(key, seed, limit)` (src/fonts.rs:112-141).  Both take every
    Unicode scalar value of the key as one 32-bit block and wrap every
    multiply, add and rotate modulo 2^32, which `bv32` does by itself. */
module Murmur3 {
  import Utf8

  /** A scalar value as a u32 block (`uint32(c)`, `c as u32`). */
  function Block(c: char): bv32
  {
    (c as int) as bv32
  }

  /** `k *= c1; k = rotl(k, 15); k *= c2`. */
  function MixK(k: bv32): bv32
  {
    ((k * 0xcc9e2d51).RotateLeft(15)) * 0x1b873593
  }

  /** `h ^= k; h = rotl(h, 13); h = h*5 + 0xe6546b64`. */
  function MixH(h: bv32, k: bv32): bv32
  {
    ((h ^ k).RotateLeft(13)) * 5 + 0xe6546b64
  }

  /** One pass of the hashing loop, for the scalar `c`. */
  function Step(h: bv32, c: char): bv32
  {
    MixH(h, MixK(Block(c)))
  }

  /** The state after the loop has hashed the scalars of `s` in order. */
  function Blocks(h: bv32, s: string): bv32
  {
    if s == [] then h else Step(Blocks(h, s[..|s| - 1]), s[|s| - 1])
  }

  /** The finalising avalanche. */
  function Fmix(h: bv32): bv32
  {
    var h1 := h ^ (h >> 16);
    var h2 := h1 * 0x85ebca6b;
    var h3 := h2 ^ (h2 >> 13);
    var h4 := h3 * 0xc2b2ae35;
    h4 ^ (h4 >> 16)
  }

  /** A byte count converted to u32 (`uint32(len(key))`, `bytes_hashed as u32`). */
  function U32(n: nat): bv32
  {
    (n % 0x1_0000_0000) as bv32
  }

  /** `h ^= len; h = fmix(h)`: the byte count folded into the state, then
      the avalanche. */
  function Finish(h: bv32, len: nat): bv32
  {
    Fmix(h ^ U32(len))
  }

  /** The hash of the whole key: every scalar mixed, then the UTF-8 byte
      length of the key (not its scalar count) folded in and avalanched. */
  function Hash(key: string, seed: bv32): bv32
  {
    Finish(Blocks(seed, key), Utf8.ByteLen(key))
  }

  /** Mixing one more scalar is one more step of the loop. */
  lemma BlocksAppend(h: bv32, s: string, c: char)
    ensures Blocks(h, s + [c]) == Step(Blocks(h, s), c)
  {
    assert (s + [c])[..|s + [c]| - 1] == s;
  }

  /** The empty key with seed 0 hashes to 0. */
  lemma EmptyKey()
    ensures Hash("", 0) == 0
  {
    assert Utf8.ByteLen("") == 0;
  }

  lemma U32Zero()
    ensures U32(0) == 0
  {
  }

  lemma FmixCongruent(x: bv32, y: bv32)
    requires x == y
    ensures Fmix(x) == Fmix(y)
  {
  }

  lemma XorZero(h: bv32, n: nat)
    requires U32(n) == 0
    ensures h ^ U32(n) == h
  {
  }

  lemma FmixXorZero(h: bv32, n: nat)
    requires U32(n) == 0
    ensures Fmix(h ^ U32(n)) == Fmix(h)
  {
    XorZero(h, n);
    FmixCongruent(h ^ U32(n), h);
  }

  /** A byte count that is zero modulo 2^32 leaves the state unchanged, and
      the hash is the avalanche of the state alone. */
  lemma FinishZero(h: bv32, n: nat)
    requires U32(n) == 0
    ensures Finish(h, n) == Fmix(h)
  {
    FmixXorZero(h, n);
  }
}
