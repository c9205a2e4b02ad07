/** The codepoint classification of codegen/blocks/charmap.go: each
    codepoint the Latin fonts cover falls in the subset of one Unicode
    block, and `BlockForRune` names that block and the codepoint's offset
    from the subset's start. */
module Blocks {
  import Charmap
  import Codegen
  import opened Wrappers
  import Tables

  // ---------------------------------------------------------------------
  // UnicodeBlock and BlockForRune (codegen/blocks/charmap.go:10-47)

  datatype UnicodeBlock =
    | BasicLatin | Latin1 | LatinExtendedA | GeneralPunctuation
    | CurrencySymbols | PrivateUseArea | Specials | Unknown

  /** The first codepoint of the subset of block `b` that the fonts hold. */
  function SubsetLow(b: UnicodeBlock): int
    requires b != Unknown
  {
    match b
    case BasicLatin => 0x20
    case Latin1 => 0xA0
    case LatinExtendedA => 0x152
    case GeneralPunctuation => 0x2018
    case CurrencySymbols => 0x20AC
    case PrivateUseArea => 0xE700
    case Specials => 0xFFFD
  }

  /** How many consecutive codepoints that subset holds. */
  function SubsetSize(b: UnicodeBlock): nat
    requires b != Unknown
  {
    match b
    case BasicLatin => 95
    case Latin1 => 96
    case LatinExtendedA => 2
    case GeneralPunctuation => 11
    case CurrencySymbols => 1
    case PrivateUseArea => 13
    case Specials => 1
  }

  predicate InSubset(b: UnicodeBlock, c: int)
  {
    b != Unknown && SubsetLow(b) <= c < SubsetLow(b) + SubsetSize(b)
  }

  /** The block whose subset holds `c` and the offset of `c` in it, or
      `(Unknown, 0)` when no subset holds `c`. */
  function BlockForRune(c: int): (r: (UnicodeBlock, int))
    ensures r.0 != Unknown ==> InSubset(r.0, c) && r.1 == c - SubsetLow(r.0)
    ensures r.0 != Unknown ==> 0 <= r.1 < SubsetSize(r.0)
    ensures r.0 == Unknown ==> r.1 == 0
  {
    if 0x20 <= c && c <= 0x7E then (BasicLatin, c - 0x20)
    else if 0xA0 <= c && c <= 0xFF then (Latin1, c - 0xA0)
    else if 0x152 <= c && c <= 0x153 then (LatinExtendedA, c - 0x152)
    else if 0x2018 <= c && c <= 0x2022 then (GeneralPunctuation, c - 0x2018)
    else if 0x20AC <= c && c <= 0x20AC then (CurrencySymbols, c - 0x20AC)
    else if 0xE700 <= c && c <= 0xE70C then (PrivateUseArea, c - 0xE700)
    else if 0xFFFD <= c && c <= 0xFFFD then (Specials, c - 0xFFFD)
    else (Unknown, 0)
  }

  /** `Unknown` exactly when no subset holds the codepoint. */
  lemma UnknownIffNoSubset(c: int)
    ensures BlockForRune(c).0 == Unknown <==> forall b :: !InSubset(b, c)
  {
    if BlockForRune(c).0 == Unknown {
      forall b
        ensures !InSubset(b, c)
      {
        match b
        case BasicLatin =>
        case Latin1 =>
        case LatinExtendedA =>
        case GeneralPunctuation =>
        case CurrencySymbols =>
        case PrivateUseArea =>
        case Specials =>
        case Unknown =>
      }
    }
  }

  /** No two subsets overlap. */
  lemma SubsetsDisjoint(a: UnicodeBlock, b: UnicodeBlock, c: int)
    requires InSubset(a, c) && InSubset(b, c)
    ensures a == b
  {
  }

  /** Offsets are a bijection onto each subset: the codepoint at offset
      `i` of block `b` classifies back as `(b, i)`. */
  lemma BlockForRuneInverse(b: UnicodeBlock, i: int)
    requires b != Unknown && 0 <= i < SubsetSize(b)
    ensures BlockForRune(SubsetLow(b) + i) == (b, i)
  {
    var r := BlockForRune(SubsetLow(b) + i);
    assert InSubset(b, SubsetLow(b) + i);
    SubsetsDisjoint(r.0, b, SubsetLow(b) + i);
  }

  /** The C0 controls, DEL and the C1 controls classify as unknown. */
  lemma ControlsUnknown(c: int)
    requires 0 <= c < 0x20 || 0x7F <= c < 0xA0
    ensures BlockForRune(c) == (Unknown, 0)
  {
  }

  /** The entry of the Unicode block table of codegen/font/charmap.go
      that contains each subset. */
  function KnownBlockIndex(b: UnicodeBlock): (k: nat)
    requires b != Unknown
    ensures k < |Charmap.KnownBlocks|
  {
    match b
    case BasicLatin => 0
    case Latin1 => 1
    case LatinExtendedA => 2
    case GeneralPunctuation => 3
    case CurrencySymbols => 4
    case PrivateUseArea => 16
    case Specials => 17
  }

  /** Each subset lies inside the block of the same name in the block
      table of codegen/font/charmap.go. */
  lemma SubsetInKnownBlock(b: UnicodeBlock, c: int)
    requires InSubset(b, c)
    ensures Charmap.Contains(Charmap.KnownBlocks[KnownBlockIndex(b)], c)
  {
    var kb := Charmap.KnownBlocks[KnownBlockIndex(b)];
    match b
    case BasicLatin => assert kb.low == 0x0000 && kb.high == 0x007F;
    case Latin1 => assert kb.low == 0x0080 && kb.high == 0x00FF;
    case LatinExtendedA => assert kb.low == 0x0100 && kb.high == 0x017F;
    case GeneralPunctuation => assert kb.low == 0x2000 && kb.high == 0x206F;
    case CurrencySymbols => assert kb.low == 0x20A0 && kb.high == 0x20CF;
    case PrivateUseArea => assert kb.low == 0xE000 && kb.high == 0xF8FF;
    case Specials => assert kb.low == 0xFFF0 && kb.high == 0xFFFF;
  }

  /** Every codepoint the classification knows is found by `Block` in the
      block of the same name, is a scalar value, and passes the range
      pre-filter of the generated lookup. */
  lemma KnownRunesInBlockTable(b: UnicodeBlock, c: int)
    requires InSubset(b, c)
    ensures Charmap.FirstBlock(Charmap.KnownBlocks, c) == Some(Charmap.KnownBlocks[KnownBlockIndex(b)])
    ensures Charmap.IsScalar(c) && Codegen.InFontRanges(c as char)
  {
    var k := KnownBlockIndex(b);
    SubsetInKnownBlock(b, c);
    Charmap.KnownBlocksDisjoint();
    Charmap.FirstBlockUnique(Charmap.KnownBlocks, c, k);
  }

  // ---------------------------------------------------------------------
  // SysLatinMap (codegen/blocks/charmap.go:49-284)

  /** A value of the character map: the glyph's cell in the sprite sheet
      and the codepoint in hex. */
  datatype CharSpec = CharSpec(row: int, col: int, hex: string)

  /** One `key: CharSpec{row, col, hex, chr}` line of the map literal. */
  datatype LatinEntry = LatinEntry(key: int, row: int, col: int, hex: string)

  function Spec(e: LatinEntry): CharSpec
  {
    CharSpec(e.row, e.col, e.hex)
  }

  /** The map that a Go map literal with these lines denotes. */
  function MapOf(es: seq<LatinEntry>): map<int, CharSpec>
  {
    if es == [] then map[] else MapOf(es[..|es| - 1])[es[|es| - 1].key := Spec(es[|es| - 1])]
  }

  predicate KeysIn(es: seq<LatinEntry>, lo: int, hi: int)
  {
    forall i | 0 <= i < |es| :: lo <= es[i].key < hi
  }

  predicate KeysAscending(es: seq<LatinEntry>)
  {
    forall i | 0 <= i < |es| - 1 :: es[i].key < es[i + 1].key
  }

  /** Strictly ascending keys are pairwise distinct. */
  lemma {:induction false} AscendingKeysOrdered(es: seq<LatinEntry>, i: nat, j: nat)
    requires KeysAscending(es) && i < j < |es|
    ensures es[i].key < es[j].key
  {
    if i + 1 < j {
      AscendingKeysOrdered(es, i, j - 1);
    }
  }

  /** Every key of the map comes from a line of the literal, and the map
      holds the value of the last line with that key. */
  lemma {:induction false} MapOfSource(es: seq<LatinEntry>, k: int) returns (i: nat)
    requires k in MapOf(es)
    ensures i < |es| && es[i].key == k && MapOf(es)[k] == Spec(es[i])
  {
    var n := |es| - 1;
    if es[n].key == k {
      i := n;
    } else {
      i := MapOfSource(es[..n], k);
    }
  }

  /** With distinct keys the map holds every line of the literal. */
  lemma {:induction false} MapOfHolds(es: seq<LatinEntry>, i: nat)
    requires KeysAscending(es) && i < |es|
    ensures es[i].key in MapOf(es) && MapOf(es)[es[i].key] == Spec(es[i])
  {
    var n := |es| - 1;
    if i < n {
      assert KeysAscending(es[..n]);
      MapOfHolds(es[..n], i);
      AscendingKeysOrdered(es, i, n);
    }
  }

  /** What every line of the table satisfies: its key is a codepoint the
      classification knows and its cell lies in the 16 by 16 grid of the
      sprite sheet. */
  predicate EntryOk(e: LatinEntry)
  {
    BlockForRune(e.key).0 != Unknown && 0 <= e.row < 16 && 0 <= e.col < 16
  }

  /** One part of the table: keys ascending inside `[lo, hi)`, every line
      well formed. */
  predicate PartOk(es: seq<LatinEntry>, lo: int, hi: int)
  {
    lo <= hi && KeysIn(es, lo, hi) && KeysAscending(es) && forall i | 0 <= i < |es| :: EntryOk(es[i])
  }

  /** The hex field spells the key. */
  predicate HexOk(e: LatinEntry)
  {
    Charmap.ParseHex(e.hex) == Some(e.key)
  }

  lemma AppendKeysIn(a: seq<LatinEntry>, b: seq<LatinEntry>, lo: int, mid: int, hi: int)
    requires lo <= mid <= hi && KeysIn(a, lo, mid) && KeysIn(b, mid, hi)
    ensures KeysIn(a + b, lo, hi)
  {
    forall i | 0 <= i < |a + b|
      ensures lo <= (a + b)[i].key < hi
    {
      if i < |a| {
        assert (a + b)[i] == a[i];
      } else {
        assert (a + b)[i] == b[i - |a|];
      }
    }
  }

  lemma AppendAscending(a: seq<LatinEntry>, b: seq<LatinEntry>, lo: int, mid: int, hi: int)
    requires KeysIn(a, lo, mid) && KeysIn(b, mid, hi)
    requires KeysAscending(a) && KeysAscending(b)
    ensures KeysAscending(a + b)
  {
    forall i | 0 <= i < |a + b| - 1
      ensures (a + b)[i].key < (a + b)[i + 1].key
    {
      if i + 1 < |a| {
        assert (a + b)[i] == a[i] && (a + b)[i + 1] == a[i + 1];
      } else if i + 1 == |a| {
        assert (a + b)[i] == a[i] && (a + b)[i + 1] == b[0];
      } else {
        assert (a + b)[i] == b[i - |a|] && (a + b)[i + 1] == b[i - |a| + 1];
      }
    }
  }

  lemma AppendEntries(a: seq<LatinEntry>, b: seq<LatinEntry>)
    requires forall i | 0 <= i < |a| :: EntryOk(a[i])
    requires forall i | 0 <= i < |b| :: EntryOk(b[i])
    ensures forall i | 0 <= i < |a + b| :: EntryOk((a + b)[i])
  {
    forall i | 0 <= i < |a + b|
      ensures EntryOk((a + b)[i])
    {
      if i < |a| {
        assert (a + b)[i] == a[i];
      } else {
        assert (a + b)[i] == b[i - |a|];
      }
    }
  }

  /** A part that starts where the table so far is bounded extends the
      table without breaking the order. */
  lemma PartAppend(a: seq<LatinEntry>, b: seq<LatinEntry>, lo: int, mid: int, hi: int)
    requires PartOk(a, lo, mid) && PartOk(b, mid, hi)
    ensures PartOk(a + b, lo, hi)
  {
    AppendKeysIn(a, b, lo, mid, hi);
    AppendAscending(a, b, lo, mid, hi);
    AppendEntries(a, b);
  }

  /** Well-formed parts with consecutive bounds make a well-formed table. */
  lemma {:induction false} PartsOk(parts: seq<seq<LatinEntry>>, bounds: seq<int>)
    requires |bounds| == |parts| + 1
    requires forall k | 0 <= k < |parts| :: PartOk(parts[k], bounds[k], bounds[k + 1])
    ensures PartOk(Tables.Concat(parts), bounds[0], bounds[|parts|])
  {
    if parts == [] {
    } else {
      var n := |parts| - 1;
      assert forall k | 0 <= k < n :: parts[..n][k] == parts[k];
      assert forall k | 0 <= k <= n :: bounds[..n + 1][k] == bounds[k];
      PartsOk(parts[..n], bounds[..n + 1]);
      PartAppend(Tables.Concat(parts[..n]), parts[n], bounds[0], bounds[n], bounds[n + 1]);
    }
  }

  /** Every line of every part spells its key in hex. */
  lemma PartsHexOk(parts: seq<seq<LatinEntry>>, e: LatinEntry)
    requires forall k, i | 0 <= k < |parts| && 0 <= i < |parts[k]| :: HexOk(parts[k][i])
    requires e in Tables.Concat(parts)
    ensures HexOk(e)
  {
    var k := Tables.ConcatPartOf(parts, e);
  }

  /** Two hex digits in upper case spell every key from 0x10 to 0xFF. */
  lemma TwoDigits(n: nat)
    requires 16 <= n < 256
    ensures Charmap.FormatHex(n) == [Charmap.HexChar(n / 16), Charmap.HexChar(n % 16)]
  {
  }

  /** The lines of a part whose hex fields have two digits spell their keys. */
  lemma TwoDigitPart(es: seq<LatinEntry>)
    requires forall i | 0 <= i < |es| :: 16 <= es[i].key < 256
    requires forall i | 0 <= i < |es| :: es[i].hex == [Charmap.HexChar(es[i].key / 16), Charmap.HexChar(es[i].key % 16)]
    ensures forall i | 0 <= i < |es| :: HexOk(es[i])
  {
    forall i | 0 <= i < |es|
      ensures HexOk(es[i])
    {
      TwoDigits(es[i].key);
      Charmap.ParseFormatHex(es[i].key);
    }
  }

  /** codegen/blocks/charmap.go:52-67 */
  const BasicLatin1: seq<LatinEntry> := [
    LatinEntry(32, 0, 2, "20"),
    LatinEntry(33, 1, 2, "21"),
    LatinEntry(34, 2, 2, "22"),
    LatinEntry(35, 3, 2, "23"),
    LatinEntry(36, 4, 2, "24"),
    LatinEntry(37, 5, 2, "25"),
    LatinEntry(38, 6, 2, "26"),
    LatinEntry(39, 7, 2, "27"),
    LatinEntry(40, 8, 2, "28"),
    LatinEntry(41, 9, 2, "29"),
    LatinEntry(42, 10, 2, "2A"),
    LatinEntry(43, 11, 2, "2B"),
    LatinEntry(44, 12, 2, "2C"),
    LatinEntry(45, 13, 2, "2D"),
    LatinEntry(46, 14, 2, "2E"),
    LatinEntry(47, 15, 2, "2F")
  ]

  /** codegen/blocks/charmap.go:68-83 */
  const BasicLatin2: seq<LatinEntry> := [
    LatinEntry(48, 0, 3, "30"),
    LatinEntry(49, 1, 3, "31"),
    LatinEntry(50, 2, 3, "32"),
    LatinEntry(51, 3, 3, "33"),
    LatinEntry(52, 4, 3, "34"),
    LatinEntry(53, 5, 3, "35"),
    LatinEntry(54, 6, 3, "36"),
    LatinEntry(55, 7, 3, "37"),
    LatinEntry(56, 8, 3, "38"),
    LatinEntry(57, 9, 3, "39"),
    LatinEntry(58, 10, 3, "3A"),
    LatinEntry(59, 11, 3, "3B"),
    LatinEntry(60, 12, 3, "3C"),
    LatinEntry(61, 13, 3, "3D"),
    LatinEntry(62, 14, 3, "3E"),
    LatinEntry(63, 15, 3, "3F")
  ]

  /** codegen/blocks/charmap.go:84-99 */
  const BasicLatin3: seq<LatinEntry> := [
    LatinEntry(64, 0, 4, "40"),
    LatinEntry(65, 1, 4, "41"),
    LatinEntry(66, 2, 4, "42"),
    LatinEntry(67, 3, 4, "43"),
    LatinEntry(68, 4, 4, "44"),
    LatinEntry(69, 5, 4, "45"),
    LatinEntry(70, 6, 4, "46"),
    LatinEntry(71, 7, 4, "47"),
    LatinEntry(72, 8, 4, "48"),
    LatinEntry(73, 9, 4, "49"),
    LatinEntry(74, 10, 4, "4A"),
    LatinEntry(75, 11, 4, "4B"),
    LatinEntry(76, 12, 4, "4C"),
    LatinEntry(77, 13, 4, "4D"),
    LatinEntry(78, 14, 4, "4E"),
    LatinEntry(79, 15, 4, "4F")
  ]

  /** codegen/blocks/charmap.go:100-115 */
  const BasicLatin4: seq<LatinEntry> := [
    LatinEntry(80, 0, 5, "50"),
    LatinEntry(81, 1, 5, "51"),
    LatinEntry(82, 2, 5, "52"),
    LatinEntry(83, 3, 5, "53"),
    LatinEntry(84, 4, 5, "54"),
    LatinEntry(85, 5, 5, "55"),
    LatinEntry(86, 6, 5, "56"),
    LatinEntry(87, 7, 5, "57"),
    LatinEntry(88, 8, 5, "58"),
    LatinEntry(89, 9, 5, "59"),
    LatinEntry(90, 10, 5, "5A"),
    LatinEntry(91, 11, 5, "5B"),
    LatinEntry(92, 12, 5, "5C"),
    LatinEntry(93, 13, 5, "5D"),
    LatinEntry(94, 14, 5, "5E"),
    LatinEntry(95, 15, 5, "5F")
  ]

  /** codegen/blocks/charmap.go:116-131 */
  const BasicLatin5: seq<LatinEntry> := [
    LatinEntry(96, 0, 6, "60"),
    LatinEntry(97, 1, 6, "61"),
    LatinEntry(98, 2, 6, "62"),
    LatinEntry(99, 3, 6, "63"),
    LatinEntry(100, 4, 6, "64"),
    LatinEntry(101, 5, 6, "65"),
    LatinEntry(102, 6, 6, "66"),
    LatinEntry(103, 7, 6, "67"),
    LatinEntry(104, 8, 6, "68"),
    LatinEntry(105, 9, 6, "69"),
    LatinEntry(106, 10, 6, "6A"),
    LatinEntry(107, 11, 6, "6B"),
    LatinEntry(108, 12, 6, "6C"),
    LatinEntry(109, 13, 6, "6D"),
    LatinEntry(110, 14, 6, "6E"),
    LatinEntry(111, 15, 6, "6F")
  ]

  /** codegen/blocks/charmap.go:132-146 */
  const BasicLatin6: seq<LatinEntry> := [
    LatinEntry(112, 0, 7, "70"),
    LatinEntry(113, 1, 7, "71"),
    LatinEntry(114, 2, 7, "72"),
    LatinEntry(115, 3, 7, "73"),
    LatinEntry(116, 4, 7, "74"),
    LatinEntry(117, 5, 7, "75"),
    LatinEntry(118, 6, 7, "76"),
    LatinEntry(119, 7, 7, "77"),
    LatinEntry(120, 8, 7, "78"),
    LatinEntry(121, 9, 7, "79"),
    LatinEntry(122, 10, 7, "7A"),
    LatinEntry(123, 11, 7, "7B"),
    LatinEntry(124, 12, 7, "7C"),
    LatinEntry(125, 13, 7, "7D"),
    LatinEntry(126, 14, 7, "7E")
  ]

  /** codegen/blocks/charmap.go:149-164 */
  const Latin1Part1: seq<LatinEntry> := [
    LatinEntry(160, 0, 2, "A0"),
    LatinEntry(161, 1, 12, "A1"),
    LatinEntry(162, 2, 10, "A2"),
    LatinEntry(163, 3, 10, "A3"),
    LatinEntry(164, 15, 1, "A4"),
    LatinEntry(165, 4, 11, "A5"),
    LatinEntry(166, 15, 7, "A6"),
    LatinEntry(167, 4, 10, "A7"),
    LatinEntry(168, 12, 10, "A8"),
    LatinEntry(169, 9, 10, "A9"),
    LatinEntry(170, 11, 11, "AA"),
    LatinEntry(171, 7, 12, "AB"),
    LatinEntry(172, 2, 12, "AC"),
    LatinEntry(173, 13, 2, "AD"),
    LatinEntry(174, 8, 10, "AE"),
    LatinEntry(175, 8, 15, "AF")
  ]

  /** codegen/blocks/charmap.go:165-180 */
  const Latin1Part2: seq<LatinEntry> := [
    LatinEntry(176, 1, 10, "B0"),
    LatinEntry(177, 1, 11, "B1"),
    LatinEntry(178, 3, 1, "B2"),
    LatinEntry(179, 4, 1, "B3"),
    LatinEntry(180, 11, 10, "B4"),
    LatinEntry(181, 5, 11, "B5"),
    LatinEntry(182, 6, 10, "B6"),
    LatinEntry(183, 1, 14, "B7"),
    LatinEntry(184, 12, 15, "B8"),
    LatinEntry(185, 2, 1, "B9"),
    LatinEntry(186, 12, 11, "BA"),
    LatinEntry(187, 8, 12, "BB"),
    LatinEntry(188, 5, 1, "BC"),
    LatinEntry(189, 6, 1, "BD"),
    LatinEntry(190, 7, 1, "BE"),
    LatinEntry(191, 0, 12, "BF")
  ]

  /** codegen/blocks/charmap.go:181-196 */
  const Latin1Part3: seq<LatinEntry> := [
    LatinEntry(192, 11, 12, "C0"),
    LatinEntry(193, 7, 14, "C1"),
    LatinEntry(194, 5, 14, "C2"),
    LatinEntry(195, 12, 12, "C3"),
    LatinEntry(196, 0, 8, "C4"),
    LatinEntry(197, 1, 8, "C5"),
    LatinEntry(198, 14, 10, "C6"),
    LatinEntry(199, 2, 8, "C7"),
    LatinEntry(200, 9, 14, "C8"),
    LatinEntry(201, 3, 8, "C9"),
    LatinEntry(202, 6, 14, "CA"),
    LatinEntry(203, 8, 14, "CB"),
    LatinEntry(204, 13, 14, "CC"),
    LatinEntry(205, 10, 14, "CD"),
    LatinEntry(206, 11, 14, "CE"),
    LatinEntry(207, 12, 14, "CF")
  ]

  /** codegen/blocks/charmap.go:197-212 */
  const Latin1Part4: seq<LatinEntry> := [
    LatinEntry(208, 8, 1, "D0"),
    LatinEntry(209, 4, 8, "D1"),
    LatinEntry(210, 1, 15, "D2"),
    LatinEntry(211, 14, 14, "D3"),
    LatinEntry(212, 15, 14, "D4"),
    LatinEntry(213, 13, 12, "D5"),
    LatinEntry(214, 5, 8, "D6"),
    LatinEntry(215, 9, 1, "D7"),
    LatinEntry(216, 15, 10, "D8"),
    LatinEntry(217, 4, 15, "D9"),
    LatinEntry(218, 2, 15, "DA"),
    LatinEntry(219, 3, 15, "DB"),
    LatinEntry(220, 6, 8, "DC"),
    LatinEntry(221, 10, 1, "DD"),
    LatinEntry(222, 11, 1, "DE"),
    LatinEntry(223, 7, 10, "DF")
  ]

  /** codegen/blocks/charmap.go:213-228 */
  const Latin1Part5: seq<LatinEntry> := [
    LatinEntry(224, 8, 8, "E0"),
    LatinEntry(225, 7, 8, "E1"),
    LatinEntry(226, 9, 8, "E2"),
    LatinEntry(227, 11, 8, "E3"),
    LatinEntry(228, 10, 8, "E4"),
    LatinEntry(229, 12, 8, "E5"),
    LatinEntry(230, 14, 11, "E6"),
    LatinEntry(231, 13, 8, "E7"),
    LatinEntry(232, 15, 8, "E8"),
    LatinEntry(233, 14, 8, "E9"),
    LatinEntry(234, 0, 9, "EA"),
    LatinEntry(235, 1, 9, "EB"),
    LatinEntry(236, 3, 9, "EC"),
    LatinEntry(237, 2, 9, "ED"),
    LatinEntry(238, 4, 9, "EE"),
    LatinEntry(239, 5, 9, "EF")
  ]

  /** codegen/blocks/charmap.go:229-244 */
  const Latin1Part6: seq<LatinEntry> := [
    LatinEntry(240, 12, 1, "F0"),
    LatinEntry(241, 6, 9, "F1"),
    LatinEntry(242, 8, 9, "F2"),
    LatinEntry(243, 7, 9, "F3"),
    LatinEntry(244, 9, 9, "F4"),
    LatinEntry(245, 11, 9, "F5"),
    LatinEntry(246, 10, 9, "F6"),
    LatinEntry(247, 6, 13, "F7"),
    LatinEntry(248, 15, 11, "F8"),
    LatinEntry(249, 13, 9, "F9"),
    LatinEntry(250, 12, 9, "FA"),
    LatinEntry(251, 14, 9, "FB"),
    LatinEntry(252, 15, 9, "FC"),
    LatinEntry(253, 13, 1, "FD"),
    LatinEntry(254, 14, 1, "FE"),
    LatinEntry(255, 8, 13, "FF")
  ]

  /** codegen/blocks/charmap.go:247-264 */
  const Punctuation: seq<LatinEntry> := [
    LatinEntry(338, 14, 12, "152"),
    LatinEntry(339, 15, 12, "153"),
    LatinEntry(8216, 4, 13, "2018"),
    LatinEntry(8217, 5, 13, "2019"),
    LatinEntry(8218, 2, 14, "201A"),
    LatinEntry(8219, 7, 11, "201B"),
    LatinEntry(8220, 2, 13, "201C"),
    LatinEntry(8221, 3, 13, "201D"),
    LatinEntry(8222, 3, 14, "201E"),
    LatinEntry(8223, 8, 11, "201F"),
    LatinEntry(8224, 0, 10, "2020"),
    LatinEntry(8225, 0, 14, "2021"),
    LatinEntry(8226, 5, 10, "2022"),
    LatinEntry(8364, 11, 13, "20AC")
  ]

  /** codegen/blocks/charmap.go:267-282 */
  const Icons: seq<LatinEntry> := [
    LatinEntry(59136, 0, 0, "E700"),
    LatinEntry(59137, 1, 0, "E701"),
    LatinEntry(59138, 2, 0, "E702"),
    LatinEntry(59139, 3, 0, "E703"),
    LatinEntry(59140, 4, 0, "E704"),
    LatinEntry(59141, 5, 0, "E705"),
    LatinEntry(59142, 6, 0, "E706"),
    LatinEntry(59143, 7, 0, "E707"),
    LatinEntry(59144, 8, 0, "E708"),
    LatinEntry(59145, 9, 0, "E709"),
    LatinEntry(59146, 13, 0, "E70A"),
    LatinEntry(59147, 14, 0, "E70B"),
    LatinEntry(59148, 15, 0, "E70C"),
    LatinEntry(65533, 0, 15, "FFFD")
  ]

  /** The map literal, part by part, in the order of the source. */
  const SysLatinParts: seq<seq<LatinEntry>> := [
    BasicLatin1, BasicLatin2, BasicLatin3, BasicLatin4,
    BasicLatin5, BasicLatin6, Latin1Part1, Latin1Part2,
    Latin1Part3, Latin1Part4, Latin1Part5, Latin1Part6,
    Punctuation, Icons
  ]

  /** The first key of each part, and a bound above the last key. */
  const PartBounds: seq<int> := [
    0x20, 0x30, 0x40, 0x50, 0x60, 0x70, 0xA0, 0xB0, 0xC0, 0xD0, 0xE0, 0xF0, 0x152, 0xE700, 0x10000
  ]

  /** The lines of the map literal, in order. */
  const SysLatinEntries: seq<LatinEntry> := Tables.Concat(SysLatinParts)

  /** `SysLatinMap()`: the codepoint-keyed character map. */
  function SysLatinMap(): map<int, CharSpec>
  {
    MapOf(SysLatinEntries)
  }

  // ---------------------------------------------------------------------
  // Per-part instances. The `…Keys`, `…Cells`, `…Ok`, `…Hex` and
  // `…Agrees` lemmas below state one property of one part of the literal;
  // they are not independent properties, but the steps that `AllPartsOk`,
  // `AllPartsHexOk` and `SysLatinListsAgree` compose, split part by part
  // so that each proof stays small.

  lemma BasicLatin1Keys()
    ensures KeysIn(BasicLatin1, 0x20, 0x30) && KeysAscending(BasicLatin1)
  {
  }

  lemma BasicLatin1Cells()
    ensures forall i | 0 <= i < |BasicLatin1| :: EntryOk(BasicLatin1[i])
  {
  }

  lemma BasicLatin1Ok()
    ensures PartOk(BasicLatin1, 0x20, 0x30)
  {
    BasicLatin1Keys();
    BasicLatin1Cells();
  }

  lemma BasicLatin2Keys()
    ensures KeysIn(BasicLatin2, 0x30, 0x40) && KeysAscending(BasicLatin2)
  {
  }

  lemma BasicLatin2Cells()
    ensures forall i | 0 <= i < |BasicLatin2| :: EntryOk(BasicLatin2[i])
  {
  }

  lemma BasicLatin2Ok()
    ensures PartOk(BasicLatin2, 0x30, 0x40)
  {
    BasicLatin2Keys();
    BasicLatin2Cells();
  }

  lemma BasicLatin3Keys()
    ensures KeysIn(BasicLatin3, 0x40, 0x50) && KeysAscending(BasicLatin3)
  {
  }

  lemma BasicLatin3Cells()
    ensures forall i | 0 <= i < |BasicLatin3| :: EntryOk(BasicLatin3[i])
  {
  }

  lemma BasicLatin3Ok()
    ensures PartOk(BasicLatin3, 0x40, 0x50)
  {
    BasicLatin3Keys();
    BasicLatin3Cells();
  }

  lemma BasicLatin4Keys()
    ensures KeysIn(BasicLatin4, 0x50, 0x60) && KeysAscending(BasicLatin4)
  {
  }

  lemma BasicLatin4Cells()
    ensures forall i | 0 <= i < |BasicLatin4| :: EntryOk(BasicLatin4[i])
  {
  }

  lemma BasicLatin4Ok()
    ensures PartOk(BasicLatin4, 0x50, 0x60)
  {
    BasicLatin4Keys();
    BasicLatin4Cells();
  }

  lemma BasicLatin5Keys()
    ensures KeysIn(BasicLatin5, 0x60, 0x70) && KeysAscending(BasicLatin5)
  {
  }

  lemma BasicLatin5Cells()
    ensures forall i | 0 <= i < |BasicLatin5| :: EntryOk(BasicLatin5[i])
  {
  }

  lemma BasicLatin5Ok()
    ensures PartOk(BasicLatin5, 0x60, 0x70)
  {
    BasicLatin5Keys();
    BasicLatin5Cells();
  }

  lemma BasicLatin6Keys()
    ensures KeysIn(BasicLatin6, 0x70, 0xA0) && KeysAscending(BasicLatin6)
  {
  }

  lemma BasicLatin6Cells()
    ensures forall i | 0 <= i < |BasicLatin6| :: EntryOk(BasicLatin6[i])
  {
  }

  lemma BasicLatin6Ok()
    ensures PartOk(BasicLatin6, 0x70, 0xA0)
  {
    BasicLatin6Keys();
    BasicLatin6Cells();
  }

  lemma Latin1Part1Keys()
    ensures KeysIn(Latin1Part1, 0xA0, 0xB0) && KeysAscending(Latin1Part1)
  {
  }

  lemma Latin1Part1Cells()
    ensures forall i | 0 <= i < |Latin1Part1| :: EntryOk(Latin1Part1[i])
  {
  }

  lemma Latin1Part1Ok()
    ensures PartOk(Latin1Part1, 0xA0, 0xB0)
  {
    Latin1Part1Keys();
    Latin1Part1Cells();
  }

  lemma Latin1Part2Keys()
    ensures KeysIn(Latin1Part2, 0xB0, 0xC0) && KeysAscending(Latin1Part2)
  {
  }

  lemma Latin1Part2Cells()
    ensures forall i | 0 <= i < |Latin1Part2| :: EntryOk(Latin1Part2[i])
  {
  }

  lemma Latin1Part2Ok()
    ensures PartOk(Latin1Part2, 0xB0, 0xC0)
  {
    Latin1Part2Keys();
    Latin1Part2Cells();
  }

  lemma Latin1Part3Keys()
    ensures KeysIn(Latin1Part3, 0xC0, 0xD0) && KeysAscending(Latin1Part3)
  {
  }

  lemma Latin1Part3Cells()
    ensures forall i | 0 <= i < |Latin1Part3| :: EntryOk(Latin1Part3[i])
  {
  }

  lemma Latin1Part3Ok()
    ensures PartOk(Latin1Part3, 0xC0, 0xD0)
  {
    Latin1Part3Keys();
    Latin1Part3Cells();
  }

  lemma Latin1Part4Keys()
    ensures KeysIn(Latin1Part4, 0xD0, 0xE0) && KeysAscending(Latin1Part4)
  {
  }

  lemma Latin1Part4Cells()
    ensures forall i | 0 <= i < |Latin1Part4| :: EntryOk(Latin1Part4[i])
  {
  }

  lemma Latin1Part4Ok()
    ensures PartOk(Latin1Part4, 0xD0, 0xE0)
  {
    Latin1Part4Keys();
    Latin1Part4Cells();
  }

  lemma Latin1Part5Keys()
    ensures KeysIn(Latin1Part5, 0xE0, 0xF0) && KeysAscending(Latin1Part5)
  {
  }

  lemma Latin1Part5Cells()
    ensures forall i | 0 <= i < |Latin1Part5| :: EntryOk(Latin1Part5[i])
  {
  }

  lemma Latin1Part5Ok()
    ensures PartOk(Latin1Part5, 0xE0, 0xF0)
  {
    Latin1Part5Keys();
    Latin1Part5Cells();
  }

  lemma Latin1Part6Keys()
    ensures KeysIn(Latin1Part6, 0xF0, 0x152) && KeysAscending(Latin1Part6)
  {
  }

  lemma Latin1Part6Cells()
    ensures forall i | 0 <= i < |Latin1Part6| :: EntryOk(Latin1Part6[i])
  {
  }

  lemma Latin1Part6Ok()
    ensures PartOk(Latin1Part6, 0xF0, 0x152)
  {
    Latin1Part6Keys();
    Latin1Part6Cells();
  }

  lemma PunctuationKeys()
    ensures KeysIn(Punctuation, 0x152, 0xE700) && KeysAscending(Punctuation)
  {
  }

  lemma PunctuationCells()
    ensures forall i | 0 <= i < |Punctuation| :: EntryOk(Punctuation[i])
  {
  }

  lemma PunctuationOk()
    ensures PartOk(Punctuation, 0x152, 0xE700)
  {
    PunctuationKeys();
    PunctuationCells();
  }

  lemma IconsKeys()
    ensures KeysIn(Icons, 0xE700, 0x10000) && KeysAscending(Icons)
  {
  }

  lemma IconsCells()
    ensures forall i | 0 <= i < |Icons| :: EntryOk(Icons[i])
  {
  }

  lemma IconsOk()
    ensures PartOk(Icons, 0xE700, 0x10000)
  {
    IconsKeys();
    IconsCells();
  }

  lemma BasicLatin1Hex()
    ensures forall i | 0 <= i < |BasicLatin1| :: HexOk(BasicLatin1[i])
  {
    TwoDigitPart(BasicLatin1);
  }

  lemma BasicLatin2Hex()
    ensures forall i | 0 <= i < |BasicLatin2| :: HexOk(BasicLatin2[i])
  {
    TwoDigitPart(BasicLatin2);
  }

  lemma BasicLatin3Hex()
    ensures forall i | 0 <= i < |BasicLatin3| :: HexOk(BasicLatin3[i])
  {
    TwoDigitPart(BasicLatin3);
  }

  lemma BasicLatin4Hex()
    ensures forall i | 0 <= i < |BasicLatin4| :: HexOk(BasicLatin4[i])
  {
    TwoDigitPart(BasicLatin4);
  }

  lemma BasicLatin5Hex()
    ensures forall i | 0 <= i < |BasicLatin5| :: HexOk(BasicLatin5[i])
  {
    TwoDigitPart(BasicLatin5);
  }

  lemma BasicLatin6Hex()
    ensures forall i | 0 <= i < |BasicLatin6| :: HexOk(BasicLatin6[i])
  {
    TwoDigitPart(BasicLatin6);
  }

  lemma Latin1Part1Hex()
    ensures forall i | 0 <= i < |Latin1Part1| :: HexOk(Latin1Part1[i])
  {
    TwoDigitPart(Latin1Part1);
  }

  lemma Latin1Part2Hex()
    ensures forall i | 0 <= i < |Latin1Part2| :: HexOk(Latin1Part2[i])
  {
    TwoDigitPart(Latin1Part2);
  }

  lemma Latin1Part3Hex()
    ensures forall i | 0 <= i < |Latin1Part3| :: HexOk(Latin1Part3[i])
  {
    TwoDigitPart(Latin1Part3);
  }

  lemma Latin1Part4Hex()
    ensures forall i | 0 <= i < |Latin1Part4| :: HexOk(Latin1Part4[i])
  {
    TwoDigitPart(Latin1Part4);
  }

  lemma Latin1Part5Hex()
    ensures forall i | 0 <= i < |Latin1Part5| :: HexOk(Latin1Part5[i])
  {
    TwoDigitPart(Latin1Part5);
  }

  lemma Latin1Part6Hex()
    ensures forall i | 0 <= i < |Latin1Part6| :: HexOk(Latin1Part6[i])
  {
    TwoDigitPart(Latin1Part6);
  }

  lemma PunctuationHex1()
    ensures forall i | 0 <= i < 4 :: HexOk(Punctuation[i])
  {
    Charmap.EightDigitsParse("152");
    assert Charmap.HexPrefix("152", 3) == 0x152;
    Charmap.EightDigitsParse("153");
    assert Charmap.HexPrefix("153", 3) == 0x153;
    Charmap.EightDigitsParse("2018");
    assert Charmap.HexPrefix("2018", 4) == 0x2018;
    Charmap.EightDigitsParse("2019");
    assert Charmap.HexPrefix("2019", 4) == 0x2019;
  }

  lemma PunctuationHex2()
    ensures forall i | 4 <= i < 8 :: HexOk(Punctuation[i])
  {
    Charmap.EightDigitsParse("201A");
    assert Charmap.HexPrefix("201A", 4) == 0x201A;
    Charmap.EightDigitsParse("201B");
    assert Charmap.HexPrefix("201B", 4) == 0x201B;
    Charmap.EightDigitsParse("201C");
    assert Charmap.HexPrefix("201C", 4) == 0x201C;
    Charmap.EightDigitsParse("201D");
    assert Charmap.HexPrefix("201D", 4) == 0x201D;
  }

  lemma PunctuationHex3()
    ensures forall i | 8 <= i < 12 :: HexOk(Punctuation[i])
  {
    Charmap.EightDigitsParse("201E");
    assert Charmap.HexPrefix("201E", 4) == 0x201E;
    Charmap.EightDigitsParse("201F");
    assert Charmap.HexPrefix("201F", 4) == 0x201F;
    Charmap.EightDigitsParse("2020");
    assert Charmap.HexPrefix("2020", 4) == 0x2020;
    Charmap.EightDigitsParse("2021");
    assert Charmap.HexPrefix("2021", 4) == 0x2021;
  }

  lemma PunctuationHex4()
    ensures forall i | 12 <= i < 14 :: HexOk(Punctuation[i])
  {
    Charmap.EightDigitsParse("2022");
    assert Charmap.HexPrefix("2022", 4) == 0x2022;
    Charmap.EightDigitsParse("20AC");
    assert Charmap.HexPrefix("20AC", 4) == 0x20AC;
  }

  lemma PunctuationHex()
    ensures forall i | 0 <= i < |Punctuation| :: HexOk(Punctuation[i])
  {
    PunctuationHex1(); PunctuationHex2(); PunctuationHex3(); PunctuationHex4();
  }

  lemma IconsHex1()
    ensures forall i | 0 <= i < 4 :: HexOk(Icons[i])
  {
    Charmap.EightDigitsParse("E700");
    assert Charmap.HexPrefix("E700", 4) == 0xE700;
    Charmap.EightDigitsParse("E701");
    assert Charmap.HexPrefix("E701", 4) == 0xE701;
    Charmap.EightDigitsParse("E702");
    assert Charmap.HexPrefix("E702", 4) == 0xE702;
    Charmap.EightDigitsParse("E703");
    assert Charmap.HexPrefix("E703", 4) == 0xE703;
  }

  lemma IconsHex2()
    ensures forall i | 4 <= i < 8 :: HexOk(Icons[i])
  {
    Charmap.EightDigitsParse("E704");
    assert Charmap.HexPrefix("E704", 4) == 0xE704;
    Charmap.EightDigitsParse("E705");
    assert Charmap.HexPrefix("E705", 4) == 0xE705;
    Charmap.EightDigitsParse("E706");
    assert Charmap.HexPrefix("E706", 4) == 0xE706;
    Charmap.EightDigitsParse("E707");
    assert Charmap.HexPrefix("E707", 4) == 0xE707;
  }

  lemma IconsHex3()
    ensures forall i | 8 <= i < 12 :: HexOk(Icons[i])
  {
    Charmap.EightDigitsParse("E708");
    assert Charmap.HexPrefix("E708", 4) == 0xE708;
    Charmap.EightDigitsParse("E709");
    assert Charmap.HexPrefix("E709", 4) == 0xE709;
    Charmap.EightDigitsParse("E70A");
    assert Charmap.HexPrefix("E70A", 4) == 0xE70A;
    Charmap.EightDigitsParse("E70B");
    assert Charmap.HexPrefix("E70B", 4) == 0xE70B;
  }

  lemma IconsHex4()
    ensures forall i | 12 <= i < 14 :: HexOk(Icons[i])
  {
    Charmap.EightDigitsParse("E70C");
    assert Charmap.HexPrefix("E70C", 4) == 0xE70C;
    Charmap.EightDigitsParse("FFFD");
    assert Charmap.HexPrefix("FFFD", 4) == 0xFFFD;
  }

  lemma IconsHex()
    ensures forall i | 0 <= i < |Icons| :: HexOk(Icons[i])
  {
    IconsHex1(); IconsHex2(); IconsHex3(); IconsHex4();
  }

  lemma AllPartsOk()
    ensures forall k | 0 <= k < |SysLatinParts| :: PartOk(SysLatinParts[k], PartBounds[k], PartBounds[k + 1])
  {
    BasicLatin1Ok();
    BasicLatin2Ok();
    BasicLatin3Ok();
    BasicLatin4Ok();
    BasicLatin5Ok();
    BasicLatin6Ok();
    Latin1Part1Ok();
    Latin1Part2Ok();
    Latin1Part3Ok();
    Latin1Part4Ok();
    Latin1Part5Ok();
    Latin1Part6Ok();
    PunctuationOk();
    IconsOk();
  }

  lemma AllPartsHexOk()
    ensures forall k, i | 0 <= k < |SysLatinParts| && 0 <= i < |SysLatinParts[k]| :: HexOk(SysLatinParts[k][i])
  {
    BasicLatin1Hex();
    BasicLatin2Hex();
    BasicLatin3Hex();
    BasicLatin4Hex();
    BasicLatin5Hex();
    BasicLatin6Hex();
    Latin1Part1Hex();
    Latin1Part2Hex();
    Latin1Part3Hex();
    Latin1Part4Hex();
    Latin1Part5Hex();
    Latin1Part6Hex();
    PunctuationHex();
    IconsHex();
  }

  /** The lines of the map literal: keys strictly ascending from 0x20,
      every key a codepoint the classification knows, every cell in the
      grid. */
  lemma SysLatinEntriesOk()
    ensures PartOk(SysLatinEntries, 0x20, 0x10000)
  {
    AllPartsOk();
    PartsOk(SysLatinParts, PartBounds);
  }

  /** No key of the map classifies as unknown, each value's hex field
      spells its key, and each cell lies in the grid. */
  lemma SysLatinMapKeys(k: int)
    requires k in SysLatinMap()
    ensures BlockForRune(k).0 != Unknown
    ensures Charmap.ParseHex(SysLatinMap()[k].hex) == Some(k)
    ensures 0 <= SysLatinMap()[k].row < 16 && 0 <= SysLatinMap()[k].col < 16
  {
    var i := MapOfSource(SysLatinEntries, k);
    SysLatinEntriesOk();
    AllPartsHexOk();
    PartsHexOk(SysLatinParts, SysLatinEntries[i]);
  }

  /** Every line of the literal is in the map, under its key. */
  lemma SysLatinMapHolds(e: LatinEntry)
    requires e in SysLatinEntries
    ensures e.key in SysLatinMap() && SysLatinMap()[e.key] == Spec(e)
  {
    SysLatinEntriesOk();
    var i :| 0 <= i < |SysLatinEntries| && SysLatinEntries[i] == e;
    MapOfHolds(SysLatinEntries, i);
  }

  /** Two lines of the literal: 32 with "20" and 59136 with "E700". */
  lemma SysLatinMapSamples()
    ensures 32 in SysLatinMap() && SysLatinMap()[32] == CharSpec(0, 2, "20")
    ensures 59136 in SysLatinMap() && SysLatinMap()[59136] == CharSpec(0, 0, "E700")
  {
    assert BasicLatin1[0] == LatinEntry(32, 0, 2, "20");
    Tables.ConcatHasPart(SysLatinParts, 0, BasicLatin1[0]);
    SysLatinMapHolds(BasicLatin1[0]);
    assert Icons[0] == LatinEntry(59136, 0, 0, "E700");
    Tables.ConcatHasPart(SysLatinParts, 13, Icons[0]);
    SysLatinMapHolds(Icons[0]);
  }

  // ---------------------------------------------------------------------
  // The two copies of SysLatinMap (codegen/font/charmap.go:105-339 and
  // codegen/blocks/charmap.go:49-284)

  /** The font list's entry for a line of the map literal. */
  function FontSpec(e: LatinEntry): Charmap.CharSpec
  {
    Charmap.CharSpec(e.hex, e.row, e.col)
  }

  /** The two lists hold the same hex fields and cells, line by line. */
  predicate Agrees(fs: seq<Charmap.CharSpec>, es: seq<LatinEntry>)
  {
    |fs| == |es| && forall i | 0 <= i < |es| :: fs[i] == FontSpec(es[i])
  }

  lemma AgreesAppend(fa: seq<Charmap.CharSpec>, ea: seq<LatinEntry>, fb: seq<Charmap.CharSpec>, eb: seq<LatinEntry>)
    requires Agrees(fa, ea) && Agrees(fb, eb)
    ensures Agrees(fa + fb, ea + eb)
  {
    forall i | 0 <= i < |ea + eb|
      ensures (fa + fb)[i] == FontSpec((ea + eb)[i])
    {
      if i >= |ea| {
        assert (fa + fb)[i] == fb[i - |ea|] && (ea + eb)[i] == eb[i - |ea|];
      }
    }
  }

  lemma {:induction false} PartsAgree(fparts: seq<seq<Charmap.CharSpec>>, eparts: seq<seq<LatinEntry>>)
    requires |fparts| == |eparts|
    requires forall k | 0 <= k < |eparts| :: Agrees(fparts[k], eparts[k])
    ensures Agrees(Tables.Concat(fparts), Tables.Concat(eparts))
  {
    if eparts != [] {
      var n := |eparts| - 1;
      assert forall k | 0 <= k < n :: fparts[..n][k] == fparts[k] && eparts[..n][k] == eparts[k];
      PartsAgree(fparts[..n], eparts[..n]);
      AgreesAppend(Tables.Concat(fparts[..n]), Tables.Concat(eparts[..n]), fparts[n], eparts[n]);
    }
  }

  // Per-part instances of the agreement, composed by `SysLatinListsAgree`.

  lemma BasicLatin1Agrees()
    ensures Agrees(Charmap.BasicLatin1, BasicLatin1)
  {
  }

  lemma BasicLatin2Agrees()
    ensures Agrees(Charmap.BasicLatin2, BasicLatin2)
  {
  }

  lemma BasicLatin3Agrees()
    ensures Agrees(Charmap.BasicLatin3, BasicLatin3)
  {
  }

  lemma BasicLatin4Agrees()
    ensures Agrees(Charmap.BasicLatin4, BasicLatin4)
  {
  }

  lemma BasicLatin5Agrees()
    ensures Agrees(Charmap.BasicLatin5, BasicLatin5)
  {
  }

  lemma BasicLatin6Agrees()
    ensures Agrees(Charmap.BasicLatin6, BasicLatin6)
  {
  }

  lemma Latin1Part1Agrees()
    ensures Agrees(Charmap.Latin1Part1, Latin1Part1)
  {
  }

  lemma Latin1Part2Agrees()
    ensures Agrees(Charmap.Latin1Part2, Latin1Part2)
  {
  }

  lemma Latin1Part3Agrees()
    ensures Agrees(Charmap.Latin1Part3, Latin1Part3)
  {
  }

  lemma Latin1Part4Agrees()
    ensures Agrees(Charmap.Latin1Part4, Latin1Part4)
  {
  }

  lemma Latin1Part5Agrees()
    ensures Agrees(Charmap.Latin1Part5, Latin1Part5)
  {
  }

  lemma Latin1Part6Agrees()
    ensures Agrees(Charmap.Latin1Part6, Latin1Part6)
  {
  }

  lemma PunctuationAgrees()
    ensures Agrees(Charmap.Punctuation, Punctuation)
  {
  }

  lemma IconsAgrees()
    ensures Agrees(Charmap.Icons, Icons)
  {
  }

  /** The font list of codegen/font/charmap.go is the map literal of
      codegen/blocks/charmap.go line for line, without keys. */
  lemma SysLatinListsAgree()
    ensures Agrees(Charmap.SysLatinMap, SysLatinEntries)
  {
    BasicLatin1Agrees();
    BasicLatin2Agrees();
    BasicLatin3Agrees();
    BasicLatin4Agrees();
    BasicLatin5Agrees();
    BasicLatin6Agrees();
    Latin1Part1Agrees();
    Latin1Part2Agrees();
    Latin1Part3Agrees();
    Latin1Part4Agrees();
    Latin1Part5Agrees();
    Latin1Part6Agrees();
    PunctuationAgrees();
    IconsAgrees();
    PartsAgree(Charmap.SysLatinParts, SysLatinParts);
  }

  /** Every entry of the font list has a first codepoint, the key of the
      same line of the map literal; `Block` finds a block for it; and its
      column is below 16, the number of columns of the Bold and Regular
      sprite sheets. */
  lemma FontListFirstCodepoints(i: nat)
    requires i < |Charmap.SysLatinMap|
    ensures i < |SysLatinEntries|
    ensures Charmap.FirstCodepoint(Charmap.SysLatinMap[i]) == Some(SysLatinEntries[i].key)
    ensures Charmap.FirstBlock(Charmap.KnownBlocks, SysLatinEntries[i].key).Some?
    ensures 0 <= Charmap.SysLatinMap[i].col < 16
  {
    SysLatinListsAgree();
    SysLatinEntriesOk();
    AllPartsHexOk();
    var e := SysLatinEntries[i];
    PartsHexOk(SysLatinParts, e);
    Charmap.SplitNoSeparator(e.hex, '-');
    var r := BlockForRune(e.key);
    KnownRunesInBlockTable(r.0, e.key);
  }
}
