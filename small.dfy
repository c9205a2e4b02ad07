/** The generated glyph index of the Small font (src/fonts/small.rs): `get_glyph_pattern_offset`
    maps a character to the offset of its glyph record in `DATA` through one
    table per subset of a Unicode block, and `DATA` holds the records one
    after the other in the order of those tables.  The tables are written as
    parts of at most 16 entries, so that each fact about them is checked one
    part at a time; the parts joined in order are the tables of the source.
    Of `DATA` the model holds its length and sampled records. */
module Small {
  import Blocks
  import Wrappers
  import Fonts
  import Sprite
  import Pattern
  import Tables
  import opened Matrices

  /** The length of `DATA` (src/fonts/small.rs:264). */
  const DataLen: nat := 1071

  /** `MAX_HEIGHT`: no glyph reaches below this many rows from the top of
      the line (src/fonts/small.rs:250-252). */
  const MaxHeight: nat := 24

  // ---------------------------------------------------------------------
  // The block tables
  const BasicLatinPart0: seq<nat> := [0, 2, 4, 6, 11, 18, 26, 34, 36, 41, 46, 51, 56, 58, 60, 62]
  const BasicLatinPart1: seq<nat> := [67, 73, 76, 82, 88, 94, 100, 106, 112, 118, 124, 126, 129, 132, 135, 138]
  const BasicLatinPart2: seq<nat> := [143, 151, 157, 163, 169, 175, 180, 185, 191, 197, 199, 205, 211, 216, 224, 230]
  const BasicLatinPart3: seq<nat> := [236, 242, 248, 254, 260, 266, 272, 278, 286, 292, 298, 303, 307, 312, 316, 318]
  const BasicLatinPart4: seq<nat> := [320, 322, 326, 331, 335, 340, 344, 349, 354, 359, 361, 366, 371, 373, 379, 383]
  const BasicLatinPart5: seq<nat> := [387, 392, 397, 401, 405, 409, 413, 418, 424, 429, 435, 439, 444, 447, 452]
  /** `BASIC_LATIN` (src/fonts/small.rs:20-117). */
  const BasicLatin: seq<nat> := BasicLatinPart0 + BasicLatinPart1 + BasicLatinPart2 + BasicLatinPart3 + BasicLatinPart4 + BasicLatinPart5
  const Latin1Part0: seq<nat> := [455, 457, 459, 465, 471, 477, 483, 486, 493, 495, 504, 508, 513, 516, 518, 527]
  const Latin1Part1: seq<nat> := [529, 532, 537, 540, 543, 545, 552, 560, 562, 564, 567, 571, 576, 589, 602, 615]
  const Latin1Part2: seq<nat> := [620, 628, 636, 644, 652, 659, 667, 675, 682, 688, 694, 700, 706, 710, 714, 719]
  const Latin1Part3: seq<nat> := [724, 731, 739, 747, 755, 763, 771, 778, 783, 791, 799, 807, 815, 822, 830, 835]
  const Latin1Part4: seq<nat> := [841, 846, 851, 856, 861, 866, 872, 878, 883, 888, 893, 898, 903, 906, 909, 913]
  const Latin1Part5: seq<nat> := [917, 922, 927, 932, 937, 942, 947, 952, 957, 963, 968, 973, 978, 983, 991, 997]
  /** `LATIN_1` (src/fonts/small.rs:119-217). */
  const Latin1: seq<nat> := Latin1Part0 + Latin1Part1 + Latin1Part2 + Latin1Part3 + Latin1Part4 + Latin1Part5
  /** `LATIN_EXTENDED_A` (src/fonts/small.rs:219-223). */
  const LatinExtendedA: seq<nat> := [1004, 1012]
  /** `GENERAL_PUNCTUATION` (src/fonts/small.rs:225-238). */
  const GeneralPunctuation: seq<nat> := [1018, 1020, 1022, 1024, 1026, 1029, 1032, 1035, 1038, 1041, 1046]
  /** `CURRENCY_SYMBOLS` (src/fonts/small.rs:240-243). */
  const CurrencySymbols: seq<nat> := [1051]
  /** `SPECIALS` (src/fonts/small.rs:245-248). */
  const Specials: seq<nat> := [1058]
  /** The blocks with a table: every block the classification knows except
      the Private Use Area, which this font has no glyphs for. */
  predicate Covers(b: Blocks.UnicodeBlock)
  {
    b != Blocks.Unknown && b != Blocks.PrivateUseArea
  }

  /** The table that holds the glyphs of the subset of block `b`. */
  function Table(b: Blocks.UnicodeBlock): (t: seq<nat>)
    requires Covers(b)
    ensures |t| == Blocks.SubsetSize(b)
  {
    match b
    case BasicLatin => BasicLatin
    case Latin1 => Latin1
    case LatinExtendedA => LatinExtendedA
    case GeneralPunctuation => GeneralPunctuation
    case CurrencySymbols => CurrencySymbols
    case Specials => Specials
  }

  /** Where the records of block `b` end: at the first record of the
      next table, and for the last table at the end of `DATA`. */
  function End(b: Blocks.UnicodeBlock): nat
    requires Covers(b)
  {
    match b
    case BasicLatin => 455
    case Latin1 => 1004
    case LatinExtendedA => 1018
    case GeneralPunctuation => 1051
    case CurrencySymbols => 1058
    case Specials => DataLen
  }

  // ---------------------------------------------------------------------
  // get_glyph_pattern_offset (src/fonts/small.rs:8-18)

  /** The offset of the record of `c`: the entry of the table of its range,
      and for any other character that of U+FFFD.  Every index is inside its
      table and every offset inside `DATA`. */
  function GetGlyphPatternOffset(c: char): (offset: nat)
    ensures offset < DataLen
  {
    var n := c as int;
    if 0x0020 <= n <= 0x007E then TableWithin(Blocks.BasicLatin); BasicLatin[n - 0x0020]
    else if 0x00A0 <= n <= 0x00FF then TableWithin(Blocks.Latin1); Latin1[n - 0x00A0]
    else if 0x0152 <= n <= 0x0153 then TableWithin(Blocks.LatinExtendedA); LatinExtendedA[n - 0x0152]
    else if 0x2018 <= n <= 0x2022 then TableWithin(Blocks.GeneralPunctuation); GeneralPunctuation[n - 0x2018]
    else if 0x20AC <= n <= 0x20AC then TableWithin(Blocks.CurrencySymbols); CurrencySymbols[n - 0x20AC]
    else TableWithin(Blocks.Specials); Specials[0xFFFD - 0xFFFD]
  }

  /** The dispatcher picks the entry that the classification of
      codegen/blocks/charmap.go names: the table of the character's block at
      its offset from the subset's start, and U+FFFD's entry for a block
      without a table. */
  lemma OffsetFollowsBlocks(c: char)
    ensures var r := Blocks.BlockForRune(c as int);
      GetGlyphPatternOffset(c) == if Covers(r.0) then Table(r.0)[r.1] else Specials[0]
  {
  }

  // ---------------------------------------------------------------------
  // The tables index the records in order

  lemma BasicLatinIncreasing()
    ensures Tables.Increasing(BasicLatin)
  {
    Tables.IncreasingAppend(BasicLatinPart0, BasicLatinPart1);
    Tables.IncreasingAppend(BasicLatinPart0 + BasicLatinPart1, BasicLatinPart2);
    Tables.IncreasingAppend(BasicLatinPart0 + BasicLatinPart1 + BasicLatinPart2, BasicLatinPart3);
    Tables.IncreasingAppend(BasicLatinPart0 + BasicLatinPart1 + BasicLatinPart2 + BasicLatinPart3, BasicLatinPart4);
    Tables.IncreasingAppend(BasicLatinPart0 + BasicLatinPart1 + BasicLatinPart2 + BasicLatinPart3 + BasicLatinPart4, BasicLatinPart5);
  }

  lemma Latin1Increasing()
    ensures Tables.Increasing(Latin1)
  {
    Tables.IncreasingAppend(Latin1Part0, Latin1Part1);
    Tables.IncreasingAppend(Latin1Part0 + Latin1Part1, Latin1Part2);
    Tables.IncreasingAppend(Latin1Part0 + Latin1Part1 + Latin1Part2, Latin1Part3);
    Tables.IncreasingAppend(Latin1Part0 + Latin1Part1 + Latin1Part2 + Latin1Part3, Latin1Part4);
    Tables.IncreasingAppend(Latin1Part0 + Latin1Part1 + Latin1Part2 + Latin1Part3 + Latin1Part4, Latin1Part5);
  }

  /** Each table is strictly increasing. */
  lemma TableIncreasing(b: Blocks.UnicodeBlock)
    requires Covers(b)
    ensures Tables.Increasing(Table(b))
  {
    if b == Blocks.BasicLatin {
      BasicLatinIncreasing();
    } else if b == Blocks.Latin1 {
      Latin1Increasing();
    }
  }

  /** The entries of each table lie from its first entry up to below the
      end of its block's records, which lies inside `DATA`. */
  lemma TableWithin(b: Blocks.UnicodeBlock)
    requires Covers(b)
    ensures Tables.Within(Table(b), Table(b)[0], End(b)) && End(b) <= DataLen
  {
    TableIncreasing(b);
    Tables.IncreasingWithin(Table(b));
  }

  /** The tables index `DATA` in the order of their blocks: the records of
      a block end where those of every later block begin. */
  lemma TablesOrdered(a: Blocks.UnicodeBlock, b: Blocks.UnicodeBlock)
    requires Covers(a) && Covers(b) && Blocks.SubsetLow(a) < Blocks.SubsetLow(b)
    ensures End(a) <= Table(b)[0]
  {
  }

  /** The first record is at the start of `DATA`, and the last table's
      records end at its end. */
  lemma TablesSpanData()
    ensures Table(Blocks.BasicLatin)[0] == 0 && End(Blocks.Specials) == DataLen
  {
  }

  /** Distinct entries of the tables are distinct records. */
  lemma EntriesDistinct(b1: Blocks.UnicodeBlock, i1: int, b2: Blocks.UnicodeBlock, i2: int)
    requires Covers(b1) && 0 <= i1 < Blocks.SubsetSize(b1)
    requires Covers(b2) && 0 <= i2 < Blocks.SubsetSize(b2)
    requires b1 != b2 || i1 != i2
    ensures Table(b1)[i1] != Table(b2)[i2]
  {
    TableWithin(b1);
    TableWithin(b2);
    if b1 == b2 {
      TableIncreasing(b1);
      if i1 < i2 {
        Tables.IncreasingOrdered(Table(b1), i1, i2);
      } else {
        Tables.IncreasingOrdered(Table(b1), i2, i1);
      }
    } else if Blocks.SubsetLow(b1) < Blocks.SubsetLow(b2) {
      TablesOrdered(b1, b2);
    } else {
      TablesOrdered(b2, b1);
    }
  }

  /** Distinct characters that have a table entry get distinct records. */
  lemma GlyphsDistinct(c1: char, c2: char)
    requires Covers(Blocks.BlockForRune(c1 as int).0) && Covers(Blocks.BlockForRune(c2 as int).0)
    requires c1 != c2
    ensures GetGlyphPatternOffset(c1) != GetGlyphPatternOffset(c2)
  {
    var r1, r2 := Blocks.BlockForRune(c1 as int), Blocks.BlockForRune(c2 as int);
    OffsetFollowsBlocks(c1);
    OffsetFollowsBlocks(c2);
    EntriesDistinct(r1.0, r1.1, r2.0, r2.1);
  }

  /** Every table entry is reached: the character at offset `i` of the
      subset of block `b` gets entry `i` of the block's table. */
  lemma TableEntryReached(b: Blocks.UnicodeBlock, i: int)
    requires Covers(b) && 0 <= i < Blocks.SubsetSize(b)
    ensures 0 <= Blocks.SubsetLow(b) + i < 0xD800 || 0xE000 <= Blocks.SubsetLow(b) + i < 0x11_0000
    ensures GetGlyphPatternOffset((Blocks.SubsetLow(b) + i) as char) == Table(b)[i]
  {
    Blocks.BlockForRuneInverse(b, i);
    OffsetFollowsBlocks((Blocks.SubsetLow(b) + i) as char);
  }

  /** Every other character, the C0 and C1 controls among them, shows the
      glyph of U+FFFD. */
  lemma UncoveredShowsReplacement(c: char)
    requires !Covers(Blocks.BlockForRune(c as int).0)
    ensures GetGlyphPatternOffset(c) == GetGlyphPatternOffset('\U{FFFD}') == Specials[0]
  {
    OffsetFollowsBlocks(c);
  }

  lemma ControlsShowReplacement(c: char)
    requires c < ' ' || '\U{7F}' <= c < '\U{A0}'
    ensures GetGlyphPatternOffset(c) == Specials[0] == 1058
  {
    Blocks.ControlsUnknown(c as int);
    OffsetFollowsBlocks(c);
  }

  /** This font has no Private Use Area table: the UI sprites U+E700..U+E70C
      show the glyph of U+FFFD. */
  lemma PrivateUseShowsReplacement(c: char)
    requires '\U{E700}' <= c <= '\U{E70C}'
    ensures GetGlyphPatternOffset(c) == Specials[0] == 1058
  {
  }

  // ---------------------------------------------------------------------
  // Sampled records of DATA (src/fonts/small.rs:254-264)

  /** The record of the space (src/fonts/small.rs:265-266). */
  const SpaceRecord: seq<bv32> := [0x0004_020b, 0x0000_0000]

  /** The record of '!' (src/fonts/small.rs:267-268). */
  const ExclamationRecord: seq<bv32> := [0x0002_0e06, 0xffff_f0f0]

  /** The record of '"' (src/fonts/small.rs:269-270). */
  const QuotationRecord: seq<bv32> := [0x0006_0406, 0xcf3c_f300]

  /** The record of '#' (src/fonts/small.rs:271-272). */
  const NumberSignRecord: seq<bv32> := [0x000a_0a04, 0xcc33_0fff, 0xff33_0ccf, 0xffff_0cc3, 0x3000_0000]

  /** The record of '$' (src/fonts/small.rs:273-274). */
  const DollarRecord: seq<bv32> := [0x000a_1204, 0x0c03_03f0, 0xfccc_f330, 0xcc33_3f0f, 0xccc3_30cc, 0xf333_f0fc, 0x0c03_0000]

  /** The record of U+FFFD (src/fonts/small.rs:680-682). */
  const ReplacementRecord: seq<bv32> := [0x0012_1402, 0x00c0_0030, 0x003f_000f, 0xc00f_3c03, 0xcf03_ccf0, 0xf33c_fcff, 0xff3f_fff3, 0xfffc_ff3f, 0xff0f_ffc0, 0xf3c0_3cf0, 0x03f0_00fc, 0x000c_0003, 0x0000_0000]

  /** The record of the space, 4 by 2 pixels 11 rows down, is as long as its
      header says and ends where the record of the next character starts. */
  lemma SpaceRecordFits()
    ensures Fonts.NewGlyphHeader(SpaceRecord[0]) == Fonts.GlyphHeader(4, 2, 11)
    ensures Fonts.RecordFits(SpaceRecord, BasicLatin[0], BasicLatin[1], MaxHeight)
  {
  }

  /** The record of '!', 2 by 14 pixels 6 rows down, is as long as its
      header says and ends where the record of the next character starts. */
  lemma ExclamationRecordFits()
    ensures Fonts.NewGlyphHeader(ExclamationRecord[0]) == Fonts.GlyphHeader(2, 14, 6)
    ensures Fonts.RecordFits(ExclamationRecord, BasicLatin[1], BasicLatin[2], MaxHeight)
  {
  }

  /** The record of '"', 6 by 4 pixels 6 rows down, is as long as its
      header says and ends where the record of the next character starts. */
  lemma QuotationRecordFits()
    ensures Fonts.NewGlyphHeader(QuotationRecord[0]) == Fonts.GlyphHeader(6, 4, 6)
    ensures Fonts.RecordFits(QuotationRecord, BasicLatin[2], BasicLatin[3], MaxHeight)
  {
  }

  /** The record of '#', 10 by 10 pixels 4 rows down, is as long as its
      header says and ends where the record of the next character starts. */
  lemma NumberSignRecordFits()
    ensures Fonts.NewGlyphHeader(NumberSignRecord[0]) == Fonts.GlyphHeader(10, 10, 4)
    ensures Fonts.RecordFits(NumberSignRecord, BasicLatin[3], BasicLatin[4], MaxHeight)
  {
  }

  /** The record of '$', 10 by 18 pixels 4 rows down, is as long as its
      header says and ends where the record of the next character starts. */
  lemma DollarRecordFits()
    ensures Fonts.NewGlyphHeader(DollarRecord[0]) == Fonts.GlyphHeader(10, 18, 4)
    ensures Fonts.RecordFits(DollarRecord, BasicLatin[4], BasicLatin[5], MaxHeight)
  {
  }

  /** The record of U+FFFD is the last one and ends exactly at the end of
      `DATA`. */
  lemma ReplacementRecordFits()
    ensures Fonts.NewGlyphHeader(ReplacementRecord[0]) == Fonts.GlyphHeader(18, 20, 2)
    ensures Fonts.RecordFits(ReplacementRecord, Specials[0], DataLen, MaxHeight)
  {
  }

  // ---------------------------------------------------------------------
  // Compiled cells of the sprite sheet

  /** A blank 4-by-2 window at yOffset 11 packs to the space record: its
      header and one zero word. */
  lemma SpacePattern(px: Matrix)
    requires |px| == 2 && RowsOfWidth(px, 4) && NoInk(px)
    ensures Pattern.Packable(px) && Pattern.PatternOf(px, 11) == SpaceRecord
  {
    Pattern.RectangleHeader(px, 11, 4, 2);
    Pattern.PatternLength(px, 11);
    Pattern.BlankPattern(px, 11, 1);
    var pattern := Pattern.PatternOf(px, 11);
    assert pattern == [pattern[0], pattern[1]];
  }

  /** The sheet's space cell: its side and the limits its trim uses. */
  lemma SpaceCellLimits(f: Sprite.FontSpec)
    requires f.name == "Small" && f.size == 24 && f.gutter == f.border >= 0
    ensures Sprite.GridSize(f) > 0 && Sprite.CellSide(f) == 24
    ensures Sprite.TrimLimits(f, 0, 2) == [11, 10, 11, 10]
  {
    Sprite.TrimLimitsCases(f, 0, 2);
  }

  /** The trim of a blank space cell keeps its 4-by-2 window 11 rows down. */
  lemma SpaceCellWindow(img: Sprite.Image, f: Sprite.FontSpec)
    requires f.name == "Small" && f.size == 24 && f.gutter == f.border >= 0
    requires Sprite.InGrid(img, f, 0, 2)
    requires NoInk(Sprite.RawCell(img, f, 0, 2))
    ensures var px := Sprite.Window(Sprite.RawCell(img, f, 0, 2), 11, 13, 10, 14);
      && Sprite.ExtractGlyph(img, f, 0, 2) == Wrappers.Ok(Sprite.Glyph(px, 11))
      && |px| == 2 && RowsOfWidth(px, 4) && NoInk(px)
  {
    SpaceCellLimits(f);
    Sprite.ExtractBlank(img, f, 0, 2, Sprite.RawCell(img, f, 0, 2), 24, 11, 10, 11, 10);
  }

  /** A blank space cell compiles to the space record. */
  lemma SpaceCellCompiles(img: Sprite.Image, f: Sprite.FontSpec)
    requires f.name == "Small" && f.size == 24 && f.gutter == f.border >= 0
    requires Sprite.InGrid(img, f, 0, 2)
    requires NoInk(Sprite.RawCell(img, f, 0, 2))
    ensures Sprite.ExtractGlyph(img, f, 0, 2).Ok?
    ensures var g := Sprite.ExtractGlyph(img, f, 0, 2).value;
      g.yOffset == 11 && Pattern.Packable(g.pixels) && Pattern.PatternOf(g.pixels, 11) == SpaceRecord
  {
    SpaceCellWindow(img, f);
    SpacePattern(Sprite.Window(Sprite.RawCell(img, f, 0, 2), 11, 13, 10, 14));
  }
}
