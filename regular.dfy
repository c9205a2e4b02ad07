/** The generated glyph index of the Regular font (src/fonts/regular.rs): `get_glyph_pattern_offset`
    maps a character to the offset of its glyph record in `DATA` through one
    table per subset of a Unicode block, and `DATA` holds the records one
    after the other in the order of those tables.  The tables are written as
    parts of at most 16 entries, so that each fact about them is checked one
    part at a time; the parts joined in order are the tables of the source.
    Of `DATA` the model holds its length and sampled records. */
module Regular {
  import Blocks
  import Wrappers
  import Fonts
  import Sprite
  import Pattern
  import Tables
  import opened Matrices

  /** The length of `DATA` (src/fonts/regular.rs:282). */
  const DataLen: nat := 1563

  /** `MAX_HEIGHT`: no glyph reaches below this many rows from the top of
      the line (src/fonts/regular.rs:268-270). */
  const MaxHeight: nat := 30

  // ---------------------------------------------------------------------
  // The block tables
  const BasicLatinPart0: seq<nat> := [0, 2, 5, 7, 13, 21, 30, 40, 42, 48, 54, 59, 64, 66, 68, 70]
  const BasicLatinPart1: seq<nat> := [78, 86, 90, 98, 106, 115, 123, 131, 139, 147, 155, 157, 160, 165, 169, 174]
  const BasicLatinPart2: seq<nat> := [182, 191, 200, 208, 216, 224, 231, 238, 246, 254, 257, 265, 273, 280, 289, 297]
  const BasicLatinPart3: seq<nat> := [305, 313, 323, 331, 339, 348, 356, 365, 377, 384, 391, 398, 402, 410, 414, 417]
  const BasicLatinPart4: seq<nat> := [419, 421, 427, 434, 440, 447, 453, 459, 467, 474, 477, 483, 490, 493, 502, 508]
  const BasicLatinPart5: seq<nat> := [514, 521, 528, 534, 540, 546, 552, 558, 567, 573, 582, 588, 594, 597, 603]
  /** `BASIC_LATIN` (src/fonts/regular.rs:21-118). */
  const BasicLatin: seq<nat> := BasicLatinPart0 + BasicLatinPart1 + BasicLatinPart2 + BasicLatinPart3 + BasicLatinPart4 + BasicLatinPart5
  const Latin1Part0: seq<nat> := [606, 608, 611, 618, 626, 633, 640, 643, 653, 655, 664, 669, 674, 677, 679, 688]
  const Latin1Part1: seq<nat> := [690, 693, 699, 702, 705, 707, 717, 728, 730, 732, 735, 740, 745, 758, 771, 784]
  const Latin1Part2: seq<nat> := [791, 803, 815, 827, 839, 850, 861, 874, 884, 893, 902, 911, 919, 923, 927, 933]
  const Latin1Part3: seq<nat> := [939, 948, 958, 968, 978, 988, 998, 1008, 1013, 1023, 1033, 1043, 1053, 1063, 1072, 1079]
  const Latin1Part4: seq<nat> := [1087, 1095, 1103, 1111, 1119, 1126, 1135, 1144, 1151, 1159, 1167, 1175, 1182, 1186, 1190, 1195]
  const Latin1Part5: seq<nat> := [1200, 1207, 1215, 1223, 1231, 1239, 1247, 1254, 1259, 1267, 1275, 1283, 1291, 1298, 1309, 1317]
  /** `LATIN_1` (src/fonts/regular.rs:120-218). */
  const Latin1: seq<nat> := Latin1Part0 + Latin1Part1 + Latin1Part2 + Latin1Part3 + Latin1Part4 + Latin1Part5
  /** `LATIN_EXTENDED_A` (src/fonts/regular.rs:220-224). */
  const LatinExtendedA: seq<nat> := [1327, 1340]
  /** `GENERAL_PUNCTUATION` (src/fonts/regular.rs:226-239). */
  const GeneralPunctuation: seq<nat> := [1349, 1351, 1353, 1355, 1357, 1360, 1363, 1366, 1369, 1376, 1384]
  /** `CURRENCY_SYMBOLS` (src/fonts/regular.rs:241-244). */
  const CurrencySymbols: seq<nat> := [1390]
  /** `PRIVATE_USE_AREA` (src/fonts/regular.rs:246-261). */
  const PrivateUseArea: seq<nat> := [1399, 1409, 1419, 1429, 1439, 1449, 1462, 1475, 1488, 1501, 1514, 1522, 1538]
  /** `SPECIALS` (src/fonts/regular.rs:263-266). */
  const Specials: seq<nat> := [1550]
  /** The blocks with a table: every block the classification knows. */
  predicate Covers(b: Blocks.UnicodeBlock)
  {
    b != Blocks.Unknown
  }

  /** The table that holds the glyphs of the subset of block `b`. */
  function Table(b: Blocks.UnicodeBlock): (t: seq<nat>)
    requires Covers(b)
    ensures |t| == Blocks.SubsetSize(b)
  {
    match b
    case BasicLatin => BasicLatin
    case Latin1 => Latin1
    case LatinExtendedA => LatinExtendedA
    case GeneralPunctuation => GeneralPunctuation
    case CurrencySymbols => CurrencySymbols
    case PrivateUseArea => PrivateUseArea
    case Specials => Specials
  }

  /** Where the records of block `b` end: at the first record of the
      next table, and for the last table at the end of `DATA`. */
  function End(b: Blocks.UnicodeBlock): nat
    requires Covers(b)
  {
    match b
    case BasicLatin => 606
    case Latin1 => 1327
    case LatinExtendedA => 1349
    case GeneralPunctuation => 1390
    case CurrencySymbols => 1399
    case PrivateUseArea => 1550
    case Specials => DataLen
  }

  // ---------------------------------------------------------------------
  // get_glyph_pattern_offset (src/fonts/regular.rs:8-19)

  /** The offset of the record of `c`: the entry of the table of its range,
      and for any other character that of U+FFFD.  Every index is inside its
      table and every offset inside `DATA`. */
  function GetGlyphPatternOffset(c: char): (offset: nat)
    ensures offset < DataLen
  {
    var n := c as int;
    if 0x0020 <= n <= 0x007E then TableWithin(Blocks.BasicLatin); BasicLatin[n - 0x0020]
    else if 0x00A0 <= n <= 0x00FF then TableWithin(Blocks.Latin1); Latin1[n - 0x00A0]
    else if 0x0152 <= n <= 0x0153 then TableWithin(Blocks.LatinExtendedA); LatinExtendedA[n - 0x0152]
    else if 0x2018 <= n <= 0x2022 then TableWithin(Blocks.GeneralPunctuation); GeneralPunctuation[n - 0x2018]
    else if 0x20AC <= n <= 0x20AC then TableWithin(Blocks.CurrencySymbols); CurrencySymbols[n - 0x20AC]
    else if 0xE700 <= n <= 0xE70C then TableWithin(Blocks.PrivateUseArea); PrivateUseArea[n - 0xE700]
    else TableWithin(Blocks.Specials); Specials[0xFFFD - 0xFFFD]
  }

  /** The dispatcher picks the entry that the classification of
      codegen/blocks/charmap.go names: the table of the character's block at
      its offset from the subset's start, and U+FFFD's entry for a block
      without a table. */
  lemma OffsetFollowsBlocks(c: char)
    ensures var r := Blocks.BlockForRune(c as int);
      GetGlyphPatternOffset(c) == if Covers(r.0) then Table(r.0)[r.1] else Specials[0]
  {
  }

  // ---------------------------------------------------------------------
  // The tables index the records in order

  lemma BasicLatinIncreasing()
    ensures Tables.Increasing(BasicLatin)
  {
    Tables.IncreasingAppend(BasicLatinPart0, BasicLatinPart1);
    Tables.IncreasingAppend(BasicLatinPart0 + BasicLatinPart1, BasicLatinPart2);
    Tables.IncreasingAppend(BasicLatinPart0 + BasicLatinPart1 + BasicLatinPart2, BasicLatinPart3);
    Tables.IncreasingAppend(BasicLatinPart0 + BasicLatinPart1 + BasicLatinPart2 + BasicLatinPart3, BasicLatinPart4);
    Tables.IncreasingAppend(BasicLatinPart0 + BasicLatinPart1 + BasicLatinPart2 + BasicLatinPart3 + BasicLatinPart4, BasicLatinPart5);
  }

  lemma Latin1Increasing()
    ensures Tables.Increasing(Latin1)
  {
    Tables.IncreasingAppend(Latin1Part0, Latin1Part1);
    Tables.IncreasingAppend(Latin1Part0 + Latin1Part1, Latin1Part2);
    Tables.IncreasingAppend(Latin1Part0 + Latin1Part1 + Latin1Part2, Latin1Part3);
    Tables.IncreasingAppend(Latin1Part0 + Latin1Part1 + Latin1Part2 + Latin1Part3, Latin1Part4);
    Tables.IncreasingAppend(Latin1Part0 + Latin1Part1 + Latin1Part2 + Latin1Part3 + Latin1Part4, Latin1Part5);
  }

  /** Each table is strictly increasing. */
  lemma TableIncreasing(b: Blocks.UnicodeBlock)
    requires Covers(b)
    ensures Tables.Increasing(Table(b))
  {
    if b == Blocks.BasicLatin {
      BasicLatinIncreasing();
    } else if b == Blocks.Latin1 {
      Latin1Increasing();
    }
  }

  /** The entries of each table lie from its first entry up to below the
      end of its block's records, which lies inside `DATA`. */
  lemma TableWithin(b: Blocks.UnicodeBlock)
    requires Covers(b)
    ensures Tables.Within(Table(b), Table(b)[0], End(b)) && End(b) <= DataLen
  {
    TableIncreasing(b);
    Tables.IncreasingWithin(Table(b));
  }

  /** The tables index `DATA` in the order of their blocks: the records of
      a block end where those of every later block begin. */
  lemma TablesOrdered(a: Blocks.UnicodeBlock, b: Blocks.UnicodeBlock)
    requires Covers(a) && Covers(b) && Blocks.SubsetLow(a) < Blocks.SubsetLow(b)
    ensures End(a) <= Table(b)[0]
  {
  }

  /** The first record is at the start of `DATA`, and the last table's
      records end at its end. */
  lemma TablesSpanData()
    ensures Table(Blocks.BasicLatin)[0] == 0 && End(Blocks.Specials) == DataLen
  {
  }

  /** Distinct entries of the tables are distinct records. */
  lemma EntriesDistinct(b1: Blocks.UnicodeBlock, i1: int, b2: Blocks.UnicodeBlock, i2: int)
    requires Covers(b1) && 0 <= i1 < Blocks.SubsetSize(b1)
    requires Covers(b2) && 0 <= i2 < Blocks.SubsetSize(b2)
    requires b1 != b2 || i1 != i2
    ensures Table(b1)[i1] != Table(b2)[i2]
  {
    TableWithin(b1);
    TableWithin(b2);
    if b1 == b2 {
      TableIncreasing(b1);
      if i1 < i2 {
        Tables.IncreasingOrdered(Table(b1), i1, i2);
      } else {
        Tables.IncreasingOrdered(Table(b1), i2, i1);
      }
    } else if Blocks.SubsetLow(b1) < Blocks.SubsetLow(b2) {
      TablesOrdered(b1, b2);
    } else {
      TablesOrdered(b2, b1);
    }
  }

  /** Distinct characters that have a table entry get distinct records. */
  lemma GlyphsDistinct(c1: char, c2: char)
    requires Covers(Blocks.BlockForRune(c1 as int).0) && Covers(Blocks.BlockForRune(c2 as int).0)
    requires c1 != c2
    ensures GetGlyphPatternOffset(c1) != GetGlyphPatternOffset(c2)
  {
    var r1, r2 := Blocks.BlockForRune(c1 as int), Blocks.BlockForRune(c2 as int);
    OffsetFollowsBlocks(c1);
    OffsetFollowsBlocks(c2);
    EntriesDistinct(r1.0, r1.1, r2.0, r2.1);
  }

  /** Every table entry is reached: the character at offset `i` of the
      subset of block `b` gets entry `i` of the block's table. */
  lemma TableEntryReached(b: Blocks.UnicodeBlock, i: int)
    requires Covers(b) && 0 <= i < Blocks.SubsetSize(b)
    ensures 0 <= Blocks.SubsetLow(b) + i < 0xD800 || 0xE000 <= Blocks.SubsetLow(b) + i < 0x11_0000
    ensures GetGlyphPatternOffset((Blocks.SubsetLow(b) + i) as char) == Table(b)[i]
  {
    Blocks.BlockForRuneInverse(b, i);
    OffsetFollowsBlocks((Blocks.SubsetLow(b) + i) as char);
  }

  /** Every other character, the C0 and C1 controls among them, shows the
      glyph of U+FFFD. */
  lemma UncoveredShowsReplacement(c: char)
    requires !Covers(Blocks.BlockForRune(c as int).0)
    ensures GetGlyphPatternOffset(c) == GetGlyphPatternOffset('\U{FFFD}') == Specials[0]
  {
    OffsetFollowsBlocks(c);
  }

  lemma ControlsShowReplacement(c: char)
    requires c < ' ' || '\U{7F}' <= c < '\U{A0}'
    ensures GetGlyphPatternOffset(c) == Specials[0] == 1550
  {
    Blocks.ControlsUnknown(c as int);
    OffsetFollowsBlocks(c);
  }

  // ---------------------------------------------------------------------
  // Sampled records of DATA (src/fonts/regular.rs:272-282)

  /** The record of the space (src/fonts/regular.rs:283-284). */
  const SpaceRecord: seq<bv32> := [0x0004_020e, 0x0000_0000]

  /** The record of '!' (src/fonts/regular.rs:285-286). */
  const ExclamationRecord: seq<bv32> := [0x0002_1206, 0xffff_fff0, 0xf000_0000]

  /** The record of '"' (src/fonts/regular.rs:287-288). */
  const QuotationRecord: seq<bv32> := [0x0006_0406, 0xcf3c_f300]

  /** The record of '#' (src/fonts/regular.rs:289-290). */
  const NumberSignRecord: seq<bv32> := [0x000e_0a06, 0x3300_cc0f, 0xff3f_fc0c, 0xc033_03ff, 0xcfff_0330, 0x0cc0_0000]

  /** The record of '$' (src/fonts/regular.rs:291-292). */
  const DollarRecord: seq<bv32> := [0x000a_1604, 0x0c03_03f0, 0xfccc_f330, 0xcc33_0f03, 0xc3c0_f0cc, 0x330c_c330, 0xccf3_33f0, 0xfc0c_0300]

  /** The record of Radio_3 (src/fonts/regular.rs:760-762). */
  const Radio3Record: seq<bv32> := [0x0015_1107, 0x00f8_001f, 0xf003_e3e0, 0x3c07_8380, 0x0e38_7c3b, 0x8ff8_e8f1, 0xe20e_0380, 0xe10e_023e, 0x2003_f800, 0x38e0_0082, 0x0000_8000, 0x0e00_0020, 0x0000_0000]

  /** The record of Radio_2 (src/fonts/regular.rs:763-765). */
  const Radio2Record: seq<bv32> := [0x0015_1107, 0x0000_0000, 0x0000_0000, 0x0000_0000, 0x0000_7c00, 0x0ff8_00f1, 0xe00e_0380, 0xe10e_023e, 0x2003_f800, 0x38e0_0082, 0x0000_8000, 0x0e00_0020, 0x0000_0000]

  /** The record of Radio_1 (src/fonts/regular.rs:766-768). */
  const Radio1Record: seq<bv32> := [0x0015_1107, 0x0000_0000, 0x0000_0000, 0x0000_0000, 0x0000_0000, 0x0000_0000, 0x0000_0000, 0x0100_003e, 0x0003_f800, 0x38e0_0082, 0x0000_8000, 0x0e00_0020, 0x0000_0000]

  /** The record of Radio_0 (src/fonts/regular.rs:769-771). */
  const Radio0Record: seq<bv32> := [0x0015_1107, 0x0000_0000, 0x0000_0000, 0x0000_0000, 0x0000_0000, 0x0000_0000, 0x0000_0000, 0x0000_0000, 0x0000_0000, 0x0000_0000, 0x0000_8000, 0x0e00_0020, 0x0000_0000]

  /** The record of Radio_Off (src/fonts/regular.rs:772-774). */
  const RadioOffRecord: seq<bv32> := [0x0015_1107, 0x00f8_0018, 0x3003_0060, 0x2000_8200, 0x0220_000a, 0x0000_2800, 0x0220_0020, 0x8002_0200, 0x2008_0200, 0x2020_0082, 0x0002_2000, 0x0a00_0020, 0x0000_0000]

  /** The record of U+FFFD (src/fonts/regular.rs:783-785). */
  const ReplacementRecord: seq<bv32> := [0x0012_1404, 0x00c0_0030, 0x003f_000f, 0xc00f_3c03, 0xcf03_ccf0, 0xf33c_fcff, 0xff3f_fff3, 0xfffc_ff3f, 0xff0f_ffc0, 0xf3c0_3cf0, 0x03f0_00fc, 0x000c_0003, 0x0000_0000]

  /** The record of the space, 4 by 2 pixels 14 rows down, is as long as its
      header says and ends where the record of the next character starts. */
  lemma SpaceRecordFits()
    ensures Fonts.NewGlyphHeader(SpaceRecord[0]) == Fonts.GlyphHeader(4, 2, 14)
    ensures Fonts.RecordFits(SpaceRecord, BasicLatin[0], BasicLatin[1], MaxHeight)
  {
  }

  /** The record of '!', 2 by 18 pixels 6 rows down, is as long as its
      header says and ends where the record of the next character starts. */
  lemma ExclamationRecordFits()
    ensures Fonts.NewGlyphHeader(ExclamationRecord[0]) == Fonts.GlyphHeader(2, 18, 6)
    ensures Fonts.RecordFits(ExclamationRecord, BasicLatin[1], BasicLatin[2], MaxHeight)
  {
  }

  /** The record of '"', 6 by 4 pixels 6 rows down, is as long as its
      header says and ends where the record of the next character starts. */
  lemma QuotationRecordFits()
    ensures Fonts.NewGlyphHeader(QuotationRecord[0]) == Fonts.GlyphHeader(6, 4, 6)
    ensures Fonts.RecordFits(QuotationRecord, BasicLatin[2], BasicLatin[3], MaxHeight)
  {
  }

  /** The record of '#', 14 by 10 pixels 6 rows down, is as long as its
      header says and ends where the record of the next character starts. */
  lemma NumberSignRecordFits()
    ensures Fonts.NewGlyphHeader(NumberSignRecord[0]) == Fonts.GlyphHeader(14, 10, 6)
    ensures Fonts.RecordFits(NumberSignRecord, BasicLatin[3], BasicLatin[4], MaxHeight)
  {
  }

  /** The record of '$', 10 by 22 pixels 4 rows down, is as long as its
      header says and ends where the record of the next character starts. */
  lemma DollarRecordFits()
    ensures Fonts.NewGlyphHeader(DollarRecord[0]) == Fonts.GlyphHeader(10, 22, 4)
    ensures Fonts.RecordFits(DollarRecord, BasicLatin[4], BasicLatin[5], MaxHeight)
  {
  }

  /** The five radio-strength sprites share one header, 21 by 17 pixels 7
      rows down, and each record ends where the next one starts. */
  lemma RadioRecordsFit()
    ensures Fonts.NewGlyphHeader(0x0015_1107) == Fonts.GlyphHeader(21, 17, 7)
    ensures Radio3Record[0] == 0x0015_1107
    ensures Radio2Record[0] == 0x0015_1107
    ensures Radio1Record[0] == 0x0015_1107
    ensures Radio0Record[0] == 0x0015_1107
    ensures RadioOffRecord[0] == 0x0015_1107
    ensures Fonts.RecordFits(Radio3Record, PrivateUseArea[5], PrivateUseArea[6], MaxHeight)
    ensures Fonts.RecordFits(Radio2Record, PrivateUseArea[6], PrivateUseArea[7], MaxHeight)
    ensures Fonts.RecordFits(Radio1Record, PrivateUseArea[7], PrivateUseArea[8], MaxHeight)
    ensures Fonts.RecordFits(Radio0Record, PrivateUseArea[8], PrivateUseArea[9], MaxHeight)
    ensures Fonts.RecordFits(RadioOffRecord, PrivateUseArea[9], PrivateUseArea[10], MaxHeight)
  {
  }

  /** The record of U+FFFD is the last one and ends exactly at the end of
      `DATA`. */
  lemma ReplacementRecordFits()
    ensures Fonts.NewGlyphHeader(ReplacementRecord[0]) == Fonts.GlyphHeader(18, 20, 4)
    ensures Fonts.RecordFits(ReplacementRecord, Specials[0], DataLen, MaxHeight)
  {
  }

  // ---------------------------------------------------------------------
  // Compiled cells of the sprite sheet

  /** The Regular sprite sheet (codegen/main.go:48): 30-pixel cells in 16
      columns, with a gutter and a border of 2 pixels. */
  const RegularSheet: Sprite.FontSpec := Sprite.FontSpec("Regular", 30, 16, 2, 2)

  /** A blank 4-by-2 window at yOffset 14 packs to the space record: its
      header and one zero word. */
  lemma SpacePattern(px: Matrix)
    requires |px| == 2 && RowsOfWidth(px, 4) && NoInk(px)
    ensures Pattern.Packable(px) && Pattern.PatternOf(px, 14) == SpaceRecord
  {
    Pattern.RectangleHeader(px, 14, 4, 2);
    Pattern.PatternLength(px, 14);
    Pattern.BlankPattern(px, 14, 1);
    var pattern := Pattern.PatternOf(px, 14);
    assert pattern == [pattern[0], pattern[1]];
  }

  /** The sheet's space cell: its side and the limits its trim uses. */
  lemma SpaceCellLimits()
    ensures Sprite.GridSize(RegularSheet) > 0 && Sprite.CellSide(RegularSheet) == 30
    ensures Sprite.TrimLimits(RegularSheet, 0, 2) == [14, 13, 14, 13]
  {
    Sprite.TrimLimitsCases(RegularSheet, 0, 2);
  }

  /** The trim of a blank space cell keeps its 4-by-2 window 14 rows down. */
  lemma SpaceCellWindow(img: Sprite.Image)
    requires Sprite.InGrid(img, RegularSheet, 0, 2)
    requires NoInk(Sprite.RawCell(img, RegularSheet, 0, 2))
    ensures var px := Sprite.Window(Sprite.RawCell(img, RegularSheet, 0, 2), 14, 16, 13, 17);
      && Sprite.ExtractGlyph(img, RegularSheet, 0, 2) == Wrappers.Ok(Sprite.Glyph(px, 14))
      && |px| == 2 && RowsOfWidth(px, 4) && NoInk(px)
  {
    SpaceCellLimits();
    Sprite.ExtractBlank(img, RegularSheet, 0, 2, Sprite.RawCell(img, RegularSheet, 0, 2), 30, 14, 13, 14, 13);
  }

  /** A blank space cell compiles to the space record. */
  lemma SpaceCellCompiles(img: Sprite.Image)
    requires Sprite.InGrid(img, RegularSheet, 0, 2)
    requires NoInk(Sprite.RawCell(img, RegularSheet, 0, 2))
    ensures Sprite.ExtractGlyph(img, RegularSheet, 0, 2).Ok?
    ensures var g := Sprite.ExtractGlyph(img, RegularSheet, 0, 2).value;
      g.yOffset == 14 && Pattern.Packable(g.pixels) && Pattern.PatternOf(g.pixels, 14) == SpaceRecord
  {
    SpaceCellWindow(img);
    SpacePattern(Sprite.Window(Sprite.RawCell(img, RegularSheet, 0, 2), 14, 16, 13, 17));
  }

  /** A 21-by-17 window at yOffset 7 packs to a pattern with the header and
      the length of the radio records. */
  lemma RadioPattern(px: Matrix)
    requires |px| == 17 && RowsOfWidth(px, 21)
    ensures Pattern.Packable(px)
    ensures |Pattern.PatternOf(px, 7)| == |Radio3Record|
    ensures Pattern.PatternOf(px, 7)[0] == Radio3Record[0]
  {
    Pattern.RectangleHeader(px, 7, 21, 17);
    Pattern.PatternLength(px, 7);
  }

  /** A radio-strength cell (rows 5 to 9 of column 0) whose ink lies within
      the margins 7, 5, 6 and 4 compiles to a pattern with the header and
      the length of the radio records. */
  lemma RadioCellCompiles(img: Sprite.Image, row: int)
    requires 5 <= row <= 9 && Sprite.InGrid(img, RegularSheet, row, 0)
    requires Sprite.InkWithin(Sprite.RawCell(img, RegularSheet, row, 0), 7, 24, 4, 25)
    ensures Sprite.ExtractGlyph(img, RegularSheet, row, 0).Ok?
    ensures var g := Sprite.ExtractGlyph(img, RegularSheet, row, 0).value;
      && g.yOffset == 7 && Pattern.Packable(g.pixels)
      && |Pattern.PatternOf(g.pixels, 7)| == |Radio3Record|
      && Pattern.PatternOf(g.pixels, 7)[0] == Radio3Record[0]
  {
    var cell := Sprite.RawCell(img, RegularSheet, row, 0);
    assert Sprite.CellSide(RegularSheet) == 30;
    Sprite.ExtractWindow(img, RegularSheet, row, 0, cell, 30, 7, 5, 6, 4);
    Sprite.WindowShape(cell, 7, 24, 4, 25);
    RadioPattern(Sprite.Window(cell, 7, 24, 4, 25));
  }
}
