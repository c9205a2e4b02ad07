/** The character map of the Go font compiler (codegen/font/charmap.go):
    the table of Unicode blocks, the search for a codepoint's block, and
    the parsing of a grapheme cluster written as dash-separated hex
    codepoints ("1f3c4-200d-2640-fe0f"). */
module Charmap {
  import opened Wrappers
  import Uint
  import Tables

  // ---------------------------------------------------------------------
  // KnownBlocks and Block (codegen/font/charmap.go:12-63)

  datatype UBlock = UBlock(low: Uint.Uint32, high: Uint.Uint32, name: string)

  /** The blocks holding the leading scalars of the supported clusters,
      with the bounds of the Unicode Blocks.txt table. */
  const KnownBlocks: seq<UBlock> := [
    UBlock(0x0000, 0x007F, "BASIC_LATIN"),
    UBlock(0x0080, 0x00FF, "LATIN_1_SUPPLEMENT"),
    UBlock(0x0100, 0x017F, "LATIN_EXTENDED_A"),
    UBlock(0x2000, 0x206F, "GENERAL_PUNCTUATION"),
    UBlock(0x20A0, 0x20CF, "CURRENCY_SYMBOLS"),
    UBlock(0x2100, 0x214F, "LETTERLIKE_SYMBOLS"),
    UBlock(0x2190, 0x21FF, "ARROWS"),
    UBlock(0x2300, 0x23FF, "MISCELLANEOUS_TECHNICAL"),
    UBlock(0x2460, 0x24FF, "ENCLOSED_ALPHANUMERICS"),
    UBlock(0x25A0, 0x25FF, "GEOMETRIC_SHAPES"),
    UBlock(0x2600, 0x26FF, "MISCELLANEOUS_SYMBOLS"),
    UBlock(0x2700, 0x27BF, "DINGBATS"),
    UBlock(0x2900, 0x297F, "SUPPLEMENTAL_ARROWS_B"),
    UBlock(0x2B00, 0x2BFF, "MISCELLANEOUS_SYMBOLS_AND_ARROWS"),
    UBlock(0x3000, 0x303F, "CJK_SYMBOLS_AND_PUNCTUATION"),
    UBlock(0x3200, 0x32FF, "ENCLOSED_CJK_LETTERS_AND_MONTHS"),
    UBlock(0xE000, 0xF8FF, "PRIVATE_USE_AREA"),
    UBlock(0xFFF0, 0xFFFF, "SPECIALS"),
    UBlock(0x1F000, 0x1F02F, "MAHJONG_TILES"),
    UBlock(0x1F0A0, 0x1F0FF, "PLAYING_CARDS"),
    UBlock(0x1F100, 0x1F1FF, "ENCLOSED_ALPHANUMERIC_SUPPLEMENT"),
    UBlock(0x1F200, 0x1F2FF, "ENCLOSED_IDEOGRAPHIC_SUPPLEMENT"),
    UBlock(0x1F300, 0x1F5FF, "MISCELLANEOUS_SYMBOLS_AND_PICTOGRAPHS"),
    UBlock(0x1F600, 0x1F64F, "EMOTICONS"),
    UBlock(0x1F680, 0x1F6FF, "TRANSPORT_AND_MAP_SYMBOLS"),
    UBlock(0x1F780, 0x1F7FF, "GEOMETRIC_SHAPES_EXTENDED"),
    UBlock(0x1F900, 0x1F9FF, "SUPPLEMENTAL_SYMBOLS_AND_PICTOGRAPHS"),
    UBlock(0x1FA70, 0x1FAFF, "SYMBOLS_AND_PICTOGRAPHS_EXTENDED_A")]

  predicate Contains(b: UBlock, c: int)
  {
    b.low <= c <= b.high
  }

  /** Each block is a non-empty range and each starts above the end of the
      one before. */
  predicate Ascending(blocks: seq<UBlock>)
  {
    (forall i :: 0 <= i < |blocks| ==> blocks[i].low <= blocks[i].high)
    && (forall i :: 0 <= i < |blocks| - 1 ==> blocks[i].high < blocks[i + 1].low)
  }

  /** No two blocks share a codepoint. */
  ghost predicate Disjoint(blocks: seq<UBlock>)
  {
    forall i, j, c :: 0 <= i < j < |blocks| && Contains(blocks[i], c) ==> !Contains(blocks[j], c)
  }

  lemma KnownBlocksNonEmpty()
    ensures |KnownBlocks| == 28
    ensures forall i :: 0 <= i < |KnownBlocks| ==> KnownBlocks[i].low <= KnownBlocks[i].high
  {
  }

  lemma KnownBlocksChain()
    ensures forall i :: 0 <= i < |KnownBlocks| - 1 ==> KnownBlocks[i].high < KnownBlocks[i + 1].low
  {
  }

  lemma KnownBlocksAscending()
    ensures Ascending(KnownBlocks)
  {
    KnownBlocksNonEmpty();
    KnownBlocksChain();
  }

  /** In an ascending table every later block starts above the end of every
      earlier one. */
  lemma {:induction false} AscendingOrdered(blocks: seq<UBlock>, i: nat, j: nat)
    requires Ascending(blocks) && i < j < |blocks|
    ensures blocks[i].high < blocks[j].low
    decreases j - i
  {
    if i + 1 < j {
      AscendingOrdered(blocks, i + 1, j);
    }
  }

  lemma AscendingDisjoint(blocks: seq<UBlock>)
    requires Ascending(blocks)
    ensures Disjoint(blocks)
  {
    forall i, j | 0 <= i < j < |blocks|
      ensures blocks[i].high < blocks[j].low
    {
      AscendingOrdered(blocks, i, j);
    }
  }

  lemma KnownBlocksDisjoint()
    ensures Disjoint(KnownBlocks)
  {
    KnownBlocksAscending();
    AscendingDisjoint(KnownBlocks);
  }

  /** The first block of the table that holds `c`, or `None` where the
      source panics. */
  function FirstBlock(blocks: seq<UBlock>, c: int): Option<UBlock>
  {
    if blocks == [] then None
    else if Contains(blocks[0], c) then Some(blocks[0])
    else FirstBlock(blocks[1..], c)
  }

  /** `FirstBlock` answers a block of the table holding `c` that no earlier
      block holds, and `None` exactly when no block holds `c`. */
  lemma {:induction false} FirstBlockSpec(blocks: seq<UBlock>, c: int)
    ensures FirstBlock(blocks, c).None? <==> forall i :: 0 <= i < |blocks| ==> !Contains(blocks[i], c)
    ensures FirstBlock(blocks, c).Some? ==>
      exists i :: (0 <= i < |blocks| && blocks[i] == FirstBlock(blocks, c).value
        && Contains(blocks[i], c) && forall k :: 0 <= k < i ==> !Contains(blocks[k], c))
  {
    if blocks != [] && !Contains(blocks[0], c) {
      FirstBlockSpec(blocks[1..], c);
      if FirstBlock(blocks, c).Some? {
        var i :| 0 <= i < |blocks[1..]| && blocks[1..][i] == FirstBlock(blocks, c).value
          && Contains(blocks[1..][i], c) && forall k :: 0 <= k < i ==> !Contains(blocks[1..][k], c);
        assert blocks[i + 1] == blocks[1..][i];
      }
    }
  }

  /** In a table of disjoint blocks the search finds the one block holding
      `c`, whichever it is. */
  lemma FirstBlockUnique(blocks: seq<UBlock>, c: int, i: nat)
    requires Disjoint(blocks) && i < |blocks| && Contains(blocks[i], c)
    ensures FirstBlock(blocks, c) == Some(blocks[i])
  {
    FirstBlockSpec(blocks, c);
    var j :| 0 <= j < |blocks| && blocks[j] == FirstBlock(blocks, c).value
      && Contains(blocks[j], c) && forall k :: 0 <= k < j ==> !Contains(blocks[k], c);
    assert i == j;
  }

  /** `Block`: the linear search of the table, returning at the first
      block that holds `c`. */
  method Block(c: Uint.Uint32) returns (r: Option<UBlock>)
    ensures r == FirstBlock(KnownBlocks, c)
  {
    var blocks := KnownBlocks;
    for i := 0 to |blocks|
      invariant FirstBlock(KnownBlocks, c) == FirstBlock(blocks[i..], c)
    {
      var b := blocks[i];
      assert blocks[i..][1..] == blocks[i + 1..];
      if b.low <= c && c <= b.high {
        return Some(b);
      }
    }
    return None;
  }

  /** A codepoint strictly between two neighbouring blocks of an ascending
      table lies in no block. */
  lemma GapBetween(blocks: seq<UBlock>, k: nat, c: int)
    requires Ascending(blocks) && k + 1 < |blocks|
    requires blocks[k].high < c < blocks[k + 1].low
    ensures FirstBlock(blocks, c) == None
  {
    forall i | 0 <= i < |blocks|
      ensures !Contains(blocks[i], c)
    {
      if i < k {
        AscendingOrdered(blocks, i, k);
      } else if k + 1 < i {
        AscendingOrdered(blocks, k + 1, i);
      }
    }
    FirstBlockSpec(blocks, c);
  }

  /** U+1000 lies between Latin Extended-A and General Punctuation: the
      search finds nothing and the source panics. */
  lemma GapCodepoint()
    ensures FirstBlock(KnownBlocks, 0x1000) == None
  {
    KnownBlocksAscending();
    GapBetween(KnownBlocks, 2, 0x1000);
  }

  // ---------------------------------------------------------------------
  // strings.Split with a one-character separator

  /** The fields of `s` between the separators: one more than there are
      separators, so the empty string has one empty field. */
  function Split(s: string, sep: char): (parts: seq<string>)
    ensures |parts| >= 1
  {
    if s == [] then [[]]
    else
      var rest := Split(s[1..], sep);
      if s[0] == sep then [[]] + rest else [[s[0]] + rest[0]] + rest[1..]
  }

  /** `strings.Join`. */
  function Join(parts: seq<string>, sep: char): string
  {
    if parts == [] then []
    else if |parts| == 1 then parts[0]
    else parts[0] + [sep] + Join(parts[1..], sep)
  }

  /** Joining the fields with the separator gives back the string. */
  lemma {:induction false} JoinSplit(s: string, sep: char)
    ensures Join(Split(s, sep), sep) == s
  {
    if s != [] {
      JoinSplit(s[1..], sep);
      var rest := Split(s[1..], sep);
      if s[0] == sep {
        assert s == [sep] + s[1..];
      } else if |rest| == 1 {
        assert s == [s[0]] + rest[0];
      } else {
        assert Join(rest, sep) == rest[0] + [sep] + Join(rest[1..], sep);
        assert s == [s[0]] + s[1..];
      }
    }
  }

  /** No field contains the separator. */
  lemma {:induction false} SplitFieldsFree(s: string, sep: char)
    ensures forall i :: 0 <= i < |Split(s, sep)| ==> sep !in Split(s, sep)[i]
  {
    if s != [] {
      SplitFieldsFree(s[1..], sep);
    }
  }

  /** A string followed by a separator splits off as its first field. */
  lemma {:induction false} SplitConcat(a: string, sep: char, b: string)
    requires sep !in a
    ensures Split(a + [sep] + b, sep) == [a] + Split(b, sep)
  {
    if a == [] {
      assert [sep] + b == [sep] + b;
      assert ([sep] + b)[1..] == b;
    } else {
      assert (a + [sep] + b)[1..] == a[1..] + [sep] + b;
      SplitConcat(a[1..], sep, b);
      assert [a[0]] + a[1..] == a;
    }
  }

  /** A string without separators is a single field. */
  lemma {:induction false} SplitNoSeparator(s: string, sep: char)
    requires sep !in s
    ensures Split(s, sep) == [s]
  {
    if s != [] {
      SplitNoSeparator(s[1..], sep);
      assert [s[0]] + s[1..] == s;
    }
  }

  // ---------------------------------------------------------------------
  // strconv.ParseUint(s, 16, 32)

  predicate IsHexDigit(ch: char)
  {
    '0' <= ch <= '9' || 'a' <= ch <= 'f' || 'A' <= ch <= 'F'
  }

  function DigitValue(ch: char): (d: nat)
    requires IsHexDigit(ch)
    ensures d < 16
  {
    if ch <= '9' then ch as int - '0' as int
    else if ch <= 'F' then ch as int - 'A' as int + 10
    else ch as int - 'a' as int + 10
  }

  predicate AllHex(s: string)
  {
    forall i :: 0 <= i < |s| ==> IsHexDigit(s[i])
  }

  /** The value of the first `i` digits, most significant first. */
  function HexPrefix(s: string, i: nat): nat
    requires i <= |s| && AllHex(s)
  {
    if i == 0 then 0 else HexPrefix(s, i - 1) * 16 + DigitValue(s[i - 1])
  }

  /** `ParseUint(s, 16, 32)`: `None` for the syntax error (an empty string
      or a character that is not a hex digit; there is no sign, prefix or
      underscore in base 16) and for the range error (a value of 2^32 or
      more). */
  function ParseHex(s: string): Option<Uint.Uint32>
  {
    if s == [] || !AllHex(s) then None
    else if HexPrefix(s, |s|) < Uint.UINT32_LIMIT then Some(HexPrefix(s, |s|))
    else None
  }

  function Pow16(k: nat): (p: nat)
    ensures p >= 1
  {
    if k == 0 then 1 else 16 * Pow16(k - 1)
  }

  lemma {:induction false} HexPrefixBound(s: string, i: nat)
    requires i <= |s| && AllHex(s)
    ensures HexPrefix(s, i) < Pow16(i)
  {
    if i > 0 {
      HexPrefixBound(s, i - 1);
    }
  }

  lemma {:induction false} Pow16Monotone(i: nat, j: nat)
    requires i <= j
    ensures Pow16(i) <= Pow16(j)
  {
    if i < j {
      Pow16Monotone(i, j - 1);
    }
  }

  /** Up to eight hex digits always parse; longer strings parse only when
      their value still fits, as with leading zeros. */
  lemma EightDigitsParse(s: string)
    requires 1 <= |s| <= 8 && AllHex(s)
    ensures ParseHex(s) == Some(HexPrefix(s, |s|))
  {
    HexPrefixBound(s, |s|);
    Pow16Monotone(|s|, 8);
  }

  /** The upper-case hex digit of `d`. */
  function HexChar(d: nat): (ch: char)
    requires d < 16
    ensures IsHexDigit(ch) && DigitValue(ch) == d
  {
    if d < 10 then ('0' as int + d) as char else ('A' as int + d - 10) as char
  }

  /** `%X`: the upper-case hex numeral of `n`, without leading zeros. */
  function FormatHex(n: nat): (s: string)
    ensures |s| >= 1 && AllHex(s)
  {
    if n < 16 then [HexChar(n)] else FormatHex(n / 16) + [HexChar(n % 16)]
  }

  lemma {:induction false} HexPrefixAppend(s: string, d: char, i: nat)
    requires AllHex(s) && IsHexDigit(d) && i <= |s|
    ensures AllHex(s + [d]) && HexPrefix(s + [d], i) == HexPrefix(s, i)
  {
    if i > 0 {
      HexPrefixAppend(s, d, i - 1);
    }
  }

  /** The numeral reads back as the number. */
  lemma {:induction false} FormatHexValue(n: nat)
    ensures HexPrefix(FormatHex(n), |FormatHex(n)|) == n
  {
    if n >= 16 {
      var t := FormatHex(n / 16);
      FormatHexValue(n / 16);
      HexPrefixAppend(t, HexChar(n % 16), |t|);
    }
  }

  /** Parsing inverts formatting on every `uint32`. */
  lemma ParseFormatHex(n: Uint.Uint32)
    ensures ParseHex(FormatHex(n)) == Some(n)
  {
    FormatHexValue(n);
  }

  // ---------------------------------------------------------------------
  // CharSpec.FirstCodepoint and CharSpec.GraphemeCluster
  // (codegen/font/charmap.go:65-103)

  /** A character map entry: the cluster's hex codepoints and its cell in
      the sprite sheet. */
  datatype CharSpec = CharSpec(hexCluster: string, row: int, col: int)

  /** The hex field before the first dash, parsed; `None` where the source
      panics. */
  function FirstCodepoint(cs: CharSpec): Option<Uint.Uint32>
  {
    ParseHex(Split(cs.hexCluster, '-')[0])
  }

  predicate IsScalar(n: int)
  {
    0 <= n < 0xD800 || 0xE000 <= n < 0x11_0000
  }

  /** `string(rune(n))`: the scalar `n`, or U+FFFD when `n` is a surrogate,
      lies beyond U+10FFFF, or is 2^31 or more (a negative `rune`). */
  function RuneOf(n: Uint.Uint32): char
  {
    if IsScalar(n) then n as char else '\U{FFFD}'
  }

  predicate AllParse(fields: seq<string>)
  {
    forall i :: 0 <= i < |fields| ==> ParseHex(fields[i]).Some?
  }

  /** One scalar per field, in order. */
  function Runes(fields: seq<string>): (r: string)
    requires AllParse(fields)
    ensures |r| == |fields|
  {
    seq(|fields|, i requires 0 <= i < |fields| => RuneOf(ParseHex(fields[i]).value))
  }

  /** The decoded cluster, or `None` when some field does not parse. */
  function ClusterOf(cs: CharSpec): Option<string>
  {
    var fields := Split(cs.hexCluster, '-');
    if AllParse(fields) then Some(Runes(fields)) else None
  }

  method GraphemeCluster(cs: CharSpec) returns (r: Option<string>)
    ensures r == ClusterOf(cs)
  {
    var cluster: string := [];
    var hexCodepoints := Split(cs.hexCluster, '-');
    for i := 0 to |hexCodepoints|
      invariant AllParse(hexCodepoints[..i])
      invariant cluster == Runes(hexCodepoints[..i])
    {
      var n := ParseHex(hexCodepoints[i]);
      if n.None? {
        assert !AllParse(hexCodepoints);
        return None;
      }
      cluster := cluster + [RuneOf(n.value)];
      assert AllParse(hexCodepoints[..i + 1]) by {
        assert forall k :: 0 <= k < i ==> hexCodepoints[..i + 1][k] == hexCodepoints[..i][k];
      }
    }
    assert hexCodepoints[..|hexCodepoints|] == hexCodepoints;
    return Some(cluster);
  }

  /** The cluster starts with the first codepoint whenever that is a
      scalar value; and when the first field does not parse, neither does
      the cluster. */
  lemma FirstCodepointLeads(cs: CharSpec)
    ensures FirstCodepoint(cs).None? ==> ClusterOf(cs).None?
    ensures ClusterOf(cs).Some? && IsScalar(FirstCodepoint(cs).value) ==>
      ClusterOf(cs).value[0] as int == FirstCodepoint(cs).value
  {
  }

  /** Splitting the dash-joined fields gives the fields back, provided
      no field holds a dash itself. */
  lemma {:induction false} SplitJoin(fields: seq<string>, sep: char)
    requires |fields| >= 1
    requires forall i :: 0 <= i < |fields| ==> sep !in fields[i]
    ensures Split(Join(fields, sep), sep) == fields
  {
    if |fields| == 1 {
      SplitNoSeparator(fields[0], sep);
    } else {
      SplitJoin(fields[1..], sep);
      SplitConcat(fields[0], sep, Join(fields[1..], sep));
      assert [fields[0]] + fields[1..] == fields;
    }
  }

  /** A cluster written as dash-joined hex fields decodes to one scalar
      per field, in order, and its first codepoint is the first field's
      value. */
  lemma ClusterOfJoin(fields: seq<string>, row: int, col: int)
    requires |fields| >= 1 && AllParse(fields)
    requires forall i :: 0 <= i < |fields| ==> '-' !in fields[i]
    ensures ClusterOf(CharSpec(Join(fields, '-'), row, col)) == Some(Runes(fields))
    ensures FirstCodepoint(CharSpec(Join(fields, '-'), row, col)) == ParseHex(fields[0])
  {
    SplitJoin(fields, '-');
  }

  lemma SurferValues()
    ensures ParseHex("1f3c4") == Some(0x1F3C4) && ParseHex("200d") == Some(0x200D)
  {
    EightDigitsParse("1f3c4");
    assert HexPrefix("1f3c4", 5) == 0x1F3C4;
    EightDigitsParse("200d");
    assert HexPrefix("200d", 4) == 0x200D;
  }

  lemma FemaleSignValues()
    ensures ParseHex("2640") == Some(0x2640) && ParseHex("fe0f") == Some(0xFE0F)
  {
    EightDigitsParse("2640");
    assert HexPrefix("2640", 4) == 0x2640;
    EightDigitsParse("fe0f");
    assert HexPrefix("fe0f", 4) == 0xFE0F;
  }

  /** The fields of the woman-surfing sequence U+1F3C4 U+200D U+2640 U+FE0F. */
  const SurferFields: seq<string> := ["1f3c4", "200d", "2640", "fe0f"]

  lemma SurferRunes()
    ensures AllParse(SurferFields) && ParseHex(SurferFields[0]) == Some(0x1F3C4)
    ensures Runes(SurferFields) == "\U{1F3C4}\U{200D}\U{2640}\U{FE0F}"
    ensures forall i :: 0 <= i < |SurferFields| ==> '-' !in SurferFields[i]
  {
    SurferValues();
    FemaleSignValues();
  }

  lemma SurferJoin()
    ensures Join(SurferFields, '-') == "1f3c4-200d-2640-fe0f"
  {
  }

  /** The example of the source's comments: the woman-surfing sequence
      decodes to its four scalars, the first of them U+1F3C4. */
  lemma WomanSurfing(cs: CharSpec)
    requires cs.hexCluster == "1f3c4-200d-2640-fe0f"
    ensures ClusterOf(cs) == Some("\U{1F3C4}\U{200D}\U{2640}\U{FE0F}")
    ensures FirstCodepoint(cs) == Some(0x1F3C4)
  {
    SurferJoin();
    SurferRunes();
    ClusterOfJoin(SurferFields, cs.row, cs.col);
  }

  // ---------------------------------------------------------------------
  // SysLatinMap (codegen/font/charmap.go:105-339)

  /** codegen/font/charmap.go:108-123 */
  const BasicLatin1: seq<CharSpec> := [
    CharSpec("20", 0, 2),
    CharSpec("21", 1, 2),
    CharSpec("22", 2, 2),
    CharSpec("23", 3, 2),
    CharSpec("24", 4, 2),
    CharSpec("25", 5, 2),
    CharSpec("26", 6, 2),
    CharSpec("27", 7, 2),
    CharSpec("28", 8, 2),
    CharSpec("29", 9, 2),
    CharSpec("2A", 10, 2),
    CharSpec("2B", 11, 2),
    CharSpec("2C", 12, 2),
    CharSpec("2D", 13, 2),
    CharSpec("2E", 14, 2),
    CharSpec("2F", 15, 2)
  ]

  /** codegen/font/charmap.go:124-139 */
  const BasicLatin2: seq<CharSpec> := [
    CharSpec("30", 0, 3),
    CharSpec("31", 1, 3),
    CharSpec("32", 2, 3),
    CharSpec("33", 3, 3),
    CharSpec("34", 4, 3),
    CharSpec("35", 5, 3),
    CharSpec("36", 6, 3),
    CharSpec("37", 7, 3),
    CharSpec("38", 8, 3),
    CharSpec("39", 9, 3),
    CharSpec("3A", 10, 3),
    CharSpec("3B", 11, 3),
    CharSpec("3C", 12, 3),
    CharSpec("3D", 13, 3),
    CharSpec("3E", 14, 3),
    CharSpec("3F", 15, 3)
  ]

  /** codegen/font/charmap.go:140-155 */
  const BasicLatin3: seq<CharSpec> := [
    CharSpec("40", 0, 4),
    CharSpec("41", 1, 4),
    CharSpec("42", 2, 4),
    CharSpec("43", 3, 4),
    CharSpec("44", 4, 4),
    CharSpec("45", 5, 4),
    CharSpec("46", 6, 4),
    CharSpec("47", 7, 4),
    CharSpec("48", 8, 4),
    CharSpec("49", 9, 4),
    CharSpec("4A", 10, 4),
    CharSpec("4B", 11, 4),
    CharSpec("4C", 12, 4),
    CharSpec("4D", 13, 4),
    CharSpec("4E", 14, 4),
    CharSpec("4F", 15, 4)
  ]

  /** codegen/font/charmap.go:156-171 */
  const BasicLatin4: seq<CharSpec> := [
    CharSpec("50", 0, 5),
    CharSpec("51", 1, 5),
    CharSpec("52", 2, 5),
    CharSpec("53", 3, 5),
    CharSpec("54", 4, 5),
    CharSpec("55", 5, 5),
    CharSpec("56", 6, 5),
    CharSpec("57", 7, 5),
    CharSpec("58", 8, 5),
    CharSpec("59", 9, 5),
    CharSpec("5A", 10, 5),
    CharSpec("5B", 11, 5),
    CharSpec("5C", 12, 5),
    CharSpec("5D", 13, 5),
    CharSpec("5E", 14, 5),
    CharSpec("5F", 15, 5)
  ]

  /** codegen/font/charmap.go:172-187 */
  const BasicLatin5: seq<CharSpec> := [
    CharSpec("60", 0, 6),
    CharSpec("61", 1, 6),
    CharSpec("62", 2, 6),
    CharSpec("63", 3, 6),
    CharSpec("64", 4, 6),
    CharSpec("65", 5, 6),
    CharSpec("66", 6, 6),
    CharSpec("67", 7, 6),
    CharSpec("68", 8, 6),
    CharSpec("69", 9, 6),
    CharSpec("6A", 10, 6),
    CharSpec("6B", 11, 6),
    CharSpec("6C", 12, 6),
    CharSpec("6D", 13, 6),
    CharSpec("6E", 14, 6),
    CharSpec("6F", 15, 6)
  ]

  /** codegen/font/charmap.go:188-202 */
  const BasicLatin6: seq<CharSpec> := [
    CharSpec("70", 0, 7),
    CharSpec("71", 1, 7),
    CharSpec("72", 2, 7),
    CharSpec("73", 3, 7),
    CharSpec("74", 4, 7),
    CharSpec("75", 5, 7),
    CharSpec("76", 6, 7),
    CharSpec("77", 7, 7),
    CharSpec("78", 8, 7),
    CharSpec("79", 9, 7),
    CharSpec("7A", 10, 7),
    CharSpec("7B", 11, 7),
    CharSpec("7C", 12, 7),
    CharSpec("7D", 13, 7),
    CharSpec("7E", 14, 7)
  ]

  /** codegen/font/charmap.go:205-220 */
  const Latin1Part1: seq<CharSpec> := [
    CharSpec("A0", 0, 2),
    CharSpec("A1", 1, 12),
    CharSpec("A2", 2, 10),
    CharSpec("A3", 3, 10),
    CharSpec("A4", 15, 1),
    CharSpec("A5", 4, 11),
    CharSpec("A6", 15, 7),
    CharSpec("A7", 4, 10),
    CharSpec("A8", 12, 10),
    CharSpec("A9", 9, 10),
    CharSpec("AA", 11, 11),
    CharSpec("AB", 7, 12),
    CharSpec("AC", 2, 12),
    CharSpec("AD", 13, 2),
    CharSpec("AE", 8, 10),
    CharSpec("AF", 8, 15)
  ]

  /** codegen/font/charmap.go:221-236 */
  const Latin1Part2: seq<CharSpec> := [
    CharSpec("B0", 1, 10),
    CharSpec("B1", 1, 11),
    CharSpec("B2", 3, 1),
    CharSpec("B3", 4, 1),
    CharSpec("B4", 11, 10),
    CharSpec("B5", 5, 11),
    CharSpec("B6", 6, 10),
    CharSpec("B7", 1, 14),
    CharSpec("B8", 12, 15),
    CharSpec("B9", 2, 1),
    CharSpec("BA", 12, 11),
    CharSpec("BB", 8, 12),
    CharSpec("BC", 5, 1),
    CharSpec("BD", 6, 1),
    CharSpec("BE", 7, 1),
    CharSpec("BF", 0, 12)
  ]

  /** codegen/font/charmap.go:237-252 */
  const Latin1Part3: seq<CharSpec> := [
    CharSpec("C0", 11, 12),
    CharSpec("C1", 7, 14),
    CharSpec("C2", 5, 14),
    CharSpec("C3", 12, 12),
    CharSpec("C4", 0, 8),
    CharSpec("C5", 1, 8),
    CharSpec("C6", 14, 10),
    CharSpec("C7", 2, 8),
    CharSpec("C8", 9, 14),
    CharSpec("C9", 3, 8),
    CharSpec("CA", 6, 14),
    CharSpec("CB", 8, 14),
    CharSpec("CC", 13, 14),
    CharSpec("CD", 10, 14),
    CharSpec("CE", 11, 14),
    CharSpec("CF", 12, 14)
  ]

  /** codegen/font/charmap.go:253-268 */
  const Latin1Part4: seq<CharSpec> := [
    CharSpec("D0", 8, 1),
    CharSpec("D1", 4, 8),
    CharSpec("D2", 1, 15),
    CharSpec("D3", 14, 14),
    CharSpec("D4", 15, 14),
    CharSpec("D5", 13, 12),
    CharSpec("D6", 5, 8),
    CharSpec("D7", 9, 1),
    CharSpec("D8", 15, 10),
    CharSpec("D9", 4, 15),
    CharSpec("DA", 2, 15),
    CharSpec("DB", 3, 15),
    CharSpec("DC", 6, 8),
    CharSpec("DD", 10, 1),
    CharSpec("DE", 11, 1),
    CharSpec("DF", 7, 10)
  ]

  /** codegen/font/charmap.go:269-284 */
  const Latin1Part5: seq<CharSpec> := [
    CharSpec("E0", 8, 8),
    CharSpec("E1", 7, 8),
    CharSpec("E2", 9, 8),
    CharSpec("E3", 11, 8),
    CharSpec("E4", 10, 8),
    CharSpec("E5", 12, 8),
    CharSpec("E6", 14, 11),
    CharSpec("E7", 13, 8),
    CharSpec("E8", 15, 8),
    CharSpec("E9", 14, 8),
    CharSpec("EA", 0, 9),
    CharSpec("EB", 1, 9),
    CharSpec("EC", 3, 9),
    CharSpec("ED", 2, 9),
    CharSpec("EE", 4, 9),
    CharSpec("EF", 5, 9)
  ]

  /** codegen/font/charmap.go:285-300 */
  const Latin1Part6: seq<CharSpec> := [
    CharSpec("F0", 12, 1),
    CharSpec("F1", 6, 9),
    CharSpec("F2", 8, 9),
    CharSpec("F3", 7, 9),
    CharSpec("F4", 9, 9),
    CharSpec("F5", 11, 9),
    CharSpec("F6", 10, 9),
    CharSpec("F7", 6, 13),
    CharSpec("F8", 15, 11),
    CharSpec("F9", 13, 9),
    CharSpec("FA", 12, 9),
    CharSpec("FB", 14, 9),
    CharSpec("FC", 15, 9),
    CharSpec("FD", 13, 1),
    CharSpec("FE", 14, 1),
    CharSpec("FF", 8, 13)
  ]

  /** codegen/font/charmap.go:303-320 */
  const Punctuation: seq<CharSpec> := [
    CharSpec("152", 14, 12),
    CharSpec("153", 15, 12),
    CharSpec("2018", 4, 13),
    CharSpec("2019", 5, 13),
    CharSpec("201A", 2, 14),
    CharSpec("201B", 7, 11),
    CharSpec("201C", 2, 13),
    CharSpec("201D", 3, 13),
    CharSpec("201E", 3, 14),
    CharSpec("201F", 8, 11),
    CharSpec("2020", 0, 10),
    CharSpec("2021", 0, 14),
    CharSpec("2022", 5, 10),
    CharSpec("20AC", 11, 13)
  ]

  /** codegen/font/charmap.go:323-338 */
  const Icons: seq<CharSpec> := [
    CharSpec("E700", 0, 0),
    CharSpec("E701", 1, 0),
    CharSpec("E702", 2, 0),
    CharSpec("E703", 3, 0),
    CharSpec("E704", 4, 0),
    CharSpec("E705", 5, 0),
    CharSpec("E706", 6, 0),
    CharSpec("E707", 7, 0),
    CharSpec("E708", 8, 0),
    CharSpec("E709", 9, 0),
    CharSpec("E70A", 13, 0),
    CharSpec("E70B", 14, 0),
    CharSpec("E70C", 15, 0),
    CharSpec("FFFD", 0, 15)
  ]

  /** The list literal, part by part, in the order of the source. */
  const SysLatinParts: seq<seq<CharSpec>> := [
    BasicLatin1, BasicLatin2, BasicLatin3, BasicLatin4,
    BasicLatin5, BasicLatin6, Latin1Part1, Latin1Part2,
    Latin1Part3, Latin1Part4, Latin1Part5, Latin1Part6,
    Punctuation, Icons
  ]

  /** `SysLatinMap()`: the clusters of the Latin fonts with their cells. */
  const SysLatinMap: seq<CharSpec> := Tables.Concat(SysLatinParts)

  /** Distinct entries share a cell: the space and the no-break space
      both use (0, 2), the hyphen-minus and the soft hyphen both (13, 2). */
  lemma SharedCells()
    ensures CharSpec("20", 0, 2) in SysLatinMap && CharSpec("A0", 0, 2) in SysLatinMap
    ensures CharSpec("2D", 13, 2) in SysLatinMap && CharSpec("AD", 13, 2) in SysLatinMap
  {
    assert BasicLatin1[0] == CharSpec("20", 0, 2) && BasicLatin1[13] == CharSpec("2D", 13, 2);
    assert Latin1Part1[0] == CharSpec("A0", 0, 2) && Latin1Part1[13] == CharSpec("AD", 13, 2);
    Tables.ConcatHasPart(SysLatinParts, 0, BasicLatin1[0]);
    Tables.ConcatHasPart(SysLatinParts, 0, BasicLatin1[13]);
    Tables.ConcatHasPart(SysLatinParts, 6, Latin1Part1[0]);
    Tables.ConcatHasPart(SysLatinParts, 6, Latin1Part1[13]);
  }
}
