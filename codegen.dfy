/** The index side of the Go font compiler (codegen/main.go): the Go murmur3
    hash, the labels written beside generated entries, the concatenated
    pattern data with its cluster index sorted by hash, and the lookup
    (range pre-filter, then binary search) that the generated Rust code
    performs on that index. */
module Codegen {
  import Utf8
  import Murmur3
  import Uint
  import opened Wrappers

  // ---------------------------------------------------------------------
  // murmur3(key, seed) (codegen/main.go:208-230)

  /** Every scalar of the key is mixed as one block; then `len(key)`, the
      UTF-8 byte length, is folded in and the state avalanched. */
  method HashKey(key: string, seed: bv32) returns (hash: bv32)
    ensures hash == Murmur3.Hash(key, seed)
  {
    var h := seed;
    var j := 0;
    while j < |key|
      invariant j <= |key|
      invariant h == Murmur3.Blocks(seed, key[..j])
    {
      var c := key[j];
      var k := Murmur3.MixK(Murmur3.Block(c));
      h := Murmur3.MixH(h, k);
      assert key[..j + 1] == key[..j] + [c];
      Murmur3.BlocksAppend(seed, key[..j], c);
      j := j + 1;
    }
    assert key[..j] == key;
    hash := Murmur3.Finish(h, Utf8.ByteLen(key));
  }

  // ---------------------------------------------------------------------
  // labelForCluster (codegen/main.go:157-189)

  /** The names of the user-interface icons U+E700..U+E70C, in order. */
  const IconNames: seq<string> := [
    "Battery_05", "Battery_25", "Battery_50", "Battery_75", "Battery_99",
    "Radio_3", "Radio_2", "Radio_1", "Radio_0", "Radio_Off",
    "Shift_Arrow", "Backspace_Symbol", "Enter_Symbol"]

  /** A cluster made of one icon scalar. */
  predicate IsIcon(c: string)
  {
    |c| == 1 && 0xE700 <= c[0] as int <= 0xE70C
  }

  function LabelForCluster(c: string): string
  {
    match c
    case "\U{E700}" => "Battery_05"
    case "\U{E701}" => "Battery_25"
    case "\U{E702}" => "Battery_50"
    case "\U{E703}" => "Battery_75"
    case "\U{E704}" => "Battery_99"
    case "\U{E705}" => "Radio_3"
    case "\U{E706}" => "Radio_2"
    case "\U{E707}" => "Radio_1"
    case "\U{E708}" => "Radio_0"
    case "\U{E709}" => "Radio_Off"
    case "\U{E70A}" => "Shift_Arrow"
    case "\U{E70B}" => "Backspace_Symbol"
    case "\U{E70C}" => "Enter_Symbol"
    case _ => "'" + c + "'"
  }

  /** Icon number `i` gets the `i`-th name. */
  lemma IconLabel(c: string)
    requires IsIcon(c)
    ensures LabelForCluster(c) == IconNames[c[0] as int - 0xE700]
  {
    var i := c[0] as int - 0xE700;
    assert c == [(0xE700 + i) as char];
  }

  /** Every other cluster is labelled by itself in single quotes. */
  lemma QuotedLabel(c: string)
    requires !IsIcon(c)
    ensures LabelForCluster(c) == "'" + c + "'"
  {
  }

  // ---------------------------------------------------------------------
  // patternListFromSpriteSheet and rustyBlitsFromPatternList
  // (codegen/main.go:107-141)

  /** A compiled glyph: its grapheme cluster and its packed words (header
      first). */
  datatype BlitPattern = BlitPattern(cluster: string, words: seq<bv32>)

  /** `ClusterOffsetEntry`: the cluster's hash, the cluster, and the index of
      its pattern's header word in the data buffer.  The index only compares
      hashes, so they are kept as numbers. */
  datatype Entry = Entry(m3Hash: Uint.Uint32, cluster: string, dataOffset: nat)

  /** The patterns compiled one by one, in the order of the character map;
      compiling one glyph is the parameter `convert`. */
  method PatternListFromSpriteSheet<S>(specs: seq<S>, convert: S -> BlitPattern) returns (pl: seq<BlitPattern>)
    ensures |pl| == |specs|
    ensures forall i :: 0 <= i < |specs| ==> pl[i] == convert(specs[i])
  {
    pl := [];
    for j := 0 to |specs|
      invariant |pl| == j
      invariant forall i :: 0 <= i < j ==> pl[i] == convert(specs[i])
    {
      pl := pl + [convert(specs[j])];
    }
  }

  /** The running sum of the pattern lengths before pattern `i`. */
  function Offset(pl: seq<BlitPattern>, i: nat): nat
    requires i <= |pl|
  {
    if i == 0 then 0 else Offset(pl, i - 1) + |pl[i - 1].words|
  }

  /** The `DATA` buffer: the patterns concatenated in list order. */
  function Data(pl: seq<BlitPattern>): seq<bv32>
  {
    if pl == [] then [] else Data(pl[..|pl| - 1]) + pl[|pl| - 1].words
  }

  /** `murmur3(cluster, 0)`, the key of the index. */
  function ClusterHash(cluster: string): Uint.Uint32
  {
    Murmur3.Hash(cluster, 0) as int
  }

  /** The index in list order, before the sort. */
  function UnsortedIndex(pl: seq<BlitPattern>): seq<Entry>
  {
    seq(|pl|, i requires 0 <= i < |pl| => Entry(ClusterHash(pl[i].cluster), pl[i].cluster, Offset(pl, i)))
  }

  predicate SortedByHash(s: seq<Entry>)
  {
    forall i, j :: 0 <= i < j < |s| ==> s[i].m3Hash <= s[j].m3Hash
  }

  lemma DataStep(pl: seq<BlitPattern>, j: nat)
    requires j < |pl|
    ensures Data(pl[..j + 1]) == Data(pl[..j]) + pl[j].words
  {
    assert pl[..j + 1][..j] == pl[..j];
  }

  lemma IndexStep(pl: seq<BlitPattern>, j: nat)
    requires j < |pl|
    ensures UnsortedIndex(pl)[..j + 1]
      == UnsortedIndex(pl)[..j] + [Entry(ClusterHash(pl[j].cluster), pl[j].cluster, Offset(pl, j))]
  {
  }

  /** One pass of the compiler loop extends the buffer, its length and the
      index by pattern `j`. */
  lemma BuildStep(pl: seq<BlitPattern>, j: nat, data: seq<bv32>, dataLen: nat, unsorted: seq<Entry>)
    requires j < |pl|
    requires data == Data(pl[..j]) && dataLen == Offset(pl, j)
    requires unsorted == UnsortedIndex(pl)[..j]
    ensures data + pl[j].words == Data(pl[..j + 1])
    ensures dataLen + |pl[j].words| == Offset(pl, j + 1)
    ensures unsorted + [Entry(ClusterHash(pl[j].cluster), pl[j].cluster, dataLen)] == UnsortedIndex(pl)[..j + 1]
  {
    DataStep(pl, j);
    IndexStep(pl, j);
  }

  /** The buffer of the first `j` patterns is `Offset(pl, j)` words long. */
  lemma {:induction false} DataLength(pl: seq<BlitPattern>, j: nat)
    requires j <= |pl|
    ensures |Data(pl[..j])| == Offset(pl, j)
  {
    if j > 0 {
      DataLength(pl, j - 1);
      DataStep(pl, j - 1);
    }
  }

  /** The buffer of the first `j` patterns is a prefix of the whole buffer. */
  lemma {:induction false} DataPrefix(pl: seq<BlitPattern>, j: nat)
    requires j <= |pl|
    ensures |Data(pl[..j])| <= |Data(pl)|
    ensures Data(pl)[..|Data(pl[..j])|] == Data(pl[..j])
    decreases |pl| - j
  {
    if j == |pl| {
      assert pl[..j] == pl;
    } else {
      DataPrefix(pl, j + 1);
      DataStep(pl, j);
      var d := Data(pl[..j]);
      assert Data(pl)[..|d|] == Data(pl[..j + 1])[..|d|];
    }
  }

  /** Pattern `i` sits in the buffer from its offset to the next offset, and
      the buffer is exactly as long as the sum of all pattern lengths. */
  lemma DataSlices(pl: seq<BlitPattern>, i: nat)
    requires i < |pl|
    ensures Offset(pl, i + 1) <= Offset(pl, |pl|) == |Data(pl)|
    ensures Data(pl)[Offset(pl, i)..Offset(pl, i + 1)] == pl[i].words
  {
    assert pl[..|pl|] == pl;
    DataLength(pl, |pl|);
    DataLength(pl, i);
    DataLength(pl, i + 1);
    DataPrefix(pl, i + 1);
    DataStep(pl, i);
    var d := Data(pl[..i + 1]);
    assert Data(pl)[Offset(pl, i)..Offset(pl, i + 1)] == d[Offset(pl, i)..];
  }

  /** The loop of the compiler pass: each pattern appended to the buffer,
      and its entry, with the buffer length before it, to the index. */
  method BuildIndex(pl: seq<BlitPattern>) returns (data: seq<bv32>, dataLen: nat, unsorted: seq<Entry>)
    ensures data == Data(pl) && dataLen == |data|
    ensures unsorted == UnsortedIndex(pl)
  {
    data := [];
    dataLen := 0;
    unsorted := [];
    for j := 0 to |pl|
      invariant data == Data(pl[..j]) && dataLen == Offset(pl, j)
      invariant unsorted == UnsortedIndex(pl)[..j]
    {
      var p := pl[j];
      var hash := HashKey(p.cluster, 0);
      BuildStep(pl, j, data, dataLen, unsorted);
      unsorted := unsorted + [Entry(hash as int, p.cluster, dataLen)];
      data := data + p.words;
      dataLen := dataLen + |p.words|;
    }
    assert pl[..|pl|] == pl;
    DataLength(pl, |pl|);
  }

  /** The compiler pass: the data buffer and its length, and the index
      sorted by hash. */
  method RustyBlitsFromPatternList(pl: seq<BlitPattern>) returns (data: seq<bv32>, dataLen: nat, index: seq<Entry>)
    ensures data == Data(pl) && dataLen == |data|
    ensures SortedByHash(index)
    ensures multiset(index) == multiset(UnsortedIndex(pl))
  {
    var unsorted;
    data, dataLen, unsorted := BuildIndex(pl);
    var a := new Entry[|unsorted|](i requires 0 <= i < |unsorted| => unsorted[i]);
    assert a[..] == unsorted;
    SortByHash(a);
    index := a[..];
  }

  /** The entries of `a[lo..hi]` are in hash order. */
  predicate SortedSpan(a: array<Entry>, lo: int, hi: int)
    reads a
    requires 0 <= lo <= hi <= a.Length
  {
    forall k, l :: lo <= k < l < hi ==> a[k].m3Hash <= a[l].m3Hash
  }

  /** `sort.Slice` by hash, in place; an insertion sort stands in for the
      library's unspecified algorithm. */
  method SortByHash(a: array<Entry>)
    modifies a
    ensures SortedByHash(a[..])
    ensures multiset(a[..]) == old(multiset(a[..]))
  {
    for i := 0 to a.Length
      invariant SortedSpan(a, 0, i)
      invariant multiset(a[..]) == old(multiset(a[..]))
    {
      InsertStep(a, i);
    }
  }

  /** Sinks `a[i]` into the sorted span `a[..i]`. */
  method InsertStep(a: array<Entry>, i: int)
    requires 0 <= i < a.Length && SortedSpan(a, 0, i)
    modifies a
    ensures SortedSpan(a, 0, i + 1)
    ensures multiset(a[..]) == old(multiset(a[..]))
  {
    var j := i;
    while j > 0 && a[j - 1].m3Hash > a[j].m3Hash
      invariant 0 <= j <= i
      invariant forall k, l :: 0 <= k < l <= i && k != j && l != j ==> a[k].m3Hash <= a[l].m3Hash
      invariant forall l :: j < l <= i ==> a[j].m3Hash <= a[l].m3Hash
      invariant multiset(a[..]) == old(multiset(a[..]))
    {
      SwapDown(a, j);
      j := j - 1;
    }
  }

  /** Exchanges `a[j - 1]` and `a[j]`. */
  method SwapDown(a: array<Entry>, j: int)
    requires 0 < j < a.Length
    modifies a
    ensures a[j - 1] == old(a[j]) && a[j] == old(a[j - 1])
    ensures forall k :: 0 <= k < a.Length && k != j - 1 && k != j ==> a[k] == old(a[k])
    ensures multiset(a[..]) == old(multiset(a[..]))
  {
    a[j - 1], a[j] := a[j], a[j - 1];
  }

  // ---------------------------------------------------------------------
  // get_blit_pattern_offset and find_pattern, the lookup in the generated
  // font module (codegen/main.go:302-346)

  datatype GlyphNotFound = GlyphNotFound

  /** The pre-filter on the first scalar: Basic Latin without DEL, Latin-1,
      Latin Extended-A, General Punctuation, Currency Symbols, the icons and
      U+FFFD. */
  predicate InFontRanges(c: char)
  {
    var cp := c as int;
    cp <= 0x7E || 0x80 <= cp <= 0xFF || 0x100 <= cp <= 0x17F
    || 0x2000 <= cp <= 0x206F || 0x20A0 <= cp <= 0x20CF
    || 0xE700 <= cp <= 0xE70C || cp == 0xFFFD
  }

  /** `HASHED_CLUSTERS`: the hashes of the sorted index. */
  function HashedClusters(index: seq<Entry>): seq<Uint.Uint32>
  {
    seq(|index|, i requires 0 <= i < |index| => index[i].m3Hash)
  }

  /** `PATTERN_OFFSETS`: the data offsets, in the same order. */
  function PatternOffsets(index: seq<Entry>): seq<nat>
  {
    seq(|index|, i requires 0 <= i < |index| => index[i].dataOffset)
  }

  predicate Sorted(s: seq<int>)
  {
    forall i, j :: 0 <= i < j < |s| ==> s[i] <= s[j]
  }

  lemma SortedHashes(index: seq<Entry>)
    requires SortedByHash(index)
    ensures Sorted(HashedClusters(index))
  {
  }

  /** What the lookup may answer: `GlyphNotFound` for an empty cluster, for a
      first scalar outside the font's ranges and for a hash missing from the
      table; otherwise the offset stored beside some occurrence of the
      hash. */
  predicate LookupOutcome(hashes: seq<Uint.Uint32>, offsets: seq<nat>, cluster: string, r: Result<nat, GlyphNotFound>)
    requires |offsets| == |hashes|
  {
    if cluster == [] || !InFontRanges(cluster[0]) then r.Err?
    else if ClusterHash(cluster) in hashes then
      r.Ok? && exists i :: 0 <= i < |hashes| && hashes[i] == ClusterHash(cluster) && offsets[i] == r.value
    else r.Err?
  }

  /** `slice::binary_search` over a sorted table: on a hit, an index that
      holds the key (any one of them when the key repeats); on a miss,
      nothing. */
  method BinarySearch(s: seq<Uint.Uint32>, key: Uint.Uint32) returns (r: Option<nat>)
    requires Sorted(s)
    ensures r.Some? ==> r.value < |s| && s[r.value] == key
    ensures r.None? <==> key !in s
  {
    var lo, hi := 0, |s|;
    while lo < hi
      invariant 0 <= lo <= hi <= |s|
      invariant forall i :: 0 <= i < lo ==> s[i] < key
      invariant forall i :: hi <= i < |s| ==> s[i] > key
    {
      var mid := (lo + hi) / 2;
      if s[mid] < key {
        lo := mid + 1;
      } else if s[mid] > key {
        hi := mid;
      } else {
        return Some(mid);
      }
    }
    return None;
  }

  /** `find_pattern`: hash the whole cluster, search the hashes, and answer
      the offset beside the hit. */
  method FindPattern(hashes: seq<Uint.Uint32>, offsets: seq<nat>, cluster: string) returns (r: Result<nat, GlyphNotFound>)
    requires Sorted(hashes) && |offsets| == |hashes|
    ensures r.Ok? <==> ClusterHash(cluster) in hashes
    ensures r.Ok? ==> exists i :: 0 <= i < |hashes| && hashes[i] == ClusterHash(cluster) && offsets[i] == r.value
  {
    var key := HashKey(cluster, 0);
    var found := BinarySearch(hashes, key as int);
    match found
    case Some(index) =>
      r := Ok(offsets[index]);
    case None =>
      r := Err(GlyphNotFound);
  }

  /** `get_blit_pattern_offset`: the pre-filter on the first scalar, then
      `find_pattern`. */
  method GetBlitPatternOffset(hashes: seq<Uint.Uint32>, offsets: seq<nat>, cluster: string) returns (r: Result<nat, GlyphNotFound>)
    requires Sorted(hashes) && |offsets| == |hashes|
    ensures LookupOutcome(hashes, offsets, cluster, r)
  {
    if |cluster| == 0 {
      return Err(GlyphNotFound);
    }
    var firstChar := cluster[0];
    if !InFontRanges(firstChar) {
      return Err(GlyphNotFound);
    }
    r := FindPattern(hashes, offsets, cluster);
  }

  /** No two patterns of the list share a hash. */
  predicate DistinctHashes(u: seq<Entry>)
  {
    forall i, j :: 0 <= i < j < |u| ==> u[i].m3Hash != u[j].m3Hash
  }

  /** An entry of a permutation of the unsorted index is one of its
      entries. */
  lemma EntryOrigin(pl: seq<BlitPattern>, index: seq<Entry>, j: nat) returns (i: nat)
    requires multiset(index) == multiset(UnsortedIndex(pl)) && j < |index|
    ensures i < |pl| && index[j] == UnsortedIndex(pl)[i]
  {
    assert index[j] in multiset(UnsortedIndex(pl));
    i :| 0 <= i < |pl| && UnsortedIndex(pl)[i] == index[j];
  }

  /** With distinct hashes, looking up a cluster of the list in the sorted
      index answers the offset of that cluster's own pattern. */
  lemma LookupFindsEveryCluster(pl: seq<BlitPattern>, index: seq<Entry>, i: nat, r: Result<nat, GlyphNotFound>)
    requires multiset(index) == multiset(UnsortedIndex(pl))
    requires DistinctHashes(UnsortedIndex(pl))
    requires i < |pl| && pl[i].cluster != [] && InFontRanges(pl[i].cluster[0])
    requires LookupOutcome(HashedClusters(index), PatternOffsets(index), pl[i].cluster, r)
    ensures r == Ok(Offset(pl, i))
  {
    var u := UnsortedIndex(pl);
    var hashes := HashedClusters(index);
    assert u[i] in multiset(index);
    var j0 :| 0 <= j0 < |index| && index[j0] == u[i];
    assert hashes[j0] == ClusterHash(pl[i].cluster);
    var j :| 0 <= j < |hashes| && hashes[j] == ClusterHash(pl[i].cluster) && PatternOffsets(index)[j] == r.value;
    var i2 := EntryOrigin(pl, index, j);
    assert i2 == i by {
      assert u[i2].m3Hash == u[i].m3Hash;
    }
    assert r.value == index[j].dataOffset == u[i].dataOffset;
  }

  /** No duplicate check is made: when two patterns of the list share a
      hash, the lookup of the first may answer the offset of the second. */
  lemma CollisionConfuses(pl: seq<BlitPattern>, index: seq<Entry>, a: nat, b: nat)
    requires multiset(index) == multiset(UnsortedIndex(pl))
    requires a < |pl| && b < |pl| && pl[a].cluster != [] && InFontRanges(pl[a].cluster[0])
    requires ClusterHash(pl[a].cluster) == ClusterHash(pl[b].cluster)
    ensures LookupOutcome(HashedClusters(index), PatternOffsets(index), pl[a].cluster, Ok(Offset(pl, b)))
  {
    var u := UnsortedIndex(pl);
    assert u[b] in multiset(index);
    var j :| 0 <= j < |index| && index[j] == u[b];
    assert HashedClusters(index)[j] == ClusterHash(pl[a].cluster);
  }
}
