# guilib font compiler: a Dafny model

This project models the bitmap-font pipeline of guilib. Two halves are covered.

The Go code generator under `codegen/`:
- cuts glyphs out of a sprite-sheet grid, turns them into 0/1 matrices and trims their blank margins within per-edge limits;
- packs each glyph into 32-bit words: a header word `w<<16 | h<<8 | yOffset`, then the pixels, one bit each;
- hashes each grapheme cluster with a per-scalar MurmurHash3 variant;
- concatenates the patterns into the `DATA` buffer and builds an index sorted by hash;
- reads the character maps and the Unicode block tables.

The Rust runtime under `src/`:
- decodes a glyph's header word;
- computes the same hash, with a limit on how many scalars it mixes;
- dispatches a character to its glyph record through per-block tables (`get_glyph_pattern_offset` of the Regular and Small fonts).

## How the model is laid out

One module per file, following the source:

| module | source |
|---|---|
| `Matrices` | `reverseRows`, `matrixTranspose`, `trimLeadingEmptyRows` and `min` |
| `Sprite` | `ConvertGlyphBoxToMatrix` and `trimLimits` |
| `Pattern` | `ConvertMatrixToPattern` |
| `Utf8` | UTF-8 byte lengths, which Go's `len` and Rust's `str::len` count |
| `Murmur3` | the mixing steps shared by the two hashes |
| `Codegen` | the Go hash, the index build, and the lookup that the generated code performs |
| `Fonts` | `GlyphHeader::new` and the Rust `murmur3` |
| `Charmap` | `codegen/font/charmap.go` |
| `Blocks` | `codegen/blocks/charmap.go` |
| `Regular`, `Small` | the generated font modules |
| `Tables` | concatenation and ordering of constant tables |
| `Wrappers`, `Uint` | `Option`/`Result` and the `uint32` range |

How the source's code is rendered:
- Loops of the source are methods with loop invariants. Each method is proved equal to a function, and the properties are lemmas about that function.
- Panics in the source are error results:
  - extraction returns `OutOfRange` or `TrimPanic`;
  - `Block` returns `None`;
  - hex parsing returns `None`.
- Fixed-width arithmetic is `bv32`, so it wraps like Go's `uint32` and Rust's `u32`.
- The image is a function from `(x, y)` to the red sample, plus the image's `Max.Y`.

### Where the code and its comments disagree (the model follows the code)

- **Pixel order.** The `DATA` doc comments (`src/fonts/regular.rs:276-277`, `codegen/main.go:352-353`) say the most significant bit of the first word is the top-left pixel.
  - The packer reads row `y` at `patW-1-x` (`codegen/font/sprite.go:156`), so each row goes in right to left. The top-right pixel lands in the MSB.
  - `Pattern.PatternPixel` states the code's bit position; `Pattern.DiagonalPattern` gives a worked example.
- **Data word count.** The record comment promises `ceil(w*h/32)` data words. A glyph without pixels still gets one zero word (`codegen/font/sprite.go:169-171`); see `Fonts.DataWords` and `Pattern.EmptyPattern`.
- **Hash length term.** Both hashes fold in the UTF-8 byte length of what they hashed (`len(key)`, `bytes_hashed`), not the scalar count.
- **Blank cells.** A fully blank cell trimmed with full limits ends as the empty glyph with yOffset 0. The left trim removes every column first, so the top trim finds no rows to count (`Sprite.ExtractBlankCell`).
- **Which hash the lookup uses.** The generated `find_pattern` calls `super::murmur3(cluster, seed)` with two arguments (`codegen/main.go:331`), while `src/fonts.rs` defines a three-argument `murmur3`.
  - The lookup is modelled with the two-argument (Go) hash.
  - `Fonts.LimitCoversKey` proves that the Rust hash equals it whenever the limit covers the key.

## Model

| member | source | states |
|---|---|---|
| Matrices.ReverseRows | codegen/font/sprite.go:91-97 | the loop builds exactly the rows in reverse order |
| Matrices.ReversedInvolution | codegen/font/sprite.go:91-97 | reversing twice gives the matrix back |
| Matrices.ReversedKeepsRowsOfWidth | codegen/font/sprite.go:91-97 | reversal keeps every row's width |
| Matrices.MatrixTranspose | codegen/font/sprite.go:202-217 | the nested loops build the transpose; an empty matrix is returned as it is |
| Matrices.Transpose | codegen/font/sprite.go:202-217 | the result has `len(m[0])` rows, each of length `len(m)`, and none when `m` has no rows |
| Matrices.TransposeShape | codegen/font/sprite.go:202-217 | an h-by-w matrix (h, w > 0) becomes w-by-h with `t[c][r] == m[r][c]` |
| Matrices.TransposeOfDegenerate | codegen/font/sprite.go:203-215 | a matrix with no rows, or with rows of width zero, transposes to the empty matrix |
| Matrices.TransposeRectangular | codegen/font/sprite.go:202-217 | every transpose has rows of one width, which is the input's height |
| Matrices.TransposeKeepsBinary | codegen/font/sprite.go:202-217 | the transpose of a 0/1 matrix is 0/1 |
| Matrices.TransposeInvolution | codegen/font/sprite.go:202-217 | transposing a rectangular matrix with a column twice is the identity; without columns it gives the empty matrix |
| Matrices.LeadingBlankSpec | codegen/font/sprite.go:104-113 | the leading blank rows sum to zero, and the row after them holds ink |
| Matrices.LeadingBlankAtLeast | codegen/font/sprite.go:104-113 | when the first `k` rows are blank, at least `k` rows count as leading blank |
| Matrices.TrimmedLeadingSpec | codegen/font/sprite.go:100-116 | the trim returns a suffix at most `limit` rows shorter, and every removed row sums to zero; it stops at ink unless the limit ran out; empty input comes back unchanged |
| Matrices.TrimmedLeadingExact | codegen/font/sprite.go:100-116 | when the first `limit` rows are blank, exactly those rows are removed |
| Matrices.TrimmedKeepsRowsOfWidth | codegen/font/sprite.go:100-116 | the trim keeps the row width |
| Matrices.TrimLeadingEmptyRows | codegen/font/sprite.go:100-116 | the loop with its `break` computes the trimmed suffix whenever it does not index an empty slice |
| Matrices.Min | codegen/font/sprite.go:220-225 | the result is the smaller argument: at most both, and equal to one |
| Matrices.RowSumZeroIffBlank | codegen/font/sprite.go:105-109 | a row of non-negative pixels sums to zero exactly when every pixel is zero |
| Matrices.BlankRowSum | codegen/font/sprite.go:105-109 | a row of zeros sums to zero |
| Sprite.RawCell | codegen/font/sprite.go:37-52 | the sampled cell is `CellSide` rows of `CellSide` pixels |
| Sprite.RawCellSpec | codegen/font/sprite.go:32-52 | the cell is a 0/1 square of side Size + Gutter - Border, and holds 1 exactly where the red sample is 0 |
| Sprite.SampleCell | codegen/font/sprite.go:37-52 | the sampling loops build exactly `RawCell` |
| Sprite.CellRange | codegen/font/sprite.go:37-42 | the sampling range along one axis spans `gridSize - border` pixels, and that span is the cell side `CellSide` whenever it is positive (an empty range otherwise) |
| Sprite.TrimLimitsCases | codegen/font/sprite.go:119-136 | Bold/Regular radio cells get `[7,5,6,4]`; the Bold/Regular/Small space cell gets `[Size/2-1, Size/2-2, Size/2-1, Size/2-2]`; every other cell gets `[Size,Size,Size,Size]` |
| Sprite.ConvertGlyphBoxToMatrix | codegen/font/sprite.go:30-72 | the method returns the range panic, the trim panic, or the trimmed glyph with yOffset, exactly as `ExtractGlyph` says |
| Sprite.TrimCell | codegen/font/sprite.go:53-71 | the trims run left (limit 3), right (1), top (0), bottom (2), and yOffset is the height before the top trim minus the height after it |
| Sprite.TrimEndsSteps | codegen/font/sprite.go:56-60 | the trim, reverse, trim, reverse sequence stops with `TrimPanic` where a trim would index an empty slice |
| Sprite.ExtractOutOfRange | codegen/font/sprite.go:32-35 | extraction fails with `OutOfRange` exactly when the row or column is outside the grid |
| Sprite.ExtractInGrid | codegen/font/sprite.go:36-71 | inside the grid, extraction is the trim of the sampled cell with that cell's limits |
| Sprite.ExtractBounds | codegen/font/sprite.go:30-72 | a glyph is 0/1 with rows of one width no wider than the cell, and yOffset plus height fits in the cell |
| Sprite.ExtractNeverPanics | codegen/font/sprite.go:30-72 | with gutter equal to border and Size at least 13, every cell in the grid extracts without a panic |
| Sprite.ExtractBlankCell | codegen/font/sprite.go:53-71 | a blank cell with a full left limit ends as the 0x0 glyph with yOffset 0 |
| Sprite.ExtractWindow | codegen/font/sprite.go:53-71 | a cell whose ink lies inside the margins its limits name extracts to the window between those margins, with the top limit as yOffset |
| Sprite.ExtractBlank | codegen/font/sprite.go:53-71 | a blank cell with smaller limits extracts to a blank window of the limits' distances, with the top limit as yOffset |
| Sprite.TrimBottomIsPrefix | codegen/font/sprite.go:67-69 | trimming the reversed matrix and reversing back drops at most `limit` blank rows from the bottom |
| Sprite.TrimEndsSlice | codegen/font/sprite.go:53-69 | a two-sided trim keeps a contiguous run of rows, within both limits |
| Sprite.TrimEndsRemovesBlank | codegen/font/sprite.go:53-69 | the rows removed above and below the kept run are blank |
| Sprite.TrimEndsSafe | codegen/font/sprite.go:100-116 | under limits that fit the matrix, the two-sided trim never panics |
| Sprite.TrimEndsExact | codegen/font/sprite.go:53-69 | when the outer `a` and `b` rows are blank, exactly those rows are removed and `a` is counted |
| Sprite.TrimEndsKeepsRowsOfWidth | codegen/font/sprite.go:53-69 | a two-sided trim keeps the row width |
| Sprite.TrimEndsKeepsBinary | codegen/font/sprite.go:53-69 | a two-sided trim of a 0/1 matrix is 0/1 |
| Sprite.TrimEndsEmpty | codegen/font/sprite.go:100-116 | a matrix without rows trims to itself and nothing is counted |
| Sprite.TrimGlyphFailsOnlyByPanic | codegen/font/sprite.go:53-71 | the trimming stage fails only by the empty-slice panic |
| Sprite.RowPassSlice | codegen/font/sprite.go:62-69 | the row pass keeps rows `yOffset .. yOffset+h` of its input |
| Sprite.TrimGlyphStages | codegen/font/sprite.go:53-69 | a successful trim is the row pass over the transposed result of the column pass |
| Sprite.TrimGlyphSpec | codegen/font/sprite.go:53-71 | yOffset plus the kept rows never exceed the cell's side, and the glyph's rows share one width, no wider than the cell |
| Sprite.TrimGlyphBinary | codegen/font/sprite.go:53-71 | trimming keeps the sampler's 0/1 pixels |
| Sprite.TrimGlyphSafe | codegen/font/sprite.go:53-71 | with fitting limits on both axes the trim never panics |
| Sprite.TrimGlyphBlank | codegen/font/sprite.go:53-71 | a blank cell whose left limit is the whole side trims to `Glyph([], 0)` |
| Sprite.TrimEndsTight | codegen/font/sprite.go:100-116 | with limits that cover the whole matrix, a two-sided trim of a matrix with an inked row keeps that row, and the first and last kept rows are inked |
| Sprite.InkedRowsKept | codegen/font/sprite.go:100-116 | with covering limits, every inked row lies inside the run the two-sided trim keeps |
| Sprite.InkedColumn | codegen/font/sprite.go:53-60 | a pixel of ink in a square cell makes its column of the transposed cell inked |
| Sprite.KeptColumns | codegen/font/sprite.go:53-60 | the columns the column pass keeps, transposed back, are the window of the cell between the first and last kept column, and those two columns hold ink |
| Sprite.InkedWindowRow | codegen/font/sprite.go:62-69 | a row of the column window that crosses a pixel of ink is inked |
| Sprite.InkedRowsOfWindowKept | codegen/font/sprite.go:62-69 | all ink of the column window lies within the rows the row pass keeps |
| Sprite.InkedEdgeColumn | codegen/font/sprite.go:53-71 | a kept column that held ink in the cell still holds ink in the trimmed window |
| Sprite.InkedColumnsKept | codegen/font/sprite.go:53-60 | all ink of the cell lies within the columns the column pass keeps |
| Sprite.TightColumns | codegen/font/sprite.go:53-60 | with covering limits the column pass of an inked cell succeeds and keeps exactly the columns from the first to the last inked one |
| Sprite.TightRowPass | codegen/font/sprite.go:62-71 | with covering limits the row pass keeps a window of the cell whose first and last rows hold ink, and `yOffset` is the number of rows removed above it |
| Sprite.TightRows | codegen/font/sprite.go:62-71 | after the column pass, the row pass yields a window of the cell that holds all of its ink, with ink on each of its four edges |
| Sprite.InkedEdgeColumns | codegen/font/sprite.go:53-71 | the first and last columns of that window are not blank |
| Sprite.TrimGlyphTight | codegen/font/sprite.go:53-71 | with all four limits at least the side, trimming an inked 0/1 cell succeeds and yields its tight bounding box: a window holding all the ink, whose first and last rows and columns each hold ink, and whose `yOffset` is the first inked row |
| Sprite.SinglePixelBox | codegen/font/sprite.go:53-71 | the only window of a 10x10 cell inked at row 3, column 5 that holds all its ink with ink on every edge is that one pixel |
| Sprite.SinglePixelGlyph | codegen/font/sprite.go:53-71 | a 10x10 cell with one pixel at row 3, column 5, trimmed with full limits, becomes the 1x1 glyph `[[1]]` with `yOffset` 3 |
| Sprite.ExtractPackable | codegen/font/sprite.go:143-174 | every glyph the extraction produces is wide enough for the packing loop, so its panic on a short row cannot be reached from extraction |
| Sprite.TrimGlyphWindow | codegen/font/sprite.go:53-71 | when all ink lies inside the margins, each trim removes exactly its limit |
| Sprite.ColumnPassSize | codegen/font/sprite.go:53-61 | the column pass keeps at most `n` columns of height `n` |
| Sprite.ColumnPassWidth | codegen/font/sprite.go:53-61 | after the column pass every row, a column of the cell, is as long as the cell is high |
| Sprite.ColumnPassWindow | codegen/font/sprite.go:53-61 | a cell inked only in columns `left..n-right` loses exactly those margins |
| Sprite.RowPassWindow | codegen/font/sprite.go:62-69 | with `top` blank rows above and `bottom` below, exactly those are removed and yOffset is `top` |
| Sprite.BlankOuterRows | codegen/font/sprite.go:53-69 | cutting a cell inked inside a window to the window's columns leaves the rows outside the window blank |
| Sprite.WindowBlank | codegen/font/sprite.go:53-71 | a window of a blank cell is blank |
| Sprite.BlankWindow | codegen/font/sprite.go:53-71 | the window of a blank cell between the margins is a blank rectangle of their distances |
| Pattern.ConvertMatrixToPattern | codegen/font/sprite.go:143-174 | the packing loop with its `bufWord`, `flushed` and final shift computes `PatternOf`: the header, then the packed bit stream |
| Pattern.RowsOfWidthPackable | codegen/font/sprite.go:145-159 | a matrix whose rows share one width never makes the packing loop read past a row |
| Pattern.PackRow | codegen/font/sprite.go:155-167 | one pass of the inner loop shifts a row's pixels into the buffer right to left and flushes every 32nd bit |
| Pattern.PackRows | codegen/font/sprite.go:154-168 | the outer loop emits the full words of the stream and leaves the unfinished word in the buffer |
| Pattern.RowBits | codegen/font/sprite.go:155-160 | the bits of a row are its first `w` pixels read from the right |
| Pattern.BitsLength | codegen/font/sprite.go:154-168 | `h` rows of `w` pixels give `w*h` bits |
| Pattern.BitPosition | codegen/font/sprite.go:154-168 | pixel `(y, x)` is stream bit `y*w + (w-1-x)` |
| Pattern.PackedLength | codegen/font/sprite.go:162-172 | the stream packs into `ceil(bits/32)` words, and into one word when it is empty |
| Pattern.PackedBit | codegen/font/sprite.go:157-171 | stream bit `p` is bit `31 - p%32` of word `p/32`, and the padding bits are clear |
| Pattern.UnpackPacked | codegen/font/sprite.go:152-172 | reading the packed words back MSB first gives the stream back |
| Pattern.PatBounds | codegen/font/sprite.go:145-150 | width and height are below 2^32, and the height is at most the row count |
| Pattern.Rows | codegen/font/sprite.go:145-156 | the packed rows are the first `patH` rows, each at least `patW` wide |
| Pattern.RectangleDimensions | codegen/font/sprite.go:145-150 | a matrix of `h > 0` rows of `w > 0` pixels packs with width `w` and height `h` |
| Pattern.RectangleHeader | codegen/font/sprite.go:151 | such a matrix's pattern starts with the header of its `w`, `h` and yOffset |
| Pattern.PatternLength | codegen/font/sprite.go:152-173 | a pattern is `1 + ceil(w*h/32)` words, and exactly 2 words when `w*h == 0` |
| Pattern.PatternData | codegen/font/sprite.go:152-173 | the words after the header are the packed stream |
| Pattern.PatternBit | codegen/font/sprite.go:152-173 | stream bit `p` is bit `p` of the data words, counted MSB first |
| Pattern.PatternPixel | codegen/font/sprite.go:154-171 | pixel `(y, x)` is data bit `y*w + (w-1-x)`, counted MSB first from word 1 |
| Pattern.PatternPadding | codegen/font/sprite.go:169-171 | every bit after position `w*h` up to the end of the last word is clear |
| Pattern.BlankPattern | codegen/font/sprite.go:152-173 | a glyph without ink packs to its header followed only by zero words |
| Pattern.EmptyPattern | codegen/font/sprite.go:145-173 | a matrix without pixels packs to `[yOffset, 0]` |
| Pattern.DiagonalPattern | codegen/font/sprite.go:143-174 | `[[1,0],[0,1]]` with yOffset 0 packs to `[0x00020200, 0x60000000]` |
| Utf8.ByteLenAppend | src/fonts.rs:117-118 | the byte length of a concatenation is the sum of the byte lengths |
| Utf8.ByteLenBounds | src/fonts.rs:117-118 | a string has between one and four bytes per scalar |
| Utf8.AsciiByteLen | codegen/main.go:223 | an ASCII string has one byte per scalar |
| Utf8.NonAsciiByteLen | codegen/main.go:223 | a string with a scalar at or above U+0080 has more bytes than scalars |
| Utf8.PrefixByteLenMonotone | src/fonts.rs:118-122 | byte offsets of scalar boundaries grow with the scalar count |
| Murmur3.BlocksAppend | codegen/main.go:213-222 | mixing one more scalar is one more pass of the loop |
| Murmur3.EmptyKey | codegen/main.go:209-230 | `murmur3("", 0) == 0` |
| Murmur3.FinishZero | src/fonts.rs:133-139 | a byte count of zero leaves the state alone, and the hash is the avalanche of the state |
| Codegen.HashKey | codegen/main.go:208-230 | the loop mixes every scalar as one block, then folds in the UTF-8 byte length and avalanches |
| Codegen.IconLabel | codegen/main.go:158-185 | the icon U+E700+i gets the i-th fixed name |
| Codegen.QuotedLabel | codegen/main.go:186-188 | every other cluster is labelled by itself in single quotes |
| Codegen.PatternListFromSpriteSheet | codegen/main.go:107-117 | the pattern list follows the character map in order, one compiled glyph per entry |
| Codegen.BuildStep | codegen/main.go:126-137 | one pass appends the pattern to the buffer, adds its length to `DataLen`, and appends its entry with the old `DataLen` |
| Codegen.DataStep | codegen/main.go:131-136 | one more pattern appends its words to the buffer |
| Codegen.IndexStep | codegen/main.go:131-135 | one more pattern appends its entry, with its hash, cluster and offset, to the index |
| Codegen.BuildIndex | codegen/main.go:124-137 | after the loop the buffer is the patterns concatenated in list order, `DataLen` is its length, and entry `i` holds the running sum of the lengths before pattern `i` |
| Codegen.DataLength | codegen/main.go:126-137 | the buffer of the first `j` patterns is as long as the running sum of their lengths |
| Codegen.DataPrefix | codegen/main.go:126-137 | the buffer of the first `j` patterns is a prefix of the whole buffer |
| Codegen.DataSlices | codegen/main.go:126-137 | pattern `i` sits in the buffer from its offset to the next one, and the total equals `DataLen` |
| Codegen.RustyBlitsFromPatternList | codegen/main.go:124-141 | the buffer is the list's patterns concatenated, and the index is sorted by hash and is a permutation of the unsorted entries |
| Codegen.SortByHash | codegen/main.go:139 | the sort leaves the entries non-decreasing by hash, as a permutation of the input |
| Codegen.InsertStep | codegen/main.go:139 | one insertion extends the sorted prefix by one entry and keeps the multiset |
| Codegen.SwapDown | codegen/main.go:139 | an exchange of two neighbours changes nothing else and keeps the multiset |
| Codegen.SortedHashes | codegen/main.go:338-346 | the `HASHED_CLUSTERS` table of a sorted index is sorted |
| Codegen.BinarySearch | codegen/main.go:332 | on a hit, an index that holds the key; a miss exactly when the key is absent |
| Codegen.FindPattern | codegen/main.go:329-336 | the lookup succeeds exactly when the cluster's hash is in the table, and answers the offset stored beside a matching hash |
| Codegen.GetBlitPatternOffset | codegen/main.go:308-326 | an empty cluster or a first scalar outside the font's ranges gives `GlyphNotFound` without hashing; otherwise the result is `find_pattern`'s |
| Codegen.EntryOrigin | codegen/main.go:139 | every entry of the sorted index is one of the unsorted entries |
| Codegen.LookupFindsEveryCluster | codegen/main.go:124-141 | with distinct hashes, looking up any cluster of the list gives the offset of that cluster's own pattern |
| Codegen.CollisionConfuses | codegen/main.go:139 | no duplicate check is made: when two clusters share a hash, the lookup of one may answer the other's offset |
| Fonts.NewGlyphHeader | src/fonts.rs:43-48 | `w` is bits 16..23, `h` bits 8..15 and `y_offset` bits 0..7 of the header word |
| Fonts.HeaderRoundTrip | src/fonts.rs:43-48 | decoding inverts the compiler's header word when every field is below 256 |
| Fonts.HeaderWidthWraps | src/fonts.rs:43-48 | a width of 256 or more decodes to its low byte |
| Fonts.SpaceHeader | src/fonts.rs:43-48 | `0x0004020e` decodes to (4, 2, 14) |
| Fonts.PatternHeaderDecodes | src/fonts.rs:43-48 | the first word of a packed glyph decodes to its width, height and yOffset when each is below 256 |
| Fonts.DataWords | src/fonts/regular.rs:272-281 | the data words are `ceil(w*h/32)`, and at least one |
| Fonts.PatternDataWords | src/fonts/regular.rs:272-281 | the packer writes exactly `1 + DataWords(w*h)` words, the length the record format reserves |
| Fonts.HashedCount | src/fonts.rs:116-131 | the loop mixes all the scalars, or the first `limit` of them |
| Fonts.Murmur3Limited | src/fonts.rs:112-141 | the loop over `char_indices` with its `break` gives the limited hash and `bytes_hashed` |
| Fonts.BytesHashedBound | src/fonts.rs:117-122 | `bytes_hashed` is at most `key.len()`, and equal to it when the key has at most `limit` scalars |
| Fonts.BytesHashedStops | src/fonts.rs:118-122 | with more than `limit` scalars, `bytes_hashed` is the byte index of scalar number `limit`, strictly inside the key |
| Fonts.LimitZero | src/fonts.rs:117-121 | with `limit` 0 nothing is consumed, and the hash is the avalanche of the seed |
| Fonts.LimitCoversKey | src/fonts.rs:112-141 | when the limit covers the key, the Rust hash equals the Go hash of codegen/main.go:209-230 and the whole key is consumed |
| Fonts.LimitedHashPrefix | src/fonts.rs:118-122 | only the first `limit` scalars matter |
| Charmap.KnownBlocksNonEmpty | codegen/font/charmap.go:22-53 | there are 28 blocks, each with `Low <= High` |
| Charmap.KnownBlocksAscending | codegen/font/charmap.go:22-53 | each block starts above the end of the one before |
| Charmap.KnownBlocksDisjoint | codegen/font/charmap.go:22-53 | no two blocks share a codepoint |
| Charmap.AscendingDisjoint | codegen/font/charmap.go:22-53 | an ascending table is pairwise disjoint |
| Charmap.Block | codegen/font/charmap.go:56-63 | the linear search returns the first block holding `c`, or `None` where the source panics |
| Charmap.FirstBlockSpec | codegen/font/charmap.go:56-63 | the answer is a block holding `c` that no earlier block holds, and the search fails exactly when no block holds `c` |
| Charmap.FirstBlockUnique | codegen/font/charmap.go:56-63 | in a disjoint table the search finds the one block that holds `c` |
| Charmap.GapBetween | codegen/font/charmap.go:56-63 | a codepoint between two neighbouring blocks lies in no block |
| Charmap.GapCodepoint | codegen/font/charmap.go:26-27 | U+1000, between Latin Extended-A and General Punctuation, makes `Block` panic |
| Charmap.Split | codegen/font/charmap.go:77 | `strings.Split` always gives at least one field |
| Charmap.JoinSplit | codegen/font/charmap.go:77 | joining the fields with the separator gives the string back |
| Charmap.SplitNoSeparator | codegen/font/charmap.go:77 | a string without the separator is one field |
| Charmap.SplitFieldsFree | codegen/font/charmap.go:77 | no field holds the separator |
| Charmap.SplitJoin | codegen/font/charmap.go:91 | splitting dash-joined fields gives the fields back |
| Charmap.EightDigitsParse | codegen/font/charmap.go:78 | one to eight hex digits always parse as a `uint32` |
| Charmap.ParseFormatHex | codegen/font/charmap.go:78 | parsing inverts formatting on every `uint32` |
| Charmap.FormatHex | codegen/font/charmap.go:78 | the upper-case numeral has at least one digit, all of them hex |
| Charmap.FormatHexValue | codegen/font/charmap.go:78 | the numeral reads back as the number |
| Charmap.Runes | codegen/font/charmap.go:88-102 | one decoded scalar per field |
| Charmap.GraphemeCluster | codegen/font/charmap.go:87-103 | the loop decodes one scalar per dash-separated field, in order, and fails where a field does not parse |
| Charmap.FirstCodepointLeads | codegen/font/charmap.go:74-103 | when the first codepoint is a scalar it leads the decoded cluster; when the first field fails, so does the cluster |
| Charmap.ClusterOfJoin | codegen/font/charmap.go:74-103 | dash-joined hex fields decode to one scalar per field, and the first codepoint is the first field's value |
| Charmap.WomanSurfing | codegen/font/charmap.go:72-73 | "1f3c4-200d-2640-fe0f" decodes to U+1F3C4 U+200D U+2640 U+FE0F, with first codepoint 0x1F3C4 |
| Charmap.SharedCells | codegen/font/charmap.go:108-121 | " " and U+00A0 both use cell (0, 2), and "-" and U+00AD both use (13, 2) |
| Blocks.BlockForRune | codegen/blocks/charmap.go:29-47 | each subset maps to its block and zero-based offset, inside `[0, n)` for the subset's size; everything else maps to `(Unknown, 0)` |
| Blocks.UnknownIffNoSubset | codegen/blocks/charmap.go:29-47 | `Unknown` exactly when no subset holds the codepoint |
| Blocks.SubsetsDisjoint | codegen/blocks/charmap.go:11-17 | no two subsets overlap |
| Blocks.BlockForRuneInverse | codegen/blocks/charmap.go:29-47 | the codepoint at offset `i` of a subset classifies back as that subset and `i` |
| Blocks.ControlsUnknown | codegen/blocks/charmap.go:44-46 | U+0000..U+001F and U+007F..U+009F classify as `(Unknown, 0)` |
| Blocks.SubsetInKnownBlock | codegen/blocks/charmap.go:11-17 | each subset lies inside its block of the Unicode block table |
| Blocks.KnownBlockIndex | codegen/font/charmap.go:22-53 | each subset names an entry of the Unicode block table |
| Blocks.KnownRunesInBlockTable | codegen/blocks/charmap.go:29-47 | every codepoint with a known subset has a block in the search table |
| Blocks.SysLatinEntriesOk | codegen/blocks/charmap.go:49-283 | the keys of the literal strictly ascend from 0x20, each is known to the classification, and each cell is in the 16 by 16 grid |
| Blocks.SysLatinMapKeys | codegen/blocks/charmap.go:49-283 | no key classifies as unknown, each hex field spells its key, and each cell is in the grid |
| Blocks.SysLatinMapHolds | codegen/blocks/charmap.go:49-283 | every line of the literal is in the map under its key |
| Blocks.SysLatinMapSamples | codegen/blocks/charmap.go:49-283 | 32 maps to (0, 2, "20") and 59136 to (0, 0, "E700") |
| Blocks.MapOfSource | codegen/blocks/charmap.go:49-283 | every key of a map literal comes from one of its lines |
| Blocks.MapOfHolds | codegen/blocks/charmap.go:49-283 | a literal with ascending keys holds each of its lines under its key |
| Blocks.PartsOk | codegen/blocks/charmap.go:49-283 | well-formed consecutive parts make a well-formed literal |
| Blocks.SysLatinListsAgree | codegen/font/charmap.go:105-339 | the font list holds the map literal's hex fields and cells, line for line |
| Blocks.FontListFirstCodepoints | codegen/font/charmap.go:105-339 | each entry's first codepoint is the key of its line, `Block` finds a block for it, and its column is below 16, the `Cols` of codegen/main.go:47-48 |
| Regular.GetGlyphPatternOffset | src/fonts/regular.rs:8-19 | every table index is in bounds and every offset is below 1563, the length of `DATA` |
| Regular.OffsetFollowsBlocks | src/fonts/regular.rs:8-19 | the dispatch takes the entry of the character's block table at its offset from codegen/blocks/charmap.go:29-47, and otherwise U+FFFD's entry |
| Regular.TableIncreasing | src/fonts/regular.rs:21-266 | each block table strictly increases |
| Regular.Table | src/fonts/regular.rs:21-266 | the table of each block has one entry per character of its subset |
| Regular.TableWithin | src/fonts/regular.rs:21-282 | each table's entries lie inside `DATA` |
| Regular.TablesOrdered | src/fonts/regular.rs:21-266 | the records of a block end where those of every later block begin |
| Regular.TablesSpanData | src/fonts/regular.rs:21-282 | the first record is at 0, and the last block's records end at the end of `DATA` |
| Regular.EntriesDistinct | src/fonts/regular.rs:21-266 | distinct table entries are distinct records |
| Regular.GlyphsDistinct | src/fonts/regular.rs:8-19 | distinct characters with a table entry get distinct records |
| Regular.TableEntryReached | src/fonts/regular.rs:8-19 | the character at offset `i` of a subset gets entry `i` of its table |
| Regular.UncoveredShowsReplacement | src/fonts/regular.rs:17 | every character outside the listed ranges gets U+FFFD's record |
| Regular.ControlsShowReplacement | src/fonts/regular.rs:8-266 | C0 controls and U+007F..U+009F get `SPECIALS[0] = 1550` |
| Regular.SpaceRecordFits | src/fonts/regular.rs:283-284 | the space record `0x0004020e` (4x2, 14 down) is as long as its header says, ends where '!' starts, and fits under `MAX_HEIGHT` |
| Regular.ExclamationRecordFits | src/fonts/regular.rs:285-286 | the '!' record decodes to (2, 18, 6) and ends where '"' starts |
| Regular.QuotationRecordFits | src/fonts/regular.rs:287-288 | the '"' record decodes to (6, 4, 6) and ends where '#' starts |
| Regular.NumberSignRecordFits | src/fonts/regular.rs:289-290 | the '#' record `0x000e0a06` (14x10) ends at 13, where '$' starts |
| Regular.DollarRecordFits | src/fonts/regular.rs:291-292 | the '$' record decodes to (10, 22, 4) and ends where '%' starts |
| Regular.RadioRecordsFit | src/fonts/regular.rs:760-774 | the five radio sprites share the header `0x00151107` (21x17, 7 down), and each record ends where the next starts |
| Regular.ReplacementRecordFits | src/fonts/regular.rs:783-786 | the U+FFFD record is the last one and ends at the end of `DATA` |
| Regular.SpaceCellLimits | codegen/font/sprite.go:126-132 | the Regular sheet of codegen/main.go:48 trims the space cell with `[14, 13, 14, 13]` |
| Regular.SpaceCellWindow | codegen/font/sprite.go:30-72 | a blank space cell extracts to a blank 4-by-2 glyph, 14 rows down |
| Regular.SpacePattern | codegen/font/sprite.go:143-174 | a blank 4-by-2 glyph at yOffset 14 packs to the space record of src/fonts/regular.rs:284 |
| Regular.SpaceCellCompiles | codegen/font/sprite.go:30-174 | a blank space cell compiles to the space record of src/fonts/regular.rs:284 |
| Regular.RadioPattern | codegen/font/sprite.go:143-174 | a 21-by-17 glyph at yOffset 7 packs to a pattern with the radio records' header and length |
| Regular.RadioCellCompiles | codegen/font/sprite.go:119-124 | a radio cell whose ink lies within the margins 7, 5, 6, 4 compiles to a pattern with the header and length of src/fonts/regular.rs:761 |
| Small.GetGlyphPatternOffset | src/fonts/small.rs:8-18 | every table index is in bounds and every offset is below 1071, the length of `DATA` |
| Small.OffsetFollowsBlocks | src/fonts/small.rs:8-18 | the dispatch takes the block table's entry at the character's offset, and otherwise U+FFFD's entry |
| Small.TableIncreasing | src/fonts/small.rs:20-248 | each block table strictly increases |
| Small.Table | src/fonts/small.rs:20-248 | the table of each block has one entry per character of its subset |
| Small.TableWithin | src/fonts/small.rs:20-264 | each table's entries lie inside `DATA` |
| Small.TablesOrdered | src/fonts/small.rs:20-248 | the records of a block end where those of every later block begin |
| Small.TablesSpanData | src/fonts/small.rs:20-264 | the first record is at 0, and the last block's records end at the end of `DATA` |
| Small.EntriesDistinct | src/fonts/small.rs:20-248 | distinct table entries are distinct records |
| Small.GlyphsDistinct | src/fonts/small.rs:8-18 | distinct characters with a table entry get distinct records |
| Small.TableEntryReached | src/fonts/small.rs:8-18 | the character at offset `i` of a subset gets entry `i` of its table |
| Small.UncoveredShowsReplacement | src/fonts/small.rs:16 | every character outside the listed ranges gets U+FFFD's record |
| Small.ControlsShowReplacement | src/fonts/small.rs:8-248 | C0 controls and U+007F..U+009F get `SPECIALS[0] = 1058` |
| Small.PrivateUseShowsReplacement | src/fonts/small.rs:10-17 | with no Private Use Area table, U+E700..U+E70C get `SPECIALS[0] = 1058` |
| Small.SpaceRecordFits | src/fonts/small.rs:265-266 | the space record `0x0004020b` (4x2, 11 down) ends where '!' starts and fits under `MAX_HEIGHT = 24` |
| Small.ExclamationRecordFits | src/fonts/small.rs:267-268 | the '!' record `0x00020e06` (2x14, one data word) ends at 4, where '"' starts |
| Small.QuotationRecordFits | src/fonts/small.rs:269-270 | the '"' record decodes to (6, 4, 6) and ends where '#' starts |
| Small.NumberSignRecordFits | src/fonts/small.rs:271-272 | the '#' record decodes to (10, 10, 4) and ends where '$' starts |
| Small.DollarRecordFits | src/fonts/small.rs:273-274 | the '$' record decodes to (10, 18, 4) and ends where '%' starts |
| Small.ReplacementRecordFits | src/fonts/small.rs:680-683 | the U+FFFD record is the last one and ends at the end of `DATA` |
| Small.SpaceCellLimits | codegen/font/sprite.go:126-132 | a Small sheet of size 24 trims the space cell with `[11, 10, 11, 10]` |
| Small.SpaceCellWindow | codegen/font/sprite.go:30-72 | a blank space cell extracts to a blank 4-by-2 glyph, 11 rows down |
| Small.SpacePattern | codegen/font/sprite.go:143-174 | a blank 4-by-2 glyph at yOffset 11 packs to the space record of src/fonts/small.rs:266 |
| Small.SpaceCellCompiles | codegen/font/sprite.go:30-174 | a blank space cell of a size-24 Small sheet compiles to the space record of src/fonts/small.rs:266 |
| Tables.ConcatHasPart | codegen/font/charmap.go:105-339 | every element of a part of a list literal is in the list |
| Tables.ConcatPartOf | codegen/font/charmap.go:105-339 | every element of the list comes from one of its parts |
| Tables.IncreasingOrdered | src/fonts/regular.rs:21-266 | an increasing table is increasing between any two positions |
| Tables.ConcatAppend | codegen/font/charmap.go:105-339 | appending a part appends its elements |
| Tables.IncreasingAppend | src/fonts/regular.rs:21-266 | two increasing tables, the first ending below the second, join increasing |
| Tables.IncreasingWithin | src/fonts/regular.rs:21-266 | an increasing table lies between its first and last element |

## Left out

- Reading and decoding the PNG file (`readPNGFile`, `png.Decode`, `img.At(...).RGBA()`). These are file I/O and library decoding. The image is a parameter: `Max.Y` and a function giving the red sample at `(x, y)`.
- Code generation as text: `codegen()`, `usage()`, `sysLatinData`, the two templates' text, `ConvertPatternToRust`, `RustCodeForClusterHashes`, `RustCodeForOffsets`, `ConvertMatrixToText` and `emojiData`. These are string formatting and file writing. Of the templates, the model keeps the lookup logic, `MAX_HEIGHT` and the `DATA` record format.
- `font.ConvertGlyphToBlitPattern`, and the form of `BlitPattern` with `CS` and `Bytes` fields that codegen/main.go:113 and :127-136 use, are defined outside codegen/font/sprite.go, which declares `BlitPattern` as `[]uint32`. A compiled glyph is a (cluster, words) pair, and compiling one glyph is the `convert` parameter of `Codegen.PatternListFromSpriteSheet`.
- Codegen.SortByHash: `sort.Slice` leaves its algorithm and its stability unspecified. An insertion sort stands in, and only sortedness and the permutation property are stated.
- Codegen.GetBlitPatternOffset: the lookup uses the Go two-argument hash. The Rust runtime hash agrees with it under a covering limit (`Fonts.LimitCoversKey`).
- Malformed UTF-8 cannot occur: strings are sequences of Unicode scalar values, as Go string literals from the map and Rust `&str` are.
- The `chr` field of `CharSpec` in codegen/blocks/charmap.go is a display comment. It is not modelled.
- The `DATA` arrays of src/fonts/regular.rs and src/fonts/small.rs are held as their lengths plus sampled records (the first five characters, the radio sprites, U+FFFD). Checking all 1563 and 1071 words is left out because of its cost.
- Small.SpaceCellLimits: codegen/main.go lists no Small sprite sheet (only Emoji, Bold and Regular). The Small cell lemmas therefore take any sheet named "Small" of size 24 with gutter equal to border.
- Regular.RadioCellCompiles: the radio sprites' pixels are not in the model. It states the header and length of the radio records, not their data words.
- `Font::new`, `GlyphSet`, `emoji_data`, `bold_data` and `regular_data` of src/fonts.rs are function-pointer plumbing over the Bold, Emoji and Regular data modules, which hold no logic to model.
- Murmur3.Hash: the hash's collision resistance and the injectivity of its mixing steps are not stated. Only their value is modelled.
- Matrices.TrimLeadingEmptyRows: the method requires the condition under which line 106 does not index an empty slice. The extraction (`Sprite.TrimEnds`) checks that condition first and reports `TrimPanic` where the source panics.
- Pattern.ConvertMatrixToPattern: ragged matrices, on which the source's loop panics when it reads past a short row, are excluded by `Packable`; extraction never produces them (`Sprite.ExtractPackable`).
- Concurrency, timing and memory layout have no counterpart in this single-threaded code.
