# NFTR font decoder, modelled in Dafny

This project models the decoder that RExt uses for Nintendo DS Nitro Font Resource (NFTR)
files. The decoder has three parts:

- **The pixel engine** (`font/bits_utils.py`). `byte_array_to_bit_array` reads a byte string
  as an MSB-first bitstream and cuts it into `bit_depth`-bit codes. The last code is padded with
  0s on its low side. `bit_depth_scale` widens a code to an 8-bit intensity: depth 2 uses a
  fixed table, and other depths copy each source bit to the top of its own output slice.
  `bit_array_to_byte_array` packs 0/1 bits back into bytes.
- **The glyph tile** (`font/bit_image.py`). `BitImage` unpacks a tile's bytes and keeps the
  first width×height codes, failing when there are fewer. It then scales every code and
  reshapes the list into `width` rows of `height` entries.
- **The chunk decoder** (`font/nftr.py`):
  - The RTFN header fixes the byte order and locates the FNIF font information chunk (1Ch or
    20h bytes).
  - The PLGC glyph chunk follows and holds the tiles.
  - The HDWC width chunk follows, with its records padded to 4 bytes.
  - A chain of PAMC character maps comes last, each of type 0, 1 or 2.
  - `merge_CMAP` folds the maps into one dictionary, character → (map index, tile).
    `find_character_glyph` looks a character up in it.

Modules, one per concern:

| module | file | models |
|---|---|---|
| `Results` | results.dfy | raised exceptions as `Err` values; a run of steps that stops at the first failure |
| `Bytes` | bytes.dfy | `int.from_bytes` in either byte order |
| `FileCursor` | file_cursor.dfy | the open file: a fixed byte string plus a position (`ByteFile`) |
| `BitsUtils` | bits_utils.dfy | font/bits_utils.py |
| `BitImages` | bit_image.dfy | font/bit_image.py |
| `Cmaps` | cmaps.dfy | the `CMAP` class and `merge_CMAP` |
| `Nftr` | nftr.dfy | the `NFTR` class |

Every imperative operation of the source is a method with its loops. Each method is proved
equal to a specification function, such as `ScaleResult`, `Unpacked`, `Packed`, `BitImageOf`,
`CmapAt`, `Merged`, `HeaderAt`, `FontInfoAt`, `GlyphChunkAt`, `WidthChunkAt`, `MapChainFrom`
or `Decode`. The properties the source promises are then proved as lemmas about those
functions.

The `NFTR` object is a class, `Nftr.Font`, with one field per attribute. Its fields also hold
the `chunk_offsets` entries, each `None` until located. Each `get_*` method updates the fields
as the pure step (`HeaderStep` … `MapsStep`) says. A file is read through a `ByteFile`:

- `read(k)` returns the next k bytes, or fewer at the end of the file, and advances;
- `seek` to a negative offset is an error;
- seeking past the end is allowed.

Where the code and its documentation differ, the model keeps the code as written in these
places:

- The next map offset is the next-map field minus 8, as at font/nftr.py:361.
- An unknown encoding byte leaves `encoding` unset (`None`) and is not an error
  (font/nftr.py:205-212).
- The width-chunk size check is the one at font/nftr.py:337-339. It fires only when the glyph
  chunk's size matches the size the width records imply.
- The chain keeps only maps with a nonzero next-map field, so the final map is read but not
  kept (font/nftr.py:360-364).
- A type-1 tile number FFFFh ("no tile") is stored as is (font/nftr.py:51, 82).
- In `get_font_info_chunk` and `get_character_glyph_chunk`, a stored `chunk_offsets` value of 0
  fails the truthiness test of `offset == -1 and chunk_offsets[...]`. The method then seeks to
  -1 and raises (`DefaultOffset`). The width and map steps take the stored value as it is.

The exceptions are the three defects under "## Findings". There the end-to-end model uses the
corrected lines, and separate members model the lines as written.

## Model

| member | source | states |
|---|---|---|
| Results.CollectMeaning | font/nftr.py:288-298 | a run of steps succeeds exactly when every step does, and then holds each step's value in order |
| Results.CollectKeepsError | font/nftr.py:288-298 | once a prefix of the run raises, the whole run raises the same error |
| Results.CollectAppend | font/nftr.py:288-298 | one step more extends the run's values, or ends with the first error |
| Bytes.FromBytesBound | font/nftr.py:124-130 | a decoded k-byte field is below 256^k in either byte order |
| Bytes.LittleIsReversedBig | font/nftr.py:124-130 | little-endian decoding is big-endian decoding of the reversed bytes |
| Bytes.MarkerValues | font/nftr.py:142-148 | FF FE is 0xFEFF little-endian and 0xFFFE big-endian; an empty read decodes as 0 in both orders |
| FileCursor.ReadAt | font/nftr.py:137-166 | `read(k)` returns min(k, bytes left) bytes, and none at or past the end |
| FileCursor.UIntAt | font/nftr.py:124-130 | an integer field of k bytes is below 256^k |
| FileCursor.ByteFile.constructor | font/nftr.py:96 | an open file holds the contents, with the position at 0 |
| FileCursor.ByteFile.Seek | font/nftr.py:134 | a negative offset is an error and leaves the position; any other offset becomes the position |
| FileCursor.ByteFile.Read | font/nftr.py:137 | returns the bytes at the position and moves past exactly those |
| FileCursor.ReadBytesAt | font/nftr.py:290 | a read at a known position returns the bytes there and ends at min(p + k, length) |
| BitsUtils.BitDepthScale | font/bits_utils.py:1-38 | the method, loop included, returns exactly `ScaleResult` |
| BitsUtils.ScaleDepth2 | font/bits_utils.py:18-29 | depth 2 is exactly 0→0, 1→85, 2→170, 3→255; a depth-2 value of 4 or more, and every depth-1 or depth-3 value, fails the assertion |
| BitsUtils.ScaleOkIff | font/bits_utils.py:18-29 | scaling succeeds exactly for a 2-bit value at depth 2, or for a depth that is a positive multiple of 4, not above an output width that is a multiple of 8 |
| BitsUtils.ScaleBitPositions | font/bits_utils.py:31-36 | bit slice·i + j of the result is bit i of the input when j = slice − 1, and 0 otherwise |
| BitsUtils.ScaleBounds | font/bits_utils.py:31-38 | a scaled value fits in `out_bits` bits, and in one byte at depth 2 |
| BitsUtils.ScaleLowBitsOnly | font/bits_utils.py:35-36 | outside depth 2 the result depends only on the `in_bits` low bits of the input |
| BitsUtils.ScaleEightIsIdentity | font/bits_utils.py:31-38 | 8 → 8 scaling is the identity on bytes |
| BitsUtils.ScaleFourToEight | font/bits_utils.py:12-16 | 4 → 8 gives 0b0001→2, 0b0010→8, 0b0100→32, 0b1000→128 and 0b1111→170 |
| BitsUtils.SpreadBits | font/bits_utils.py:35-36 | each bit of the spread value is the input bit that lands there, or 0 |
| BitsUtils.SpreadIdentity | font/bits_utils.py:35-36 | with one-bit slices, every value below 2^n is its own spread |
| BitsUtils.ShrSplit | font/bits_utils.py:36 | shifting `a + (c << m)` right by k ≤ m bits shifts a and c separately |
| BitsUtils.BitSplit | font/bits_utils.py:36 | the bits of `a + (c << m)` are those of a below m and those of c from m on |
| BitsUtils.BitsDetermine | font/bits_utils.py:36 | two numbers below 2^n with the same n low bits are equal |
| BitsUtils.StreamBits | font/bits_utils.py:53-55 | the bitstream has 8 bits per byte, each 0 or 1 |
| BitsUtils.BitsOfBytes | font/bits_utils.py:53-55 | the first loop builds exactly the MSB-first bitstream |
| BitsUtils.CodeAt | font/bits_utils.py:59-67 | one pass of the second loop, padding included, reads the run of bits from i as a big-endian number |
| BitsUtils.ByteArrayToBitArray | font/bits_utils.py:40-70 | a flag other than "big" and a zero depth raise; otherwise the codes are `Unpacked`, ceil(8·\|bytes\| / depth) of them |
| BitsUtils.BytearrayToBitArray | font/bits_utils.py:72-73 | the alias behaves exactly as `byte_array_to_bit_array` |
| BitsUtils.StreamByteTop | font/bits_utils.py:55-67 | the top d bits of a byte of the stream are the byte shifted right by 8 − d |
| BitsUtils.UnpackDepthEight | font/bits_utils.py:40-70 | at depth 8 the codes are the bytes |
| BitsUtils.UnpackDepthOne | font/bits_utils.py:40-70 | at depth 1 code p is bit 7 − p%8 of byte p/8 |
| BitsUtils.UnpackExamples | font/bits_utils.py:44-47 | 0xFE gives [1,1,1,1,1,1,1,0] at depth 1, [3,3,3,2] at depth 2 and [7,7,4] at depth 3 |
| BitsUtils.BitArrayToByteArray | font/bits_utils.py:76-95 | a flag other than "big" raises; otherwise the result is the bit list padded with 0s to a multiple of 8 and packed MSB-first (`Packed`) |
| BitsUtils.BytesArePacked | font/bits_utils.py:89-93 | bytes read one per run of 8 from the padded list are the packed list |
| BitsUtils.BitArrayToByteArrayAsWritten | font/bits_utils.py:88 | as written, every call raises; past the flag check the error is the unbound local `byte_array` |
| BitsUtils.UnpackPackRoundTrip | font/bits_utils.py:40-95 | unpacking at depth 1 and then packing gives the bytes back |
| BitsUtils.PackAsWrittenBreaksRoundTrip | font/bits_utils.py:88 | as written, the round trip fails on the single byte 0xFE, which the intended packing restores |
| BitImages.TileAreaIsProduct | font/bit_image.py:28 | the tile area is width·height |
| BitImages.ArrayTruncate | font/bit_image.py:27-30 | succeeds exactly when there are at least width·height codes, and then returns the first width·height of them; otherwise the assertion fails |
| BitImages.ScaleAllMeaning | font/bit_image.py:22 | the comprehension succeeds exactly when every code scales, and then holds each scaled code in order |
| BitImages.ScaleAllKeepsError | font/bit_image.py:22 | the comprehension raises what its first failing prefix raises |
| BitImages.Reshape | font/bit_image.py:23 | the reshaped grid has `width` rows of `height` entries |
| BitImages.ReshapeAt | font/bit_image.py:23 | row r, column c of the grid is flat element r·height + c |
| BitImages.NewBitImage | font/bit_image.py:9-23 | the constructor on bytes builds or raises exactly `BitImageOf` |
| BitImages.ScaleCodes | font/bit_image.py:22 | the scaling comprehension, one call per code, is `ScaleAll` |
| BitImages.BitImageOkIff | font/bit_image.py:17-23 | a tile is built exactly when the depth is positive, the bytes give at least width·height codes, and every kept code scales |
| BitImages.CodeScales | font/bit_image.py:22 | a code of `bit_depth` bits scales exactly when the depth is 2, 4 or 8 |
| BitImages.UnpackedBounds | font/bits_utils.py:54-68 | there are ceil(8·\|bytes\| / depth) unpacked codes, each below 2^depth |
| BitImages.BitImageFields | font/bit_image.py:14-18 | a built tile keeps `width`, `height`, `bit_depth` and `data_in_bytes` as given, and its grid has `width` rows of `height` |
| BitImages.BitImagePixel | font/bit_image.py:19-23 | grid entry (r, c) is unpacked code r·height + c, scaled to 8 bits |
| BitImages.BitImageGrid | font/bit_image.py:19-23 | a built grid is the reshaped, scaled, truncated codes |
| BitImages.BitImageEntriesAreBytes | font/bit_image.py:23 | every grid entry is below 256, so the `uint8` conversion keeps it |
| BitImages.DepthOneFails | font/bit_image.py:22 | a depth-1 tile with a pixel always raises |
| BitImages.TwoByTwoExample | font/bit_image.py:19-23 | 0xF0 as a 2×2 depth-2 tile is the grid [[255,255],[0,0]] |
| BitImages.TruncationExample | font/bit_image.py:19-30 | FF 00 as a 2×2 depth-2 tile keeps codes 3,3,3,3 of the eight, so every pixel is 255 |
| Cmaps.TileNumsAt | font/nftr.py:48-51 | a type-1 map has n tile numbers; number k is the two-byte field at p + 2k |
| Cmaps.DictAtLastPairWins | font/nftr.py:54-61 | a character given by several pairs maps to the tile of the last of them |
| Cmaps.DictAtKeys | font/nftr.py:54-61 | every key of the dictionary is the character of one of its pairs |
| Cmaps.NextMapField | font/nftr.py:32 | the next-map field is the 4-byte integer at offset + 10h |
| Cmaps.TagIsPamc | font/nftr.py:17 | the four bytes P, A, M, C at p pass the map's tag check |
| Cmaps.CmapAt | font/nftr.py:7-62 | a map is read exactly when the offset is non-negative and the four bytes there are PAMC; a map read is well formed and its tag lies inside the file; a negative offset is a seek error |
| Cmaps.BodyAt | font/nftr.py:45-62 | the body's layout follows the map type, and a type-1 body has last − first + 1 tile numbers (none when that is not positive) |
| Cmaps.ReadCmap | font/nftr.py:7-62 | the constructor reads or raises exactly `CmapAt`, and ends after the header, body and padding |
| Cmaps.ReadBody | font/nftr.py:45-62 | the body reader returns `BodyAt` and ends after the body and its padding |
| Cmaps.ReadUInt | font/nftr.py:65-66 | an integer read returns `UIntAt` and advances k bytes |
| Cmaps.ReadTileNums | font/nftr.py:49-51 | the type-1 loop reads `TileNumsAt` |
| Cmaps.ReadCustomDict | font/nftr.py:57-61 | the type-2 loop builds `DictAt` |
| Cmaps.RangeSet | font/nftr.py:76 | holds exactly the n characters from lo on |
| Cmaps.Assignments | font/nftr.py:74-86 | map i adds exactly the characters it assigns, each mapped to (i, its tile) |
| Cmaps.LastAssigned | font/nftr.py:68-88 | the reference reading: the last map that assigns c and its tile, with no later map assigning c; None when no map does |
| Cmaps.MergedIsLastAssigned | font/nftr.py:68-88 | a character is merged exactly when some map assigns it, and its entry is the last such map's index and tile |
| Cmaps.MergedIndexInRange | font/nftr.py:68-88 | every merged entry names a map of the list that assigns that tile |
| Cmaps.MergeCmaps | font/nftr.py:68-88 | the nested loops build exactly `Merged` |
| Cmaps.MergeOne | font/nftr.py:73-86 | one pass of the outer loop overwrites exactly what map i assigns |
| Cmaps.MergeType0 | font/nftr.py:74-78 | type 0 maps first + k to (i, base + k) |
| Cmaps.MergeType1 | font/nftr.py:79-83 | type 1 maps first + k to (i, tile_nums[k]) |
| Cmaps.MergeType2 | font/nftr.py:84-86 | type 2 maps each dictionary key to (i, its tile) |
| Cmaps.MergeCmapsAsWritten | font/nftr.py:86 | as written, the merge raises exactly when some type-2 map has a pair; otherwise it is `Merged` |
| Cmaps.PairsBreakMerge | font/nftr.py:86 | a type-2 map with pairs 200→3 and 9→1 raises as written, while the intended merge maps 200 to (0, 3) and 9 to (0, 1) |
| Cmaps.Type0Example | font/nftr.py:74-78 | a type-0 map from 20h to 24h with base 10 assigns tiles 10 to 14 and nothing outside its range |
| Cmaps.Type1KeepsNoTileMarker | font/nftr.py:48-83 | a type-1 entry FFFFh is stored as tile 0xFFFF |
| Cmaps.LaterMapOverrides | font/nftr.py:73-86 | a later map overrides an earlier one only on the characters it assigns |
| Nftr.BytesToInt | font/nftr.py:124-130 | the intended reading is below 256^\|bytes\| and is the opposite-order reading of the reversed bytes |
| Nftr.ReversedTwice | font/nftr.py:124-130 | reversing twice gives the bytes back |
| Nftr.BytesToIntAsWritten | font/nftr.py:124-130 | as written, the conversion succeeds exactly for little endian, and then agrees with the intended one |
| Nftr.BigEndianVersionFailsAsWritten | font/nftr.py:124-153 | for every big-endian file the version read raises as written, while the intended read is 256·b6 + b7 |
| Nftr.HeaderAt | font/nftr.py:133-166 | a header is read exactly when the file has 16 bytes, the tag RTFN and marker FF FE or FE FF; FF FE means little endian; the FNIF offset is bytes 12-13 in that order |
| Nftr.DefaultOffset | font/nftr.py:169-172 | a stored offset of 0 sends the seek to −1; every other offset is kept, so the seek is negative exactly when the stored offset is 0 or less |
| Nftr.FontInfoAt | font/nftr.py:169-236 | a chunk is read exactly when the tag is FNIF, the size 1Ch or 20h and the chunk inside the file; the four extra fields are read exactly when the size is 20h |
| Nftr.FontInfoFields | font/nftr.py:185-233 | the fields after the size keep the size, with the extension exactly for 20h |
| Nftr.TileAtBytes | font/nftr.py:289-297 | tile k is the BitImage of the `tile_bytes_size` bytes at p + RunStart(size, k), that is p + k·size |
| Nftr.TileStep | font/nftr.py:290-298 | the tile read after n good tiles either extends them by one or is the error of the whole loop |
| Nftr.TileListAt | font/nftr.py:289-297 | entry k of the tile list is tile k |
| Nftr.TileListPrefix | font/nftr.py:289-297 | a shorter tile list is a prefix of a longer one |
| Nftr.TilesAreCollected | font/nftr.py:289-298 | the tile loop is the run of tile steps that stops at the first error |
| Nftr.TilesAreTileAt | font/nftr.py:289-298 | n tiles are read exactly when none raises, and tile k is then the k-th one read |
| Nftr.TilesGrow | font/nftr.py:289-298 | a tile that builds extends the tiles read so far |
| Nftr.TilesFail | font/nftr.py:289-298 | a tile that raises ends the loop with its error |
| Nftr.TilesKeepError | font/nftr.py:289-298 | once the first n tiles fail, more tiles fail with the same error |
| Nftr.TileErrorEndsGlyphs | font/nftr.py:289-298 | a tile that raises inside the chunk is the error of the whole glyph loop |
| Nftr.GlyphsAt | font/nftr.py:288-298 | a loop that ends reads ceil((size − 10h) / tile_bytes_size) tiles, none when size ≤ 10h |
| Nftr.GlyphsAreTiles | font/nftr.py:288-298 | glyph k is tile k, read after the k tiles before it |
| Nftr.GlyphChunkAt | font/nftr.py:239-300 | a chunk is read only with the tag PLGC at a non-negative offset; a negative offset is a seek error |
| Nftr.GlyphChunkHoldsTiles | font/nftr.py:285-298 | the glyphs are the tiles after the 10h-byte header, as many as the size allows |
| Nftr.WidthPaddingAligns | font/nftr.py:332-333 | the padding is 1 to 4 bytes, ends the records on a 4-byte boundary, and is 4 when they already end on one |
| Nftr.WidthChunkAt | font/nftr.py:303-341 | a chunk is read only with the tag HDWC and first tile 0; a nonzero first tile fails the assertion; a negative offset is a seek error |
| Nftr.ChainIsWellFormed | font/nftr.py:356-364 | every map kept in the chain is well formed and has a nonzero next-map field |
| Nftr.ChainStep | font/nftr.py:358-364 | a chain that is read starts with the map at the offset; a map whose next field is 0 ends the chain and is not kept |
| Nftr.ChainIsLinked | font/nftr.py:356-364 | a chain that is read is linked: each map is read at the previous one's next field minus 8, and the one after the last has next field 0 |
| Nftr.LinkedChainIsRead | font/nftr.py:356-364 | the converse: a linked run of maps at distinct offsets is exactly the chain that is read |
| Nftr.ChainStops | font/nftr.py:358-364 | the walk raises the map's error, ends with no maps at a next field of 0, or diverges on an offset already visited |
| Nftr.ChainContinues | font/nftr.py:358-362 | a map with a non-zero next field at an unvisited offset is kept, and the walk goes on at that field minus 8 |
| Nftr.SelfLinkedMapDiverges | font/nftr.py:358-364 | a map whose next field points back at itself never ends the loop |
| Nftr.MapOffsets | font/nftr.py:356-361 | there is one offset per kept map |
| Nftr.DecodeSteps | font/nftr.py:95-101 | a decoding runs the header, font information, glyph, width and map steps in that order |
| Nftr.DecodeLayout | font/nftr.py:133-341 | the chunks lie end to end: header at 0, font information where the header says (never 0), and each later chunk where the one before it ends |
| Nftr.DecodeHeader | font/nftr.py:133-166 | a decoded font's header is the one at the start of the file |
| Nftr.DecodeFontInfo | font/nftr.py:169-172 | its font information is the chunk at the recorded offset |
| Nftr.DecodeGlyphChunk | font/nftr.py:239-242 | its glyph chunk is the chunk at the recorded offset |
| Nftr.DecodeWidthChunk | font/nftr.py:303-339 | its width chunk is the chunk at the recorded offset, checked against the glyph chunk's size |
| Nftr.DecodeMaps | font/nftr.py:345-364 | its maps are the chain from the recorded first map offset |
| Nftr.DecodeMerges | font/nftr.py:366 | its dictionary is the merge of its maps |
| Nftr.DecodeChain | font/nftr.py:95-101 | the states of a decoding and the chunk each step read, and how each state follows from the one before |
| Nftr.StateChain | font/nftr.py:95-101 | the attribute updates of the five steps, composed |
| Nftr.HeaderStepFacts | font/nftr.py:133-166 | `get_header_chunk` sets exactly the byte order, the header's offset 0, the FNIF offset and the header fields |
| Nftr.FontInfoStepFacts | font/nftr.py:169-236 | `get_font_info_chunk` succeeds only from a positive offset and sets the chunk and the glyph offset where it ends |
| Nftr.GlyphStepFacts | font/nftr.py:239-300 | `get_character_glyph_chunk` succeeds only from a positive offset and sets the chunk and the width offset |
| Nftr.WidthStepFacts | font/nftr.py:303-341 | `get_character_width_chunk` sets the chunk and the first map offset |
| Nftr.MapsStepFacts | font/nftr.py:345-366 | `get_character_map_chunks` sets the maps and their merged dictionary |
| Nftr.ReadGlyphs | font/nftr.py:288-298 | the glyph loop reads exactly `GlyphsAt` |
| Nftr.ReadTile | font/nftr.py:290-298 | one pass reads tile n and extends the tiles, or ends the loop with its error |
| Nftr.ReadTiles | font/nftr.py:288-298 | the loop with a positive tile size reads, or raises as, the first ceil((size − 10h) / tile_bytes_size) tiles |
| Nftr.ReadInt | font/nftr.py:124-130 | an integer read returns `UIntAt` and advances k bytes |
| Nftr.ReadFontInfoFields | font/nftr.py:185-233 | the body of the font information chunk reads `FontInfoFields` and ends at offset + size |
| Nftr.ReadFontInfoDims | font/nftr.py:185-204 | height, width and encoding are the bytes at 9, 0Dh and 0Fh |
| Nftr.ReadFontInfoExtension | font/nftr.py:226-233 | the extra fields are the bytes at 1Ch, 1Dh and 1Eh |
| Nftr.ReadHeader | font/nftr.py:133-166 | reads or raises exactly `HeaderAt`, and a header that is read leaves the cursor at 16 |
| Nftr.ReadFontInfo | font/nftr.py:169-235 | reads or raises exactly `FontInfoAt` and ends at offset + size |
| Nftr.ReadGlyphChunk | font/nftr.py:239-298 | reads or raises exactly `GlyphChunkAt` |
| Nftr.SkipWidthRecords | font/nftr.py:322-335 | skips the records and returns the padding the source computes |
| Nftr.ReadWidthChunk | font/nftr.py:303-339 | reads or raises exactly `WidthChunkAt` |
| Nftr.ReadMapChain | font/nftr.py:355-364 | the `while True` walk reads or raises exactly `MapChainFrom` |
| Nftr.Font.constructor | font/nftr.py:115-122 | a new object is little endian, with no chunk located and nothing read |
| Nftr.Font.GetHeaderChunk | font/nftr.py:133-166 | passes or raises as `HeaderStep`, then holds its state, with the cursor at 16 |
| Nftr.Font.GetFontInfoChunk | font/nftr.py:169-236 | passes or raises as `FontInfoStep`, and then holds its state |
| Nftr.Font.GetCharacterGlyphChunk | font/nftr.py:239-300 | passes or raises as `GlyphStep`, and then holds its state |
| Nftr.Font.GetCharacterWidthChunk | font/nftr.py:303-341 | passes or raises as `WidthStep`, and then holds its state |
| Nftr.Font.GetCharacterMapChunks | font/nftr.py:345-366 | passes or raises as `MapsStep`, and then holds its state |
| Nftr.Font.FindCharacterGlyph | font/nftr.py:368-374 | a found glyph is `chara_glyphs` at the merged tile of a present character; an absent character raises "character not in NFTR" |
| Nftr.Open | font/nftr.py:95-101 | construction succeeds exactly when `Decode` does, with its error or its final state |
| Nftr.FoundGlyphIsLastMapsTile | font/nftr.py:366-374 | in a decoded font a glyph is found exactly when some map assigns the character an existing tile; it is the last such map's tile; an unassigned character raises |

## Left out

- font/char_font.py and font/image_utils.py are not part of this model. They draw TrueType
  glyphs through PIL and re-encode images through numpy.
- `BitImage.show` is left out because it is OpenCV display. The numpy-array branch of
  `BitImage.__init__` (font/bit_image.py:24-25) is left out because it only stores a foreign
  array.
- `Decode`, `HeaderStep`, `MapsStep` and `Open` describe the corrected program of the
  Findings below. As written, `NFTR(...)` raises UnboundLocalError on every big-endian file
  (font/nftr.py:125-128), and TypeError on every file with a type-2 map that holds a pair
  (font/nftr.py:86). The end-to-end model uses the corrected `BytesToInt` and `Merged`
  instead. `BytesToIntAsWritten` and `MergeCmapsAsWritten` model those two lines as written.
- `bit_array_to_bytearray` (font/bits_utils.py:97-103) is left out. It calls itself
  unconditionally and never returns.
- File I/O is replaced by a byte string given as a parameter, and `open` by `Nftr.Open`.
- The "unknown NFTR version" `print` (font/nftr.py:154-155) is left out because it is output
  only. The version is still read and stored.
- Python `Enum` aliasing in `FLAGS` (font/nftr.py:103-113) is not modelled. Byte order and
  encoding are closed datatypes.
- `chunk_offsets` is a class attribute shared by all `NFTR` objects (font/nftr.py:115-121). The
  model gives each object its own entries. An entry is `None` until located. A `get_*` method
  whose offset was never located fails with `NotLocated`, which stands for calling the methods
  out of order.
- The state an object is left in after a method raises is not described. `Open` returns the
  error, as the constructor propagates it.
- The tile rotation value, the width records and the unused FNIF bytes are read past but not
  interpreted. The rotation value is kept as a number.
- Only the default `offset` arguments of the `get_*` methods are modelled, because the
  constructor calls them that way.
- The glyph chunk's `tile_height` attribute overwrites the one a 20h-byte font information
  chunk set, since both are one attribute in the source. The model keeps both values, in
  `FontInfo.extension` and in `GlyphChunk.format`.
- The `CMAP` constructor's "byte order?" branch (font/nftr.py:9-12) cannot occur, because the
  byte order is a closed datatype.
- A glyph loop with tile size 0 and a map chain that returns to a map already kept never end
  in the source. The model returns `Diverges` for both. The map chain remembers visited
  offsets to detect the second case. `MapChainFrom` is therefore exact only for chains that
  end or loop back. A chain that would grow without bound cannot occur, because every kept
  map lies inside the finite file.
- Integers are unbounded, as Python's are; no field overflows.

## Findings

| source | as written | input that shows it | evidently intended | confidence | as-written member | corrected member |
|---|---|---|---|---|---|---|
| font/nftr.py:125-128 | both branches test `BO_LITTLE_ENDIAN`, so for a big-endian file `byte_order_flag` is unbound | any file with tag RTFN and marker FE FF: the version read at 6-7 raises | the second branch tests `BO_BIG_ENDIAN` and reads big endian | not executed | Nftr.BytesToIntAsWritten, Nftr.BigEndianVersionFailsAsWritten | Nftr.BytesToInt |
| font/nftr.py:86 | the type-2 branch reads `cmaps[i][chara]`, subscripting the `CMAP` object | a type-2 map with the pairs 200→3 and 9→1 | `cmaps[i].custom_dict[chara]` | not executed | Cmaps.MergeCmapsAsWritten, Cmaps.PairsBreakMerge | Cmaps.MergeCmaps |
| font/bits_utils.py:88 | `byte_array = byte_array` reads the local before it is assigned | any bit list with flag "big", for example the bits of 0xFE | `byte_array = []` | not executed | BitsUtils.BitArrayToByteArrayAsWritten, BitsUtils.PackAsWrittenBreaksRoundTrip | BitsUtils.BitArrayToByteArray |
