/** The `NFTR` class of font/nftr.py: a Nitro Font Resource read chunk by chunk from an open
    file. The header (RTFN) fixes the byte order and locates the font information chunk
    (FNIF); that one is followed by the glyph chunk (PLGC) holding the tile bitmaps, which is
    followed by the width chunk (HDWC), which is followed by a chain of character maps (PAMC).
    Each `get_*` method records where the next chunk starts. */
module Nftr {
  import opened Results
  import opened Bytes
  import opened FileCursor
  import opened BitsUtils
  import opened BitImages
  import opened Cmaps

  const RTFN: seq<Byte> := [0x52, 0x54, 0x46, 0x4E]
  const FNIF: seq<Byte> := [0x46, 0x4E, 0x49, 0x46]
  const PLGC: seq<Byte> := [0x50, 0x4C, 0x47, 0x43]
  const HDWC: seq<Byte> := [0x48, 0x44, 0x57, 0x43]

  datatype Encoding = Utf8 | Unicode | Sjis | Cp1552

  /** Attributes set by `get_header_chunk`. */
  datatype Header = Header(byteOrder: ByteOrder, version: nat, decompResSize: nat,
                           fontInfoOffset: nat, numOfFollowingChunk: nat)

  /** The three attributes a 20h-byte font information chunk adds. */
  datatype FontInfoExtension = FontInfoExtension(tileHeight: nat, maxWidth: nat, underlineLocation: nat)

  /** Attributes set by `get_font_info_chunk`; `encoding` is left unset (None) for a code
      other than 0..3. */
  datatype FontInfo = FontInfo(fontInfoChunkSize: nat, height: nat, width: nat, encoding: Option<Encoding>,
                               offsetToCharaGlyphChunkP8: nat, offsetToCharaWdithChunkP8: nat,
                               offsetToCharaMapChunkP8: nat, extension: Option<FontInfoExtension>)

  /** How the glyph chunk cuts its data into tiles. */
  datatype TileFormat = TileFormat(tileBytesSize: nat, tileWidth: nat, tileHeight: nat, tileDepth: nat)

  /** Attributes set by `get_character_glyph_chunk`. */
  datatype GlyphChunk = GlyphChunk(charaGlyphChunkSize: nat, format: TileFormat,
                                   charaGlyphUnderlineLocation: nat, maxProportionalWidth: nat,
                                   tileRotation: nat, charaGlyphs: seq<BitImage>)

  /** Attributes set by `get_character_width_chunk`. */
  datatype WidthChunk = WidthChunk(charaWidthChunkSize: nat, charaWidthNumFirstTilex: nat,
                                   charaWidthNumLastTile: nat)

  // ---------------------------------------------------------------------------------------
  // bytes_to_int

  /** `NFTR.bytes_to_int` as intended: the flag follows the byte order the header found. */
  function BytesToInt(order: ByteOrder, bts: seq<Byte>): (r: nat)
    ensures r < Pow256(|bts|)
    ensures r == FromBytes(Reversed(bts), if order == LittleEndian then BigEndian else LittleEndian)
  {
    FromBytesBound(bts, order);
    LittleIsReversedBig(bts);
    BigIsReversedLittle(bts);
    FromBytes(bts, order)
  }

  lemma BigIsReversedLittle(bts: seq<Byte>)
    ensures BigValue(bts) == LittleValue(Reversed(bts))
  {
    LittleIsReversedBig(Reversed(bts));
    ReversedTwice(bts);
  }

  lemma {:induction false} ReversedTwice(bts: seq<Byte>)
    ensures Reversed(Reversed(bts)) == bts
  {
    if bts != [] {
      ReversedTwice(bts[1..]);
      ReversedAppend(Reversed(bts[1..]), [bts[0]]);
      assert Reversed([bts[0]]) == [bts[0]];
      assert [bts[0]] + bts[1..] == bts;
    }
  }

  lemma {:induction false} ReversedAppend(a: seq<Byte>, b: seq<Byte>)
    ensures Reversed(a + b) == Reversed(b) + Reversed(a)
    decreases |a|
  {
    if a == [] {
      assert a + b == b;
    } else {
      ReversedAppend(a[1..], b);
      assert (a + b)[1..] == a[1..] + b;
    }
  }

  /** `NFTR.bytes_to_int` as written: both branches test for little endian, so for a
      big-endian file `byte_order_flag` is never assigned. */
  function BytesToIntAsWritten(order: ByteOrder, bts: seq<Byte>): (r: Result<nat>)
    ensures r.Ok? <==> order == LittleEndian
    ensures r.Ok? ==> r.value == BytesToInt(order, bts)
  {
    if order == LittleEndian then Ok(FromBytes(bts, LittleEndian)) else Err(UnboundLocal("byte_order_flag"))
  }

  /** Every big-endian file fails at its first integer field as written: the version read
      right after the byte order marker raises, while the intended reading decodes it most
      significant byte first. */
  lemma BigEndianVersionFailsAsWritten(data: seq<Byte>)
    requires HeaderAt(data).Ok? && HeaderAt(data).value.byteOrder == BigEndian
    ensures BytesToIntAsWritten(BigEndian, ReadAt(data, 6, 2)) == Err(UnboundLocal("byte_order_flag"))
    ensures HeaderAt(data).value.version == 256 * (data[6] as int) + data[7]
  {
    var v := ReadAt(data, 6, 2);
    assert v == [data[6], data[7]];
    assert v[..1] == [data[6]] && [data[6]][..0] == [];
    assert BigValue([data[6]]) == data[6];
    assert HeaderAt(data).value.version == UIntAt(data, BigEndian, 6, 2) == BigValue(v);
  }

  // ---------------------------------------------------------------------------------------
  // RTFN header

  /** What `get_header_chunk` reads or raises. The byte order marker FF FE means little
      endian, FE FF big endian; the trailing assertion fails on a file shorter than 16 bytes. */
  function HeaderAt(data: seq<Byte>): (r: Result<Header>)
    ensures r.Ok? <==> |data| >= 16 && data[..4] == RTFN
                       && ((data[4] == 0xFF && data[5] == 0xFE) || (data[4] == 0xFE && data[5] == 0xFF))
    ensures r.Ok? ==> (r.value.byteOrder == LittleEndian <==> data[4] == 0xFF)
    ensures r.Ok? ==> r.value.fontInfoOffset == FromBytes(data[12..14], r.value.byteOrder)
  {
    if ReadAt(data, 0, 4) != RTFN then Err(Raised("Not a Nitro Font file"))
    else
      var b1, b2 := ReadAt(data, 4, 1), ReadAt(data, 5, 1);
      if b1 == [0xFF] && b2 == [0xFE] then HeaderFields(data, LittleEndian)
      else if b1 == [0xFE] && b2 == [0xFF] then HeaderFields(data, BigEndian)
      else Err(Raised("No byte order found"))
  }

  function HeaderFields(data: seq<Byte>, order: ByteOrder): Result<Header>
  {
    if |data| < 16 then Err(AssertionFailed("fp.tell() == 16"))
    else Ok(Header(order, UIntAt(data, order, 6, 2), UIntAt(data, order, 8, 4),
                   UIntAt(data, order, 12, 2), UIntAt(data, order, 14, 2)))
  }

  // ---------------------------------------------------------------------------------------
  // FNIF font information

  /** The offset a `get_*` method seeks to by default: a stored offset of 0 is false in
      `offset == -1 and chunk_offsets[...]`, so the method seeks to -1; any other stored value,
      a negative one included, is truthy and is the offset. */
  function DefaultOffset(stored: int): (o: int)
    ensures stored == 0 ==> o == -1
    ensures stored != 0 ==> o == stored
    ensures o < 0 <==> stored <= 0
  {
    if stored != 0 then stored else -1
  }

  function EncodingOf(enc: nat): Option<Encoding>
  {
    if enc == 0 then Some(Utf8)
    else if enc == 1 then Some(Unicode)
    else if enc == 2 then Some(Sjis)
    else if enc == 3 then Some(Cp1552)
    else None
  }

  /** What `get_font_info_chunk` reads or raises at offset o. The chunk is 1Ch or 20h bytes
      long, and the closing assertion fails when the file ends before the chunk does. */
  function FontInfoAt(data: seq<Byte>, order: ByteOrder, o: int): (r: Result<FontInfo>)
    ensures r.Ok? <==> 0 <= o && ReadAt(data, o, 4) == FNIF
                       && UIntAt(data, order, o + 4, 4) in {0x1C, 0x20}
                       && o + UIntAt(data, order, o + 4, 4) <= |data|
    ensures r.Ok? ==> r.value.fontInfoChunkSize in {0x1C, 0x20}
                      && (r.value.extension.Some? <==> r.value.fontInfoChunkSize == 0x20)
    ensures o < 0 ==> r == Err(NegativeSeek(o))
  {
    if o < 0 then Err(NegativeSeek(o))
    else if ReadAt(data, o, 4) != FNIF then Err(Raised("FINF format error"))
    else
      var size := UIntAt(data, order, o + 4, 4);
      if size != 0x1C && size != 0x20 then Err(Raised("unknown font_info_chunk_size"))
      else if o + size > |data| then Err(AssertionFailed("fp.tell() == (offset + self.font_info_chunk_size)"))
      else Ok(FontInfoFields(data, order, o, size))
  }

  /** The fields after the chunk size, for a chunk of `size` bytes at o. */
  function FontInfoFields(data: seq<Byte>, order: ByteOrder, o: nat, size: nat): (fi: FontInfo)
    ensures fi.fontInfoChunkSize == size
    ensures fi.extension.Some? <==> size == 0x20
  {
    var extension :=
      if size == 0x20
      then Some(FontInfoExtension(UIntAt(data, order, o + 28, 1), UIntAt(data, order, o + 29, 1),
                                  UIntAt(data, order, o + 30, 1)))
      else None;
    FontInfo(size, UIntAt(data, order, o + 9, 1), UIntAt(data, order, o + 13, 1),
             EncodingOf(UIntAt(data, order, o + 15, 1)), UIntAt(data, order, o + 16, 4),
             UIntAt(data, order, o + 20, 4), UIntAt(data, order, o + 24, 4), extension)
  }

  // ---------------------------------------------------------------------------------------
  // PLGC glyphs

  /** The BitImage built from the `tile_bytes_size` bytes `fp.read` returns at position q. */
  function TileFrom(data: seq<Byte>, q: nat, fmt: TileFormat): Result<BitImage>
  {
    BitImageOf(ReadAt(data, q, fmt.tileBytesSize), fmt.tileWidth, fmt.tileHeight, fmt.tileDepth)
  }

  lemma TileFromBytes(data: seq<Byte>, q: nat, fmt: TileFormat, image: seq<Byte>)
    requires image == ReadAt(data, q, fmt.tileBytesSize)
    ensures TileFrom(data, q, fmt) == BitImageOf(image, fmt.tileWidth, fmt.tileHeight, fmt.tileDepth)
  {
  }

  /** Tile k of a glyph chunk whose tiles start at p: with k tiles skipped, the next
      `tile_bytes_size` bytes made into a BitImage. */
  function TileAt(data: seq<Byte>, p: nat, fmt: TileFormat, k: nat): Result<BitImage>
    decreases k
  {
    if k == 0 then TileFrom(data, p, fmt)
    else TileAt(data, p + fmt.tileBytesSize, fmt, k - 1)
  }

  /** Where TileAt's recursion ends: p advanced k times by `step`. */
  function TileStart(p: nat, step: nat, k: nat): nat
    decreases k
  {
    if k == 0 then p else TileStart(p + step, step, k - 1)
  }

  lemma {:induction false} TileAtStart(data: seq<Byte>, p: nat, fmt: TileFormat, k: nat)
    ensures TileAt(data, p, fmt, k) == TileFrom(data, TileStart(p, fmt.tileBytesSize, k), fmt)
    decreases k
  {
    if k > 0 {
      TileAtStart(data, p + fmt.tileBytesSize, fmt, k - 1);
    }
  }

  lemma {:induction false} TileStartIsRunStart(p: nat, step: nat, k: nat)
    ensures TileStart(p, step, k) == p + RunStart(step, k)
    decreases k
  {
    if k > 0 {
      TileStartIsRunStart(p + step, step, k - 1);
      RunStartShift(step, k);
    }
  }

  lemma {:induction false} RunStartShift(step: nat, k: nat)
    requires k > 0
    ensures RunStart(step, k) == step + RunStart(step, k - 1)
  {
  }

  /** Tile k is the tile built from the tile_bytes_size bytes at p + k*tile_bytes_size. */
  lemma TileAtBytes(data: seq<Byte>, p: nat, fmt: TileFormat, k: nat)
    ensures TileAt(data, p, fmt, k) == TileFrom(data, p + RunStart(fmt.tileBytesSize, k), fmt)
  {
    TileAtStart(data, p, fmt, k);
    TileStartIsRunStart(p, fmt.tileBytesSize, k);
  }

  /** Tiles 0 to n - 1, each built or raising. */
  function TileList(data: seq<Byte>, p: nat, fmt: TileFormat, n: nat): (ts: seq<Result<BitImage>>)
    ensures |ts| == n
  {
    if n == 0 then [] else TileList(data, p, fmt, n - 1) + [TileAt(data, p, fmt, n - 1)]
  }

  lemma {:induction false} TileListAt(data: seq<Byte>, p: nat, fmt: TileFormat, n: nat, k: nat)
    requires k < n
    ensures TileList(data, p, fmt, n)[k] == TileAt(data, p, fmt, k)
  {
    if k < n - 1 {
      TileListAt(data, p, fmt, n - 1, k);
    }
  }

  lemma {:induction false} TileListPrefix(data: seq<Byte>, p: nat, fmt: TileFormat, n: nat, m: nat)
    requires n <= m
    ensures TileList(data, p, fmt, m)[..n] == TileList(data, p, fmt, n)
    decreases m - n
  {
    if n < m {
      TileListPrefix(data, p, fmt, n, m - 1);
      assert TileList(data, p, fmt, m)[..m - 1] == TileList(data, p, fmt, m - 1);
      assert TileList(data, p, fmt, m)[..n] == TileList(data, p, fmt, m)[..m - 1][..n];
    } else {
      assert TileList(data, p, fmt, m)[..m] == TileList(data, p, fmt, m);
    }
  }

  /** The first n tiles, or the error of the first one that raises. */
  function Tiles(data: seq<Byte>, p: nat, fmt: TileFormat, n: nat): (r: Result<seq<BitImage>>)
    ensures r.Ok? ==> |r.value| == n
  {
    if n == 0 then Ok([])
    else match Tiles(data, p, fmt, n - 1)
      case Err(e) => Err(e)
      case Ok(front) =>
        match TileAt(data, p, fmt, n - 1)
        case Err(e) => Err(e)
        case Ok(t) => Ok(front + [t])
  }

  /** The loop over tiles is the run of tile steps, stopping at the first that raises. */
  lemma {:induction false} TilesAreCollected(data: seq<Byte>, p: nat, fmt: TileFormat, n: nat)
    ensures Tiles(data, p, fmt, n) == Collect(TileList(data, p, fmt, n))
  {
    if n > 0 {
      TilesAreCollected(data, p, fmt, n - 1);
      CollectAppend(TileList(data, p, fmt, n - 1), TileAt(data, p, fmt, n - 1));
    }
  }

  /** The first n tiles are read exactly when none of them raises, and then the k-th is tile k. */
  lemma TilesAreTileAt(data: seq<Byte>, p: nat, fmt: TileFormat, n: nat)
    ensures Tiles(data, p, fmt, n).Ok? <==> forall k :: 0 <= k < n ==> TileAt(data, p, fmt, k).Ok?
    ensures Tiles(data, p, fmt, n).Ok? ==> forall k :: 0 <= k < n ==> TileAt(data, p, fmt, k) == Ok(Tiles(data, p, fmt, n).value[k])
  {
    var ts := TileList(data, p, fmt, n);
    TilesAreCollected(data, p, fmt, n);
    CollectMeaning(ts);
    forall k | 0 <= k < n
      ensures ts[k] == TileAt(data, p, fmt, k)
    {
      TileListAt(data, p, fmt, n, k);
    }
    if Tiles(data, p, fmt, n).Ok? {
      forall k | 0 <= k < n
        ensures TileAt(data, p, fmt, k) == Ok(Tiles(data, p, fmt, n).value[k])
      {
        assert ts[k] == Ok(Collect(ts).value[k]);
      }
    } else {
      var k :| 0 <= k < n && ts[k].Err?;
      assert TileAt(data, p, fmt, k).Err?;
    }
  }

  /** Reading one tile more: the tiles so far, then tile n. */
  lemma TilesGrow(data: seq<Byte>, p: nat, fmt: TileFormat, n: nat, front: seq<BitImage>, t: BitImage)
    requires Tiles(data, p, fmt, n) == Ok(front) && TileAt(data, p, fmt, n) == Ok(t)
    ensures Tiles(data, p, fmt, n + 1) == Ok(front + [t])
  {
  }

  /** A tile that raises after n that do not ends the loop with its error. */
  lemma TilesFail(data: seq<Byte>, p: nat, fmt: TileFormat, n: nat, front: seq<BitImage>)
    requires Tiles(data, p, fmt, n) == Ok(front) && TileAt(data, p, fmt, n).Err?
    ensures Tiles(data, p, fmt, n + 1) == Err(TileAt(data, p, fmt, n).error)
  {
  }

  /** Once the first n tiles fail, so do more tiles, with the same error. */
  lemma TilesKeepError(data: seq<Byte>, p: nat, fmt: TileFormat, n: nat, m: nat)
    requires n <= m && Tiles(data, p, fmt, n).Err?
    ensures Tiles(data, p, fmt, m) == Tiles(data, p, fmt, n)
  {
    TilesAreCollected(data, p, fmt, n);
    TilesAreCollected(data, p, fmt, m);
    TileListPrefix(data, p, fmt, n, m);
    CollectKeepsError(TileList(data, p, fmt, m), n);
  }

  /** A tile that raises inside the chunk is the error of the whole glyph loop. */
  lemma TileErrorEndsGlyphs(data: seq<Byte>, p: nat, size: nat, fmt: TileFormat, n: nat, front: seq<BitImage>)
    requires fmt.tileBytesSize > 0 && 16 + RunStart(fmt.tileBytesSize, n) < size
    requires Tiles(data, p, fmt, n) == Ok(front) && TileAt(data, p, fmt, n).Err?
    ensures Tiles(data, p, fmt, CeilDiv(size - 16, fmt.tileBytesSize)) == Err(TileAt(data, p, fmt, n).error)
  {
    CeilDivAbove(size - 16, fmt.tileBytesSize, n);
    TilesFail(data, p, fmt, n, front);
    TilesKeepError(data, p, fmt, n + 1, CeilDiv(size - 16, fmt.tileBytesSize));
  }

  /** The glyph loop of `get_character_glyph_chunk`: tiles are read while fewer than
      `chara_glyph_chunk_size - 10h` bytes are consumed. With a tile size of 0 the loop never
      ends, unless the first (empty) tile already raises. */
  function GlyphsAt(data: seq<Byte>, p: nat, size: nat, fmt: TileFormat): (r: Result<seq<BitImage>>)
    ensures r.Ok? ==> size <= 16 || fmt.tileBytesSize > 0
    ensures r.Ok? ==> |r.value| == if size <= 16 then 0 else CeilDiv(size - 16, fmt.tileBytesSize)
  {
    if size <= 16 then Ok([])
    else if fmt.tileBytesSize == 0 then
      match BitImageOf([], fmt.tileWidth, fmt.tileHeight, fmt.tileDepth)
      case Err(e) => Err(e)
      case Ok(_) => Err(Diverges("character glyph loop"))
    else Tiles(data, p, fmt, CeilDiv(size - 16, fmt.tileBytesSize))
  }

  /** The glyphs the loop collects are the tiles one after another from p. */
  lemma GlyphsAreTiles(data: seq<Byte>, p: nat, size: nat, fmt: TileFormat)
    requires GlyphsAt(data, p, size, fmt).Ok?
    ensures forall k :: 0 <= k < |GlyphsAt(data, p, size, fmt).value| ==> TileAt(data, p, fmt, k) == Ok(GlyphsAt(data, p, size, fmt).value[k])
  {
    if size > 16 {
      TilesAreTileAt(data, p, fmt, CeilDiv(size - 16, fmt.tileBytesSize));
    }
  }

  /** What `get_character_glyph_chunk` reads or raises at offset g. */
  function GlyphChunkAt(data: seq<Byte>, order: ByteOrder, g: int): (r: Result<GlyphChunk>)
    ensures r.Ok? ==> 0 <= g && ReadAt(data, g, 4) == PLGC
    ensures g < 0 ==> r == Err(NegativeSeek(g))
  {
    if g < 0 then Err(NegativeSeek(g))
    else if ReadAt(data, g, 4) != PLGC then Err(Raised("CGLP format error"))
    else
      var size := UIntAt(data, order, g + 4, 4);
      var fmt := TileFormat(UIntAt(data, order, g + 10, 2), UIntAt(data, order, g + 8, 1),
                            UIntAt(data, order, g + 9, 1), UIntAt(data, order, g + 14, 1));
      match GlyphsAt(data, g + 16, size, fmt)
      case Err(e) => Err(e)
      case Ok(glyphs) =>
        Ok(GlyphChunk(size, fmt, UIntAt(data, order, g + 12, 1), UIntAt(data, order, g + 13, 1),
                      UIntAt(data, order, g + 15, 1), glyphs))
  }

  /** The glyphs of a glyph chunk are the tiles after its 10h-byte header, as many as its
      size gives room for. */
  lemma GlyphChunkHoldsTiles(data: seq<Byte>, order: ByteOrder, g: int)
    requires GlyphChunkAt(data, order, g).Ok?
    ensures var gc := GlyphChunkAt(data, order, g).value;
            GlyphsAt(data, g + 16, gc.charaGlyphChunkSize, gc.format) == Ok(gc.charaGlyphs)
  {
  }

  // ---------------------------------------------------------------------------------------
  // HDWC widths

  /** The padding `get_character_width_chunk` skips after n three-byte width records. */
  function WidthPadding(n: nat): int
  {
    n * 3 / 4 * 4 + 4 - n * 3
  }

  /** The padding is 1 to 4 bytes and ends the records on a 4-byte boundary; it is a whole
      4 bytes when the records already end on one. */
  lemma WidthPaddingAligns(n: nat)
    ensures 1 <= WidthPadding(n) <= 4
    ensures (3 * n + WidthPadding(n)) % 4 == 0
    ensures (3 * n) % 4 == 0 ==> WidthPadding(n) == 4
  {
  }

  /** Where the width records and their padding end, for a chunk at w whose last tile is `last`. */
  function WidthEnd(w: nat, last: nat): int
  {
    w + 16 + (last + 1) * 3 + WidthPadding(last + 1)
  }

  /** What `get_character_width_chunk` reads or raises at offset w, given the size of the glyph
      chunk read before it. The size check fires only when the glyph chunk's size equals the
      size the width records imply and the position after them is not where the width chunk's
      own size says it ends. */
  function WidthChunkAt(data: seq<Byte>, order: ByteOrder, w: int, glyphChunkSize: nat): (r: Result<WidthChunk>)
    ensures r.Ok? ==> 0 <= w && ReadAt(data, w, 4) == HDWC && r.value.charaWidthNumFirstTilex == 0
    ensures 0 <= w && ReadAt(data, w, 4) == HDWC && UIntAt(data, order, w + 8, 2) != 0
            ==> r == Err(AssertionFailed("self.chara_width_num_first_tilex == 0"))
    ensures w < 0 ==> r == Err(NegativeSeek(w))
  {
    if w < 0 then Err(NegativeSeek(w))
    else if ReadAt(data, w, 4) != HDWC then Err(Raised("CWDH format error"))
    else
      var size := UIntAt(data, order, w + 4, 4);
      var first := UIntAt(data, order, w + 8, 2);
      if first != 0 then Err(AssertionFailed("self.chara_width_num_first_tilex == 0"))
      else
        var last := UIntAt(data, order, w + 10, 2);
        if glyphChunkSize == 0x10 + (last + 1) * 3 + WidthPadding(last + 1)
           && Min(WidthEnd(w, last), |data|) != w + size
        then Err(Raised("chunk size error in character wdith chunk"))
        else Ok(WidthChunk(size, first, last))
  }

  // ---------------------------------------------------------------------------------------
  // PAMC chain

  /** The maps `get_character_map_chunks` collects from `offset` on: each map whose
      next-map field is nonzero is kept and the next map is read at that field minus 8; the
      map whose field is 0 ends the chain and is not kept. `visited` holds the offsets of the
      maps kept so far: coming back to one of them means the source loop never ends. */
  function MapChainFrom(data: seq<Byte>, order: ByteOrder, offset: int, visited: set<nat>): (r: Result<seq<Cmap>>)
    requires visited <= RangeSet(0, |data|)
    decreases |RangeSet(0, |data|) - visited|
  {
    match CmapAt(data, order, offset)
    case Err(e) => Err(e)
    case Ok(m) =>
      if m.offsetToNextMapP8 == 0 then Ok([])
      else if offset as nat in visited then Err(Diverges("character map chain"))
      else
        VisitShrinks(RangeSet(0, |data|), visited, offset as nat);
        match MapChainFrom(data, order, m.offsetToNextMapP8 - 8, visited + {offset as nat})
        case Err(e) => Err(e)
        case Ok(rest) => Ok([m] + rest)
  }

  /** The maps `get_character_map_chunks` collects from the first map at `offset`. */
  function MapChain(data: seq<Byte>, order: ByteOrder, offset: int): Result<seq<Cmap>>
  {
    MapChainFrom(data, order, offset, {})
  }

  /** Every map of `maps` is well formed and points on to another map. */
  predicate AllLinkOn(maps: seq<Cmap>)
  {
    forall k :: 0 <= k < |maps| ==> WellFormed(maps[k]) && maps[k].offsetToNextMapP8 != 0
  }

  /** Every map of a chain is well formed and points on to another map. */
  lemma {:induction false} ChainIsWellFormed(data: seq<Byte>, order: ByteOrder, offset: int, visited: set<nat>)
    requires visited <= RangeSet(0, |data|)
    requires MapChainFrom(data, order, offset, visited).Ok?
    ensures AllLinkOn(MapChainFrom(data, order, offset, visited).value)
    decreases |RangeSet(0, |data|) - visited|
  {
    ChainStep(data, order, offset, visited);
    var m := CmapAt(data, order, offset).value;
    if m.offsetToNextMapP8 != 0 {
      var next, seen := m.offsetToNextMapP8 - 8, visited + {offset as nat};
      VisitShrinks(RangeSet(0, |data|), visited, offset as nat);
      ChainIsWellFormed(data, order, next, seen);
      ConsLinksOn(m, MapChainFrom(data, order, next, seen).value);
    }
  }

  lemma ConsLinksOn(m: Cmap, rest: seq<Cmap>)
    requires WellFormed(m) && m.offsetToNextMapP8 != 0 && AllLinkOn(rest)
    ensures AllLinkOn([m] + rest)
  {
    assert forall k :: 1 <= k < |[m] + rest| ==> ([m] + rest)[k] == rest[k - 1];
  }

  /** One step of a chain that is read: the map at `offset`, then the chain from the offset it
      points to, if any. */
  lemma ChainStep(data: seq<Byte>, order: ByteOrder, offset: int, visited: set<nat>)
    requires visited <= RangeSet(0, |data|)
    requires MapChainFrom(data, order, offset, visited).Ok?
    ensures CmapAt(data, order, offset).Ok? && 0 <= offset < |data|
    ensures var m := CmapAt(data, order, offset).value;
            var maps := MapChainFrom(data, order, offset, visited).value;
            if m.offsetToNextMapP8 == 0 then maps == []
            else offset as nat in RangeSet(0, |data|) && offset as nat !in visited
                 && MapChainFrom(data, order, m.offsetToNextMapP8 - 8, visited + {offset as nat}).Ok?
                 && maps == [m] + MapChainFrom(data, order, m.offsetToNextMapP8 - 8, visited + {offset as nat}).value
  {
  }

  /** The chain from o ends there when the map at o raises, when its next-map field is 0
      (the map is not kept), or when the loop comes back to a kept map. */
  lemma ChainStops(data: seq<Byte>, order: ByteOrder, o: int, visited: set<nat>)
    requires visited <= RangeSet(0, |data|)
    ensures CmapAt(data, order, o).Err? ==> MapChainFrom(data, order, o, visited) == Err(CmapAt(data, order, o).error)
    ensures CmapAt(data, order, o).Ok? && CmapAt(data, order, o).value.offsetToNextMapP8 == 0
            ==> MapChainFrom(data, order, o, visited) == Ok([])
    ensures CmapAt(data, order, o).Ok? && CmapAt(data, order, o).value.offsetToNextMapP8 != 0 && o as nat in visited
            ==> MapChainFrom(data, order, o, visited) == Err(Diverges("character map chain"))
  {
  }

  /** Otherwise the chain from o is the map m there, then the chain from where m points. */
  lemma ChainContinues(data: seq<Byte>, order: ByteOrder, o: int, visited: set<nat>, m: Cmap)
    requires visited <= RangeSet(0, |data|)
    requires CmapAt(data, order, o) == Ok(m) && m.offsetToNextMapP8 != 0 && o >= 0 && o as nat !in visited
    ensures visited + {o as nat} <= RangeSet(0, |data|)
    ensures |RangeSet(0, |data|) - (visited + {o as nat})| < |RangeSet(0, |data|) - visited|
    ensures MapChainFrom(data, order, o, visited)
            == Prefixed([m], MapChainFrom(data, order, m.offsetToNextMapP8 - 8, visited + {o as nat}))
  {
    assert o as nat in RangeSet(0, |data|);
    VisitShrinks(RangeSet(0, |data|), visited, o as nat);
  }

  lemma VisitShrinks(all: set<nat>, visited: set<nat>, x: nat)
    requires x in all && x !in visited
    ensures |all - (visited + {x})| < |all - visited|
  {
    assert all - (visited + {x}) == (all - visited) - {x};
  }

  /** The maps read one after another from `offset`: each is the map at its offset, the next
      offset is its next-map field minus 8, and the map after the last has a next-map field
      of 0. */
  predicate LinksTo(data: seq<Byte>, order: ByteOrder, offset: int, maps: seq<Cmap>)
    decreases |maps|
  {
    match CmapAt(data, order, offset)
    case Err(_) => false
    case Ok(m) =>
      if maps == [] then m.offsetToNextMapP8 == 0
      else m == maps[0] && m.offsetToNextMapP8 != 0 && LinksTo(data, order, m.offsetToNextMapP8 - 8, maps[1..])
  }

  /** The offsets the kept maps were read at. */
  function MapOffsets(offset: int, maps: seq<Cmap>): (r: seq<int>)
    ensures |r| == |maps|
    decreases |maps|
  {
    if maps == [] then [] else [offset] + MapOffsets(maps[0].offsetToNextMapP8 - 8, maps[1..])
  }

  /** A chain that is read is linked map to map. */
  lemma {:induction false} ChainIsLinked(data: seq<Byte>, order: ByteOrder, offset: int, visited: set<nat>)
    requires visited <= RangeSet(0, |data|)
    requires MapChainFrom(data, order, offset, visited).Ok?
    ensures LinksTo(data, order, offset, MapChainFrom(data, order, offset, visited).value)
    decreases |RangeSet(0, |data|) - visited|
  {
    ChainStops(data, order, offset, visited);
    var m := CmapAt(data, order, offset).value;
    if m.offsetToNextMapP8 != 0 {
      var next, seen := m.offsetToNextMapP8 - 8, visited + {offset as nat};
      ChainContinues(data, order, offset, visited, m);
      ChainIsLinked(data, order, next, seen);
      LinksCons(data, order, offset, m, MapChainFrom(data, order, next, seen).value);
    }
  }

  /** A map m at offset that points on, followed by a run linked from where it points. */
  lemma LinksCons(data: seq<Byte>, order: ByteOrder, offset: int, m: Cmap, rest: seq<Cmap>)
    requires CmapAt(data, order, offset) == Ok(m) && m.offsetToNextMapP8 != 0
    requires LinksTo(data, order, m.offsetToNextMapP8 - 8, rest)
    ensures LinksTo(data, order, offset, [m] + rest)
  {
    assert ([m] + rest)[1..] == rest;
  }

  /** Conversely, a linked run of maps read at distinct offsets, none visited before, is
      exactly what the loop collects. */
  lemma {:induction false} LinkedChainIsRead(data: seq<Byte>, order: ByteOrder, offset: int, visited: set<nat>, maps: seq<Cmap>)
    requires visited <= RangeSet(0, |data|)
    requires LinksTo(data, order, offset, maps)
    requires Distinct(MapOffsets(offset, maps)) && Avoids(MapOffsets(offset, maps), visited)
    ensures MapChainFrom(data, order, offset, visited) == Ok(maps)
    decreases |maps|
  {
    if maps == [] {
      ChainStops(data, order, offset, visited);
    } else {
      var m := maps[0];
      var next := m.offsetToNextMapP8 - 8;
      assert CmapAt(data, order, offset) == Ok(m);
      TailOffsets(offset, maps, visited);
      ChainContinues(data, order, offset, visited, m);
      LinkedChainIsRead(data, order, next, visited + {offset as nat}, maps[1..]);
      ConsTail(maps);
    }
  }

  /** No offset occurs twice. */
  predicate Distinct(xs: seq<int>)
  {
    forall i, j :: 0 <= i < j < |xs| ==> xs[i] != xs[j]
  }

  /** No offset is in v. */
  predicate Avoids(xs: seq<int>, v: set<nat>)
  {
    forall i :: 0 <= i < |xs| ==> xs[i] !in v
  }

  /** The offsets of the maps after the first are distinct and avoid the first one's. */
  lemma TailOffsets(offset: int, maps: seq<Cmap>, visited: set<nat>)
    requires maps != [] && offset >= 0
    requires Distinct(MapOffsets(offset, maps)) && Avoids(MapOffsets(offset, maps), visited)
    ensures Distinct(MapOffsets(maps[0].offsetToNextMapP8 - 8, maps[1..]))
    ensures Avoids(MapOffsets(maps[0].offsetToNextMapP8 - 8, maps[1..]), visited + {offset as nat})
    ensures offset as nat !in visited
  {
    var offsets := MapOffsets(offset, maps);
    var tail := MapOffsets(maps[0].offsetToNextMapP8 - 8, maps[1..]);
    assert offsets == [offset] + tail;
    assert offsets[0] == offset;
    forall i | 0 <= i < |tail|
      ensures tail[i] !in visited + {offset as nat}
    {
      assert tail[i] == offsets[i + 1] && offsets[0] == offset;
      assert offsets[0] != offsets[i + 1];
    }
    forall i, j | 0 <= i < j < |tail|
      ensures tail[i] != tail[j]
    {
      assert tail[i] == offsets[i + 1] && tail[j] == offsets[j + 1];
    }
  }

  lemma ConsTail<T>(s: seq<T>)
    requires s != []
    ensures [s[0]] + s[1..] == s
  {
  }

  /** A map at offset 0 whose next-map field points back at itself (8): the source loop never
      ends. */
  lemma SelfLinkedMapDiverges()
    ensures var data: seq<Byte> := [0x50, 0x41, 0x4D, 0x43, 20, 0, 0, 0, 0, 0, 0, 0, 3, 0, 0, 0, 8, 0, 0, 0];
            MapChainFrom(data, LittleEndian, 0, {}) == Err(Diverges("character map chain"))
  {
    var data: seq<Byte> := [0x50, 0x41, 0x4D, 0x43, 20, 0, 0, 0, 0, 0, 0, 0, 3, 0, 0, 0, 8, 0, 0, 0];
    SelfLinkedMapRead(data);
    var m := CmapAt(data, LittleEndian, 0).value;
    ChainContinues(data, LittleEndian, 0, {}, m);
    ChainStops(data, LittleEndian, 0, {0});
  }

  /** The file of SelfLinkedMapDiverges holds a map at 0 whose next-map field is 8. */
  lemma SelfLinkedMapRead(data: seq<Byte>)
    requires data == [0x50, 0x41, 0x4D, 0x43, 20, 0, 0, 0, 0, 0, 0, 0, 3, 0, 0, 0, 8, 0, 0, 0]
    ensures CmapAt(data, LittleEndian, 0).Ok?
    ensures CmapAt(data, LittleEndian, 0).value.offsetToNextMapP8 == 8
  {
    TagIsPamc(data, 0);
    SelfLinkedNextField(data);
    NextMapField(data, LittleEndian, 0);
  }

  lemma SelfLinkedNextField(data: seq<Byte>)
    requires data == [0x50, 0x41, 0x4D, 0x43, 20, 0, 0, 0, 0, 0, 0, 0, 3, 0, 0, 0, 8, 0, 0, 0]
    ensures UIntAt(data, LittleEndian, 16, 4) == 8
  {
    var next := ReadAt(data, 16, 4);
    assert next == [8, 0, 0, 0];
    assert next[1..] == [0, 0, 0] && next[1..][1..] == [0, 0] && next[1..][1..][1..] == [0];
    assert LittleValue(next[1..][1..][1..]) == 0 && LittleValue(next[1..][1..]) == 0;
    assert LittleValue(next[1..]) == 0 && LittleValue(next) == 8;
    assert FromBytes(next, LittleEndian) == 8;
  }

  // ---------------------------------------------------------------------------------------
  // The NFTR object

  /** Every attribute of an `NFTR` object, and the `chunk_offsets` entries it has filled in
      (None for `CHUNK_UNFOUND`). */
  datatype FontState = FontState(
    byteOrder: ByteOrder,
    headerOffset: Option<int>,
    fontInfoOffset: Option<int>,
    characterGlyphOffset: Option<int>,
    characterWidthOffset: Option<int>,
    firstCharacterMapOffset: Option<int>,
    header: Option<Header>,
    fontInfo: Option<FontInfo>,
    glyphChunk: Option<GlyphChunk>,
    widthChunk: Option<WidthChunk>,
    charaMaps: Option<seq<Cmap>>,
    mergedCmaps: Option<map<nat, (nat, nat)>>)

  /** A new object: little endian, no chunk located, nothing read. */
  const Unread: FontState := FontState(LittleEndian, None, None, None, None, None, None, None, None, None, None, None)

  /** `get_header_chunk`. */
  function HeaderStep(data: seq<Byte>, s: FontState): Result<FontState>
  {
    match HeaderAt(data)
    case Err(e) => Err(e)
    case Ok(h) => Ok(s.(byteOrder := h.byteOrder, headerOffset := Some(0),
                        fontInfoOffset := Some(h.fontInfoOffset), header := Some(h)))
  }

  /** `get_font_info_chunk`: the glyph chunk starts where the font information chunk ends. */
  function FontInfoStep(data: seq<Byte>, s: FontState): Result<FontState>
  {
    if s.fontInfoOffset.None? then Err(NotLocated("font_info"))
    else
      var o := DefaultOffset(s.fontInfoOffset.value);
      match FontInfoAt(data, s.byteOrder, o)
      case Err(e) => Err(e)
      case Ok(fi) => Ok(s.(fontInfo := Some(fi), characterGlyphOffset := Some(o + fi.fontInfoChunkSize)))
  }

  /** `get_character_glyph_chunk`: the width chunk starts where the glyph chunk's size says. */
  function GlyphStep(data: seq<Byte>, s: FontState): Result<FontState>
  {
    if s.characterGlyphOffset.None? then Err(NotLocated("character_glyph"))
    else
      var g := DefaultOffset(s.characterGlyphOffset.value);
      match GlyphChunkAt(data, s.byteOrder, g)
      case Err(e) => Err(e)
      case Ok(gc) => Ok(s.(glyphChunk := Some(gc), characterWidthOffset := Some(g + gc.charaGlyphChunkSize)))
  }

  /** `get_character_width_chunk`: the first map starts where the width chunk's size says. */
  function WidthStep(data: seq<Byte>, s: FontState): Result<FontState>
  {
    if s.characterWidthOffset.None? then Err(NotLocated("character_width"))
    else if s.glyphChunk.None? then Err(NotLocated("chara_glyph_chunk_size"))
    else
      var w := s.characterWidthOffset.value;
      match WidthChunkAt(data, s.byteOrder, w, s.glyphChunk.value.charaGlyphChunkSize)
      case Err(e) => Err(e)
      case Ok(wc) => Ok(s.(widthChunk := Some(wc), firstCharacterMapOffset := Some(w + wc.charaWidthChunkSize)))
  }

  /** `get_character_map_chunks`: the chain of maps and their merged dictionary. */
  function MapsStep(data: seq<Byte>, s: FontState): Result<FontState>
  {
    if s.firstCharacterMapOffset.None? then Err(NotLocated("first_character_map"))
    else
      match MapChain(data, s.byteOrder, s.firstCharacterMapOffset.value)
      case Err(e) => Err(e)
      case Ok(maps) => Ok(s.(charaMaps := Some(maps), mergedCmaps := Some(Merged(maps))))
  }

  /** `NFTR(file_path)` on a file holding `data`: the five steps in order, stopping at the
      first that raises. */
  function Decode(data: seq<Byte>): Result<FontState>
  {
    match HeaderStep(data, Unread)
    case Err(e) => Err(e)
    case Ok(s1) =>
      match FontInfoStep(data, s1)
      case Err(e) => Err(e)
      case Ok(s2) =>
        match GlyphStep(data, s2)
        case Err(e) => Err(e)
        case Ok(s3) =>
          match WidthStep(data, s3)
          case Err(e) => Err(e)
          case Ok(s4) => MapsStep(data, s4)
  }

  /** The states a decoding passes through: `NFTR(file_path)` is the five steps in order. */
  lemma DecodeSteps(data: seq<Byte>, s: FontState) returns (s1: FontState, s2: FontState, s3: FontState, s4: FontState)
    requires Decode(data) == Ok(s)
    ensures HeaderStep(data, Unread) == Ok(s1) && FontInfoStep(data, s1) == Ok(s2) && GlyphStep(data, s2) == Ok(s3)
    ensures WidthStep(data, s3) == Ok(s4) && MapsStep(data, s4) == Ok(s)
  {
    s1 := HeaderStep(data, Unread).value;
    s2 := FontInfoStep(data, s1).value;
    s3 := GlyphStep(data, s2).value;
    s4 := WidthStep(data, s3).value;
  }

  /** A decoded font's chunks lie end to end: the header names the font information chunk
      and each later chunk starts where the one before it ends. */
  lemma DecodeLayout(data: seq<Byte>, s: FontState)
    requires Decode(data) == Ok(s)
    ensures s.header.Some? && s.fontInfo.Some? && s.glyphChunk.Some? && s.widthChunk.Some? && s.charaMaps.Some?
    ensures s.byteOrder == s.header.value.byteOrder && s.headerOffset == Some(0)
    ensures s.fontInfoOffset == Some(s.header.value.fontInfoOffset) && s.header.value.fontInfoOffset > 0
    ensures s.characterGlyphOffset == Some(s.header.value.fontInfoOffset + s.fontInfo.value.fontInfoChunkSize)
    ensures s.characterWidthOffset == Some(s.characterGlyphOffset.value + s.glyphChunk.value.charaGlyphChunkSize)
    ensures s.firstCharacterMapOffset == Some(s.characterWidthOffset.value + s.widthChunk.value.charaWidthChunkSize)
  {
    var s1, s2, s3, s4, h, fi, gc, wc, maps := DecodeChain(data, s);
  }

  /** The header of a decoded font is the one at the start of the file. */
  lemma DecodeHeader(data: seq<Byte>, s: FontState)
    requires Decode(data) == Ok(s)
    ensures s.header.Some? && HeaderAt(data) == Ok(s.header.value)
  {
    var s1, s2, s3, s4, h, fi, gc, wc, maps := DecodeChain(data, s);
  }

  /** The font information of a decoded font is the chunk at the offset the header gives. */
  lemma DecodeFontInfo(data: seq<Byte>, s: FontState)
    requires Decode(data) == Ok(s)
    ensures s.fontInfoOffset.Some? && s.fontInfo.Some?
    ensures FontInfoAt(data, s.byteOrder, s.fontInfoOffset.value) == Ok(s.fontInfo.value)
  {
    var s1, s2, s3, s4, h, fi, gc, wc, maps := DecodeChain(data, s);
    FontInfoMoves(data, s1.byteOrder, s1.fontInfoOffset.value, fi, s.byteOrder, s.fontInfoOffset.value, s.fontInfo.value);
  }

  /** The glyph chunk of a decoded font is the one where the font information chunk ends. */
  lemma DecodeGlyphChunk(data: seq<Byte>, s: FontState)
    requires Decode(data) == Ok(s)
    ensures s.characterGlyphOffset.Some? && s.glyphChunk.Some?
    ensures GlyphChunkAt(data, s.byteOrder, s.characterGlyphOffset.value) == Ok(s.glyphChunk.value)
  {
    var s1, s2, s3, s4, h, fi, gc, wc, maps := DecodeChain(data, s);
    GlyphChunkMoves(data, s2.byteOrder, s2.characterGlyphOffset.value, gc,
                    s.byteOrder, s.characterGlyphOffset.value, s.glyphChunk.value);
  }

  /** The width chunk of a decoded font is the one where its glyph chunk ends, read with
      that glyph chunk's size. */
  lemma DecodeWidthChunk(data: seq<Byte>, s: FontState)
    requires Decode(data) == Ok(s)
    ensures s.characterWidthOffset.Some? && s.glyphChunk.Some? && s.widthChunk.Some?
    ensures WidthChunkAt(data, s.byteOrder, s.characterWidthOffset.value, s.glyphChunk.value.charaGlyphChunkSize)
            == Ok(s.widthChunk.value)
  {
    var s1, s2, s3, s4, h, fi, gc, wc, maps := DecodeChain(data, s);
    WidthChunkMoves(data, s3.byteOrder, s3.characterWidthOffset.value, s3.glyphChunk.value.charaGlyphChunkSize, wc,
                    s.byteOrder, s.characterWidthOffset.value, s.glyphChunk.value.charaGlyphChunkSize, s.widthChunk.value);
  }

  /** The maps of a decoded font are the chain from where its width chunk ends. */
  lemma DecodeMaps(data: seq<Byte>, s: FontState)
    requires Decode(data) == Ok(s)
    ensures s.firstCharacterMapOffset.Some? && s.charaMaps.Some?
    ensures MapChain(data, s.byteOrder, s.firstCharacterMapOffset.value) == Ok(s.charaMaps.value)
  {
    var s1, s2, s3, s4, h, fi, gc, wc, maps := DecodeChain(data, s);
    MapChainMoves(data, s4.byteOrder, s4.firstCharacterMapOffset.value, maps,
                  s.byteOrder, s.firstCharacterMapOffset.value, s.charaMaps.value);
  }

  /** A decoded font has its maps and glyphs read, and its dictionary is their merge. */
  lemma DecodeMerges(data: seq<Byte>, s: FontState)
    requires Decode(data) == Ok(s)
    ensures s.charaMaps.Some? && s.glyphChunk.Some? && s.mergedCmaps == Some(Merged(s.charaMaps.value))
  {
    var s1, s2, s3, s4, h, fi, gc, wc, maps := DecodeChain(data, s);
  }

  /** The states and chunks of a decoding, and what each step read and set. */
  lemma DecodeChain(data: seq<Byte>, s: FontState)
    returns (s1: FontState, s2: FontState, s3: FontState, s4: FontState,
             h: Header, fi: FontInfo, gc: GlyphChunk, wc: WidthChunk, maps: seq<Cmap>)
    requires Decode(data) == Ok(s)
    ensures HeaderAt(data) == Ok(h)
    ensures s1.fontInfoOffset.Some? && FontInfoAt(data, s1.byteOrder, s1.fontInfoOffset.value) == Ok(fi)
    ensures s2.characterGlyphOffset.Some? && GlyphChunkAt(data, s2.byteOrder, s2.characterGlyphOffset.value) == Ok(gc)
    ensures s3.characterWidthOffset.Some? && s3.glyphChunk.Some?
    ensures WidthChunkAt(data, s3.byteOrder, s3.characterWidthOffset.value, s3.glyphChunk.value.charaGlyphChunkSize) == Ok(wc)
    ensures s4.firstCharacterMapOffset.Some? && MapChain(data, s4.byteOrder, s4.firstCharacterMapOffset.value) == Ok(maps)
    ensures s.header.Some? && s.fontInfo.Some? && s.glyphChunk.Some? && s.widthChunk.Some? && s.charaMaps.Some?
    ensures s.fontInfoOffset.Some? && s.characterGlyphOffset.Some? && s.characterWidthOffset.Some?
    ensures s.firstCharacterMapOffset.Some?
    ensures s.byteOrder == s.header.value.byteOrder && s.headerOffset == Some(0)
    ensures s.fontInfoOffset == Some(s.header.value.fontInfoOffset) && s.header.value.fontInfoOffset > 0
    ensures s.characterGlyphOffset == Some(s.header.value.fontInfoOffset + s.fontInfo.value.fontInfoChunkSize)
    ensures s.characterWidthOffset == Some(s.characterGlyphOffset.value + s.glyphChunk.value.charaGlyphChunkSize)
    ensures s.firstCharacterMapOffset == Some(s.characterWidthOffset.value + s.widthChunk.value.charaWidthChunkSize)
    ensures s.mergedCmaps == Some(Merged(s.charaMaps.value))
    ensures s.header.value == h && s.fontInfo.value == fi && s.glyphChunk.value == gc && s.widthChunk.value == wc
    ensures s.charaMaps.value == maps
    ensures s1.byteOrder == s.byteOrder && s2.byteOrder == s.byteOrder && s3.byteOrder == s.byteOrder
    ensures s4.byteOrder == s.byteOrder
    ensures s1.fontInfoOffset.value == s.fontInfoOffset.value
    ensures s2.characterGlyphOffset.value == s.characterGlyphOffset.value
    ensures s3.characterWidthOffset.value == s.characterWidthOffset.value
    ensures s3.glyphChunk.value.charaGlyphChunkSize == s.glyphChunk.value.charaGlyphChunkSize
    ensures s4.firstCharacterMapOffset.value == s.firstCharacterMapOffset.value
  {
    s1, s2, s3, s4 := DecodeSteps(data, s);
    h := HeaderStepFacts(data, Unread, s1);
    fi := FontInfoStepFacts(data, s1, s2);
    gc := GlyphStepFacts(data, s2, s3);
    wc := WidthStepFacts(data, s3, s4);
    maps := MapsStepFacts(data, s4, s);
    StateChain(s1, s2, s3, s4, s, h, fi, gc, wc, maps);
  }

  /** The record updates of the five steps, composed. */
  lemma StateChain(s1: FontState, s2: FontState, s3: FontState, s4: FontState, s: FontState,
                   h: Header, fi: FontInfo, gc: GlyphChunk, wc: WidthChunk, maps: seq<Cmap>)
    requires s1 == Unread.(byteOrder := h.byteOrder, headerOffset := Some(0), fontInfoOffset := Some(h.fontInfoOffset),
                           header := Some(h))
    requires s1.fontInfoOffset.Some? && s1.fontInfoOffset.value > 0
    requires s2 == s1.(fontInfo := Some(fi), characterGlyphOffset := Some(s1.fontInfoOffset.value + fi.fontInfoChunkSize))
    requires s2.characterGlyphOffset.Some?
    requires s3 == s2.(glyphChunk := Some(gc), characterWidthOffset := Some(s2.characterGlyphOffset.value + gc.charaGlyphChunkSize))
    requires s3.characterWidthOffset.Some?
    requires s4 == s3.(widthChunk := Some(wc), firstCharacterMapOffset := Some(s3.characterWidthOffset.value + wc.charaWidthChunkSize))
    requires s4.firstCharacterMapOffset.Some?
    requires s == s4.(charaMaps := Some(maps), mergedCmaps := Some(Merged(maps)))
    ensures s.header.Some? && s.fontInfo.Some? && s.glyphChunk.Some? && s.widthChunk.Some? && s.charaMaps.Some?
    ensures s.fontInfoOffset.Some? && s.characterGlyphOffset.Some? && s.characterWidthOffset.Some?
    ensures s.firstCharacterMapOffset.Some?
    ensures s.byteOrder == s.header.value.byteOrder && s.headerOffset == Some(0)
    ensures s.fontInfoOffset == Some(s.header.value.fontInfoOffset) && s.header.value.fontInfoOffset > 0
    ensures s.characterGlyphOffset == Some(s.header.value.fontInfoOffset + s.fontInfo.value.fontInfoChunkSize)
    ensures s.characterWidthOffset == Some(s.characterGlyphOffset.value + s.glyphChunk.value.charaGlyphChunkSize)
    ensures s.firstCharacterMapOffset == Some(s.characterWidthOffset.value + s.widthChunk.value.charaWidthChunkSize)
    ensures s.mergedCmaps == Some(Merged(s.charaMaps.value))
    ensures s.header.value == h && s.fontInfo.value == fi && s.glyphChunk.value == gc && s.widthChunk.value == wc
    ensures s.charaMaps.value == maps
    ensures s1.byteOrder == s.byteOrder && s2.byteOrder == s.byteOrder && s3.byteOrder == s.byteOrder
    ensures s4.byteOrder == s.byteOrder
    ensures s1.fontInfoOffset.value == s.fontInfoOffset.value
    ensures s2.characterGlyphOffset.value == s.characterGlyphOffset.value
    ensures s3.glyphChunk.Some?
    ensures s3.characterWidthOffset.value == s.characterWidthOffset.value
    ensures s3.glyphChunk.value.charaGlyphChunkSize == s.glyphChunk.value.charaGlyphChunkSize
    ensures s4.firstCharacterMapOffset.value == s.firstCharacterMapOffset.value
  {
  }

  // A chunk read at equal places with equal arguments is the same chunk. These lemmas state
  // nothing about the source: they only keep that rewriting step apart from the reasoning
  // about the rest of the file, which keeps the proofs below cheap for the solver.

  lemma FontInfoMoves(data: seq<Byte>, o1: ByteOrder, p1: int, v1: FontInfo, o2: ByteOrder, p2: int, v2: FontInfo)
    requires o1 == o2 && p1 == p2 && v1 == v2 && FontInfoAt(data, o1, p1) == Ok(v1)
    ensures FontInfoAt(data, o2, p2) == Ok(v2)
  {
  }

  lemma GlyphChunkMoves(data: seq<Byte>, o1: ByteOrder, p1: int, v1: GlyphChunk, o2: ByteOrder, p2: int, v2: GlyphChunk)
    requires o1 == o2 && p1 == p2 && v1 == v2 && GlyphChunkAt(data, o1, p1) == Ok(v1)
    ensures GlyphChunkAt(data, o2, p2) == Ok(v2)
  {
  }

  lemma WidthChunkMoves(data: seq<Byte>, o1: ByteOrder, p1: int, n1: nat, v1: WidthChunk,
                        o2: ByteOrder, p2: int, n2: nat, v2: WidthChunk)
    requires o1 == o2 && p1 == p2 && n1 == n2 && v1 == v2 && WidthChunkAt(data, o1, p1, n1) == Ok(v1)
    ensures WidthChunkAt(data, o2, p2, n2) == Ok(v2)
  {
  }

  lemma MapChainMoves(data: seq<Byte>, o1: ByteOrder, p1: int, v1: seq<Cmap>, o2: ByteOrder, p2: int, v2: seq<Cmap>)
    requires o1 == o2 && p1 == p2 && v1 == v2 && MapChain(data, o1, p1) == Ok(v1)
    ensures MapChain(data, o2, p2) == Ok(v2)
  {
  }

  /** What a successful `get_header_chunk` read and set. */
  lemma HeaderStepFacts(data: seq<Byte>, s: FontState, t: FontState) returns (h: Header)
    requires HeaderStep(data, s) == Ok(t)
    ensures HeaderAt(data) == Ok(h)
    ensures t == s.(byteOrder := h.byteOrder, headerOffset := Some(0), fontInfoOffset := Some(h.fontInfoOffset),
                    header := Some(h))
  {
    h := HeaderAt(data).value;
  }

  /** What a successful `get_font_info_chunk` read and set: a stored offset of 0 would have
      sent it to -1, where no chunk can be read. */
  lemma FontInfoStepFacts(data: seq<Byte>, s: FontState, t: FontState) returns (fi: FontInfo)
    requires FontInfoStep(data, s) == Ok(t)
    ensures s.fontInfoOffset.Some? && s.fontInfoOffset.value > 0
    ensures FontInfoAt(data, s.byteOrder, s.fontInfoOffset.value) == Ok(fi)
    ensures t == s.(fontInfo := Some(fi), characterGlyphOffset := Some(s.fontInfoOffset.value + fi.fontInfoChunkSize))
  {
    fi := FontInfoAt(data, s.byteOrder, DefaultOffset(s.fontInfoOffset.value)).value;
  }

  /** What a successful `get_character_glyph_chunk` read and set. */
  lemma GlyphStepFacts(data: seq<Byte>, s: FontState, t: FontState) returns (gc: GlyphChunk)
    requires GlyphStep(data, s) == Ok(t)
    ensures s.characterGlyphOffset.Some? && s.characterGlyphOffset.value > 0
    ensures GlyphChunkAt(data, s.byteOrder, s.characterGlyphOffset.value) == Ok(gc)
    ensures t == s.(glyphChunk := Some(gc), characterWidthOffset := Some(s.characterGlyphOffset.value + gc.charaGlyphChunkSize))
  {
    gc := GlyphChunkAt(data, s.byteOrder, DefaultOffset(s.characterGlyphOffset.value)).value;
  }

  /** What a successful `get_character_width_chunk` read and set. */
  lemma WidthStepFacts(data: seq<Byte>, s: FontState, t: FontState) returns (wc: WidthChunk)
    requires WidthStep(data, s) == Ok(t)
    ensures s.characterWidthOffset.Some? && s.glyphChunk.Some?
    ensures WidthChunkAt(data, s.byteOrder, s.characterWidthOffset.value, s.glyphChunk.value.charaGlyphChunkSize) == Ok(wc)
    ensures t == s.(widthChunk := Some(wc), firstCharacterMapOffset := Some(s.characterWidthOffset.value + wc.charaWidthChunkSize))
  {
    wc := WidthChunkAt(data, s.byteOrder, s.characterWidthOffset.value, s.glyphChunk.value.charaGlyphChunkSize).value;
  }

  /** What a successful `get_character_map_chunks` read and set. */
  lemma MapsStepFacts(data: seq<Byte>, s: FontState, t: FontState) returns (maps: seq<Cmap>)
    requires MapsStep(data, s) == Ok(t)
    ensures s.firstCharacterMapOffset.Some?
    ensures MapChain(data, s.byteOrder, s.firstCharacterMapOffset.value) == Ok(maps)
    ensures t == s.(charaMaps := Some(maps), mergedCmaps := Some(Merged(maps)))
  {
    maps := MapChain(data, s.byteOrder, s.firstCharacterMapOffset.value).value;
  }

  // ---------------------------------------------------------------------------------------
  // The NFTR class

  /** A `get_*` method's outcome reports the step's result: it passes exactly when the step
      succeeds, and otherwise fails with the step's error. */
  predicate Reports(o: Outcome, r: Result<FontState>)
  {
    match r
    case Ok(_) => o == Pass
    case Err(e) => o == Fail(e)
  }

  /** `chara_maps` followed by the rest of a chain still to be read. */
  function Prefixed(front: seq<Cmap>, rest: Result<seq<Cmap>>): Result<seq<Cmap>>
  {
    match rest
    case Err(e) => Err(e)
    case Ok(maps) => Ok(front + maps)
  }

  /** The glyph loop of `get_character_glyph_chunk`, with the position just after the
      chunk's 10h-byte header at g + 10h. */
  method ReadGlyphs(fp: ByteFile, g: nat, size: nat, fmt: TileFormat) returns (r: Result<seq<BitImage>>)
    requires fp.pos == Min(g + 16, |fp.data|)
    modifies fp
    ensures r == GlyphsAt(fp.data, g + 16, size, fmt)
  {
    var curOffset: nat := 0x10;
    if fmt.tileBytesSize == 0 {
      if curOffset < size {
        var data := fp.Read(fmt.tileBytesSize);
        var glyph := NewBitImage(data, fmt.tileWidth, fmt.tileHeight, fmt.tileDepth);
        if glyph.Err? {
          return Err(glyph.error);
        }
        return Err(Diverges("character glyph loop"));
      }
      return Ok([]);
    }
    if size <= 16 {
      return Ok([]);
    }
    r := ReadTiles(fp, g, size, fmt);
  }

  /** One pass of the glyph loop: tile n, read where the n tiles before it end. */
  method ReadTile(fp: ByteFile, g: nat, cur: nat, size: nat, fmt: TileFormat, ghost n: nat, ghost front: seq<BitImage>)
    returns (glyph: Result<BitImage>)
    requires fp.pos == Min(g + cur, |fp.data|)
    requires cur == 16 + RunStart(fmt.tileBytesSize, n)
    requires fmt.tileBytesSize > 0 && cur < size
    requires Tiles(fp.data, g + 16, fmt, n) == Ok(front)
    modifies fp
    ensures glyph.Ok? ==> Tiles(fp.data, g + 16, fmt, n + 1) == Ok(front + [glyph.value])
    ensures glyph.Err? ==> Tiles(fp.data, g + 16, fmt, CeilDiv(size - 16, fmt.tileBytesSize)) == Err(glyph.error)
    ensures fp.pos == Min(g + cur + fmt.tileBytesSize, |fp.data|)
    ensures cur + fmt.tileBytesSize == 16 + RunStart(fmt.tileBytesSize, n + 1)
  {
    var data := ReadBytesAt(fp, g + cur, fmt.tileBytesSize);
    glyph := NewBitImage(data, fmt.tileWidth, fmt.tileHeight, fmt.tileDepth);
    TileFromBytes(fp.data, g + 16 + RunStart(fmt.tileBytesSize, n), fmt, data);
    RunStartShift(fmt.tileBytesSize, n + 1);
    TileStep(fp.data, g + 16, size, fmt, n, front, glyph);
  }

  /** Tile n, read after n tiles that did not raise, either extends them or ends the loop. */
  lemma TileStep(data: seq<Byte>, p: nat, size: nat, fmt: TileFormat, n: nat, front: seq<BitImage>, glyph: Result<BitImage>)
    requires fmt.tileBytesSize > 0 && 16 + RunStart(fmt.tileBytesSize, n) < size
    requires Tiles(data, p, fmt, n) == Ok(front)
    requires glyph == TileFrom(data, p + RunStart(fmt.tileBytesSize, n), fmt)
    ensures glyph.Ok? ==> Tiles(data, p, fmt, n + 1) == Ok(front + [glyph.value])
    ensures glyph.Err? ==> Tiles(data, p, fmt, CeilDiv(size - 16, fmt.tileBytesSize)) == Err(glyph.error)
  {
    TileAtBytes(data, p, fmt, n);
    if glyph.Ok? {
      TilesGrow(data, p, fmt, n, front, glyph.value);
    } else {
      TileErrorEndsGlyphs(data, p, size, fmt, n, front);
    }
  }

  /** The glyph loop for a positive tile size: CeilDiv(size - 10h, tile_bytes_size) tiles. */
  method ReadTiles(fp: ByteFile, g: nat, size: nat, fmt: TileFormat) returns (r: Result<seq<BitImage>>)
    requires fp.pos == Min(g + 16, |fp.data|)
    requires fmt.tileBytesSize > 0 && size > 16
    modifies fp
    ensures r == Tiles(fp.data, g + 16, fmt, CeilDiv(size - 16, fmt.tileBytesSize))
  {
    var charaGlyphs: seq<BitImage> := [];
    var curOffset: nat := 0x10;
    var n: nat := 0;
    while curOffset < size
      invariant curOffset == 16 + RunStart(fmt.tileBytesSize, n)
      invariant n > 0 ==> 16 + RunStart(fmt.tileBytesSize, n - 1) < size
      invariant Tiles(fp.data, g + 16, fmt, n) == Ok(charaGlyphs)
      invariant fp.pos == Min(g + curOffset, |fp.data|)
      decreases size - curOffset
    {
      var glyph := ReadTile(fp, g, curOffset, size, fmt, n, charaGlyphs);
      if glyph.Err? {
        return Err(glyph.error);
      }
      charaGlyphs := charaGlyphs + [glyph.value];
      curOffset := curOffset + fmt.tileBytesSize;
      n := n + 1;
    }
    CeilDivUnique(size - 16, fmt.tileBytesSize, n);
    return Ok(charaGlyphs);
  }

  /** `self.bytes_to_int(fp.read(k))` with the position at p. */
  method ReadInt(fp: ByteFile, order: ByteOrder, p: nat, k: nat) returns (v: nat)
    requires fp.pos == Min(p, |fp.data|)
    modifies fp
    ensures v == UIntAt(fp.data, order, p, k)
    ensures fp.pos == Min(p + k, |fp.data|)
  {
    var bts := fp.Read(k);
    v := BytesToInt(order, bts);
  }

  /** The body of `get_font_info_chunk` after the chunk size, which is 1Ch or 20h. */
  method ReadFontInfoFields(fp: ByteFile, order: ByteOrder, offset: nat, size: nat) returns (fi: FontInfo)
    requires fp.pos == Min(offset + 8, |fp.data|)
    requires size == 0x1C || size == 0x20
    modifies fp
    ensures fi == FontInfoFields(fp.data, order, offset, size)
    ensures fp.pos == Min(offset + size, |fp.data|)
  {
    var height, width, enc := ReadFontInfoDims(fp, order, offset);
    var encoding := EncodingOf(enc);
    var glyphP8 := ReadInt(fp, order, offset + 16, 4);
    var widthP8 := ReadInt(fp, order, offset + 20, 4);
    var mapP8 := ReadInt(fp, order, offset + 24, 4);
    var extension := None;
    if size == 0x20 {
      extension := ReadFontInfoExtension(fp, order, offset);
    }
    fi := FontInfo(size, height, width, encoding, glyphP8, widthP8, mapP8, extension);
  }

  /** Bytes 8 to 0Fh of FINF: the height at 9, the width at 0Dh and the encoding byte at 0Fh,
      the bytes between them skipped. */
  method ReadFontInfoDims(fp: ByteFile, order: ByteOrder, offset: nat) returns (height: nat, width: nat, enc: nat)
    requires fp.pos == Min(offset + 8, |fp.data|)
    modifies fp
    ensures height == UIntAt(fp.data, order, offset + 9, 1)
    ensures width == UIntAt(fp.data, order, offset + 13, 1)
    ensures enc == UIntAt(fp.data, order, offset + 15, 1)
    ensures fp.pos == Min(offset + 16, |fp.data|)
  {
    var unused := ReadBytesAt(fp, offset + 8, 1);
    height := ReadInt(fp, order, offset + 9, 1);
    unused := ReadBytesAt(fp, offset + 10, 1);
    unused := ReadBytesAt(fp, offset + 11, 2);
    width := ReadInt(fp, order, offset + 13, 1);
    unused := ReadBytesAt(fp, offset + 14, 1);
    enc := ReadInt(fp, order, offset + 15, 1);
  }

  /** Bytes 1Ch to 1Fh of a 20h-byte FINF: tile height, maximum width and underline location,
      then one byte that is read and dropped. */
  method ReadFontInfoExtension(fp: ByteFile, order: ByteOrder, offset: nat) returns (ext: Option<FontInfoExtension>)
    requires fp.pos == Min(offset + 28, |fp.data|)
    modifies fp
    ensures ext == Some(FontInfoExtension(UIntAt(fp.data, order, offset + 28, 1), UIntAt(fp.data, order, offset + 29, 1),
                                          UIntAt(fp.data, order, offset + 30, 1)))
    ensures fp.pos == Min(offset + 32, |fp.data|)
  {
    var tileHeight := ReadInt(fp, order, offset + 28, 1);
    var maxWidth := ReadInt(fp, order, offset + 29, 1);
    var underlineLocation := ReadInt(fp, order, offset + 30, 1);
    var temp := ReadInt(fp, order, offset + 31, 1);
    ext := Some(FontInfoExtension(tileHeight, maxWidth, underlineLocation));
  }

  /** `get_header_chunk` up to the attribute updates: what it reads at the start of the file. */
  method ReadHeader(fp: ByteFile) returns (r: Result<Header>)
    modifies fp
    ensures r == HeaderAt(fp.data)
    ensures r.Ok? ==> fp.pos == 16
  {
    var _ := fp.Seek(0);
    var tag := fp.Read(4);
    if tag != RTFN {
      return Err(Raised("Not a Nitro Font file"));
    }
    var boB1 := fp.Read(1);
    var boB2 := fp.Read(1);
    var order;
    if boB1 == [0xFF] && boB2 == [0xFE] {
      order := LittleEndian;
    } else if boB1 == [0xFE] && boB2 == [0xFF] {
      order := BigEndian;
    } else {
      return Err(Raised("No byte order found"));
    }
    var version := ReadInt(fp, order, 6, 2);
    var decompResSize := ReadInt(fp, order, 8, 4);
    var fontInfoAt := ReadInt(fp, order, 12, 2);
    var numOfFollowingChunk := ReadInt(fp, order, 14, 2);
    if fp.Tell() != 16 {
      return Err(AssertionFailed("fp.tell() == 16"));
    }
    return Ok(Header(order, version, decompResSize, fontInfoAt, numOfFollowingChunk));
  }

  /** `get_font_info_chunk` up to the attribute updates, at offset o. */
  method ReadFontInfo(fp: ByteFile, order: ByteOrder, o: int) returns (r: Result<FontInfo>)
    modifies fp
    ensures r == FontInfoAt(fp.data, order, o)
    ensures r.Ok? ==> fp.pos == o + r.value.fontInfoChunkSize
  {
    var sought := fp.Seek(o);
    if sought.Fail? {
      return Err(sought.error);
    }
    var tag := fp.Read(4);
    if tag != FNIF {
      return Err(Raised("FINF format error"));
    }
    var size := ReadInt(fp, order, o + 4, 4);
    if size != 0x1C && size != 0x20 {
      return Err(Raised("unknown font_info_chunk_size"));
    }
    var fields := ReadFontInfoFields(fp, order, o, size);
    if fp.Tell() != o + size {
      return Err(AssertionFailed("fp.tell() == (offset + self.font_info_chunk_size)"));
    }
    return Ok(fields);
  }

  /** `get_character_glyph_chunk` up to the attribute updates, at offset g. */
  method ReadGlyphChunk(fp: ByteFile, order: ByteOrder, g: int) returns (r: Result<GlyphChunk>)
    modifies fp
    ensures r == GlyphChunkAt(fp.data, order, g)
  {
    var sought := fp.Seek(g);
    if sought.Fail? {
      return Err(sought.error);
    }
    var tag := fp.Read(4);
    if tag != PLGC {
      return Err(Raised("CGLP format error"));
    }
    var size := ReadInt(fp, order, g + 4, 4);
    var tileWidth := ReadInt(fp, order, g + 8, 1);
    var tileHeight := ReadInt(fp, order, g + 9, 1);
    var tileBytesSize := ReadInt(fp, order, g + 10, 2);
    var underlineLocation := ReadInt(fp, order, g + 12, 1);
    var maxProportionalWidth := ReadInt(fp, order, g + 13, 1);
    var tileDepth := ReadInt(fp, order, g + 14, 1);
    var tileRotation := ReadInt(fp, order, g + 15, 1);
    var fmt := TileFormat(tileBytesSize, tileWidth, tileHeight, tileDepth);
    var charaGlyphs := ReadGlyphs(fp, g, size, fmt);
    if charaGlyphs.Err? {
      return Err(charaGlyphs.error);
    }
    return Ok(GlyphChunk(size, fmt, underlineLocation, maxProportionalWidth, tileRotation, charaGlyphs.value));
  }

  /** The rest of a width chunk's header, its width records, read one byte at a time, and
      the padding after them. */
  method SkipWidthRecords(fp: ByteFile, w: nat, last: nat) returns (paddings: int)
    requires fp.pos == Min(w + 12, |fp.data|)
    modifies fp
    ensures paddings == WidthPadding(last + 1)
    ensures fp.pos == Min(WidthEnd(w, last), |fp.data|)
  {
    var _ := ReadBytesAt(fp, w + 12, 4);
    for idx := 0 to last + 1
      invariant fp.pos == Min(w + 16 + idx * 3, |fp.data|)
    {
      var _ := ReadBytesAt(fp, w + 16 + idx * 3, 1);
      var _ := ReadBytesAt(fp, w + 16 + idx * 3 + 1, 1);
      var _ := ReadBytesAt(fp, w + 16 + idx * 3 + 2, 1);
    }
    WidthPaddingAligns(last + 1);
    paddings := WidthPadding(last + 1);
    var _ := ReadBytesAt(fp, w + 16 + (last + 1) * 3, paddings);
  }

  /** `get_character_width_chunk` up to the attribute updates, at offset w. */
  method ReadWidthChunk(fp: ByteFile, order: ByteOrder, w: int, glyphChunkSize: nat) returns (r: Result<WidthChunk>)
    modifies fp
    ensures r == WidthChunkAt(fp.data, order, w, glyphChunkSize)
  {
    var sought := fp.Seek(w);
    if sought.Fail? {
      return Err(sought.error);
    }
    var tag := fp.Read(4);
    if tag != HDWC {
      return Err(Raised("CWDH format error"));
    }
    var size := ReadInt(fp, order, w + 4, 4);
    var first := ReadInt(fp, order, w + 8, 2);
    if first != 0 {
      return Err(AssertionFailed("self.chara_width_num_first_tilex == 0"));
    }
    var last := ReadInt(fp, order, w + 10, 2);
    var paddings := SkipWidthRecords(fp, w, last);
    if glyphChunkSize == 0x10 + (last + 1) * 3 + paddings && fp.Tell() != w + size {
      return Err(Raised("chunk size error in character wdith chunk"));
    }
    return Ok(WidthChunk(size, first, last));
  }

  /** The loop of `get_character_map_chunks`: maps are read from `offset` on, each at the
      previous map's next-map field minus 8, until a map whose field is 0. */
  method ReadMapChain(fp: ByteFile, order: ByteOrder, offset: int) returns (r: Result<seq<Cmap>>)
    modifies fp
    ensures r == MapChainFrom(fp.data, order, offset, {})
  {
    var sought := fp.Seek(offset);
    if sought.Fail? {
      return Err(sought.error);
    }
    var maps: seq<Cmap> := [];
    var nextCharMapOffset := offset;
    var visited: set<nat> := {};
    PrefixedNothing(MapChainFrom(fp.data, order, offset, {}));
    while true
      invariant visited <= RangeSet(0, |fp.data|)
      invariant MapChainFrom(fp.data, order, offset, {}) == Prefixed(maps, MapChainFrom(fp.data, order, nextCharMapOffset, visited))
      decreases |RangeSet(0, |fp.data|) - visited|
    {
      var charMap := ReadCmap(fp, nextCharMapOffset, order);
      ChainStops(fp.data, order, nextCharMapOffset, visited);
      if charMap.Err? {
        return Err(charMap.error);
      }
      var m := charMap.value;
      if m.offsetToNextMapP8 == 0 {
        assert maps + [] == maps;
        return Ok(maps);
      }
      if nextCharMapOffset as nat in visited {
        return Err(Diverges("character map chain"));
      }
      ChainContinues(fp.data, order, nextCharMapOffset, visited, m);
      PrefixedTwice(maps, m, MapChainFrom(fp.data, order, m.offsetToNextMapP8 - 8, visited + {nextCharMapOffset as nat}));
      visited := visited + {nextCharMapOffset as nat};
      nextCharMapOffset := m.offsetToNextMapP8 - 8;
      maps := maps + [m];
    }
  }

  /** An `NFTR` object. `chunk_offsets` is a class attribute in the source, shared by all
      objects; here each object has its own entries. */
  class Font {
    var byteOrder: ByteOrder
    var headerOffset: Option<int>
    var fontInfoOffset: Option<int>
    var characterGlyphOffset: Option<int>
    var characterWidthOffset: Option<int>
    var firstCharacterMapOffset: Option<int>
    var header: Option<Header>
    var fontInfo: Option<FontInfo>
    var glyphChunk: Option<GlyphChunk>
    var widthChunk: Option<WidthChunk>
    var charaMaps: Option<seq<Cmap>>
    var mergedCmaps: Option<map<nat, (nat, nat)>>

    function State(): FontState
      reads this
    {
      FontState(byteOrder, headerOffset, fontInfoOffset, characterGlyphOffset, characterWidthOffset,
                firstCharacterMapOffset, header, fontInfo, glyphChunk, widthChunk, charaMaps, mergedCmaps)
    }

    constructor ()
      ensures State() == Unread
    {
      byteOrder := LittleEndian;
      headerOffset, fontInfoOffset, characterGlyphOffset, characterWidthOffset, firstCharacterMapOffset :=
        None, None, None, None, None;
      header, fontInfo, glyphChunk, widthChunk, charaMaps, mergedCmaps := None, None, None, None, None, None;
    }

    method GetHeaderChunk(fp: ByteFile) returns (o: Outcome)
      modifies this, fp
      ensures Reports(o, HeaderStep(fp.data, old(State())))
      ensures o.Pass? ==> State() == HeaderStep(fp.data, old(State())).value
      ensures o.Pass? ==> fp.pos == 16
    {
      var h := ReadHeader(fp);
      if h.Err? {
        return Fail(h.error);
      }
      byteOrder := h.value.byteOrder;
      headerOffset := Some(0);
      fontInfoOffset := Some(h.value.fontInfoOffset);
      header := Some(h.value);
      return Pass;
    }

    method GetFontInfoChunk(fp: ByteFile) returns (o: Outcome)
      modifies this, fp
      ensures Reports(o, FontInfoStep(fp.data, old(State())))
      ensures o.Pass? ==> State() == FontInfoStep(fp.data, old(State())).value
    {
      if fontInfoOffset.None? {
        return Fail(NotLocated("font_info"));
      }
      var offset := DefaultOffset(fontInfoOffset.value);
      var fi := ReadFontInfo(fp, byteOrder, offset);
      if fi.Err? {
        return Fail(fi.error);
      }
      fontInfo := Some(fi.value);
      characterGlyphOffset := Some(fp.Tell());
      return Pass;
    }

    method GetCharacterGlyphChunk(fp: ByteFile) returns (o: Outcome)
      modifies this, fp
      ensures Reports(o, GlyphStep(fp.data, old(State())))
      ensures o.Pass? ==> State() == GlyphStep(fp.data, old(State())).value
    {
      if characterGlyphOffset.None? {
        return Fail(NotLocated("character_glyph"));
      }
      var offset := DefaultOffset(characterGlyphOffset.value);
      var gc := ReadGlyphChunk(fp, byteOrder, offset);
      if gc.Err? {
        return Fail(gc.error);
      }
      glyphChunk := Some(gc.value);
      characterWidthOffset := Some(offset + gc.value.charaGlyphChunkSize);
      return Pass;
    }

    method GetCharacterWidthChunk(fp: ByteFile) returns (o: Outcome)
      modifies this, fp
      ensures Reports(o, WidthStep(fp.data, old(State())))
      ensures o.Pass? ==> State() == WidthStep(fp.data, old(State())).value
    {
      if characterWidthOffset.None? {
        return Fail(NotLocated("character_width"));
      }
      if glyphChunk.None? {
        return Fail(NotLocated("chara_glyph_chunk_size"));
      }
      var offset := characterWidthOffset.value;
      var wc := ReadWidthChunk(fp, byteOrder, offset, glyphChunk.value.charaGlyphChunkSize);
      if wc.Err? {
        return Fail(wc.error);
      }
      widthChunk := Some(wc.value);
      firstCharacterMapOffset := Some(offset + wc.value.charaWidthChunkSize);
      return Pass;
    }

    method GetCharacterMapChunks(fp: ByteFile) returns (o: Outcome)
      modifies this, fp
      ensures Reports(o, MapsStep(fp.data, old(State())))
      ensures o.Pass? ==> State() == MapsStep(fp.data, old(State())).value
    {
      if firstCharacterMapOffset.None? {
        return Fail(NotLocated("first_character_map"));
      }
      var maps := ReadMapChain(fp, byteOrder, firstCharacterMapOffset.value);
      if maps.Err? {
        return Fail(maps.error);
      }
      ChainIsWellFormed(fp.data, byteOrder, firstCharacterMapOffset.value, {});
      var merged := MergeCmaps(maps.value);
      charaMaps := Some(maps.value);
      mergedCmaps := Some(merged);
      return Pass;
    }

    /** `find_character_glyph`: the glyph of the tile the merged maps assign to `chara`. */
    function FindCharacterGlyph(chara: int): (r: Result<BitImage>)
      reads this
      ensures r.Ok? ==> mergedCmaps.Some? && glyphChunk.Some? && chara >= 0 && chara as nat in mergedCmaps.value
                        && mergedCmaps.value[chara as nat].1 < |glyphChunk.value.charaGlyphs|
                        && r.value == glyphChunk.value.charaGlyphs[mergedCmaps.value[chara as nat].1]
      ensures mergedCmaps.Some? && (chara < 0 || chara as nat !in mergedCmaps.value)
              ==> r == Err(Raised("character not in NFTR"))
    {
      if mergedCmaps.None? then Err(NotLocated("merged_cmaps"))
      else if chara >= 0 && chara as nat in mergedCmaps.value then
        var tileIdx := mergedCmaps.value[chara as nat].1;
        if glyphChunk.None? then Err(NotLocated("chara_glyphs"))
        else if tileIdx < |glyphChunk.value.charaGlyphs| then Ok(glyphChunk.value.charaGlyphs[tileIdx])
        else Err(IndexOutOfRange)
      else Err(Raised("character not in NFTR"))
    }
  }

  lemma PrefixedNothing(rest: Result<seq<Cmap>>)
    ensures Prefixed([], rest) == rest
  {
    if rest.Ok? {
      assert [] + rest.value == rest.value;
    }
  }

  lemma PrefixedTwice(maps: seq<Cmap>, m: Cmap, rest: Result<seq<Cmap>>)
    ensures Prefixed(maps, Prefixed([m], rest)) == Prefixed(maps + [m], rest)
  {
    if rest.Ok? {
      assert maps + ([m] + rest.value) == (maps + [m]) + rest.value;
    }
  }

  /** `NFTR(file_path)` for a file whose contents are `contents`. */
  method Open(contents: seq<Byte>) returns (r: Result<Font>)
    ensures r.Ok? <==> Decode(contents).Ok?
    ensures r.Err? ==> r.error == Decode(contents).error
    ensures r.Ok? ==> r.value.State() == Decode(contents).value
  {
    var fp := new ByteFile(contents);
    var font := new Font();
    var o := font.GetHeaderChunk(fp);
    if o.Fail? {
      return Err(o.error);
    }
    o := font.GetFontInfoChunk(fp);
    if o.Fail? {
      return Err(o.error);
    }
    o := font.GetCharacterGlyphChunk(fp);
    if o.Fail? {
      return Err(o.error);
    }
    o := font.GetCharacterWidthChunk(fp);
    if o.Fail? {
      return Err(o.error);
    }
    o := font.GetCharacterMapChunks(fp);
    if o.Fail? {
      return Err(o.error);
    }
    return Ok(font);
  }

  /** In a decoded font, a character's glyph is found exactly when some map assigns it a
      tile that exists; it is the tile of the last such map, and a character no map assigns
      raises "character not in NFTR". */
  lemma FoundGlyphIsLastMapsTile(data: seq<Byte>, f: Font, chara: nat)
    requires Decode(data) == Ok(f.State())
    ensures f.charaMaps.Some? && f.glyphChunk.Some?
    ensures f.FindCharacterGlyph(chara).Ok? <==>
              LastAssigned(f.charaMaps.value, chara).Some?
              && LastAssigned(f.charaMaps.value, chara).value.1 < |f.glyphChunk.value.charaGlyphs|
    ensures f.FindCharacterGlyph(chara).Ok? ==>
              f.FindCharacterGlyph(chara).value == f.glyphChunk.value.charaGlyphs[LastAssigned(f.charaMaps.value, chara).value.1]
    ensures LastAssigned(f.charaMaps.value, chara).None? ==> f.FindCharacterGlyph(chara) == Err(Raised("character not in NFTR"))
  {
    DecodeMerges(data, f.State());
    MergedIsLastAssigned(f.charaMaps.value, chara);
  }
}
