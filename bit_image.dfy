/** A glyph tile of font/bit_image.py built from raw bytes: the bytes unpacked into codes of
    `bit_depth` bits, cut to width*height codes, each code scaled to an 8-bit intensity, and the
    result laid out as `width` rows of `height` entries. A BitImage's fields are assigned once, in
    its constructor, so the tile is a value here. */
module BitImages {
  import opened Results
  import opened Bytes
  import opened BitsUtils

  /** `BitImage.GRAY_CHANNELS`: the output depth of every scaled code. */
  const GrayChannels: nat := 8

  /** width*height, the number of pixels of a tile. It is spelled as `height` added `width`
      times (RunStart) so that the proofs about reshaping need no nonlinear arithmetic;
      TileAreaIsProduct states that it is the product. */
  function TileArea(width: nat, height: nat): nat
  {
    RunStart(height, width)
  }

  lemma TileAreaIsProduct(width: nat, height: nat)
    ensures TileArea(width, height) == width * height
  {
    RunStartIsProduct(height, width);
    assert height * width == width * height;
  }

  datatype BitImage = BitImage(
    width: nat,
    height: nat,
    bitDepth: nat,
    dataInBytes: seq<Byte>,
    data: seq<seq<nat>>)

  /** `array_truncate`: the first width*height codes, or the assertion failure when there are
      fewer. */
  function ArrayTruncate(valArray: seq<nat>, width: nat, height: nat): (r: Result<seq<nat>>)
    ensures r.Ok? <==> |valArray| >= TileArea(width, height)
    ensures r.Err? ==> r.error == AssertionFailed("len(val_array) >= supposed_array_length")
    ensures r.Ok? ==> |r.value| == TileArea(width, height)
                      && forall k :: 0 <= k < TileArea(width, height) ==> r.value[k] == valArray[k]
  {
    var supposedArrayLength := TileArea(width, height);
    if |valArray| >= supposedArrayLength then Ok(valArray[..supposedArrayLength])
    else Err(AssertionFailed("len(val_array) >= supposed_array_length"))
  }

  /** `[bit_depth_scale(val, bit_depth, GRAY_CHANNELS) for val in data]`: the comprehension stops
      at the first code that raises. */
  function ScaleAll(codes: seq<nat>, bitDepth: nat): (r: Result<seq<nat>>)
    ensures r.Ok? ==> |r.value| == |codes|
  {
    if |codes| == 0 then Ok([])
    else match ScaleAll(codes[..|codes| - 1], bitDepth)
      case Err(e) => Err(e)
      case Ok(front) =>
        match ScaleResult(codes[|codes| - 1], bitDepth, GrayChannels)
        case Err(e) => Err(e)
        case Ok(v) => Ok(front + [v])
  }

  /** The comprehension succeeds exactly when every code scales, and then holds each code's
      scaled value at its own index. */
  lemma {:induction false} ScaleAllMeaning(codes: seq<nat>, bitDepth: nat)
    ensures ScaleAll(codes, bitDepth).Ok?
            <==> forall k :: 0 <= k < |codes| ==> ScaleResult(codes[k], bitDepth, GrayChannels).Ok?
    ensures ScaleAll(codes, bitDepth).Ok? ==>
              |ScaleAll(codes, bitDepth).value| == |codes|
              && forall k :: 0 <= k < |codes| ==>
                   ScaleAll(codes, bitDepth).value[k] == ScaleResult(codes[k], bitDepth, GrayChannels).value
  {
    if |codes| > 0 {
      var front := codes[..|codes| - 1];
      ScaleAllMeaning(front, bitDepth);
      assert forall k :: 0 <= k < |front| ==> front[k] == codes[k];
    }
  }

  /** The comprehension raises what the first failing prefix raises. */
  lemma {:induction false} ScaleAllKeepsError(codes: seq<nat>, bitDepth: nat, n: nat)
    requires n <= |codes| && ScaleAll(codes[..n], bitDepth).Err?
    ensures ScaleAll(codes, bitDepth) == ScaleAll(codes[..n], bitDepth)
    decreases |codes| - n
  {
    if n < |codes| {
      assert codes[..n + 1][..n] == codes[..n];
      ScaleAllKeepsError(codes, bitDepth, n + 1);
    } else {
      assert codes[..n] == codes;
    }
  }

  /** `reshape(width, height)`: row r is the flat run [r*height, r*height + height). */
  function Reshape(flat: seq<nat>, width: nat, height: nat): (grid: seq<seq<nat>>)
    requires |flat| == TileArea(width, height)
    ensures |grid| == width
    ensures forall r :: 0 <= r < width ==> |grid[r]| == height
  {
    seq(width, r requires 0 <= r < width => Row(flat, width, height, r))
  }

  function Row(flat: seq<nat>, width: nat, height: nat, r: nat): (row: seq<nat>)
    requires |flat| == TileArea(width, height) && r < width
    ensures |row| == height
  {
    RowFits(width, height, r);
    flat[RunStart(height, r)..RunStart(height, r) + height]
  }

  lemma RowFits(width: nat, height: nat, r: nat)
    requires r < width
    ensures RunStart(height, r) + height <= TileArea(width, height)
  {
    RunStartMonotone(height, r + 1, width);
  }

  /** Row r, column c of the reshaped grid is flat element r*height + c. */
  lemma ReshapeAt(flat: seq<nat>, width: nat, height: nat, r: nat, c: nat)
    requires |flat| == TileArea(width, height) && r < width && c < height
    ensures RunStart(height, r) == r * height
    ensures r * height + c < |flat|
    ensures Reshape(flat, width, height)[r][c] == flat[r * height + c]
  {
    RowFits(width, height, r);
    RunStartIsProduct(height, r);
    assert r * height == height * r;
  }

  /** What `BitImage(image, width, height, bit_depth)` builds or raises for a bytes image. */
  function BitImageOf(image: seq<Byte>, width: nat, height: nat, bitDepth: nat): Result<BitImage>
  {
    if bitDepth == 0 then Err(ZeroStep)
    else match ArrayTruncate(Unpacked(image, bitDepth), width, height)
      case Err(e) => Err(e)
      case Ok(codes) =>
        match ScaleAll(codes, bitDepth)
        case Err(e) => Err(e)
        case Ok(scaled) => Ok(BitImage(width, height, bitDepth, image, Reshape(scaled, width, height)))
  }

  /** `BitImage.__init__` on a bytes image: the fields in the source's order, then the pixel
      grid from unpacking, truncating and scaling. */
  method NewBitImage(image: seq<Byte>, width: nat, height: nat, bitDepth: nat) returns (r: Result<BitImage>)
    ensures r == BitImageOf(image, width, height, bitDepth)
  {
    var unpacked := ByteArrayToBitArray(image, bitDepth, BigEndian);
    if unpacked.Err? {
      return Err(unpacked.error);
    }
    var truncated := ArrayTruncate(unpacked.value, width, height);
    if truncated.Err? {
      return Err(truncated.error);
    }
    var scaled := ScaleCodes(truncated.value, bitDepth);
    if scaled.Err? {
      return Err(scaled.error);
    }
    ScaleAllMeaning(truncated.value, bitDepth);
    return Ok(BitImage(width, height, bitDepth, image, Reshape(scaled.value, width, height)));
  }

  /** The scaling comprehension of `BitImage.__init__`, one `bit_depth_scale` call per code. */
  method ScaleCodes(codes: seq<nat>, bitDepth: nat) returns (r: Result<seq<nat>>)
    ensures r == ScaleAll(codes, bitDepth)
  {
    var scaled: seq<nat> := [];
    for k := 0 to |codes|
      invariant ScaleAll(codes[..k], bitDepth) == Ok(scaled)
    {
      var v := BitDepthScale(codes[k], bitDepth, GrayChannels);
      assert codes[..k + 1][..k] == codes[..k];
      if v.Err? {
        ScaleAllKeepsError(codes, bitDepth, k + 1);
        return Err(v.error);
      }
      scaled := scaled + [v.value];
    }
    assert codes[..|codes|] == codes;
    return Ok(scaled);
  }

  /** A tile is built exactly when the depth is positive, the bytes hold at least width*height
      codes, and, unless the tile is empty, the depth is 2, 4 or 8: every other depth makes
      `bit_depth_scale` raise on the first code. */
  lemma BitImageOkIff(image: seq<Byte>, width: nat, height: nat, bitDepth: nat)
    ensures BitImageOf(image, width, height, bitDepth).Ok?
            <==> bitDepth > 0
                 && CeilDiv(8 * |image|, bitDepth) >= TileArea(width, height)
                 && (TileArea(width, height) == 0 || bitDepth == 2 || bitDepth == 4 || bitDepth == 8)
  {
    if bitDepth > 0 && CeilDiv(8 * |image|, bitDepth) >= TileArea(width, height) {
      var all := Unpacked(image, bitDepth);
      UnpackedBounds(image, bitDepth);
      var codes := ArrayTruncate(all, width, height).value;
      ScaleAllMeaning(codes, bitDepth);
      forall k | 0 <= k < |codes|
        ensures ScaleResult(codes[k], bitDepth, GrayChannels).Ok?
                <==> bitDepth == 2 || bitDepth == 4 || bitDepth == 8
      {
        assert codes[k] == all[k];
        CodeScales(codes[k], bitDepth);
      }
      if TileArea(width, height) > 0 {
        assert ScaleResult(codes[0], bitDepth, GrayChannels).Ok?
               <==> bitDepth == 2 || bitDepth == 4 || bitDepth == 8;
      }
    }
  }

  /** A code of `bit_depth` bits scales exactly when the depth is 2, 4 or 8. */
  lemma CodeScales(code: nat, bitDepth: nat)
    requires bitDepth > 0 && code < Pow2(bitDepth)
    ensures ScaleResult(code, bitDepth, GrayChannels).Ok? <==> bitDepth == 2 || bitDepth == 4 || bitDepth == 8
  {
    ScaleOkIff(code, bitDepth, GrayChannels);
    if bitDepth == 2 {
      assert Pow2(2) == 4;
    }
  }

  /** Every unpacked code is below 2^depth. */
  lemma UnpackedBounds(image: seq<Byte>, bitDepth: nat)
    requires bitDepth > 0
    ensures |Unpacked(image, bitDepth)| == CeilDiv(8 * |image|, bitDepth)
    ensures forall k :: 0 <= k < |Unpacked(image, bitDepth)| ==> Unpacked(image, bitDepth)[k] < Pow2(bitDepth)
  {
  }

  /** A built tile keeps its constructor arguments, and its grid has `width` rows of `height`
      entries. */
  lemma BitImageFields(image: seq<Byte>, width: nat, height: nat, bitDepth: nat)
    requires BitImageOf(image, width, height, bitDepth).Ok?
    ensures var img := BitImageOf(image, width, height, bitDepth).value;
            img.width == width && img.height == height && img.bitDepth == bitDepth
            && img.dataInBytes == image
            && |img.data| == width && forall r :: 0 <= r < width ==> |img.data[r]| == height
  {
  }

  /** Entry (r, c) of a built tile's grid is code r*height + c of the unpacked bytes, scaled to
      8 bits. */
  lemma BitImagePixel(image: seq<Byte>, width: nat, height: nat, bitDepth: nat, r: nat, c: nat)
    requires BitImageOf(image, width, height, bitDepth).Ok?
    requires r < width && c < height
    ensures RunStart(height, r) + c < |Unpacked(image, bitDepth)|
    ensures RunStart(height, r) == r * height
    ensures BitImageOf(image, width, height, bitDepth).value.data[r][c]
            == ScaleResult(Unpacked(image, bitDepth)[RunStart(height, r) + c], bitDepth, GrayChannels).value
  {
    BitImageGrid(image, width, height, bitDepth);
    GridPixel(Unpacked(image, bitDepth), width, height, bitDepth, r, c);
  }

  /** Entry (r, c) of the grid built from a list of codes is code r*height + c, scaled. */
  lemma GridPixel(all: seq<nat>, width: nat, height: nat, bitDepth: nat, r: nat, c: nat)
    requires ArrayTruncate(all, width, height).Ok?
    requires ScaleAll(ArrayTruncate(all, width, height).value, bitDepth).Ok?
    requires r < width && c < height
    ensures RunStart(height, r) + c < |all|
    ensures RunStart(height, r) == r * height
    ensures ScaleResult(all[RunStart(height, r) + c], bitDepth, GrayChannels).Ok?
    ensures var scaled := ScaleAll(ArrayTruncate(all, width, height).value, bitDepth).value;
            |scaled| == TileArea(width, height)
            && Reshape(scaled, width, height)[r][c] == ScaleResult(all[RunStart(height, r) + c], bitDepth, GrayChannels).value
  {
    var codes := ArrayTruncate(all, width, height).value;
    var scaled := ScaleAll(codes, bitDepth).value;
    var k := RunStart(height, r) + c;
    RowFits(width, height, r);
    ReshapeAt(scaled, width, height, r, c);
    ScaledCode(codes, bitDepth, k);
    assert codes[k] == all[k];
  }

  /** Entry k of the scaled codes is code k scaled. */
  lemma ScaledCode(codes: seq<nat>, bitDepth: nat, k: nat)
    requires ScaleAll(codes, bitDepth).Ok? && k < |codes|
    ensures ScaleResult(codes[k], bitDepth, GrayChannels).Ok?
    ensures ScaleAll(codes, bitDepth).value[k] == ScaleResult(codes[k], bitDepth, GrayChannels).value
  {
    ScaleAllMeaning(codes, bitDepth);
  }

  /** A built tile's grid is the reshaped, scaled, truncated codes. */
  lemma BitImageGrid(image: seq<Byte>, width: nat, height: nat, bitDepth: nat)
    requires BitImageOf(image, width, height, bitDepth).Ok?
    ensures bitDepth > 0 && ArrayTruncate(Unpacked(image, bitDepth), width, height).Ok?
    ensures var codes := ArrayTruncate(Unpacked(image, bitDepth), width, height).value;
            ScaleAll(codes, bitDepth).Ok?
            && |ScaleAll(codes, bitDepth).value| == TileArea(width, height)
            && BitImageOf(image, width, height, bitDepth).value.data == Reshape(ScaleAll(codes, bitDepth).value, width, height)
  {
  }

  /** Every grid entry fits in a byte, so the `uint8` conversion keeps it unchanged. */
  lemma BitImageEntriesAreBytes(image: seq<Byte>, width: nat, height: nat, bitDepth: nat, r: nat, c: nat)
    requires BitImageOf(image, width, height, bitDepth).Ok?
    requires r < width && c < height
    ensures BitImageOf(image, width, height, bitDepth).value.data[r][c] < 256
  {
    BitImagePixel(image, width, height, bitDepth, r, c);
    ScaledIsByte(Unpacked(image, bitDepth)[RunStart(height, r) + c], bitDepth);
  }

  /** A code that scales to the 8-bit output width gives a value below 256. */
  lemma ScaledIsByte(code: nat, bitDepth: nat)
    requires ScaleResult(code, bitDepth, GrayChannels).Ok?
    ensures ScaleResult(code, bitDepth, GrayChannels).value < 256
  {
    ScaleBounds(code, bitDepth, GrayChannels);
    assert Pow2(8) == 256;
  }

  /** A depth-1 tile with at least one pixel always fails: too few codes trip the truncation
      assertion, and otherwise scaling trips the assertion on `in_bits`. */
  lemma DepthOneFails(image: seq<Byte>, width: nat, height: nat)
    requires TileArea(width, height) > 0
    ensures BitImageOf(image, width, height, 1).Err?
  {
    BitImageOkIff(image, width, height, 1);
  }

  /** Depth 2, one code per 2 bits: F0 as a 2x2 tile is codes 3, 3, 0, 0 and the grid
      [[255, 255], [0, 0]]. */
  lemma TwoByTwoExample()
    ensures BitImageOf([0xF0], 2, 2, 2) == Ok(BitImage(2, 2, 2, [0xF0], [[255, 255], [0, 0]]))
  {
    UnpackF0();
    assert TileArea(2, 2) == 4;
    assert ArrayTruncate([3, 3, 0, 0], 2, 2) == Ok([3, 3, 0, 0]) by {
      assert [3, 3, 0, 0][..4] == [3, 3, 0, 0];
    }
    ScaleFourCodes(3, 3, 0, 0);
    ReshapeTwoByTwo(255, 255, 0, 0);
  }

  /** Bytes FF 00 at depth 2 are eight codes 3, 3, 3, 3, 0, 0, 0, 0; as a 2x2 tile only the first
      four are kept, so every pixel is 255. */
  lemma TruncationExample()
    ensures BitImageOf([0xFF, 0x00], 2, 2, 2) == Ok(BitImage(2, 2, 2, [0xFF, 0x00], [[255, 255], [255, 255]]))
  {
    UnpackFF00();
    assert TileArea(2, 2) == 4;
    assert ArrayTruncate([3, 3, 3, 3, 0, 0, 0, 0], 2, 2) == Ok([3, 3, 3, 3]) by {
      assert [3, 3, 3, 3, 0, 0, 0, 0][..4] == [3, 3, 3, 3];
    }
    ScaleFourCodes(3, 3, 3, 3);
    ReshapeTwoByTwo(255, 255, 255, 255);
  }

  lemma UnpackF0()
    ensures Unpacked([0xF0], 2) == [3, 3, 0, 0]
  {
    var s := StreamBits([0xF0]);
    assert Shr(0xF0, 1) == 120 && Shr(0xF0, 2) == 60 && Shr(0xF0, 3) == 30 && Shr(0xF0, 4) == 15;
    assert Shr(0xF0, 5) == 7 && Shr(0xF0, 6) == 3 && Shr(0xF0, 7) == 1;
    assert s == [1, 1, 1, 1, 0, 0, 0, 0];
    CeilDivExact(4, 2);
    assert RunStart(2, 1) == 2 && RunStart(2, 2) == 4 && RunStart(2, 3) == 6;
  }

  lemma UnpackFF00()
    ensures Unpacked([0xFF, 0x00], 2) == [3, 3, 3, 3, 0, 0, 0, 0]
  {
    var s := StreamBits([0xFF, 0x00]);
    assert s == [1, 1, 1, 1, 1, 1, 1, 1, 0, 0, 0, 0, 0, 0, 0, 0] by {
      assert Shr(0xFF, 1) == 127 && Shr(0xFF, 2) == 63 && Shr(0xFF, 3) == 31 && Shr(0xFF, 4) == 15;
      assert Shr(0xFF, 5) == 7 && Shr(0xFF, 6) == 3 && Shr(0xFF, 7) == 1;
      ShrZero(1); ShrZero(2); ShrZero(3); ShrZero(4); ShrZero(5); ShrZero(6); ShrZero(7);
    }
    CeilDivExact(8, 2);
    UnpackFF00Codes(s);
  }

  lemma UnpackFF00Codes(s: seq<int>)
    requires s == [1, 1, 1, 1, 1, 1, 1, 1, 0, 0, 0, 0, 0, 0, 0, 0]
    ensures seq(8, k requires 0 <= k < 8 => BigEndianBits(s, RunStart(2, k), 2)) == [3, 3, 3, 3, 0, 0, 0, 0]
  {
    var q := seq(8, k requires 0 <= k < 8 => BigEndianBits(s, RunStart(2, k), 2));
    assert RunStart(2, 1) == 2 && RunStart(2, 2) == 4 && RunStart(2, 3) == 6;
    assert RunStart(2, 4) == 8 && RunStart(2, 5) == 10 && RunStart(2, 6) == 12 && RunStart(2, 7) == 14;
    TwoBits(s, 0); TwoBits(s, 2); TwoBits(s, 4); TwoBits(s, 6);
    TwoBits(s, 8); TwoBits(s, 10); TwoBits(s, 12); TwoBits(s, 14);
    assert q[0] == 3 && q[1] == 3 && q[2] == 3 && q[3] == 3;
    assert q[4] == 0 && q[5] == 0 && q[6] == 0 && q[7] == 0;
  }

  /** A 2-bit code is its first bit doubled plus its second. */
  lemma TwoBits(s: seq<int>, p: nat)
    ensures BigEndianBits(s, p, 2) == 2 * PaddedAt(s, p) + PaddedAt(s, p + 1)
  {
    assert BigEndianBits(s, p, 1) == PaddedAt(s, p);
  }

  /** Four depth-2 codes, each below 4, scale one by one through the table. */
  lemma ScaleFourCodes(a: nat, b: nat, c: nat, d: nat)
    requires a < 4 && b < 4 && c < 4 && d < 4
    ensures ScaleAll([a, b, c, d], 2)
            == Ok([Depth2Level(a), Depth2Level(b), Depth2Level(c), Depth2Level(d)])
  {
    var la, lb, lc, ld := Depth2Level(a), Depth2Level(b), Depth2Level(c), Depth2Level(d);
    assert [a][..0] == [] && [] + [la] == [la];
    assert ScaleAll([a], 2) == Ok([la]);
    assert [a, b][..1] == [a] && [la] + [lb] == [la, lb];
    assert ScaleAll([a, b], 2) == Ok([la, lb]);
    assert [a, b, c][..2] == [a, b] && [la, lb] + [lc] == [la, lb, lc];
    assert ScaleAll([a, b, c], 2) == Ok([la, lb, lc]);
    assert [a, b, c, d][..3] == [a, b, c] && [la, lb, lc] + [ld] == [la, lb, lc, ld];
  }

  lemma ReshapeTwoByTwo(a: nat, b: nat, c: nat, d: nat)
    ensures TileArea(2, 2) == 4
    ensures Reshape([a, b, c, d], 2, 2) == [[a, b], [c, d]]
  {
    assert RunStart(2, 1) == 2;
    assert [a, b, c, d][0..2] == [a, b] && [a, b, c, d][2..4] == [c, d];
  }
}
