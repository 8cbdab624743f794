/** The pixel engine of font/bits_utils.py: a byte sequence read as an MSB-first bitstream and
    split into codes of `bit_depth` bits, the expansion of a code to an 8-bit intensity, and the
    packing of 0/1 bits back into bytes. */
module BitsUtils {
  import opened Results
  import opened Bytes

  // ---------------------------------------------------------------------------------------
  // Integer bits: Python's `x << k`, `x >> k`, `(x >> k) & 1` and `//` on integers, written as
  // repeated doubling, halving and subtraction.

  /** `x << k`. */
  function Shl(x: int, k: nat): int
  {
    if k == 0 then x else 2 * Shl(x, k - 1)
  }

  /** 2^n, that is `1 << n`. */
  function Pow2(n: nat): (r: nat)
    ensures r >= 1
  {
    if n == 0 then 1 else 2 * Pow2(n - 1)
  }

  /** `x >> k` for x >= 0. */
  function Shr(x: nat, k: nat): nat
  {
    if k == 0 then x else Shr(x / 2, k - 1)
  }

  /** `(x >> k) & 1`, bit k of x (bit 0 is the least significant). */
  function Bit(x: nat, k: nat): (b: nat)
    ensures b <= 1
  {
    Shr(x, k) % 2
  }

  /** `a // b` for a >= 0 and b > 0. */
  function FloorDiv(a: nat, b: nat): nat
    requires b > 0
    decreases a
  {
    if a < b then 0 else 1 + FloorDiv(a - b, b)
  }

  /** `a % b` for a >= 0 and b > 0. */
  function Mod(a: nat, b: nat): (r: nat)
    requires b > 0
    ensures r < b
    decreases a
  {
    if a < b then a else Mod(a - b, b)
  }

  lemma ModOfSelf(d: nat)
    requires d > 0
    ensures Mod(d, d) == 0
  {
    assert Mod(d - d, d) == 0;
  }

  /** ceil(n / d) for d > 0: the number of runs of d that cover n. */
  function CeilDiv(n: nat, d: nat): nat
    requires d > 0
    decreases n
  {
    if n == 0 then 0 else if n <= d then 1 else 1 + CeilDiv(n - d, d)
  }

  lemma MulSucc(s: int, a: int)
    ensures s * (a + 1) == s * a + s
    ensures (a + 1) * s == a * s + s
  {
  }

  lemma {:induction false} MulMonotone(s: nat, a: nat, b: nat)
    requires a <= b
    ensures s * a <= s * b
    decreases b - a
  {
    if a < b {
      MulMonotone(s, a, b - 1);
      MulSucc(s, b - 1);
    }
  }

  lemma {:induction false} ShlIsPow2(k: nat)
    ensures Shl(1, k) == Pow2(k)
  {
    if k > 0 {
      ShlIsPow2(k - 1);
    }
  }

  lemma {:induction false} ShlSum(x: int, y: int, k: nat)
    ensures Shl(x + y, k) == Shl(x, k) + Shl(y, k)
  {
    if k > 0 {
      ShlSum(x, y, k - 1);
    }
  }

  lemma {:induction false} ShlDouble(x: int, k: nat)
    ensures Shl(2 * x, k) == Shl(x, k + 1)
  {
    if k > 0 {
      ShlDouble(x, k - 1);
    }
  }

  lemma {:induction false} ShlAdd(x: int, a: nat, b: nat)
    ensures Shl(x, a + b) == Shl(Shl(x, a), b)
  {
    if b > 0 {
      ShlAdd(x, a, b - 1);
    }
  }

  lemma {:induction false} ShlOfZero(k: nat)
    ensures Shl(0, k) == 0
  {
    if k > 0 {
      ShlOfZero(k - 1);
    }
  }

  lemma {:induction false} ShlNonNegative(x: int, k: nat)
    requires x >= 0
    ensures Shl(x, k) >= 0
  {
    if k > 0 {
      ShlNonNegative(x, k - 1);
    }
  }

  lemma {:induction false} ShrSucc(x: nat, k: nat)
    ensures Shr(x, k + 1) == Shr(x, k) / 2
  {
    if k > 0 {
      ShrSucc(x / 2, k - 1);
    }
  }

  lemma {:induction false} ShrAdd(x: nat, a: nat, b: nat)
    ensures Shr(x, a + b) == Shr(Shr(x, a), b)
  {
    if a > 0 {
      ShrAdd(x / 2, a - 1, b);
    }
  }

  lemma {:induction false} ShrZero(k: nat)
    ensures Shr(0, k) == 0
  {
    if k > 0 {
      ShrZero(k - 1);
    }
  }

  lemma {:induction false} ShrBelow(x: nat, n: nat)
    requires x < Pow2(n)
    ensures Shr(x, n) == 0
  {
    if n > 0 {
      ShrBelow(x / 2, n - 1);
    }
  }

  lemma {:induction false} Pow2Monotone(a: nat, b: nat)
    requires a <= b
    ensures Pow2(a) <= Pow2(b)
  {
    if a < b {
      Pow2Monotone(a, b - 1);
    }
  }

  /** The quotient q = a // b is the q with q*b <= a < (q+1)*b. */
  lemma {:induction false} FloorDivBounds(a: nat, b: nat)
    requires b > 0
    ensures FloorDiv(a, b) * b <= a < FloorDiv(a, b) * b + b
    decreases a
  {
    if a >= b {
      FloorDivBounds(a - b, b);
      MulSucc(b, FloorDiv(a - b, b));
    }
  }

  /** Where run i starts when positions are cut into runs of `width`: width*i, written as
      repeated addition. */
  function RunStart(width: nat, i: nat): nat
  {
    if i == 0 then 0 else RunStart(width, i - 1) + width
  }

  lemma {:induction false} RunStartIsProduct(slice: nat, i: nat)
    ensures RunStart(slice, i) == slice * i
  {
    if i > 0 {
      RunStartIsProduct(slice, i - 1);
      MulSucc(slice, i - 1);
    }
  }

  lemma {:induction false} RunStartMonotone(slice: nat, i: nat, l: nat)
    requires i <= l
    ensures RunStart(slice, i) <= RunStart(slice, l)
    ensures i < l ==> RunStart(slice, i) + slice <= RunStart(slice, l)
    decreases l - i
  {
    if i < l {
      RunStartMonotone(slice, i, l - 1);
    }
  }

  /** A positive number of runs reaches at least one run's length. */
  lemma {:induction false} RunStartReaches(d: nat, j: nat)
    ensures j >= 1 ==> RunStart(d, j) >= d
  {
    if j > 1 {
      RunStartReaches(d, j - 1);
    }
  }

  /** k is ceil(n / d) exactly when k runs of d reach n and k - 1 runs do not. */
  lemma {:induction false} CeilDivUnique(n: nat, d: nat, k: nat)
    requires d > 0 && RunStart(d, k) >= n && (k == 0 || RunStart(d, k - 1) < n)
    ensures k == CeilDiv(n, d)
    decreases n
  {
    if k > 0 {
      if n <= d {
        RunStartReaches(d, k - 1);
      } else {
        CeilDivUnique(n - d, d, k - 1);
      }
    }
  }

  /** ceil(n / d) runs of d reach n, and one run fewer does not. */
  lemma {:induction false} CeilDivCovers(n: nat, d: nat)
    requires d > 0
    ensures RunStart(d, CeilDiv(n, d)) >= n
    ensures CeilDiv(n, d) > 0 ==> RunStart(d, CeilDiv(n, d) - 1) < n
    decreases n
  {
    if n > d {
      CeilDivCovers(n - d, d);
    }
  }

  /** Fewer than ceil(n / d) runs of d fall short of n, so a run starting before n is counted. */
  lemma CeilDivAbove(n: nat, d: nat, k: nat)
    requires d > 0 && RunStart(d, k) < n
    ensures k < CeilDiv(n, d)
  {
    CeilDivCovers(n, d);
    if CeilDiv(n, d) <= k {
      RunStartMonotone(d, CeilDiv(n, d), k);
    }
  }

  /** Shifting `a + (c << m)`, a < 2^m, right by k <= m bits shifts a and c apart. */
  lemma {:induction false} ShrSplit(a: nat, c: nat, m: nat, k: nat)
    requires a < Pow2(m) && k <= m
    ensures Shl(c, m) >= 0
    ensures Shr(a + Shl(c, m), k) == Shr(a, k) + Shl(c, m - k)
    ensures Shr(a, k) < Pow2(m - k)
  {
    ShlNonNegative(c, m);
    if k > 0 {
      ShrSplit(a, c, m, k - 1);
      ShrSucc(a + Shl(c, m), k - 1);
      ShrSucc(a, k - 1);
      ShlNonNegative(c, m - k);
    }
  }

  /** The bits of `a + (c << m)`, a < 2^m: those of a below m, those of c from m on. */
  lemma BitSplit(a: nat, c: nat, m: nat, k: nat)
    requires a < Pow2(m)
    ensures Shl(c, m) >= 0
    ensures Bit(a + Shl(c, m), k) == if k < m then Bit(a, k) else Bit(c, k - m)
  {
    if k < m {
      BitSplitLow(a, c, m, k);
    } else {
      BitSplitHigh(a, c, m, k);
    }
  }

  lemma BitSplitLow(a: nat, c: nat, m: nat, k: nat)
    requires a < Pow2(m) && k < m
    ensures Shl(c, m) >= 0
    ensures Bit(a + Shl(c, m), k) == Bit(a, k)
  {
    ShrSplit(a, c, m, k);
    ShlNonNegative(c, m - k - 1);
    var x, y := Shr(a, k), Shl(c, m - k - 1);
    assert Shl(c, m - k) == 2 * y;
    assert Shr(a + Shl(c, m), k) == x + 2 * y;
    ParityOfDouble(x, y);
  }

  lemma ParityOfDouble(x: nat, y: nat)
    ensures (x + 2 * y) % 2 == x % 2
  {
  }

  lemma BitSplitHigh(a: nat, c: nat, m: nat, k: nat)
    requires a < Pow2(m) && m <= k
    ensures Shl(c, m) >= 0
    ensures Bit(a + Shl(c, m), k) == Bit(c, k - m)
  {
    ShrSplit(a, c, m, m);
    assert Shr(a, m) == 0;
    assert Shr(a + Shl(c, m), m) == c;
    ShrAdd(a + Shl(c, m), m, k - m);
  }

  /** Bit j of b << t for a single bit b. */
  lemma BitOfShiftedBit(b: nat, t: nat, j: nat)
    requires b <= 1
    ensures Shl(b, t) >= 0
    ensures Bit(Shl(b, t), j) == if j == t then b else 0
  {
    BitSplit(0, b, t, j);
    if j < t {
      ShrZero(j);
    } else if j > t {
      ShrZero(j - t - 1);
    }
  }

  /** Two numbers below 2^n with the same n low bits are equal. */
  lemma {:induction false} BitsDetermine(x: nat, y: nat, n: nat)
    requires x < Pow2(n) && y < Pow2(n)
    requires forall k :: 0 <= k < n ==> Bit(x, k) == Bit(y, k)
    ensures x == y
  {
    if n > 0 {
      forall k | 0 <= k < n - 1
        ensures Bit(x / 2, k) == Bit(y / 2, k)
      {
        assert Bit(x, k + 1) == Bit(y, k + 1);
      }
      assert Bit(x, 0) == Bit(y, 0);
      BitsDetermine(x / 2, y / 2, n - 1);
    }
  }

  // ---------------------------------------------------------------------------------------
  // bit_depth_scale (font/bits_utils.py:1-38)

  /** The fixed depth-2 intensities (font/bits_utils.py:18-26). */
  function Depth2Level(v: nat): nat
    requires v < 4
  {
    if v == 0 then 0 else if v == 1 then 85 else if v == 2 then 170 else 255
  }

  /** The general case: bit i of v placed at the top of slice i, bit RunStart(slice, i) +
      slice - 1, every other output bit 0. */
  function Spread(v: nat, n: nat, slice: nat): nat
    requires slice >= 1
  {
    if n == 0 then 0
    else
      assert Shl(Bit(v, n - 1), RunStart(slice, n - 1) + slice - 1) >= 0 by {
        ShlNonNegative(Bit(v, n - 1), RunStart(slice, n - 1) + slice - 1);
      }
      Spread(v, n - 1, slice) + Shl(Bit(v, n - 1), RunStart(slice, n - 1) + slice - 1)
  }

  /** What `bit_depth_scale(in_val, in_bits, out_bits)` returns or raises. */
  function ScaleResult(inVal: nat, inBits: nat, outBits: nat): Result<nat>
  {
    if inBits == 2 && inVal < 4 then Ok(Depth2Level(inVal))
    else if inBits % 4 != 0 then Err(AssertionFailed("in_bits % 4 == 0"))
    else if outBits % 8 != 0 then Err(AssertionFailed("out_bits % 8 == 0"))
    else if inBits == 0 then Err(ZeroDivision)
    else if FloorDiv(outBits, inBits) == 0 then Err(NegativeShift)
    else Ok(Spread(inVal, inBits, FloorDiv(outBits, inBits)))
  }

  /** `bit_depth_scale`: a lookup table for depth 2; otherwise the loop that ORs each source
      bit into place. Every bit it ORs in lies above all bits set so far (the invariant
      ret < 2^(slice*i)), so `ret |= x` is the addition `ret + x` here. */
  method BitDepthScale(inVal: nat, inBits: nat, outBits: nat) returns (r: Result<nat>)
    ensures r == ScaleResult(inVal, inBits, outBits)
  {
    if inBits == 2 {
      if inVal == 0 {
        return Ok(0);
      } else if inVal == 1 {
        return Ok(85);
      } else if inVal == 2 {
        return Ok(170);
      } else if inVal == 3 {
        return Ok(255);
      }
    }
    if inBits % 4 != 0 {
      return Err(AssertionFailed("in_bits % 4 == 0"));
    }
    if outBits % 8 != 0 {
      return Err(AssertionFailed("out_bits % 8 == 0"));
    }
    if inBits == 0 {
      return Err(ZeroDivision);
    }
    var sliceBits := FloorDiv(outBits, inBits);
    var shiftBits: int := sliceBits - 1;
    var ret := 0;
    for i := 0 to inBits
      invariant sliceBits == 0 ==> i == 0
      invariant sliceBits >= 1 ==> ret == Spread(inVal, i, sliceBits) && ret < Pow2(RunStart(sliceBits, i))
    {
      var position := sliceBits * i + shiftBits;
      if position < 0 {
        return Err(NegativeShift);
      }
      RunStartIsProduct(sliceBits, i);
      var bit := Shr(inVal, i) % 2;
      SpreadStep(inVal, i, sliceBits);
      ret := ret + Shl(bit, position);
    }
    return Ok(ret);
  }

  /** One step of the general-case loop keeps ret below 2^(slice*i). */
  lemma SpreadStep(v: nat, i: nat, slice: nat)
    requires slice >= 1
    requires Spread(v, i, slice) < Pow2(RunStart(slice, i))
    ensures Spread(v, i + 1, slice) < Pow2(RunStart(slice, i + 1))
  {
    var m := RunStart(slice, i);
    Pow2Monotone(m, m + slice - 1);
    ShlIsPow2(m + slice - 1);
    if Bit(v, i) == 0 {
      ShlSum(0, 0, m + slice - 1);
    }
  }

  lemma {:induction false} SpreadBound(v: nat, n: nat, slice: nat)
    requires slice >= 1
    ensures Spread(v, n, slice) < Pow2(RunStart(slice, n))
  {
    if n > 0 {
      SpreadBound(v, n - 1, slice);
      SpreadStep(v, n - 1, slice);
    }
  }

  /** Bit RunStart(slice, i) + j of the spread value (0 <= j < slice) is bit i of v when j is
      the top bit of the slice and i < n, and 0 otherwise; every bit position has this form. */
  lemma {:induction false} SpreadBits(v: nat, n: nat, slice: nat, i: nat, j: nat)
    requires slice >= 1 && j < slice
    ensures Bit(Spread(v, n, slice), RunStart(slice, i) + j)
            == if i < n && j == slice - 1 then Bit(v, i) else 0
  {
    var k := RunStart(slice, i) + j;
    if n == 0 {
      ShrZero(k);
    } else {
      var m := RunStart(slice, n - 1);
      var b := Bit(v, n - 1);
      var a := Spread(v, n - 1, slice);
      SpreadBound(v, n - 1, slice);
      ShlAdd(b, slice - 1, m);
      ShlNonNegative(b, slice - 1);
      BitSplit(a, Shl(b, slice - 1), m, k);
      if i < n - 1 {
        RunStartMonotone(slice, i, n - 1);
        SpreadBits(v, n - 1, slice, i, j);
      } else {
        RunStartMonotone(slice, n - 1, i);
        BitOfShiftedBit(b, slice - 1, k - m);
      }
    }
  }

  lemma {:induction false} SpreadCongruent(v: nat, w: nat, n: nat, slice: nat)
    requires slice >= 1
    requires forall i :: 0 <= i < n ==> Bit(v, i) == Bit(w, i)
    ensures Spread(v, n, slice) == Spread(w, n, slice)
  {
    if n > 0 {
      SpreadCongruent(v, w, n - 1, slice);
    }
  }

  /** With slices of one bit every bit stays in place: a number below 2^n is its own spread. */
  lemma SpreadIdentity(v: nat, n: nat)
    requires v < Pow2(n)
    ensures Spread(v, n, 1) == v
  {
    SpreadBound(v, n, 1);
    RunStartIsProduct(1, n);
    forall k | 0 <= k < n
      ensures Bit(Spread(v, n, 1), k) == Bit(v, k)
    {
      RunStartIsProduct(1, k);
      SpreadBits(v, n, 1, k, 0);
    }
    BitsDetermine(Spread(v, n, 1), v, n);
  }

  /** Depth 2 is the table 0, 85, 170, 255 and nothing else; depths 1 and 3, and a depth-2
      value above 3, fail the assertion on `in_bits`. */
  lemma ScaleDepth2(outBits: nat, v: nat)
    ensures ScaleResult(0, 2, outBits) == Ok(0) && ScaleResult(1, 2, outBits) == Ok(85)
    ensures ScaleResult(2, 2, outBits) == Ok(170) && ScaleResult(3, 2, outBits) == Ok(255)
    ensures v >= 4 ==> ScaleResult(v, 2, outBits) == Err(AssertionFailed("in_bits % 4 == 0"))
    ensures ScaleResult(v, 1, outBits) == Err(AssertionFailed("in_bits % 4 == 0"))
    ensures ScaleResult(v, 3, outBits) == Err(AssertionFailed("in_bits % 4 == 0"))
  {
  }

  /** The scale succeeds exactly for depth 2 with a 2-bit value, or for a positive multiple of 4
      not above the output width, which is a multiple of 8. */
  lemma ScaleOkIff(v: nat, inBits: nat, outBits: nat)
    ensures ScaleResult(v, inBits, outBits).Ok?
            <==> (inBits == 2 && v < 4)
                 || (inBits % 4 == 0 && outBits % 8 == 0 && 0 < inBits <= outBits)
  {
  }

  /** A scaled value fits in `out_bits` bits. */
  lemma ScaleBounds(v: nat, inBits: nat, outBits: nat)
    requires ScaleResult(v, inBits, outBits).Ok?
    ensures inBits == 2 ==> ScaleResult(v, inBits, outBits).value <= 255
    ensures inBits != 2 ==> ScaleResult(v, inBits, outBits).value < Pow2(outBits)
  {
    if inBits != 2 {
      var slice := FloorDiv(outBits, inBits);
      SpreadBound(v, inBits, slice);
      FloorDivBounds(outBits, inBits);
      RunStartIsProduct(slice, inBits);
      assert slice * inBits == FloorDiv(outBits, inBits) * inBits;
      Pow2Monotone(RunStart(slice, inBits), outBits);
    }
  }

  /** Outside depth 2 the result depends only on the `in_bits` low bits of the input. */
  lemma ScaleLowBitsOnly(v: nat, w: nat, inBits: nat, outBits: nat)
    requires inBits != 2
    requires forall i :: 0 <= i < inBits ==> Bit(v, i) == Bit(w, i)
    ensures ScaleResult(v, inBits, outBits) == ScaleResult(w, inBits, outBits)
  {
    if ScaleResult(v, inBits, outBits).Ok? {
      SpreadCongruent(v, w, inBits, FloorDiv(outBits, inBits));
    }
  }

  /** In the general case (slice = out_bits // in_bits) bit slice*i + j of the result, for
      0 <= j < slice, is bit i of the input when j = slice - 1 and i < in_bits, and 0 otherwise. */
  lemma ScaleBitPositions(v: nat, inBits: nat, outBits: nat, i: nat, j: nat)
    requires ScaleResult(v, inBits, outBits).Ok? && inBits != 2
    requires j < FloorDiv(outBits, inBits)
    ensures var slice := FloorDiv(outBits, inBits);
            Bit(ScaleResult(v, inBits, outBits).value, slice * i + j)
            == if i < inBits && j == slice - 1 then Bit(v, i) else 0
  {
    RunStartIsProduct(FloorDiv(outBits, inBits), i);
    SpreadBits(v, inBits, FloorDiv(outBits, inBits), i, j);
  }

  /** 8 -> 8 is the identity on byte values. */
  lemma ScaleEightIsIdentity(v: nat)
    requires v < 256
    ensures ScaleResult(v, 8, 8) == Ok(v)
  {
    assert Pow2(8) == 256;
    SpreadIdentity(v, 8);
  }

  /** 4 -> 8: 0b0001 -> 2, 0b0010 -> 8, 0b0100 -> 32, 0b1000 -> 128, 0b1111 -> 170. */
  lemma ScaleFourToEight()
    ensures ScaleResult(1, 4, 8) == Ok(2) && ScaleResult(2, 4, 8) == Ok(8)
    ensures ScaleResult(4, 4, 8) == Ok(32) && ScaleResult(8, 4, 8) == Ok(128)
    ensures ScaleResult(15, 4, 8) == Ok(170)
  {
    assert FloorDiv(8, 4) == 2;
  }

  // ---------------------------------------------------------------------------------------
  // byte_array_to_bit_array (font/bits_utils.py:40-70)

  ghost predicate Bits01(bits: seq<int>)
  {
    forall i :: 0 <= i < |bits| ==> 0 <= bits[i] <= 1
  }

  /** The bytes as an MSB-first bitstream: bit p is bit 7 - p%8 of byte p/8. */
  function StreamBits(bytes: seq<Byte>): (bits: seq<int>)
    ensures |bits| == 8 * |bytes| && Bits01(bits)
  {
    seq(8 * |bytes|, p requires 0 <= p < 8 * |bytes| => Bit(bytes[p / 8], 7 - p % 8))
  }

  function PaddedAt(bits: seq<int>, p: nat): int
  {
    if p < |bits| then bits[p] else 0
  }

  /** The d bits from position p read as a number, the first one most significant; positions
      past the end count as 0 bits. */
  function BigEndianBits(bits: seq<int>, p: nat, d: nat): (r: int)
    ensures Bits01(bits) ==> 0 <= r < Pow2(d)
  {
    if d == 0 then 0 else 2 * BigEndianBits(bits, p, d - 1) + PaddedAt(bits, p + d - 1)
  }

  /** The codes `byte_array_to_bit_array` returns for depth d > 0: one per started run of d bits. */
  function Unpacked(bytes: seq<Byte>, d: nat): (codes: seq<nat>)
    requires d > 0
  {
    var bits := StreamBits(bytes);
    seq(CeilDiv(|bits|, d), k requires 0 <= k < CeilDiv(|bits|, d) => BigEndianBits(bits, RunStart(d, k), d))
  }

  /** The first loop of `byte_array_to_bit_array` (font/bits_utils.py:53-55): the bits of each
      byte, most significant first. */
  method BitsOfBytes(inBytes: seq<Byte>) returns (bitsInArray: seq<int>)
    ensures bitsInArray == StreamBits(inBytes)
  {
    ghost var stream := StreamBits(inBytes);
    bitsInArray := [];
    for i := 0 to |inBytes|
      invariant |bitsInArray| == 8 * i
      invariant forall p :: 0 <= p < 8 * i ==> bitsInArray[p] == stream[p]
    {
      var byteBits := seq(8, b requires 0 <= b < 8 => Shr(inBytes[i], 7 - b) % 2);
      forall p | 8 * i <= p < 8 * i + 8
        ensures byteBits[p - 8 * i] == stream[p]
      {
        assert p / 8 == i && p % 8 == p - 8 * i;
      }
      bitsInArray := bitsInArray + byteBits;
    }
    assert bitsInArray == stream;
  }

  /** `byte_array_to_bit_array(in_bytes, bit_depth, byte_order_flag)`. */
  method ByteArrayToBitArray(inBytes: seq<Byte>, bitDepth: nat, byteOrderFlag: ByteOrder)
    returns (r: Result<seq<nat>>)
    ensures byteOrderFlag != BigEndian ==> r == Err(AssertionFailed("byte_order_flag in [\"big\"]"))
    ensures byteOrderFlag == BigEndian && bitDepth == 0 ==> r == Err(ZeroStep)
    ensures byteOrderFlag == BigEndian && bitDepth > 0 ==> r == Ok(Unpacked(inBytes, bitDepth))
    ensures r.Ok? ==> |r.value| == CeilDiv(8 * |inBytes|, bitDepth)
                      && forall k :: 0 <= k < |r.value| ==> r.value[k] < Pow2(bitDepth)
  {
    if byteOrderFlag != BigEndian {
      return Err(AssertionFailed("byte_order_flag in [\"big\"]"));
    }
    var bitsInArray := BitsOfBytes(inBytes);
    if bitDepth == 0 {
      return Err(ZeroStep);
    }
    assert Bits01(bitsInArray);
    var valInArray: seq<nat> := [];
    var i := 0;
    while i < |bitsInArray|
      invariant i == RunStart(bitDepth, |valInArray|)
      invariant |valInArray| == 0 || RunStart(bitDepth, |valInArray| - 1) < |bitsInArray|
      invariant forall k {:trigger valInArray[k]} :: 0 <= k < |valInArray| ==>
                  valInArray[k] == BigEndianBits(bitsInArray, RunStart(bitDepth, k), bitDepth)
      decreases |bitsInArray| - i
    {
      var val := CodeAt(bitsInArray, i, bitDepth);
      valInArray := valInArray + [val];
      i := i + bitDepth;
    }
    CeilDivUnique(|bitsInArray|, bitDepth, |valInArray|);
    assert valInArray == Unpacked(inBytes, bitDepth);
    return Ok(valInArray);
  }

  /** One pass of the second loop of `byte_array_to_bit_array`: the run of bits from i, padded
      with 0 bits to `bit_depth`, read most significant bit first. */
  method CodeAt(bitsInArray: seq<int>, i: nat, bitDepth: nat) returns (code: nat)
    requires bitDepth > 0 && i < |bitsInArray| && Bits01(bitsInArray)
    ensures code == BigEndianBits(bitsInArray, i, bitDepth)
  {
    var end := if i + bitDepth <= |bitsInArray| then i + bitDepth else |bitsInArray|;
    var bits := bitsInArray[i..end];
    ModOfSelf(bitDepth);
    while Mod(|bits|, bitDepth) != 0
      invariant 1 <= |bits| <= bitDepth
      invariant forall t :: 0 <= t < |bits| ==> bits[t] == PaddedAt(bitsInArray, i + t)
      decreases bitDepth - |bits|
    {
      bits := bits + [0];
    }
    assert |bits| == bitDepth;
    var val := 0;
    ShlOfZero(bitDepth);
    for b := 0 to bitDepth
      invariant val == Shl(BigEndianBits(bitsInArray, i, b), bitDepth - b)
    {
      CodeStep(bitsInArray, i, b, bitDepth);
      val := val + Shl(bits[b], bitDepth - b - 1);
    }
    code := val;
  }

  /** Adding bit b of a code, shifted to its place, extends the code read so far by one bit. */
  lemma CodeStep(stream: seq<int>, i: nat, b: nat, d: nat)
    requires b < d
    ensures Shl(BigEndianBits(stream, i, b), d - b) + Shl(PaddedAt(stream, i + b), d - b - 1)
            == Shl(BigEndianBits(stream, i, b + 1), d - b - 1)
  {
    ShlDouble(BigEndianBits(stream, i, b), d - b - 1);
    ShlSum(2 * BigEndianBits(stream, i, b), PaddedAt(stream, i + b), d - b - 1);
  }

  /** `bytearray_to_bit_array`, an alias of `byte_array_to_bit_array` (font/bits_utils.py:72-73). */
  method BytearrayToBitArray(inBytes: seq<Byte>, bitDepth: nat, byteOrderFlag: ByteOrder)
    returns (r: Result<seq<nat>>)
    ensures byteOrderFlag != BigEndian ==> r == Err(AssertionFailed("byte_order_flag in [\"big\"]"))
    ensures byteOrderFlag == BigEndian && bitDepth == 0 ==> r == Err(ZeroStep)
    ensures byteOrderFlag == BigEndian && bitDepth > 0 ==> r == Ok(Unpacked(inBytes, bitDepth))
  {
    r := ByteArrayToBitArray(inBytes, bitDepth, byteOrderFlag);
  }

  /** k runs of d cover exactly k*d. */
  lemma CeilDivExact(k: nat, d: nat)
    requires d > 0
    ensures CeilDiv(d * k, d) == k
  {
    RunStartIsProduct(d, k);
    CeilDivUnique(d * k, d, k);
  }

  /** Runs of 1 start at every position, runs of 8 at every multiple of 8. */
  lemma RunStartsOfOne(n: nat)
    ensures forall k :: 0 <= k <= n ==> RunStart(1, k) == k && RunStart(8, k) == 8 * k
  {
    forall k | 0 <= k <= n
      ensures RunStart(1, k) == k && RunStart(8, k) == 8 * k
    {
      RunStartIsProduct(1, k);
      RunStartIsProduct(8, k);
    }
  }

  /** The top d bits of a byte of the stream are the byte shifted right by 8 - d. */
  lemma {:induction false} StreamByteTop(bytes: seq<Byte>, k: nat, d: nat)
    requires k < |bytes| && d <= 8
    ensures BigEndianBits(StreamBits(bytes), 8 * k, d) == Shr(bytes[k], 8 - d)
  {
    if d > 0 {
      StreamByteTop(bytes, k, d - 1);
      var s := StreamBits(bytes);
      var p := 8 * k + d - 1;
      assert p / 8 == k && p % 8 == d - 1;
      assert PaddedAt(s, p) == Shr(bytes[k], 8 - d) % 2;
      ShrSucc(bytes[k], 8 - d);
      assert Shr(bytes[k], 8 - (d - 1)) == Shr(bytes[k], 8 - d) / 2;
      var x := Shr(bytes[k], 8 - d);
      assert BigEndianBits(s, 8 * k, d - 1) == x / 2;
      assert BigEndianBits(s, 8 * k, d) == 2 * BigEndianBits(s, 8 * k, d - 1) + PaddedAt(s, 8 * k + d - 1);
      assert 2 * (x / 2) + x % 2 == x;
    } else {
      assert Pow2(8) == 256;
      ShrBelow(bytes[k], 8);
    }
  }

  /** At depth 8 the codes are the bytes themselves. */
  lemma UnpackDepthEight(bytes: seq<Byte>)
    ensures Unpacked(bytes, 8) == bytes
  {
    CeilDivExact(|bytes|, 8);
    RunStartsOfOne(|bytes|);
    forall k | 0 <= k < |bytes|
      ensures Unpacked(bytes, 8)[k] == bytes[k]
    {
      StreamByteTop(bytes, k, 8);
    }
  }

  /** At depth 1 the codes are the stream's bits, bit 7 - p%8 of byte p/8. */
  lemma UnpackDepthOne(bytes: seq<Byte>, p: nat)
    requires p < 8 * |bytes|
    ensures |Unpacked(bytes, 1)| == 8 * |bytes|
    ensures Unpacked(bytes, 1)[p] == Bit(bytes[p / 8], 7 - p % 8)
  {
    CeilDivExact(8 * |bytes|, 1);
    RunStartsOfOne(8 * |bytes|);
  }

  /** The byte 0xFE as a stream: seven 1 bits, then a 0. */
  lemma StreamOfFE()
    ensures StreamBits([0xFE]) == [1, 1, 1, 1, 1, 1, 1, 0]
  {
    assert Shr(0xFE, 1) == 127 && Shr(0xFE, 2) == 63 && Shr(0xFE, 3) == 31;
    assert Shr(0xFE, 4) == 15 && Shr(0xFE, 5) == 7 && Shr(0xFE, 6) == 3 && Shr(0xFE, 7) == 1;
  }

  /** The docstring's examples for the byte 0xFE: depths 1, 2 and 3 (the last code padded). */
  lemma UnpackExamples()
    ensures Unpacked([0xFE], 1) == [1, 1, 1, 1, 1, 1, 1, 0]
    ensures Unpacked([0xFE], 2) == [3, 3, 3, 2]
    ensures Unpacked([0xFE], 3) == [7, 7, 4]
  {
    StreamOfFE();
    UnpackDepthOneFE();
    UnpackDepthTwoFE();
    UnpackDepthThreeFE();
  }

  lemma UnpackDepthOneFE()
    requires StreamBits([0xFE]) == [1, 1, 1, 1, 1, 1, 1, 0]
    ensures Unpacked([0xFE], 1) == [1, 1, 1, 1, 1, 1, 1, 0]
  {
    CeilDivExact(8, 1);
    RunStartsOfOne(8);
  }

  lemma UnpackDepthTwoFE()
    requires StreamBits([0xFE]) == [1, 1, 1, 1, 1, 1, 1, 0]
    ensures Unpacked([0xFE], 2) == [3, 3, 3, 2]
  {
    CeilDivExact(4, 2);
    assert RunStart(2, 1) == 2 && RunStart(2, 2) == 4 && RunStart(2, 3) == 6;
  }

  lemma UnpackDepthThreeFE()
    requires StreamBits([0xFE]) == [1, 1, 1, 1, 1, 1, 1, 0]
    ensures Unpacked([0xFE], 3) == [7, 7, 4]
  {
    assert CeilDiv(8, 3) == 3;
    assert RunStart(3, 1) == 3 && RunStart(3, 2) == 6;
  }

  // ---------------------------------------------------------------------------------------
  // bit_array_to_byte_array (font/bits_utils.py:76-95)

  /** The bytes `bit_array_to_byte_array` builds: the list padded with 0s to a multiple of 8,
      each run of 8 read with its first element most significant. */
  function Packed(bits: seq<int>): seq<int>
  {
    seq(CeilDiv(|bits|, 8), k requires 0 <= k < CeilDiv(|bits|, 8) => BigEndianBits(bits, 8 * k, 8))
  }

  lemma {:induction false} BigEndianBitsFirst(bits: seq<int>, q: nat, j: nat)
    ensures BigEndianBits(bits, q, j + 1) == Shl(PaddedAt(bits, q), j) + BigEndianBits(bits, q + 1, j)
  {
    if j > 0 {
      BigEndianBitsFirst(bits, q, j - 1);
    }
  }

  /** `bit_array_to_byte_array` as intended: `byte_array` starts as an empty list. */
  method BitArrayToByteArray(bitArray: seq<int>, byteOrderFlag: ByteOrder) returns (r: Result<seq<int>>)
    ensures byteOrderFlag != BigEndian ==> r == Err(AssertionFailed("byte_order_flag in [\"big\"]"))
    ensures byteOrderFlag == BigEndian ==> r == Ok(Packed(bitArray))
  {
    if byteOrderFlag != BigEndian {
      return Err(AssertionFailed("byte_order_flag in [\"big\"]"));
    }
    var bits := bitArray;
    while |bits| % 8 != 0
      invariant |bitArray| <= |bits| <= |bitArray| + (8 - |bitArray| % 8) % 8
      invariant forall t :: 0 <= t < |bits| ==> bits[t] == PaddedAt(bitArray, t)
      decreases |bitArray| + 7 - |bits|
    {
      bits := bits + [0];
    }
    ghost var m := |bits| / 8;
    assert |bits| == 8 * m;
    var byteArray: seq<int> := [];
    var i := 0;
    while i < |bits|
      invariant i == 8 * |byteArray| && |byteArray| <= m
      invariant forall k :: 0 <= k < |byteArray| ==> byteArray[k] == BigEndianBits(bitArray, 8 * k, 8)
      decreases |bits| - i
    {
      var val := 0;
      for j := 0 to 8
        invariant val == BigEndianBits(bitArray, i + 8 - j, j)
      {
        BigEndianBitsFirst(bitArray, i + 7 - j, j);
        val := val + Shl(bits[i + 7 - j], j);
      }
      byteArray := byteArray + [val];
      i := i + 8;
    }
    BytesArePacked(bitArray, |bits|, byteArray);
    return Ok(byteArray);
  }

  /** Bytes read from the padded list, one per run of 8, are the packed list. */
  lemma BytesArePacked(bitArray: seq<int>, n: nat, byteArray: seq<int>)
    requires |bitArray| <= n <= |bitArray| + (8 - |bitArray| % 8) % 8 && n % 8 == 0
    requires n == 8 * |byteArray|
    requires forall k :: 0 <= k < |byteArray| ==> byteArray[k] == BigEndianBits(bitArray, 8 * k, 8)
    ensures byteArray == Packed(bitArray)
  {
    RunStartIsProduct(8, |byteArray|);
    if |byteArray| > 0 {
      RunStartIsProduct(8, |byteArray| - 1);
    }
    CeilDivUnique(|bitArray|, 8, |byteArray|);
  }

  /** `bit_array_to_byte_array` as written: line 88 reads the local `byte_array` before it is
      assigned, so every call that passes the flag check raises. */
  function BitArrayToByteArrayAsWritten(bitArray: seq<int>, byteOrderFlag: ByteOrder): (r: Result<seq<int>>)
    ensures r.Err?
    ensures byteOrderFlag == BigEndian ==> r == Err(UnboundLocal("byte_array"))
  {
    if byteOrderFlag != BigEndian then Err(AssertionFailed("byte_order_flag in [\"big\"]"))
    else Err(UnboundLocal("byte_array"))
  }

  /** Unpacking at depth 1 and packing gives the bytes back. */
  lemma UnpackPackRoundTrip(bytes: seq<Byte>)
    ensures Packed(Unpacked(bytes, 1)) == bytes
  {
    var s := StreamBits(bytes);
    CeilDivExact(8 * |bytes|, 1);
    RunStartsOfOne(8 * |bytes|);
    CeilDivExact(|bytes|, 8);
    RunStartsOfOne(|bytes|);
    assert Unpacked(bytes, 1) == s;
    forall k | 0 <= k < |bytes|
      ensures Packed(s)[k] == bytes[k]
    {
      StreamByteTop(bytes, k, 8);
    }
  }

  /** As written, the round trip fails already on a single byte. */
  lemma PackAsWrittenBreaksRoundTrip()
    ensures BitArrayToByteArrayAsWritten(Unpacked([0xFE], 1), BigEndian).Err?
    ensures Packed(Unpacked([0xFE], 1)) == [0xFE]
  {
    UnpackPackRoundTrip([0xFE]);
  }
}
