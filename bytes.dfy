/** Bytes and the multi-byte integers of the file (`int.from_bytes`). */
module Bytes {

  type Byte = b: int | 0 <= b < 256

  /** The byte order of every multi-byte integer, fixed by the header's marker. */
  datatype ByteOrder = LittleEndian | BigEndian

  function Pow256(n: nat): (r: nat)
    ensures r >= 1
  {
    if n == 0 then 1 else 256 * Pow256(n - 1)
  }

  function Reversed(s: seq<Byte>): (r: seq<Byte>)
    ensures |r| == |s|
  {
    if s == [] then [] else Reversed(s[1..]) + [s[0]]
  }

  /** Value of the bytes with the first one least significant. */
  function LittleValue(bts: seq<Byte>): nat
  {
    if bts == [] then 0 else bts[0] + 256 * LittleValue(bts[1..])
  }

  /** Value of the bytes with the first one most significant. */
  function BigValue(bts: seq<Byte>): nat
  {
    if bts == [] then 0 else 256 * BigValue(bts[..|bts| - 1]) + bts[|bts| - 1]
  }

  /** `int.from_bytes(bts, order)`; the empty sequence (a read at the end of the file) gives 0. */
  function FromBytes(bts: seq<Byte>, order: ByteOrder): nat
  {
    match order
    case LittleEndian => LittleValue(bts)
    case BigEndian => BigValue(bts)
  }

  lemma {:induction false} LittleValueBound(bts: seq<Byte>)
    ensures LittleValue(bts) < Pow256(|bts|)
  {
    if bts != [] {
      LittleValueBound(bts[1..]);
    }
  }

  lemma {:induction false} BigValueBound(bts: seq<Byte>)
    ensures BigValue(bts) < Pow256(|bts|)
  {
    if bts != [] {
      BigValueBound(bts[..|bts| - 1]);
    }
  }

  /** A decoded k-byte field is below 256^k in either byte order. */
  lemma FromBytesBound(bts: seq<Byte>, order: ByteOrder)
    ensures FromBytes(bts, order) < Pow256(|bts|)
  {
    LittleValueBound(bts);
    BigValueBound(bts);
  }

  /** The two byte orders read the same bytes in opposite directions. */
  lemma {:induction false} LittleIsReversedBig(bts: seq<Byte>)
    ensures LittleValue(bts) == BigValue(Reversed(bts))
  {
    if bts != [] {
      LittleIsReversedBig(bts[1..]);
      var rev := Reversed(bts[1..]) + [bts[0]];
      assert rev[..|rev| - 1] == Reversed(bts[1..]);
    }
  }

  /** The marker bytes FF FE decode as 0xFEFF little-endian and as 0xFFFE big-endian. */
  lemma MarkerValues()
    ensures FromBytes([0xFF, 0xFE], LittleEndian) == 0xFEFF
    ensures FromBytes([0xFF, 0xFE], BigEndian) == 0xFFFE
    ensures FromBytes([], LittleEndian) == 0 && FromBytes([], BigEndian) == 0
  {
    assert [0xFF, 0xFE][1..] == [0xFE];
    assert [0xFF, 0xFE][..1] == [0xFF];
    assert [0xFE][1..] == [];
    assert [0xFF][..0] == [];
  }
}
