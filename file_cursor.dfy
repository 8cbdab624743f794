/** The open file `fp` the decoder reads from: a fixed byte string and a position. */
module FileCursor {
  import opened Results
  import opened Bytes

  function Min(a: int, b: int): (m: int)
    ensures m <= a && m <= b
    ensures m == a || m == b
  {
    if a <= b then a else b
  }

  /** The bytes `read(k)` returns when the position is pos: the next k bytes, fewer at the
      end of the file, none once the position is at or past the end. */
  function ReadAt(data: seq<Byte>, pos: nat, k: nat): (r: seq<Byte>)
    ensures |r| == if pos >= |data| then 0 else Min(k, |data| - pos)
  {
    data[Min(pos, |data|)..Min(pos + k, |data|)]
  }

  /** Byte i of what `read(k)` returns is byte pos + i of the file. */
  lemma ReadAtBytes(data: seq<Byte>, pos: nat, k: nat)
    ensures forall i :: 0 <= i < |ReadAt(data, pos, k)| ==> ReadAt(data, pos, k)[i] == data[pos + i]
  {
  }

  /** `int.from_bytes(fp.read(k), order)` with the position at pos. */
  function UIntAt(data: seq<Byte>, order: ByteOrder, pos: nat, k: nat): (v: nat)
    ensures v < Pow256(k)
  {
    var bts := ReadAt(data, pos, k);
    FromBytesBound(bts, order);
    Pow256Monotone(|bts|, k);
    FromBytes(bts, order)
  }

  lemma {:induction false} Pow256Monotone(a: nat, b: nat)
    requires a <= b
    ensures Pow256(a) <= Pow256(b)
  {
    if a < b {
      Pow256Monotone(a, b - 1);
    }
  }

  /** The open file. Seeking past the end is allowed, as for a Python binary file; reading
      there returns nothing and leaves the position where it is. */
  class ByteFile {
    const data: seq<Byte>
    var pos: nat

    constructor (contents: seq<Byte>)
      ensures data == contents && pos == 0
    {
      data := contents;
      pos := 0;
    }

    /** `fp.seek(offset, os.SEEK_SET)`: a negative position is a ValueError. */
    method Seek(offset: int) returns (o: Outcome)
      modifies this
      ensures offset < 0 ==> o == Fail(NegativeSeek(offset)) && pos == old(pos)
      ensures offset >= 0 ==> o == Pass && pos == offset
    {
      if offset < 0 {
        return Fail(NegativeSeek(offset));
      }
      pos := offset;
      return Pass;
    }

    /** `fp.read(k)`: the bytes at the position, which then moves past them. */
    method Read(k: nat) returns (bts: seq<Byte>)
      modifies this
      ensures bts == ReadAt(data, old(pos), k)
      ensures pos == old(pos) + |bts|
      ensures old(pos) <= |data| ==> pos == Min(old(pos) + k, |data|)
    {
      bts := data[Min(pos, |data|)..Min(pos + k, |data|)];
      pos := pos + |bts|;
    }

    /** `fp.tell()`. */
    function Tell(): nat
      reads this
    {
      pos
    }
  }

  /** `fp.read(k)` when the position is p, or the end of the file if p is past it. */
  method ReadBytesAt(fp: ByteFile, p: nat, k: nat) returns (bts: seq<Byte>)
    requires fp.pos == Min(p, |fp.data|)
    modifies fp
    ensures bts == ReadAt(fp.data, p, k)
    ensures fp.pos == Min(p + k, |fp.data|)
  {
    bts := fp.Read(k);
  }
}
