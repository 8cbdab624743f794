/** The character maps (PAMC chunks) of an NFTR file: the `CMAP` class, which reads one
    map from the file, and `merge_CMAP`, which folds a list of maps into one dictionary
    from character code to (map index, tile number). */
module Cmaps {
  import opened Results
  import opened Bytes
  import opened FileCursor

  const PAMC: seq<Byte> := [0x50, 0x41, 0x4D, 0x43]

  /** What follows the 20-byte map header, by map type. */
  datatype MapBody =
    | Type0(tileNumForFirstChara: nat)                       // increasing tiles for a range
    | Type1(tileNums: seq<nat>)                              // one tile per character of a range
    | Type2(numOfCustomAssignedTiles: nat, customDict: map<nat, nat>)  // character/tile pairs
    | OtherType                                              // any other type: no body is read

  /** One `CMAP` object. Its attributes are set once, while it is read. */
  datatype Cmap = Cmap(chunkSize: nat, firstCharacter: nat, lastCharacter: nat, mapType: nat,
                       offsetToNextMapP8: nat, body: MapBody)
  {
    function NumOfCharacters(): int
    {
      lastCharacter - firstCharacter + 1
    }
  }

  /** The tile numbers of a type-1 map: n two-byte fields from position p on. */
  function TileNumsAt(data: seq<Byte>, order: ByteOrder, p: nat, n: nat): (r: seq<nat>)
    ensures |r| == n
    ensures forall k :: 0 <= k < n ==> r[k] == UIntAt(data, order, p + 2 * k, 2)
  {
    if n == 0 then [] else TileNumsAt(data, order, p, n - 1) + [UIntAt(data, order, p + 2 * (n - 1), 2)]
  }

  /** Character and tile of the k-th pair of a type-2 map whose pairs start at p. */
  function PairChar(data: seq<Byte>, order: ByteOrder, p: nat, k: nat): nat
  {
    UIntAt(data, order, p + 4 * k, 2)
  }

  function PairTile(data: seq<Byte>, order: ByteOrder, p: nat, k: nat): nat
  {
    UIntAt(data, order, p + 4 * k + 2, 2)
  }

  /** The dictionary of a type-2 map after its first n pairs are stored in order. */
  function DictAt(data: seq<Byte>, order: ByteOrder, p: nat, n: nat): (r: map<nat, nat>)
    ensures forall k :: 0 <= k < n ==> PairChar(data, order, p, k) in r
  {
    if n == 0 then map[]
    else DictAt(data, order, p, n - 1)[PairChar(data, order, p, n - 1) := PairTile(data, order, p, n - 1)]
  }

  /** A character stored by several pairs maps to the tile of the last of them. */
  lemma {:induction false} DictAtLastPairWins(data: seq<Byte>, order: ByteOrder, p: nat, n: nat, k: nat)
    requires k < n
    requires forall j :: k < j < n ==> PairChar(data, order, p, j) != PairChar(data, order, p, k)
    ensures DictAt(data, order, p, n)[PairChar(data, order, p, k)] == PairTile(data, order, p, k)
  {
    var c := PairChar(data, order, p, k);
    var prev := DictAt(data, order, p, n - 1);
    assert DictAt(data, order, p, n) == prev[PairChar(data, order, p, n - 1) := PairTile(data, order, p, n - 1)];
    if k < n - 1 {
      DictAtLastPairWins(data, order, p, n - 1, k);
      assert PairChar(data, order, p, n - 1) != c;
    }
  }

  /** Every key of the dictionary is the character of one of its pairs. */
  lemma {:induction false} DictAtKeys(data: seq<Byte>, order: ByteOrder, p: nat, n: nat, c: nat)
    requires c in DictAt(data, order, p, n)
    ensures exists k :: 0 <= k < n && PairChar(data, order, p, k) == c
  {
    if c != PairChar(data, order, p, n - 1) {
      DictAtKeys(data, order, p, n - 1, c);
    }
  }

  /** The map the `CMAP` constructor reads at `offset`. Every field is read at its place in
      the layout; a field past the end of the file reads as 0. */
  function CmapAt(data: seq<Byte>, order: ByteOrder, offset: int): (r: Result<Cmap>)
    ensures r.Ok? <==> 0 <= offset && ReadAt(data, offset, 4) == PAMC
    ensures r.Ok? ==> offset + 4 <= |data| && WellFormed(r.value)
    ensures offset < 0 ==> r == Err(NegativeSeek(offset))
  {
    if offset < 0 then Err(NegativeSeek(offset))
    else if ReadAt(data, offset, 4) != PAMC then Err(Raised("CMAP chunk format error"))
    else
      var first := UIntAt(data, order, offset + 8, 2);
      var last := UIntAt(data, order, offset + 10, 2);
      var mapType := UIntAt(data, order, offset + 12, 4);
      Ok(Cmap(UIntAt(data, order, offset + 4, 4), first, last, mapType, UIntAt(data, order, offset + 16, 4),
              BodyAt(data, order, offset + 20, first, last, mapType)))
  }

  /** Four bytes "PAMC" at p are the tag the map check compares against. */
  lemma TagIsPamc(data: seq<Byte>, p: nat)
    requires p + 4 <= |data|
    requires data[p] == 0x50 && data[p + 1] == 0x41 && data[p + 2] == 0x4D && data[p + 3] == 0x43
    ensures ReadAt(data, p, 4) == PAMC
  {
    var tag := ReadAt(data, p, 4);
    assert |tag| == 4 && tag[0] == data[p] && tag[1] == data[p + 1] && tag[2] == data[p + 2] && tag[3] == data[p + 3];
  }

  /** The next-map field of a map read at offset is the 4 bytes at offset + 10h. */
  lemma NextMapField(data: seq<Byte>, order: ByteOrder, offset: int)
    requires CmapAt(data, order, offset).Ok?
    ensures CmapAt(data, order, offset).value.offsetToNextMapP8 == UIntAt(data, order, offset + 16, 4)
  {
  }

  /** The body of a map whose header ends at p. */
  function BodyAt(data: seq<Byte>, order: ByteOrder, p: nat, first: nat, last: nat, mapType: nat): (body: MapBody)
    ensures body.Type0? <==> mapType == 0
    ensures body.Type1? <==> mapType == 1
    ensures body.Type2? <==> mapType == 2
    ensures body.Type1? ==> |body.tileNums| == if last - first + 1 > 0 then last - first + 1 else 0
  {
    if mapType == 0 then Type0(UIntAt(data, order, p, 2))
    else if mapType == 1 then
      Type1(TileNumsAt(data, order, p, if last - first + 1 > 0 then last - first + 1 else 0))
    else if mapType == 2 then
      var n := UIntAt(data, order, p, 2);
      Type2(n, DictAt(data, order, p + 2, n))
    else OtherType
  }

  /** The body agrees with the map type, and a type-1 map has one tile per character. */
  predicate WellFormed(m: Cmap)
  {
    && (m.body.Type0? <==> m.mapType == 0)
    && (m.body.Type1? <==> m.mapType == 1)
    && (m.body.Type2? <==> m.mapType == 2)
    && (m.body.Type1? ==> |m.body.tileNums| == if m.NumOfCharacters() > 0 then m.NumOfCharacters() else 0)
  }

  /** Bytes the constructor consumes: the header, the body and its padding. */
  function CmapLength(m: Cmap): nat
  {
    20 + BodyLength(m.body)
  }

  function BodyLength(body: MapBody): nat
  {
    match body
      case Type0(_) => 4
      case Type1(tileNums) => 2 * |tileNums| + (if |tileNums| % 4 != 0 then 2 else 0)
      case Type2(n, _) => 2 + 4 * n + 2
      case OtherType => 0
  }

  /** The `CMAP` constructor: seek to `offset` and read one map. */
  method ReadCmap(fp: ByteFile, offset: int, order: ByteOrder) returns (r: Result<Cmap>)
    modifies fp
    ensures r == CmapAt(fp.data, order, offset)
    ensures r.Ok? ==> fp.pos == Min(offset + CmapLength(r.value), |fp.data|)
  {
    var o := fp.Seek(offset);
    if o.Fail? {
      return Err(o.error);
    }
    var tag := fp.Read(4);
    if tag != PAMC {
      return Err(Raised("CMAP chunk format error"));
    }
    var chunkSize := ReadUInt(fp, order, offset + 4, 4);
    var first := ReadUInt(fp, order, offset + 8, 2);
    var last := ReadUInt(fp, order, offset + 10, 2);
    var mapType := ReadUInt(fp, order, offset + 12, 4);
    var next := ReadUInt(fp, order, offset + 16, 4);
    var body := ReadBody(fp, order, offset + 20, first, last, mapType);
    return Ok(Cmap(chunkSize, first, last, mapType, next, body));
  }

  /** The part of the constructor that depends on the map type. */
  method ReadBody(fp: ByteFile, order: ByteOrder, p: nat, first: nat, last: nat, mapType: nat)
    returns (body: MapBody)
    requires fp.pos == Min(p, |fp.data|)
    modifies fp
    ensures body == BodyAt(fp.data, order, p, first, last, mapType)
    ensures fp.pos == Min(p + BodyLength(body), |fp.data|)
  {
    var numOfCharacters := (last as int) - first + 1;
    if mapType == 0 {
      var tileNum := ReadUInt(fp, order, p, 2);
      body := Type0(tileNum);
      var padding := fp.Read(2);
    } else if mapType == 1 {
      var tileNums := ReadTileNums(fp, order, p, if numOfCharacters > 0 then numOfCharacters else 0);
      if |tileNums| % 4 != 0 {
        var padding := fp.Read(2);
      }
      body := Type1(tileNums);
    } else if mapType == 2 {
      var n := ReadUInt(fp, order, p, 2);
      var customDict := ReadCustomDict(fp, order, p + 2, n);
      var padding := fp.Read(2);
      body := Type2(n, customDict);
    } else {
      body := OtherType;
    }
  }

  /** `bytes_to_int(fp.read(k))` with the position at p, or at the end of the file when p is
      past it. */
  method ReadUInt(fp: ByteFile, order: ByteOrder, p: nat, k: nat) returns (v: nat)
    requires fp.pos == Min(p, |fp.data|)
    modifies fp
    ensures v == UIntAt(fp.data, order, p, k)
    ensures fp.pos == Min(p + k, |fp.data|)
  {
    var b := fp.Read(k);
    v := FromBytes(b, order);
  }

  /** The loop of a type-1 map: one two-byte tile number per character. */
  method ReadTileNums(fp: ByteFile, order: ByteOrder, p: nat, n: nat) returns (tileNums: seq<nat>)
    requires fp.pos == Min(p, |fp.data|)
    modifies fp
    ensures tileNums == TileNumsAt(fp.data, order, p, n)
    ensures fp.pos == Min(p + 2 * n, |fp.data|)
  {
    tileNums := [];
    for i := 0 to n
      invariant tileNums == TileNumsAt(fp.data, order, p, i)
      invariant fp.pos == Min(p + 2 * i, |fp.data|)
    {
      var tileNum := ReadUInt(fp, order, p + 2 * i, 2);
      tileNums := tileNums + [tileNum];
    }
  }

  /** The loop of a type-2 map: n character/tile pairs stored in order. */
  method ReadCustomDict(fp: ByteFile, order: ByteOrder, p: nat, n: nat) returns (customDict: map<nat, nat>)
    requires fp.pos == Min(p, |fp.data|)
    modifies fp
    ensures customDict == DictAt(fp.data, order, p, n)
    ensures fp.pos == Min(p + 4 * n, |fp.data|)
  {
    customDict := map[];
    for i := 0 to n
      invariant customDict == DictAt(fp.data, order, p, i)
      invariant fp.pos == Min(p + 4 * i, |fp.data|)
    {
      var charNo := ReadUInt(fp, order, p + 4 * i, 2);
      var tileNo := ReadUInt(fp, order, p + 4 * i + 2, 2);
      DictAtNext(fp.data, order, p, i, charNo, tileNo);
      customDict := customDict[charNo := tileNo];
    }
  }

  /** Storing pair i, read as charNo and tileNo, extends the dictionary of the first i pairs. */
  lemma DictAtNext(data: seq<Byte>, order: ByteOrder, p: nat, i: nat, charNo: nat, tileNo: nat)
    requires charNo == UIntAt(data, order, p + 4 * i, 2) && tileNo == UIntAt(data, order, p + 4 * i + 2, 2)
    ensures DictAt(data, order, p, i + 1) == DictAt(data, order, p, i)[charNo := tileNo]
  {
    assert PairChar(data, order, p, i) == charNo && PairTile(data, order, p, i) == tileNo;
  }

  /** The tile a map assigns to character c, if it assigns one. */
  function TileFor(m: Cmap, c: nat): Option<nat>
  {
    match m.body
    case Type0(base) =>
      if m.firstCharacter <= c <= m.lastCharacter then Some(base + (c - m.firstCharacter)) else None
    case Type1(tileNums) =>
      if m.firstCharacter <= c <= m.lastCharacter && c - m.firstCharacter < |tileNums|
      then Some(tileNums[c - m.firstCharacter]) else None
    case Type2(_, customDict) =>
      if c in customDict then Some(customDict[c]) else None
    case OtherType => None
  }

  /** A finite set that holds every character a map assigns. */
  function Candidates(m: Cmap): set<nat>
  {
    match m.body
    case Type2(_, customDict) => customDict.Keys
    case OtherType => {}
    case _ => RangeSet(m.firstCharacter, m.lastCharacter + 1 - m.firstCharacter)
  }

  /** The n characters from lo on. */
  function RangeSet(lo: nat, n: int): (r: set<nat>)
    ensures forall c :: c in r <==> lo <= c < lo + n
    decreases n
  {
    if n <= 0 then {} else RangeSet(lo, n - 1) + {lo + n - 1}
  }

  /** The entries map number i adds to the merged dictionary. */
  function Assignments(m: Cmap, i: nat): (a: map<nat, (nat, nat)>)
    ensures forall c :: c in a <==> TileFor(m, c).Some?
    ensures forall c :: c in a ==> a[c] == (i, TileFor(m, c).value)
  {
    map c | c in Candidates(m) && TileFor(m, c).Some? :: (i, TileFor(m, c).value)
  }

  /** The dictionary `merge_CMAP` returns: each map in turn overwrites the entries of the
      characters it assigns. */
  function Merged(cmaps: seq<Cmap>): map<nat, (nat, nat)>
  {
    if cmaps == [] then map[]
    else Merged(cmaps[..|cmaps| - 1]) + Assignments(cmaps[|cmaps| - 1], |cmaps| - 1)
  }

  /** Reference reading of the merged dictionary: the last map that assigns c, searched from
      the end of the list, and the tile it assigns. */
  function LastAssigned(cmaps: seq<Cmap>, c: nat): (r: Option<(nat, nat)>)
    ensures r.Some? ==> r.value.0 < |cmaps| && TileFor(cmaps[r.value.0], c) == Some(r.value.1)
    ensures r.Some? ==> forall j :: r.value.0 < j < |cmaps| ==> TileFor(cmaps[j], c).None?
    ensures r.None? ==> forall j :: 0 <= j < |cmaps| ==> TileFor(cmaps[j], c).None?
  {
    if cmaps == [] then None
    else match TileFor(cmaps[|cmaps| - 1], c)
      case Some(t) => Some((|cmaps| - 1, t))
      case None => LastAssigned(cmaps[..|cmaps| - 1], c)
  }

  /** A character is in the merged dictionary exactly when some map assigns it, and its
      entry is the map index and tile of the last map that does. */
  lemma {:induction false} MergedIsLastAssigned(cmaps: seq<Cmap>, c: nat)
    ensures c in Merged(cmaps) <==> LastAssigned(cmaps, c).Some?
    ensures c in Merged(cmaps) ==> Merged(cmaps)[c] == LastAssigned(cmaps, c).value
  {
    if cmaps != [] {
      MergedIsLastAssigned(cmaps[..|cmaps| - 1], c);
    }
  }

  /** Every entry of the merged dictionary names a map of the list. */
  lemma MergedIndexInRange(cmaps: seq<Cmap>, c: nat)
    requires c in Merged(cmaps)
    ensures Merged(cmaps)[c].0 < |cmaps|
    ensures TileFor(cmaps[Merged(cmaps)[c].0], c) == Some(Merged(cmaps)[c].1)
  {
    MergedIsLastAssigned(cmaps, c);
  }

  /** `merge_CMAP` with its type-2 branch storing `custom_dict[chara]`; see MergeCmapsAsWritten
      for the branch as written. */
  method MergeCmaps(cmaps: seq<Cmap>) returns (retDict: map<nat, (nat, nat)>)
    requires forall k :: 0 <= k < |cmaps| ==> WellFormed(cmaps[k])
    ensures retDict == Merged(cmaps)
  {
    retDict := map[];
    for i := 0 to |cmaps|
      invariant retDict == Merged(cmaps[..i])
    {
      assert cmaps[..i + 1][..i] == cmaps[..i];
      retDict := MergeOne(retDict, cmaps[i], i);
    }
    assert cmaps[..|cmaps|] == cmaps;
  }

  /** One pass of the outer loop of `merge_CMAP`: map i overwrites what it assigns. */
  method MergeOne(prev: map<nat, (nat, nat)>, m: Cmap, i: nat) returns (retDict: map<nat, (nat, nat)>)
    requires WellFormed(m)
    ensures retDict == prev + Assignments(m, i)
  {
    if m.mapType == 0 {
      retDict := MergeType0(prev, m, i);
    } else if m.mapType == 1 {
      retDict := MergeType1(prev, m, i);
    } else if m.mapType == 2 {
      retDict := MergeType2(prev, m, i);
    } else {
      retDict := prev;
      assert Assignments(m, i) == map[];
    }
  }

  method MergeType0(prev: map<nat, (nat, nat)>, m: Cmap, i: nat) returns (retDict: map<nat, (nat, nat)>)
    requires m.body.Type0?
    ensures retDict == prev + Assignments(m, i)
  {
    retDict := prev;
    var first, last := m.firstCharacter, m.lastCharacter;
    var tileNum := m.body.tileNumForFirstChara;
    if first <= last {
      for chara := first to last + 1
        invariant forall c :: c in retDict <==> c in prev || first <= c < chara
        invariant forall c :: c in retDict ==>
          retDict[c] == if first <= c < chara then (i, m.body.tileNumForFirstChara + (c - first)) else prev[c]
        invariant tileNum == m.body.tileNumForFirstChara + (chara - first)
      {
        retDict := retDict[chara := (i, tileNum)];
        tileNum := tileNum + 1;
      }
    }
    SameMap(retDict, prev + Assignments(m, i));
  }

  method MergeType1(prev: map<nat, (nat, nat)>, m: Cmap, i: nat) returns (retDict: map<nat, (nat, nat)>)
    requires m.body.Type1? && WellFormed(m)
    ensures retDict == prev + Assignments(m, i)
  {
    retDict := prev;
    var first, last := m.firstCharacter, m.lastCharacter;
    var tileNums := m.body.tileNums;
    var tileNumIdx := 0;
    if first <= last {
      for chara := first to last + 1
        invariant forall c :: c in retDict <==> c in prev || first <= c < chara
        invariant forall c :: c in retDict ==>
          retDict[c] == if first <= c < chara then (i, tileNums[c - first]) else prev[c]
        invariant tileNumIdx == chara - first
      {
        retDict := retDict[chara := (i, tileNums[tileNumIdx])];
        tileNumIdx := tileNumIdx + 1;
      }
    }
    SameMap(retDict, prev + Assignments(m, i));
  }

  method MergeType2(prev: map<nat, (nat, nat)>, m: Cmap, i: nat) returns (retDict: map<nat, (nat, nat)>)
    requires m.body.Type2?
    ensures retDict == prev + Assignments(m, i)
  {
    retDict := prev;
    var customDict := m.body.customDict;
    var keys := customDict.Keys;
    while keys != {}
      invariant keys <= customDict.Keys
      invariant forall c :: c in retDict <==> c in prev || (c in customDict && c !in keys)
      invariant forall c :: c in retDict ==>
        retDict[c] == if c in customDict && c !in keys then (i, customDict[c]) else prev[c]
      decreases |keys|
    {
      var chara :| chara in keys;
      retDict := retDict[chara := (i, customDict[chara])];
      keys := keys - {chara};
    }
    Type2DoneIsAssigned(prev, retDict, m, i);
  }

  /** Once every key of a type-2 map is stored, the dictionary is prev with the map's
      assignments written over it. */
  lemma Type2DoneIsAssigned(prev: map<nat, (nat, nat)>, retDict: map<nat, (nat, nat)>, m: Cmap, i: nat)
    requires m.body.Type2?
    requires forall c :: c in retDict <==> c in prev || c in m.body.customDict
    requires forall c :: c in retDict ==> retDict[c] == if c in m.body.customDict then (i, m.body.customDict[c]) else prev[c]
    ensures retDict == prev + Assignments(m, i)
  {
    SameMap(retDict, prev + Assignments(m, i));
  }

  /** Maps with the same keys and the same value at every key are equal. */
  lemma SameMap(a: map<nat, (nat, nat)>, b: map<nat, (nat, nat)>)
    requires forall c :: c in a <==> c in b
    requires forall c :: c in a ==> a[c] == b[c]
    ensures a == b
  {
  }

  /** A type-2 map with at least one character/tile pair. */
  predicate HasPairs(m: Cmap)
  {
    m.body.Type2? && |m.body.customDict| > 0
  }

  /** `merge_CMAP` as written: the type-2 branch reads `cmaps[i][chara]`, indexing the map
      object rather than its dictionary, which raises as soon as a type-2 map has a pair. */
  function MergeCmapsAsWritten(cmaps: seq<Cmap>): (r: Result<map<nat, (nat, nat)>>)
    ensures r.Err? <==> exists k :: 0 <= k < |cmaps| && HasPairs(cmaps[k])
    ensures r.Err? ==> r.error == NotSubscriptable
    ensures r.Ok? ==> r.value == Merged(cmaps)
  {
    if cmaps == [] then Ok(map[])
    else
      var prefix := cmaps[..|cmaps| - 1];
      var last := cmaps[|cmaps| - 1];
      assert forall k :: 0 <= k < |prefix| ==> prefix[k] == cmaps[k];
      match MergeCmapsAsWritten(prefix)
      case Err(e) => Err(e)
      case Ok(d) => if HasPairs(last) then Err(NotSubscriptable) else Ok(d + Assignments(last, |cmaps| - 1))
  }

  /** A single type-2 map with the pairs 200 -> 3 and 9 -> 1: as written the merge raises,
      while the dictionary it is meant to build maps 200 to tile 3 of map 0. */
  lemma PairsBreakMerge()
    ensures var m := Cmap(32, 0, 0xFFFF, 2, 0, Type2(2, map[200 := 3, 9 := 1]));
            MergeCmapsAsWritten([m]) == Err(NotSubscriptable) && Merged([m])[200] == (0, 3)
              && Merged([m])[9] == (0, 1) && Merged([m]).Keys == {200, 9}
  {
    var m := Cmap(32, 0, 0xFFFF, 2, 0, Type2(2, map[200 := 3, 9 := 1]));
    assert HasPairs([m][0]);
    MergedSingle(m);
    assert TileFor(m, 200) == Some(3) && TileFor(m, 9) == Some(1);
    assert forall c :: c in Merged([m]) <==> c == 200 || c == 9;
  }

  /** The merge of a single map is that map's assignments. */
  lemma MergedSingle(m: Cmap)
    ensures Merged([m]) == Assignments(m, 0)
  {
    assert [m][..0] == [];
    assert map[] + Assignments(m, 0) == Assignments(m, 0);
  }

  /** A type-0 map gives increasing tiles to its range and nothing outside it. */
  lemma Type0Example()
    ensures var m := Cmap(24, 0x20, 0x24, 0, 0, Type0(10));
            Merged([m])[0x20] == (0, 10) && Merged([m])[0x22] == (0, 12) && Merged([m])[0x24] == (0, 14)
              && 0x25 !in Merged([m]) && 0x1F !in Merged([m])
  {
    var m := Cmap(24, 0x20, 0x24, 0, 0, Type0(10));
    assert [m][..0] == [];
    assert Merged([m]) == map[] + Assignments(m, 0);
  }

  /** A type-1 entry FFFFh ("no tile") is stored as tile number 0xFFFF. */
  lemma Type1KeepsNoTileMarker()
    ensures var m := Cmap(28, 5, 7, 1, 0, Type1([5, 0xFFFF, 7]));
            Merged([m])[5] == (0, 5) && Merged([m])[6] == (0, 0xFFFF) && Merged([m])[7] == (0, 7)
  {
    var m := Cmap(28, 5, 7, 1, 0, Type1([5, 0xFFFF, 7]));
    assert [m][..0] == [];
    assert Merged([m]) == map[] + Assignments(m, 0);
  }

  /** A later map overrides an earlier one only on the characters it assigns. */
  lemma LaterMapOverrides()
    ensures var m0 := Cmap(24, 0x20, 0x24, 0, 0, Type0(10));
            var m1 := Cmap(28, 0, 0xFFFF, 2, 0, Type2(1, map[0x21 := 99]));
            Merged([m0, m1])[0x21] == (1, 99) && Merged([m0, m1])[0x20] == (0, 10)
  {
    var m0 := Cmap(24, 0x20, 0x24, 0, 0, Type0(10));
    var m1 := Cmap(28, 0, 0xFFFF, 2, 0, Type2(1, map[0x21 := 99]));
    assert [m0, m1][..1] == [m0];
    assert [m0][..0] == [];
    assert Merged([m0]) == map[] + Assignments(m0, 0);
    assert Merged([m0, m1]) == Merged([m0]) + Assignments(m1, 1);
  }
}
