/**
 What a packed run of control messages means. Padding bytes carry nothing:
 a buffer that reuses capacity keeps stale bytes there.
 */
module CmsgStream {
  import opened CmsgLayout
  import opened Wrappers

  function Space(abi: Abi, r: Record): nat {
    CmsgSpace(abi, |r.payload|)
  }

  function TotalSpace(abi: Abi, recs: seq<Record>): nat {
    if recs == [] then 0 else Space(abi, recs[0]) + TotalSpace(abi, recs[1..])
  }

  // The bytes of struct cmsghdr for a payload of n bytes.
  function HeaderBytes(abi: Abi, r: Record): (bs: seq<byte>)
    ensures |bs| == HeaderSize(abi)
  {
    Encode(CmsgLen(abi, |r.payload|), abi.lenSize) + EncodeInt32(r.level) + EncodeInt32(r.kind)
  }

  // Field reads of the header at the start of bs.
  function LenField(abi: Abi, bs: seq<byte>): nat
    requires HeaderSize(abi) <= |bs|
  {
    Decode(bs[..abi.lenSize])
  }

  function LevelField(abi: Abi, bs: seq<byte>): int32
    requires HeaderSize(abi) <= |bs|
  {
    DecodeInt32(bs[abi.lenSize..abi.lenSize + 4])
  }

  function KindField(abi: Abi, bs: seq<byte>): int32
    requires HeaderSize(abi) <= |bs|
  {
    DecodeInt32(bs[abi.lenSize + 4..HeaderSize(abi)])
  }

  // The record of a header whose cmsg_len stays inside bs.
  function ReadRecord(abi: Abi, bs: seq<byte>): Record
    requires HeaderSize(abi) <= |bs| && CmsgLen(abi, 0) <= LenField(abi, bs) <= |bs|
  {
    Record(LevelField(abi, bs), KindField(abi, bs), bs[CmsgLen(abi, 0)..LenField(abi, bs)])
  }

  // The first Space(r) bytes of bs read back as r.
  ghost predicate StartsWith(abi: Abi, bs: seq<byte>, r: Record) {
    && HeaderSize(abi) <= CmsgLen(abi, 0)
    && CmsgLen(abi, |r.payload|) <= Space(abi, r) <= |bs|
    && LenField(abi, bs) == CmsgLen(abi, |r.payload|)
    && ReadRecord(abi, bs) == r
  }

  // bs is exactly the packed form of recs, in order.
  ghost predicate Holds(abi: Abi, bs: seq<byte>, recs: seq<Record>)
    decreases |recs|
  {
    if recs == [] then
      bs == []
    else
      StartsWith(abi, bs, recs[0]) && Holds(abi, bs[Space(abi, recs[0])..], recs[1..])
  }

  // Writing header and payload makes a block read back as r, whatever its padding holds.
  lemma WrittenStarts(abi: Abi, block: seq<byte>, r: Record)
    requires |block| == Space(abi, r) && Space(abi, r) < Pow256(abi.lenSize)
    requires HeaderBytes(abi, r) <= block
    requires CmsgLen(abi, |r.payload|) <= |block|
    requires block[CmsgLen(abi, 0)..CmsgLen(abi, |r.payload|)] == r.payload
    ensures StartsWith(abi, block, r)
  {
    AlignOfLenIsSpace(abi, |r.payload|);
    var h := HeaderBytes(abi, r);
    assert forall i :: 0 <= i < |h| ==> block[i] == h[i];
    assert block[..abi.lenSize] == Encode(CmsgLen(abi, |r.payload|), abi.lenSize);
    assert block[abi.lenSize..abi.lenSize + 4] == EncodeInt32(r.level);
    assert block[abi.lenSize + 4..HeaderSize(abi)] == EncodeInt32(r.kind);
    DecodeEncode(CmsgLen(abi, |r.payload|), abi.lenSize);
    DecodeEncodeInt32(r.level);
    DecodeEncodeInt32(r.kind);
  }

  lemma StartsWithExtends(abi: Abi, bs: seq<byte>, more: seq<byte>, r: Record)
    requires StartsWith(abi, bs, r)
    ensures StartsWith(abi, bs + more, r)
  {
    var all := bs + more;
    assert forall i, j :: 0 <= i <= j <= |bs| ==> all[i..j] == bs[i..j];
    assert all[..abi.lenSize] == all[0..abi.lenSize] == bs[0..abi.lenSize] == bs[..abi.lenSize];
  }

  lemma SpaceFits(abi: Abi, bs: seq<byte>, r: Record)
    requires StartsWith(abi, bs, r)
    ensures Space(abi, r) <= |bs|
  {
  }

  lemma HoldsRest(abi: Abi, bs: seq<byte>, recs: seq<Record>)
    requires Holds(abi, bs, recs) && recs != []
    ensures StartsWith(abi, bs, recs[0]) && Space(abi, recs[0]) <= |bs|
    ensures Holds(abi, bs[Space(abi, recs[0])..], recs[1..])
  {
  }

  lemma {:induction false} HoldsAppend(abi: Abi, bs: seq<byte>, recs: seq<Record>, block: seq<byte>, r: Record)
    requires Holds(abi, bs, recs)
    requires |block| == Space(abi, r) && StartsWith(abi, block, r)
    ensures Holds(abi, bs + block, recs + [r])
    decreases |recs|
  {
    hide StartsWith, Space;
    if recs == [] {
      assert bs + block == block;
      assert block[Space(abi, r)..] == [];
      assert (recs + [r])[1..] == [];
    } else {
      var k := Space(abi, recs[0]);
      assert k <= |bs| by { SpaceFits(abi, bs, recs[0]); }
      StartsWithExtends(abi, bs, block, recs[0]);
      HoldsAppend(abi, bs[k..], recs[1..], block, r);
      assert (bs + block)[k..] == bs[k..] + block;
      assert (recs + [r])[1..] == recs[1..] + [r];
    }
  }

  lemma {:induction false} HoldsSize(abi: Abi, bs: seq<byte>, recs: seq<Record>)
    requires Holds(abi, bs, recs)
    ensures |bs| == TotalSpace(abi, recs)
    ensures Aligned(abi, |bs|)
    decreases |recs|
  {
    if recs == [] {
      MultipleIsAligned(abi, 0);
    } else {
      var k := Space(abi, recs[0]);
      HoldsSize(abi, bs[k..], recs[1..]);
      AlignOfLenIsSpace(abi, |recs[0].payload|);
      AlignedSum(abi, k, |bs| - k);
    }
  }

  // The packed form determines the records: no second reading exists.
  lemma {:induction false} HoldsUnique(abi: Abi, bs: seq<byte>, recs: seq<Record>, others: seq<Record>)
    requires Holds(abi, bs, recs) && Holds(abi, bs, others)
    ensures recs == others
    decreases |recs|
  {
    if recs != [] && others != [] {
      assert CmsgLen(abi, |recs[0].payload|) == CmsgLen(abi, |others[0].payload|);
      assert recs[0] == others[0];
      HoldsUnique(abi, bs[Space(abi, recs[0])..], recs[1..], others[1..]);
      assert recs == [recs[0]] + recs[1..] && others == [others[0]] + others[1..];
    }
  }

  // Dropping the first n records leaves the packed form of the rest, at an aligned offset.
  lemma {:induction false} HoldsDrop(abi: Abi, bs: seq<byte>, recs: seq<Record>, n: nat)
    requires Holds(abi, bs, recs) && n <= |recs|
    ensures TotalSpace(abi, recs[..n]) <= |bs|
    ensures Aligned(abi, TotalSpace(abi, recs[..n]))
    ensures Holds(abi, bs[TotalSpace(abi, recs[..n])..], recs[n..])
    decreases n
  {
    hide Align, Aligned, ReadRecord, LenField;
    if n == 0 {
      MultipleIsAligned(abi, 0);
      assert bs[0..] == bs && recs[0..] == recs;
    } else {
      var k := Space(abi, recs[0]);
      HoldsDrop(abi, bs[k..], recs[1..], n - 1);
      assert recs[..n][1..] == recs[1..][..n - 1];
      assert recs[1..][n - 1..] == recs[n..];
      var t := TotalSpace(abi, recs[1..][..n - 1]);
      assert bs[k..][t..] == bs[k + t..];
      AlignOfLenIsSpace(abi, |recs[0].payload|);
      AlignedSum(abi, k, t);
    }
  }

  // ----- the macros over a control buffer, as offsets -----

  // CMSG_FIRSTHDR
  function FirstHdr(abi: Abi, control: seq<byte>): Option<nat> {
    if HeaderSize(abi) <= |control| then Some(0) else None
  }

  // CMSG_NXTHDR
  function NextHdr(abi: Abi, control: seq<byte>, at: nat): Option<nat>
    requires at + HeaderSize(abi) <= |control|
  {
    var next := at + Align(abi, LenField(abi, control[at..]));
    if |control| < next + Align(abi, HeaderSize(abi)) then None else Some(next)
  }

  // CMSG_FIRSTHDR finds a header exactly when a record is pending, and it is the first.
  lemma FirstHdrFinds(abi: Abi, control: seq<byte>, recs: seq<Record>)
    requires Holds(abi, control, recs)
    ensures FirstHdr(abi, control) == if recs == [] then None else Some(0)
    ensures recs != [] ==> StartsWith(abi, control, recs[0])
  {
  }

  // The fields of the first header give its record.
  lemma FirstFields(abi: Abi, control: seq<byte>, r: Record)
    requires StartsWith(abi, control, r)
    ensures HeaderSize(abi) <= |control| && CmsgLen(abi, 0) <= LenField(abi, control) <= |control|
    ensures var n := LenField(abi, control) - CmsgLen(abi, 0);
      && n == |r.payload| && control[CmsgLen(abi, 0)..CmsgLen(abi, 0) + n] == r.payload
      && LevelField(abi, control) == r.level && KindField(abi, control) == r.kind
  {
    AlignOfLenIsSpace(abi, |r.payload|);
  }

  // Seen from a header, there is room for another exactly when another record follows.
  lemma RoomForNext(abi: Abi, bs: seq<byte>, recs: seq<Record>)
    requires Holds(abi, bs, recs) && recs != []
    ensures HeaderSize(abi) <= |bs| && CmsgLen(abi, 0) <= LenField(abi, bs) <= |bs|
    ensures ReadRecord(abi, bs) == recs[0]
    ensures Align(abi, LenField(abi, bs)) == Space(abi, recs[0])
    ensures |bs| < Space(abi, recs[0]) + Align(abi, HeaderSize(abi)) <==> |recs| == 1
  {
    AlignOfLenIsSpace(abi, |recs[0].payload|);
    if |recs| == 1 {
      AlignBounds(abi, HeaderSize(abi));
    } else {
      AlignOfLenIsSpace(abi, |recs[1].payload|);
    }
  }

  // CMSG_NXTHDR leads from the header of record i to that of record i + 1, and stops after the last.
  lemma NextHdrSteps(abi: Abi, control: seq<byte>, recs: seq<Record>, i: nat)
    requires Holds(abi, control, recs) && i < |recs|
    ensures var at := TotalSpace(abi, recs[..i]);
      && at + HeaderSize(abi) <= |control|
      && CmsgLen(abi, 0) <= LenField(abi, control[at..]) <= |control| - at
      && ReadRecord(abi, control[at..]) == recs[i]
      && NextHdr(abi, control, at) == if i + 1 < |recs| then Some(TotalSpace(abi, recs[..i + 1])) else None
  {
    hide Align, Aligned, StartsWith, Holds, LenField, ReadRecord, CmsgLen, HeaderSize, NextHdr, TotalSpace;
    HoldsDrop(abi, control, recs, i);
    NextAfter(abi, control, TotalSpace(abi, recs[..i]), recs[i..]);
    assert recs[..i + 1] == recs[..i] + [recs[i]];
    TotalSpaceSnoc(abi, recs[..i], recs[i]);
  }

  // From the header at an offset to the next one.
  lemma NextAfter(abi: Abi, control: seq<byte>, at: nat, recs: seq<Record>)
    requires at <= |control| && Holds(abi, control[at..], recs) && recs != []
    ensures at + HeaderSize(abi) <= |control|
    ensures CmsgLen(abi, 0) <= LenField(abi, control[at..]) <= |control| - at
    ensures ReadRecord(abi, control[at..]) == recs[0]
    ensures NextHdr(abi, control, at) == if 1 < |recs| then Some(at + Space(abi, recs[0])) else None
  {
    hide Align, StartsWith, Holds, LenField, ReadRecord, CmsgLen, HeaderSize, Space;
    RoomForNext(abi, control[at..], recs);
  }

  // Record r in memory: cmsg_len over the header and the payload, the level, the type,
  // and the payload behind the aligned header.
  ghost predicate OnTheWire(abi: Abi, bs: seq<byte>, at: nat, r: Record) {
    var start := Align(abi, abi.lenSize + 8);
    && abi.lenSize + 8 <= start && at + start + |r.payload| <= |bs|
    && (forall j :: 0 <= j < abi.lenSize ==> bs[at + j] == (start + |r.payload|) / Pow256(j) % 256)
    && bs[at + abi.lenSize..at + abi.lenSize + 4] == LittleEndian(r.level)
    && bs[at + abi.lenSize + 4..at + abi.lenSize + 8] == LittleEndian(r.kind)
    && bs[at + start..at + start + |r.payload|] == r.payload
  }

  // Every pending record is in memory at the sum of the spaces before it.
  lemma WireFormat(abi: Abi, bs: seq<byte>, recs: seq<Record>, i: nat)
    requires Holds(abi, bs, recs) && i < |recs|
    ensures OnTheWire(abi, bs, TotalSpace(abi, recs[..i]), recs[i])
  {
    var at := TotalSpace(abi, recs[..i]);
    hide StartsWith, Align, Holds, TotalSpace, OnTheWire;
    HoldsDrop(abi, bs, recs, i);
    HoldsRest(abi, bs[at..], recs[i..]);
    FirstOnTheWire(abi, bs[at..], recs[i]);
    WireMoves(abi, bs, at, recs[i]);
  }

  lemma WireMoves(abi: Abi, bs: seq<byte>, at: nat, r: Record)
    requires at <= |bs| && OnTheWire(abi, bs[at..], 0, r)
    ensures OnTheWire(abi, bs, at, r)
  {
    hide Align, LittleEndian, Pow256;
    var rest, start, k := bs[at..], Align(abi, abi.lenSize + 8), abi.lenSize;
    assert forall j :: 0 <= j < |rest| ==> bs[at + j] == rest[j];
    SliceOfRest(bs, at, k, k + 4);
    SliceOfRest(bs, at, k + 4, k + 8);
    SliceOfRest(bs, at, start, start + |r.payload|);
  }

  lemma SliceOfRest(bs: seq<byte>, at: nat, i: nat, j: nat)
    requires at + j <= |bs| && i <= j
    ensures bs[at..][i..j] == bs[at + i..at + j]
  {
  }

  lemma FirstOnTheWire(abi: Abi, bs: seq<byte>, r: Record)
    requires StartsWith(abi, bs, r)
    ensures OnTheWire(abi, bs, 0, r)
  {
    hide Align, Pow256;
    var k, n := abi.lenSize, CmsgLen(abi, |r.payload|);
    EncodeDecode(bs[..k]);
    forall j | 0 <= j < k ensures bs[0 + j] == n / Pow256(j) % 256 {
      EncodeAt(n, k, j);
    }
    hide Decode, Encode;
    EncodeDecodeInt32(bs[k..k + 4]);
    EncodeDecodeInt32(bs[k + 4..k + 8]);
    Int32IsLittleEndian(r.level);
    Int32IsLittleEndian(r.kind);
  }

  lemma HeadersAligned(abi: Abi, control: seq<byte>, recs: seq<Record>)
    requires Holds(abi, control, recs)
    ensures forall i :: 0 <= i < |recs| ==> Aligned(abi, TotalSpace(abi, recs[..i]))
  {
    forall i | 0 <= i < |recs| ensures Aligned(abi, TotalSpace(abi, recs[..i])) {
      HoldsDrop(abi, control, recs, i);
    }
  }

  // The headers met so far: their records and where each one starts.
  ghost predicate Visited(abi: Abi, packed: seq<Record>, offsets: seq<nat>, recs: seq<Record>) {
    && |offsets| == |recs| <= |packed| && recs == packed[..|recs|]
    && forall i :: 0 <= i < |recs| ==> offsets[i] == TotalSpace(abi, packed[..i])
  }

  // The walk a receiver of msg_control makes: it meets every record once, in
  // order, at aligned offsets, and ends exactly at the end of the buffer.
  method WalkHeaders(abi: Abi, control: seq<byte>, ghost packed: seq<Record>)
    returns (offsets: seq<nat>, recs: seq<Record>)
    requires Holds(abi, control, packed)
    ensures recs == packed && |offsets| == |recs|
    ensures forall i :: 0 <= i < |recs| ==> offsets[i] == TotalSpace(abi, recs[..i])
    ensures forall i :: 0 <= i < |recs| ==> Aligned(abi, offsets[i])
    ensures |control| == TotalSpace(abi, recs)
  {
    hide Align, Aligned, Holds, LenField, NextHdr, FirstHdr, StartsWith, ReadRecord, CmsgLen, HeaderSize;
    HoldsSize(abi, control, packed);
    HeadersAligned(abi, control, packed);
    FirstHdrFinds(abi, control, packed);
    offsets, recs := [], [];
    var item := FirstHdr(abi, control);
    while item.Some?
      invariant Visited(abi, packed, offsets, recs)
      invariant item == if |recs| < |packed| then Some(TotalSpace(abi, packed[..|recs|])) else None
      decreases |packed| - |recs|
    {
      var at := item.value;
      NextHdrSteps(abi, control, packed, |recs|);
      offsets, recs := offsets + [at], recs + [ReadRecord(abi, control[at..])];
      item := NextHdr(abi, control, at);
    }
    assert recs == packed;
  }

  lemma {:induction false} TotalSpaceSnoc(abi: Abi, recs: seq<Record>, r: Record)
    ensures TotalSpace(abi, recs + [r]) == TotalSpace(abi, recs) + Space(abi, r)
  {
    if recs == [] {
      assert (recs + [r])[1..] == [];
    } else {
      TotalSpaceSnoc(abi, recs[1..], r);
      assert (recs + [r])[1..] == recs[1..] + [r];
    }
  }

  // Memory after push_lua has written the header and the payload of r at offset len:
  // all it wrote lies in the space of r.
  ghost predicate Written(abi: Abi, before: seq<byte>, after: seq<byte>, len: nat, r: Record)
    requires len + Space(abi, r) <= |before|
  {
    && |after| == |before|
    && after[..len] == before[..len]
    && after[len + Space(abi, r)..] == before[len + Space(abi, r)..]
    && var block := after[len..len + Space(abi, r)];
       && HeaderBytes(abi, r) <= block
       && CmsgLen(abi, |r.payload|) <= |block|
       && block[CmsgLen(abi, 0)..CmsgLen(abi, |r.payload|)] == r.payload
  }

  lemma WrittenInside(abi: Abi, before: seq<byte>, after: seq<byte>, len: nat, r: Record)
    requires len + Space(abi, r) <= |before| && Written(abi, before, after, len, r)
    ensures |after| == |before| && after[..len] == before[..len]
    ensures after[len + Space(abi, r)..] == before[len + Space(abi, r)..]
  {
  }

  lemma WrittenByCopies(abi: Abi, m0: seq<byte>, m1: seq<byte>, m2: seq<byte>, len: nat, r: Record)
    requires len + Space(abi, r) <= |m0|
    requires HeaderSize(abi) <= CmsgLen(abi, 0) && CmsgLen(abi, |r.payload|) <= Space(abi, r)
    requires m1 == m0[..len] + HeaderBytes(abi, r) + m0[len + HeaderSize(abi)..]
    requires CmsgLen(abi, |r.payload|) <= |m1| - len
    requires m2 == m1[..len + CmsgLen(abi, 0)] + r.payload + m1[len + CmsgLen(abi, 0) + |r.payload|..]
    ensures Written(abi, m0, m2, len, r)
  {
    hide Align, CmsgLen, HeaderBytes;
    assert CmsgLen(abi, |r.payload|) == CmsgLen(abi, 0) + |r.payload| by { CmsgLenSum(abi, |r.payload|); }
    var h := HeaderBytes(abi, r);
    assert |h| == HeaderSize(abi);
    forall i | 0 <= i < |h| ensures m2[len + i] == h[i] {
      assert m2[len + i] == m1[len + i];
    }
    assert m2[..len] == m1[..len] == m0[..len];
    assert m2[len + Space(abi, r)..] == m1[len + Space(abi, r)..] == m0[len + Space(abi, r)..];
    var block, start := m2[len..len + Space(abi, r)], CmsgLen(abi, 0);
    assert block[..|h|] == h;
    forall i | 0 <= i < |r.payload| ensures block[start..start + |r.payload|][i] == r.payload[i] {
      assert block[start..start + |r.payload|][i] == block[start + i] == m2[len + start + i] == r.payload[i];
    }
  }

  lemma CmsgLenSum(abi: Abi, n: nat)
    ensures CmsgLen(abi, n) == CmsgLen(abi, 0) + n
  {
  }

  lemma WrittenHolds(abi: Abi, before: seq<byte>, after: seq<byte>, len: nat, recs: seq<Record>, r: Record)
    requires len + Space(abi, r) <= |before| && len + Space(abi, r) < Pow256(abi.lenSize)
    requires Holds(abi, before[..len], recs)
    requires Written(abi, before, after, len, r)
    ensures Holds(abi, after[..len + Space(abi, r)], recs + [r])
  {
    hide Align, Holds, StartsWith, HeaderBytes, CmsgLen;
    var block := after[len..len + Space(abi, r)];
    WrittenStarts(abi, block, r);
    HoldsAppend(abi, before[..len], recs, block, r);
    assert after[..len + Space(abi, r)] == before[..len] + block;
  }
}
