/**
 src/cmsghdr.c: header objects that carry a list of descriptors.
 */
module Rights {
  import opened Anchors
  import opened LuaRegistry
  import opened CmsgLayout
  import opened CmsgStream
  import opened Cmsghdrs
  import opened CmsgRuns
  import opened Wrappers

  // The return values of data_lua.
  datatype Data = Nil | Fds(fds: seq<int32>) | Raw(bytes: seq<byte>) | ProtocolViolation

  function EncodeFds(fds: seq<int32>): (bs: seq<byte>)
    ensures |bs| == 4 * |fds|
  {
    if fds == [] then [] else EncodeInt32(fds[0]) + EncodeFds(fds[1..])
  }

  function DecodeFds(bs: seq<byte>): (fds: seq<int32>)
    requires |bs| % 4 == 0
    ensures 4 * |fds| == |bs|
  {
    if bs == [] then [] else [DecodeInt32(bs[..4])] + DecodeFds(bs[4..])
  }

  // The i-th descriptor takes bytes 4 * i to 4 * i + 3.
  ghost predicate PacksFds(bs: seq<byte>, fds: seq<int32>) {
    |bs| == 4 * |fds| && forall i :: 0 <= i < |fds| ==> bs[4 * i..4 * i + 4] == LittleEndian(fds[i])
  }

  lemma {:induction false} EncodePacks(fds: seq<int32>)
    ensures PacksFds(EncodeFds(fds), fds)
  {
    hide LittleEndian, EncodeInt32;
    if fds != [] {
      var bs, rest := EncodeFds(fds), EncodeFds(fds[1..]);
      EncodePacks(fds[1..]);
      Int32IsLittleEndian(fds[0]);
      forall i | 0 <= i < |fds| ensures bs[4 * i..4 * i + 4] == LittleEndian(fds[i]) {
        if i != 0 {
          assert bs[4 * i..4 * i + 4] == rest[4 * (i - 1)..4 * (i - 1) + 4];
        }
      }
    }
  }

  lemma {:induction false} DecodeEncodeFds(fds: seq<int32>)
    ensures DecodeFds(EncodeFds(fds)) == fds
  {
    if fds != [] {
      var bs := EncodeFds(fds);
      DecodeEncodeInt32(fds[0]);
      DecodeEncodeFds(fds[1..]);
      assert bs[..4] == EncodeInt32(fds[0]) && bs[4..] == EncodeFds(fds[1..]);
      assert [fds[0]] + fds[1..] == fds;
    }
  }

  lemma {:induction false} EncodeDecodeFds(bs: seq<byte>)
    requires |bs| % 4 == 0
    ensures EncodeFds(DecodeFds(bs)) == bs
  {
    if bs != [] {
      var fds := DecodeFds(bs);
      EncodeDecodeInt32(bs[..4]);
      EncodeDecodeFds(bs[4..]);
      assert fds[1..] == DecodeFds(bs[4..]);
      assert bs[..4] + bs[4..] == bs;
    }
  }

  // rights_lua: nil without arguments, else one SCM_RIGHTS header over all of them.
  // pushed: the most values it has on the stack beside its arguments.
  method New(abi: Abi, L: Registry<Anchor>, fds: seq<int32>) returns (c: Option<Cmsghdr>, ghost pushed: nat)
    modifies L
    ensures fds != [] ==> pushed == |fds|
    ensures c.None? <==> fds == []
    ensures c.None? ==> L.refs == old(L.refs)
    ensures c.Some? ==> c.value.Record() == Record.Record(abi.solSocket, abi.scmRights, EncodeFds(fds))
    ensures c.Some? ==> PacksFds(c.value.data, fds)
    ensures c.Some? ==> (c.value.Fits() <==> 4 * |fds| <= INT32_MAX)
    ensures c.Some? ==> 0 < c.value.ref && c.value.ref !in old(L.refs)
    ensures c.Some? ==> L.refs == old(L.refs)[c.value.ref := Text(c.value.data)]
  {
    pushed := 0;
    if fds == [] {
      return None, 1;
    }
    var bytes: seq<byte> := [];
    var i := 0;
    while i < |fds|
      invariant 0 <= i <= |fds|
      invariant bytes + EncodeFds(fds[i..]) == EncodeFds(fds) && pushed == i
    {
      assert fds[i..][1..] == fds[i + 1..];
      bytes := bytes + EncodeInt32(fds[i]);
      i, pushed := i + 1, pushed + 1;
    }
    assert fds[i..] == [];
    EncodePacks(fds);
    var h := Alloc(L, abi.solSocket, abi.scmRights, bytes);
    c := Some(h);
  }

  // data_lua; pushed as above.
  method Read(abi: Abi, c: Cmsghdr) returns (d: Data, ghost pushed: nat)
    ensures d.Fds? ==> pushed == 1 + |c.data| / 4
    ensures !(c.level == abi.solSocket && c.kind == abi.scmRights) ==> d == Raw(c.data)
    ensures c.level == abi.solSocket && c.kind == abi.scmRights ==>
      && (d.Nil? <==> c.data == [])
      && (d.ProtocolViolation? <==> |c.data| % 4 != 0)
      && (c.data != [] && |c.data| % 4 == 0 ==> d == Fds(DecodeFds(c.data)))
  {
    pushed := 1;
    if c.level != abi.solSocket || c.kind != abi.scmRights {
      return Raw(c.data), 1;
    }
    if |c.data| == 0 {
      return Nil, 2;
    }
    if |c.data| % 4 != 0 {
      return ProtocolViolation, 1;
    }
    var nfd := |c.data| / 4;
    var fds: seq<int32> := [];
    var i := 0;
    while i < nfd
      invariant 0 <= i <= nfd
      invariant fds + DecodeFds(c.data[4 * i..]) == DecodeFds(c.data) && pushed == 1 + i
    {
      assert c.data[4 * i..][..4] == c.data[4 * i..4 * i + 4];
      assert c.data[4 * i..][4..] == c.data[4 * (i + 1)..];
      fds := fds + [DecodeInt32(c.data[4 * i..4 * i + 4])];
      i, pushed := i + 1, pushed + 1;
    }
    assert c.data[4 * i..] == [];
    d := Fds(fds);
  }

  // A descriptor list pushed behind anything still pending comes out unchanged
  // once everything before it has been shifted.
  method SendThrough(buffer: Cmsghdrs, fds: seq<int32>) returns (d: Data)
    requires Ready(buffer) && fds != [] && 4 * |fds| <= INT32_MAX
    requires buffer.len + CmsgSpace(buffer.abi, 4 * |fds|) < Pow256(buffer.abi.lenSize)
    modifies buffer, buffer.L, buffer.data
    ensures d == Fds(fds)
    ensures Ready(buffer) && buffer.pending == []
  {
    hide Holds, Align, TotalSpace, EncodeFds, DecodeFds, PacksFds, OnTheWire;
    var c, _ := New(buffer.abi, buffer.L, fds);
    ghost var before := buffer.pending;
    buffer.Push(c.value);
    HoldsSize(buffer.abi, buffer.data[..buffer.len], buffer.pending);
    var out := ShiftAll(buffer);
    assert Records(out)[|before|] == c.value.Record();
    RecordsAt(out, |before|);
    DecodeEncodeFds(fds);
    var read, _ := Read(buffer.abi, out[|out| - 1]);
    d := read;
  }
}
