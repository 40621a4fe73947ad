/**
 src/cmsghdrs.c: the growable buffer of packed control messages, on real bytes,
 and lls_cmsghdr_alloc of src/llsocket.h.
 */
module Cmsghdrs {
  import opened Anchors
  import opened LuaRegistry
  import opened CmsgLayout
  import opened CmsgStream
  import opened Wrappers

  // lls_cmsghdr_t; data is the Lua string that ref anchors.
  datatype Cmsghdr = Cmsghdr(ref: int, level: int32, kind: int32, len: int32, data: seq<byte>)
  {
    function Record(): CmsgLayout.Record {
      CmsgLayout.Record.Record(level, kind, data)
    }

    // The payload length survived the conversion to int.
    predicate Fits() {
      len as int == |data|
    }
  }

  function Max(a: nat, b: nat): nat {
    if a < b then b else a
  }

  // lls_cmsghdr_alloc: len is the payload length converted to int.
  method Alloc(L: Registry<Anchor>, level: int32, kind: int32, data: seq<byte>) returns (c: Cmsghdr)
    modifies L
    ensures 0 < c.ref && c.ref !in old(L.refs)
    ensures L.refs == old(L.refs)[c.ref := Text(data)] && |L.refs| == |old(L.refs)| + 1
    ensures c.level == level && c.kind == kind && c.data == data && c.Record() == Record.Record(level, kind, data)
    ensures c.Fits() <==> |data| <= INT32_MAX
  {
    var ref := L.Ref(Text(data));
    c := Cmsghdr(ref, level, kind, ToInt32(|data|), data);
  }

  // gc_lua of src/cmsghdr.c
  method CollectHeader(L: Registry<Anchor>, c: Cmsghdr)
    modifies L
    ensures L.refs == if c.ref == NOREF then old(L.refs) else old(L.refs) - {c.ref}
  {
    if c.ref != NOREF {
      var _ := L.Unref(c.ref);
    }
  }

  method Memcpy(dst: array<byte>, at: nat, src: seq<byte>)
    requires at + |src| <= dst.Length
    modifies dst
    ensures dst[..] == old(dst[..at]) + src + old(dst[at + |src|..])
  {
    forall i | 0 <= i < |src| {
      dst[at + i] := src[i];
    }
  }

  method Memmove(dst: array<byte>, to: nat, from: nat, n: nat)
    requires to + n <= dst.Length && from + n <= dst.Length
    modifies dst
    ensures dst[..] == old(dst[..to]) + old(dst[from..from + n]) + old(dst[to + n..])
  {
    forall i | 0 <= i < n {
      dst[to + i] := dst[from + i];
    }
  }

  // The header assignment and the payload copy of push_lua.
  method WriteRecord(abi: Abi, memory: array<byte>, at: nat, item: Cmsghdr)
    requires at + Space(abi, item.Record()) <= memory.Length
    modifies memory
    ensures Written(abi, old(memory[..]), memory[..], at, item.Record())
  {
    hide Align, HeaderBytes, Written;
    AlignOfLenIsSpace(abi, |item.data|);
    ghost var m0 := memory[..];
    Memcpy(memory, at, HeaderBytes(abi, item.Record()));
    ghost var m1 := memory[..];
    Memcpy(memory, at + CmsgLen(abi, 0), item.data);
    WrittenByCopies(abi, m0, m1, memory[..], at, item.Record());
  }

  class Cmsghdrs {
    const abi: Abi
    const L: Registry<Anchor>
    var ref: int
    var data: array<byte>
    var len: nat
    var bytes: nat
    ghost var pending: seq<CmsgLayout.Record>

    // The block is exactly `bytes` long, and its first `len` bytes are the pending
    // records.
    ghost predicate Intact()
      reads this, data
    {
      && len <= bytes == data.Length
      && Holds(abi, data[..len], pending)
      && (ref == NOREF <==> bytes == 0) && (ref != NOREF ==> 0 < ref)
    }

    // The block, once it exists, is anchored: so it is until the buffer is collected.
    ghost predicate Anchored()
      reads this, L
    {
      ref != NOREF ==> ref in L.refs && L.refs[ref] == Block(data)
    }

    ghost predicate Valid()
      reads this, L, data
    {
      Intact() && Anchored()
    }

    // new_lua; the NULL block is an empty one that nothing anchors.
    constructor (abi: Abi, L: Registry<Anchor>)
      ensures Valid() && fresh(data) && this.abi == abi && this.L == L
      ensures pending == [] && len == bytes == 0 && ref == NOREF
    {
      this.abi, this.L := abi, L;
      ref, data, len, bytes := NOREF, new byte[0], 0, 0;
      pending := [];
    }

    // The growing part of push_lua: a larger zeroed block replaces the old one
    // and its reference; spare capacity is reused as it is.
    method Reserve(newLen: nat)
      requires Intact() && len < newLen
      modifies this, L
      ensures Intact() && pending == old(pending) && len == old(len)
      ensures bytes == Max(old(bytes), newLen)
      ensures data == old(data) <==> newLen <= old(bytes)
      ensures data == old(data) ==> ref == old(ref) && L.refs == old(L.refs)
      ensures data != old(data) ==> fresh(data) && ref !in old(L.refs) - {old(ref)}
      ensures data != old(data) ==> 0 < ref && L.refs == (old(L.refs) - {old(ref)})[ref := Block(data)]
    {
      hide Holds;
      if bytes < newLen {
        var block := new byte[newLen](_ => 0);
        Memcpy(block, 0, data[..len]);
        assert block[..len] == data[..len];
        var _ := L.Unref(ref);
        ref := L.Ref(Block(block));
        data := block;
        bytes := newLen;
      }
    }

    // push_lua: append one record, growing to exactly the space needed. Growth
    // releases the old reference, whoever holds it by now, and takes a new one.
    method Push(item: Cmsghdr)
      requires Intact() && item.Fits()
      requires len + Space(abi, item.Record()) < Pow256(abi.lenSize)
      modifies this, L, data
      ensures Intact()
      ensures data != old(data) || old(Anchored()) ==> Anchored()
      ensures pending == old(pending) + [item.Record()]
      ensures OnTheWire(abi, data[..len], old(len), Record.Record(item.level, item.kind, item.data))
      ensures len == old(len) + Space(abi, item.Record()) && ref != NOREF
      ensures bytes == Max(old(bytes), len)
      ensures data == old(data) <==> len <= old(bytes)
      ensures data == old(data) ==> ref == old(ref) && L.refs == old(L.refs)
      ensures data == old(data) ==> data[..][len..] == old(data[..])[len..]
      ensures data != old(data) ==> fresh(data) && ref !in old(L.refs) - {old(ref)}
      ensures data != old(data) ==> 0 < ref && L.refs == (old(L.refs) - {old(ref)})[ref := Block(data)]
    {
      hide Align, Holds, Written;
      ghost var r := item.Record();
      AlignOfLenIsSpace(abi, |item.data|);
      var newLen := len + CmsgSpace(abi, item.len);
      Reserve(newLen);
      ghost var before := data[..];
      assert before[..len] == data[..len];
      WriteRecord(abi, data, len, item);
      WrittenInside(abi, before, data[..], len, r);
      WrittenHolds(abi, before, data[..], len, pending, r);
      assert data[..][..newLen] == data[..newLen];
      Placed(newLen, r);
      pending := pending + [r];
      len := newLen;
    }

    // The new record begins where the old ones end.
    lemma Placed(newLen: nat, r: CmsgLayout.Record)
      requires newLen <= data.Length && len <= data.Length && Holds(abi, data[..len], pending)
      requires Holds(abi, data[..newLen], pending + [r])
      ensures OnTheWire(abi, data[..newLen], len, r)
    {
      hide Holds, OnTheWire, TotalSpace;
      HoldsSize(abi, data[..len], pending);
      WireFormat(abi, data[..newLen], pending + [r], |pending|);
      assert (pending + [r])[..|pending|] == pending;
    }

    // shift_lua: remove the first record and return it as a new header object.
    method Shift() returns (r: Option<Cmsghdr>)
      requires Intact()
      modifies this, L, data
      ensures Intact() && data == old(data) && bytes == old(bytes) && ref == old(ref)
      ensures old(Anchored()) ==> Anchored()
      ensures r.None? <==> old(pending) == []
      ensures r.None? ==> pending == [] && len == old(len) && L.refs == old(L.refs)
      ensures r.Some? ==> old(pending) == [r.value.Record()] + pending
      ensures r.Some? ==> 0 < r.value.ref && r.value.ref !in old(L.refs)
      ensures r.Some? ==> (r.value.Fits() <==> |r.value.data| <= INT32_MAX)
      ensures r.Some? ==> L.refs == old(L.refs)[r.value.ref := Text(r.value.data)]
      ensures r.Some? ==> len == old(len) - Space(abi, r.value.Record())
      ensures |L.refs| == |old(L.refs)| + (if r.Some? then 1 else 0)
    {
      hide Holds, Align, CmsgSpace;
      var control := data[..len];
      FirstHdrFinds(abi, control, pending);
      var item := FirstHdr(abi, control);
      if item.None? {
        return None;
      }
      FirstFields(abi, control, pending[0]);
      var n := LenField(abi, control) - CmsgLen(abi, 0);
      var payload := control[CmsgLen(abi, 0)..CmsgLen(abi, 0) + n];
      var c := Alloc(L, LevelField(abi, control), KindField(abi, control), payload);
      assert c.Record() == pending[0];
      assert pending == [pending[0]] + pending[1..];
      RemoveFirst(n);
      r := Some(c);
    }

    // The rest moves to the front.
    method RemoveFirst(n: nat)
      requires Intact() && pending != [] && n == |pending[0].payload|
      modifies `len, `pending, data
      ensures Intact() && pending == old(pending)[1..] && len == old(len) - CmsgSpace(abi, n)
    {
      hide StartsWith, Holds, CmsgSpace;
      ghost var control := data[..len];
      HoldsRest(abi, control, pending);
      len := len - CmsgSpace(abi, n);
      if len != 0 {
        Memmove(data, 0, CmsgSpace(abi, n), len);
      }
      assert data[..len] == control[CmsgSpace(abi, n)..];
      pending := pending[1..];
    }

    // The walk a receiver of msg_control makes; nothing is removed.
    method Walk() returns (offsets: seq<nat>, recs: seq<CmsgLayout.Record>)
      requires Intact()
      ensures recs == pending
      ensures |offsets| == |recs|
      ensures forall i :: 0 <= i < |recs| ==> offsets[i] == TotalSpace(abi, recs[..i])
      ensures forall i :: 0 <= i < |recs| ==> Aligned(abi, offsets[i])
      ensures len == TotalSpace(abi, recs)
    {
      offsets, recs := WalkHeaders(abi, data[..len], pending);
    }

    // gc_lua
    method Collect()
      modifies L
      ensures L.refs == if ref == NOREF then old(L.refs) else old(L.refs) - {ref}
    {
      if ref != NOREF {
        var _ := L.Unref(ref);
      }
    }
  }
}
