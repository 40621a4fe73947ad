/**
 The same on objects: header userdata, buffers with their byte arrays, and the
 registry.
 */
module AncillaryPool {
  import opened Anchors
  import opened Ancillary
  import opened CmsgLayout
  import opened CmsgStream
  import opened Cmsghdrs
  import opened LuaRegistry
  import opened Sequences
  import opened Wrappers
  import Rights

  ghost function HeadViews(cs: seq<Cmsghdr>): (vs: seq<HeadView>)
    ensures |vs| == |cs| && forall i :: 0 <= i < |cs| ==> vs[i] == HeadView(cs[i].ref, cs[i].data)
  {
    seq(|cs|, i requires 0 <= i < |cs| => HeadView(cs[i].ref, cs[i].data))
  }

  ghost function BlockViews(ks: seq<Cmsghdrs>): (vs: seq<BlockView>)
    reads ks
    ensures |vs| == |ks| && forall b :: 0 <= b < |ks| ==> vs[b] == BlockView(ks[b].ref, ks[b].data)
  {
    seq(|ks|, b requires 0 <= b < |ks| reads ks => BlockView(ks[b].ref, ks[b].data))
  }

  ghost predicate HeaderShows(c: Cmsghdr, gone: bool, k: HeadState) {
    k == HeadState(c.Record(), gone) && (|c.data| <= INT32_MAX ==> c.Fits())
  }

  ghost predicate BufferShows(k: Cmsghdrs, gone: bool, s: BufferState)
    reads k, k.data
  {
    k.Intact() && s == BufferState(k.pending, k.bytes, gone)
  }

  class Pool {
    const abi: Abi
    const L: Registry<Anchor>
    var headers: seq<Cmsghdr>
    var headerGone: seq<bool>
    var buffers: seq<Cmsghdrs>
    var bufferGone: seq<bool>
    // what the registry holds for other modules
    ghost var others: map<int, Anchor>
    ghost var repr: set<object>

    ghost function Snapshot(): View
      reads `headers, `buffers, `others, L, buffers
    {
      View(HeadViews(headers), BlockViews(buffers), L.refs, others)
    }

    // The buffers are different objects with different blocks.
    ghost predicate Apart()
      reads `buffers, buffers
    {
      && (forall b, c :: 0 <= b < c < |buffers| ==> buffers[b] != buffers[c] && buffers[b].data != buffers[c].data)
      && (forall k :: k in buffers ==> k.abi == abi && k.L == L)
    }

    ghost predicate Owns()
      reads `buffers, `repr, repr
    {
      this !in repr && L !in repr && forall k :: k in buffers ==> k in repr && k.data in repr
    }

    // The objects hold the contents p.
    ghost predicate Shows(p: Pooled)
      reads this, repr
    {
      && Owns() && |headers| == |headerGone| == |p.heads| && |buffers| == |bufferGone| == |p.buffers| && Apart()
      && (forall i :: 0 <= i < |headers| ==> HeaderShows(headers[i], headerGone[i], p.heads[i]))
      && (forall b :: 0 <= b < |buffers| ==> BufferShows(buffers[b], bufferGone[b], p.buffers[b]))
    }

    lemma ShowsFits(p: Pooled)
      requires Shows(p)
      ensures Fits(Snapshot(), p)
    {
    }

    // And the references are conserved.
    ghost predicate Balanced(p: Pooled)
      reads this, L, repr
    {
      Shows(p) && Fits(Snapshot(), p) && Conserved(Snapshot(), p)
    }

    constructor (abi: Abi, L: Registry<Anchor>)
      requires forall r :: r in L.refs ==> 0 < r
      ensures this.abi == abi && this.L == L && others == L.refs && buffers == []
      ensures Balanced(NOTHING) && repr == {}
    {
      this.abi, this.L := abi, L;
      repr := {};
      headers, headerGone, buffers, bufferGone := [], [], [], [];
      others := L.refs;
    }

    // Others took or released references of their own.
    ghost method Resync(v: View, p: Pooled, others: map<int, Anchor>)
      requires Shows(p) && Fits(v, p) && Conserved(v, p) && Moved(v.refs, v.others, L.refs, others)
      requires Snapshot() == v.(refs := L.refs)
      modifies `others
      ensures this.others == others && Balanced(p)
    {
      hide Conserved, Fits;
      MessagesKeep(v, p, L.refs, others);
      this.others := others;
      assert Snapshot() == v.(refs := L.refs, others := others);
      Concludes(Snapshot(), p);
    }

    // A new header object; Alloc took its reference.
    method Join(c: Cmsghdr, ghost v: View, ghost p: Pooled)
      requires Shows(p) && Fits(v, p) && Conserved(v, p) && 0 < c.ref && c.ref !in v.refs
      requires Snapshot() == v.(refs := v.refs[c.ref := Text(c.data)]) && (|c.data| <= INT32_MAX ==> c.Fits())
      modifies `headers, `headerGone
      ensures Balanced(WithHead(p, c.Record()))
    {
      HeadJoins(v, p, c.Record(), c.ref);
      hide Conserved, Fits, Balanced;
      AddHeader(c, p);
      hide Shows;
      Concludes(Snapshot(), WithHead(p, c.Record()));
    }

    method AddHeader(c: Cmsghdr, ghost p: Pooled)
      requires Shows(p) && (|c.data| <= INT32_MAX ==> c.Fits())
      modifies `headers, `headerGone
      ensures Shows(WithHead(p, c.Record()))
      ensures var v := old(Snapshot()); Snapshot() == v.(heads := v.heads + [HeadView(c.ref, c.data)])
    {
      ghost var heads := HeadViews(headers);
      headers, headerGone := headers + [c], headerGone + [false];
      assert HeadViews(headers) == heads + [HeadView(c.ref, c.data)];
    }

    // cmsghdr.new
    method Create(level: int32, kind: int32, data: seq<byte>, ghost p: Pooled)
      requires Balanced(p)
      modifies `headers, `headerGone, L
      ensures Balanced(WithHead(p, Record.Record(level, kind, data)))
    {
      ghost var v := Snapshot();
      var c := Alloc(L, level, kind, data);
      hide Conserved;
      Join(c, v, p);
    }

    // cmsghdr.rights
    method CreateRights(fds: seq<int32>, ghost p: Pooled)
      requires Balanced(p)
      modifies `headers, `headerGone, L
      ensures Balanced(Stepped(abi, p, NewRights(fds)))
    {
      ghost var v := Snapshot();
      var c, _ := Rights.New(abi, L, fds);
      hide Conserved;
      if c.Some? {
        Join(c.value, v, p);
      }
    }

    // cmsghdrs.new
    method CreateBuffer(ghost p: Pooled)
      requires Balanced(p)
      modifies `buffers, `bufferGone, `repr
      ensures Balanced(Stepped(abi, p, NewBuffer)) && fresh(repr - old(repr))
    {
      hide Conserved, Fits, Balanced, Shows;
      ghost var v := Snapshot();
      Opens(p);
      ghost var memory := AddBuffer(p);
      BlockJoins(v, p, memory);
      Concludes(v.(blocks := v.blocks + [BlockView(NOREF, memory)]), Stepped(abi, p, NewBuffer));
    }

    method AddBuffer(ghost p: Pooled) returns (ghost memory: array<byte>)
      requires Shows(p)
      modifies `buffers, `bufferGone, `repr
      ensures Shows(Stepped(abi, p, NewBuffer)) && fresh(repr - old(repr))
      ensures forall b :: 0 <= b < |old(Snapshot()).blocks| ==> old(Snapshot()).blocks[b].memory != memory
      ensures Snapshot() == old(Snapshot()).(blocks := old(Snapshot()).blocks + [BlockView(NOREF, memory)])
    {
      hide CmsgStream.Holds;
      ghost var v := Snapshot();
      var k := new Cmsghdrs(abi, L);
      memory := k.data;
      assert BlockViews(buffers) == v.blocks;
      assert BufferShows(k, false, BufferState([], 0, false));
      PutBuffer(k, p);
    }

    method PutBuffer(k: Cmsghdrs, ghost p: Pooled)
      requires Shows(p) && BufferShows(k, false, BufferState([], 0, false)) && k.abi == abi && k.L == L
      requires k !in repr && k.data !in repr && k.data != L as object && k.ref == NOREF
      modifies `buffers, `bufferGone, `repr
      ensures Shows(Stepped(abi, p, NewBuffer)) && repr == old(repr) + {k, k.data}
      ensures Snapshot() == old(Snapshot()).(blocks := old(Snapshot()).blocks + [BlockView(NOREF, k.data)])
    {
      hide CmsgStream.Holds;
      ghost var blocks := BlockViews(buffers);
      buffers, bufferGone := buffers + [k], bufferGone + [false];
      repr := repr + {k, k.data};
      assert BlockViews(buffers) == blocks + [BlockView(NOREF, k.data)];
    }

    // Everything but the buffers is as p says.
    ghost predicate Frame(p: Pooled)
      reads this, repr
    {
      && Owns() && Apart()
      && |headers| == |headerGone| == |p.heads| && |buffers| == |bufferGone| == |p.buffers|
      && (forall i :: 0 <= i < |headers| ==> HeaderShows(headers[i], headerGone[i], p.heads[i]))
    }

    // Only buffer b changed.
    lemma OneBuffer(b: nat, p: Pooled, s: BufferState)
      requires Frame(p) && b < |buffers|
      requires forall c :: 0 <= c < |buffers| && c != b ==> BufferShows(buffers[c], bufferGone[c], p.buffers[c])
      requires BufferShows(buffers[b], bufferGone[b], s)
      ensures Shows(WithBuffer(p, b, s))
    {
      hide BufferShows;
    }

    // What cmsghdrs:push does to the buffer.
    method PushRaw(b: nat, h: nat, ghost p: Pooled)
      requires Shows(p) && CanPush(p, b, h) && b < |buffers| && PoolFits(abi, p, PushTo(b, h))
      modifies L, buffers[b], buffers[b].data
      ensures BufferShows(buffers[b], bufferGone[b], PushedState(abi, p.buffers[b], p.heads[h].record))
      ensures buffers[b].bytes == PushedState(abi, p.buffers[b], p.heads[h].record).bytes
      ensures var k := buffers[b];
        && (k.data == old(k.data) <==> k.bytes == old(k.bytes))
        && (k.data == old(k.data) ==> k.ref == old(k.ref) && L.refs == old(L.refs))
        && (k.data != old(k.data) ==> fresh(k.data) && 0 < k.ref && k.ref !in old(L.refs) - {old(k.ref)})
        && (k.data != old(k.data) ==> L.refs == (old(L.refs) - {old(k.ref)})[k.ref := Block(k.data)])
    {
      PushSizes(b, h, p);
      hide TotalSpace, CmsgStream.Holds, Align, Shows;
      buffers[b].Push(headers[h]);
    }

    // And to the contents of the pool.
    method PushContents(b: nat, h: nat, ghost p: Pooled)
      requires Shows(p) && CanPush(p, b, h) && b < |buffers| && PoolFits(abi, p, PushTo(b, h))
      modifies L, `repr, buffers[b], buffers[b].data
      ensures Shows(Stepped(abi, p, PushTo(b, h)))
      ensures repr == old(repr) + {buffers[b].data}
      ensures buffers[b].bytes == Stepped(abi, p, PushTo(b, h)).buffers[b].bytes
      ensures var k := buffers[b];
        && (k.data == old(k.data) <==> k.bytes == old(k.bytes))
        && (k.data == old(k.data) ==> k.ref == old(k.ref) && L.refs == old(L.refs))
        && (k.data != old(k.data) ==> fresh(k.data) && 0 < k.ref && k.ref !in old(L.refs) - {old(k.ref)})
        && (k.data != old(k.data) ==> L.refs == (old(L.refs) - {old(k.ref)})[k.ref := Block(k.data)])
    {
      hide PushedState, TotalSpace, CmsgStream.Holds;
      PushRaw(b, h, p);
      repr := repr + {buffers[b].data};
      OneBuffer(b, p, PushedState(abi, p.buffers[b], p.heads[h].record));
    }

    // And to the references.
    method PushOn(b: nat, h: nat, ghost p: Pooled)
      requires Shows(p) && CanPush(p, b, h) && b < |buffers| && PoolFits(abi, p, PushTo(b, h))
      modifies L, `repr, buffers[b], buffers[b].data
      ensures Shows(Stepped(abi, p, PushTo(b, h)))
      ensures buffers[b].bytes == Stepped(abi, p, PushTo(b, h)).buffers[b].bytes
      ensures buffers[b].bytes == old(buffers[b].bytes) ==> Snapshot() == old(Snapshot())
      ensures fresh(repr - old(repr))
      ensures buffers[b].bytes != old(buffers[b].bytes) ==>
        && Unused(old(Snapshot()), b, buffers[b].ref, buffers[b].data)
        && Snapshot() == Grown(old(Snapshot()), b, buffers[b].ref, buffers[b].data)
    {
      assert Apart();
      hide TotalSpace, Shows, Stepped;
      ghost var v := Snapshot();
      PushContents(b, h, p);
      if buffers[b].data == old(buffers[b].data) {
        assert BlockViews(buffers) == v.blocks;
      } else {
        assert BlockViews(buffers) == v.blocks[b := BlockView(buffers[b].ref, buffers[b].data)];
      }
    }

    lemma BytesShown(b: nat, p: Pooled)
      requires Shows(p) && b < |buffers|
      ensures b < |p.buffers| && buffers[b].bytes == p.buffers[b].bytes
    {
      assert BufferShows(buffers[b], bufferGone[b], p.buffers[b]);
    }

    // cmsghdrs:push. The references stay balanced unless the push grows a buffer that
    // was collected.
    method Push(b: nat, h: nat, ghost p: Pooled)
      requires Balanced(p) && CanPush(p, b, h) && b < |buffers| && PoolFits(abi, p, PushTo(b, h))
      modifies L, `repr, buffers[b], buffers[b].data
      ensures Shows(Stepped(abi, p, PushTo(b, h)))
      ensures Balanced(Stepped(abi, p, PushTo(b, h))) <==> !Leaks(abi, p, PushTo(b, h))
      ensures fresh(repr - old(repr))
    {
      ghost var v := Snapshot();
      ghost var q := Stepped(abi, p, PushTo(b, h));
      BytesShown(b, p);
      hide Conserved, TotalSpace, Shows, Unused, Grown;
      PushOn(b, h, p);
      ShowsFits(q);
      PushBalance(abi, v, p, b, h, Snapshot(), buffers[b].ref, buffers[b].data);
    }

    lemma Concludes(v: View, p: Pooled)
      requires Shows(p) && Snapshot() == v && Fits(v, p) && Conserved(v, p)
      ensures Balanced(p)
    {
    }

    lemma Opens(p: Pooled)
      requires Balanced(p)
      ensures Shows(p) && Fits(Snapshot(), p) && Conserved(Snapshot(), p) && Owns()
      ensures |headers| == |headerGone| == |p.heads| && |buffers| == |bufferGone| == |p.buffers|
      ensures forall h :: 0 <= h < |headers| ==> headerGone[h] == p.heads[h].gone
      ensures forall b :: 0 <= b < |buffers| ==> bufferGone[b] == p.buffers[b].gone
    {
    }

    // What cmsghdrs:shift does to the buffer.
    method ShiftRaw(b: nat, ghost k: BufferState) returns (r: Option<Cmsghdr>)
      requires b < |buffers| && b < |bufferGone| && BufferShows(buffers[b], bufferGone[b], k)
      requires buffers[b].L == L
      modifies L, buffers[b], buffers[b].data
      ensures r.None? <==> k.pending == []
      ensures BufferShows(buffers[b], bufferGone[b], if r.None? then k else k.(pending := k.pending[1..]))
      ensures r.Some? ==> r.value.Record() == k.pending[0] && (|r.value.data| <= INT32_MAX ==> r.value.Fits())
      ensures r.Some? ==> 0 < r.value.ref && r.value.ref !in old(L.refs)
      ensures L.refs == if r.None? then old(L.refs) else old(L.refs)[r.value.ref := Text(r.value.data)]
      ensures buffers[b].data == old(buffers[b].data) && buffers[b].ref == old(buffers[b].ref)
    {
      hide CmsgStream.Holds;
      r := buffers[b].Shift();
    }

    // And to the contents of the pool.
    method ShiftContents(b: nat, ghost p: Pooled) returns (r: Option<Cmsghdr>)
      requires Shows(p) && b < |buffers|
      modifies L, buffers[b], buffers[b].data
      ensures b < |p.buffers| && (r.None? <==> p.buffers[b].pending == [])
      ensures if r.None? then Shows(p) else Shows(Popped(p, b))
      ensures r.Some? ==> r.value.Record() == p.buffers[b].pending[0]
      ensures r.Some? ==> (|r.value.data| <= INT32_MAX ==> r.value.Fits())
      ensures r.Some? ==> 0 < r.value.ref && r.value.ref !in old(L.refs)
      ensures L.refs == if r.None? then old(L.refs) else old(L.refs)[r.value.ref := Text(r.value.data)]
      ensures buffers[b].data == old(buffers[b].data) && buffers[b].ref == old(buffers[b].ref)
    {
      hide CmsgStream.Holds;
      ghost var k := p.buffers[b];
      r := ShiftRaw(b, k);
      OneBuffer(b, p, if r.None? then k else k.(pending := k.pending[1..]));
      assert p.buffers[b := k] == p.buffers;
    }

    // And to the references.
    method ShiftOn(b: nat, ghost p: Pooled) returns (r: Option<Cmsghdr>)
      requires Shows(p) && b < |buffers| && b < |p.buffers|
      modifies L, buffers[b], buffers[b].data
      ensures r.None? <==> p.buffers[b].pending == []
      ensures if r.None? then Shows(p) else Shows(Popped(p, b))
      ensures r.Some? ==> r.value.Record() == p.buffers[b].pending[0]
      ensures r.Some? ==> (|r.value.data| <= INT32_MAX ==> r.value.Fits())
      ensures r.Some? ==> 0 < r.value.ref && r.value.ref !in old(L.refs)
      ensures r.None? ==> Snapshot() == old(Snapshot())
      ensures r.Some? ==> Snapshot() == old(Snapshot()).(refs := old(L.refs)[r.value.ref := Text(r.value.data)])
      ensures buffers[b].data == old(buffers[b].data)
    {
      assert Apart();
      hide Shows;
      ghost var v := Snapshot();
      r := ShiftContents(b, p);
      assert BlockViews(buffers) == v.blocks;
    }

    // cmsghdrs:shift. The record becomes a new header object.
    method Shift(b: nat, ghost p: Pooled)
      requires Balanced(p) && b < |buffers| && b < |p.buffers|
      modifies `headers, `headerGone, L, buffers[b], buffers[b].data
      ensures p.buffers[b].pending == [] ==> Balanced(p)
      ensures p.buffers[b].pending != [] ==> Balanced(WithHead(Popped(p, b), p.buffers[b].pending[0]))
      ensures buffers[b].data == old(buffers[b].data)
    {
      hide Conserved, Shows, Fits, Balanced, Popped, WithHead;
      ghost var v := Snapshot();
      Opens(p);
      var r := ShiftOn(b, p);
      if r.None? {
        Concludes(v, p);
      } else {
        ShiftBalance(v, p, b);
        Join(r.value, v, Popped(p, b));
      }
    }

    // The collector finalizes a header once.
    method DropHeader(h: nat, ghost p: Pooled)
      requires Balanced(p) && h < |headers|
      modifies `headerGone, L
      ensures Balanced(Stepped(abi, p, Ancillary.DropHeader(h)))
    {
      hide Conserved, Fits, Balanced;
      ghost var v := Snapshot();
      Opens(p);
      if headerGone[h] {
        assert p.heads[h := p.heads[h].(gone := true)] == p.heads;
      } else {
        HeadGoes(v, p, h);
        HeadHasRef(v, p, h);
        DropHeaderContents(h, p);
        hide Shows;
        Concludes(v.(refs := v.refs - {v.heads[h].ref}), Stepped(abi, p, Ancillary.DropHeader(h)));
      }
    }

    method DropHeaderContents(h: nat, ghost p: Pooled)
      requires Shows(p) && h < |headers| && headers[h].ref != NOREF
      modifies `headerGone, L
      ensures Shows(Stepped(abi, p, Ancillary.DropHeader(h)))
      ensures Snapshot() == old(Snapshot()).(refs := old(L.refs) - {headers[h].ref})
    {
      assert Owns();
      hide Shows;
      CollectHeader(L, headers[h]);
      SetHeaderGone(h, p);
    }

    method SetHeaderGone(h: nat, ghost p: Pooled)
      requires Shows(p) && h < |headers|
      modifies `headerGone
      ensures Shows(Stepped(abi, p, Ancillary.DropHeader(h))) && Snapshot() == old(Snapshot())
    {
      headerGone := headerGone[h := true];
    }

    // And a buffer once.
    method DropBuffer(b: nat, ghost p: Pooled)
      requires Balanced(p) && b < |buffers|
      modifies `bufferGone, L
      ensures Balanced(Stepped(abi, p, Ancillary.DropBuffer(b)))
    {
      hide Conserved, Fits, Balanced;
      ghost var v := Snapshot();
      Opens(p);
      if bufferGone[b] {
        assert p.buffers[b := p.buffers[b].(gone := true)] == p.buffers;
      } else {
        BlockGoes(v, p, b);
        DropBufferContents(b, p);
        hide Shows;
        Concludes(if v.blocks[b].ref == NOREF then v else v.(refs := v.refs - {v.blocks[b].ref}),
                  Stepped(abi, p, Ancillary.DropBuffer(b)));
      }
    }

    method DropBufferContents(b: nat, ghost p: Pooled)
      requires Shows(p) && b < |buffers|
      modifies `bufferGone, L
      ensures Shows(Stepped(abi, p, Ancillary.DropBuffer(b)))
      ensures var r := buffers[b].ref;
        Snapshot() == if r == NOREF then old(Snapshot()) else old(Snapshot()).(refs := old(L.refs) - {r})
    {
      assert BufferShows(buffers[b], bufferGone[b], p.buffers[b]) && Owns();
      hide Shows;
      ghost var v := Snapshot();
      buffers[b].Collect();
      SetBufferGone(b, p);
      assert BlockViews(buffers) == v.blocks;
    }

    method SetBufferGone(b: nat, ghost p: Pooled)
      requires Shows(p) && b < |buffers|
      modifies `bufferGone
      ensures Shows(Stepped(abi, p, Ancillary.DropBuffer(b))) && Snapshot() == old(Snapshot())
    {
      hide CmsgStream.Holds;
      bufferGone := bufferGone[b := true];
    }

    method PerformNew(op: PoolOp, ghost p: Pooled)
      requires Balanced(p) && (op.NewHeader? || op.NewRights? || op.NewBuffer?)
      modifies `headers, `headerGone, `buffers, `bufferGone, `repr, L
      ensures Balanced(Stepped(abi, p, op)) && fresh(repr - old(repr))
    {
      hide Balanced;
      match op {
        case NewHeader(level, kind, data) => Create(level, kind, data, p);
        case NewRights(fds) => CreateRights(fds, p);
        case NewBuffer => CreateBuffer(p);
      }
    }

    method PerformDrop(op: PoolOp, ghost p: Pooled)
      requires Balanced(p) && (op.DropHeader? || op.DropBuffer?)
      modifies `headerGone, `bufferGone, L
      ensures Balanced(Stepped(abi, p, op))
    {
      hide Balanced, Conserved, Fits, Shows;
      Opens(p);
      match op {
        case DropHeader(h) =>
          if h < |headers| {
            DropHeader(h, p);
          }
        case DropBuffer(b) =>
          if b < |buffers| {
            DropBuffer(b, p);
          }
      }
    }

    method PerformPush(b: nat, h: nat, ghost p: Pooled)
      requires Balanced(p) && PoolFits(abi, p, PushTo(b, h))
      modifies L, `repr, repr
      ensures Shows(Stepped(abi, p, PushTo(b, h))) && fresh(repr - old(repr))
      ensures Balanced(Stepped(abi, p, PushTo(b, h))) <==> !Leaks(abi, p, PushTo(b, h))
    {
      hide Balanced, Conserved, Fits, Shows, WithBuffer;
      Opens(p);
      if b < |buffers| && h < |headers| {
        Push(b, h, p);
      }
    }

    method PerformShift(b: nat, ghost p: Pooled)
      requires Balanced(p)
      modifies `headers, `headerGone, L, repr
      ensures Balanced(Stepped(abi, p, ShiftFrom(b))) && repr == old(repr)
    {
      hide Balanced, Conserved, Fits, Shows, Popped, WithHead;
      Opens(p);
      if b < |buffers| {
        Shift(b, p);
      }
    }

    // One operation from Lua. The references stay balanced exactly if it does not leak.
    method Perform(op: PoolOp, ghost p: Pooled)
      requires Balanced(p) && PoolFits(abi, p, op)
      modifies `headers, `headerGone, `buffers, `bufferGone, `repr, L, repr
      ensures Shows(Stepped(abi, p, op)) && fresh(repr - old(repr))
      ensures Balanced(Stepped(abi, p, op)) <==> !Leaks(abi, p, op)
    {
      hide Balanced, Stepped, Shows;
      if op.PushTo? {
        PerformPush(op.b, op.h, p);
      } else {
        if op.ShiftFrom? {
          PerformShift(op.b, p);
        } else if op.DropHeader? || op.DropBuffer? {
          PerformDrop(op, p);
        } else {
          PerformNew(op, p);
        }
        Opens(Stepped(abi, p, op));
      }
    }

    // Any run, up to the first push that leaks: the references are balanced at its end
    // if and only if no push of the run leaks.
    method Run(ops: seq<PoolOp>, start: Pooled) returns (n: nat)
      requires Balanced(start) && AllFit(abi, start, ops)
      modifies `headers, `headerGone, `buffers, `bufferGone, `repr, L, repr
      ensures n <= |ops| && Shows(SteppedAll(abi, start, ops[..n])) && fresh(repr - old(repr))
      ensures NoneLeaks(abi, start, ops) ==> n == |ops|
      ensures Balanced(SteppedAll(abi, start, ops[..n])) <==> NoneLeaks(abi, start, ops)
      decreases |ops|
    {
      hide Balanced, Shows, Owns, Snapshot, Conserved, Fits, Stepped, Leaks, PoolFits, SteppedAll, AllFit, NoneLeaks;
      n := 0;
      RunStarts(abi, start, ops);
      Opens(start);
      if ops != [] {
        Perform(ops[0], start);
        if !Leaks(abi, start, ops[0]) {
          n := Run(ops[1..], Stepped(abi, start, ops[0]));
        }
        FirstThen(abi, start, ops, n);
        n := n + 1;
      }
    }

    // The sizes a push sees.
    lemma PushSizes(b: nat, h: nat, p: Pooled)
      requires Shows(p) && CanPush(p, b, h) && b < |buffers| && PoolFits(abi, p, PushTo(b, h))
      ensures h < |headers| && headers[h].Fits() && headers[h].Record() == p.heads[h].record
      ensures var k, r := buffers[b], headers[h].Record();
        && k.pending == p.buffers[b].pending && k.bytes == p.buffers[b].bytes && k.Intact() && k.abi == abi && k.L == L
        && k.len + Space(abi, r) == TotalSpace(abi, k.pending + [r]) < Pow256(abi.lenSize)
    {
      assert HeaderShows(headers[h], headerGone[h], p.heads[h]) && BufferShows(buffers[b], bufferGone[b], p.buffers[b]);
      HoldsSize(abi, buffers[b].data[..buffers[b].len], buffers[b].pending);
      TotalSpaceSnoc(abi, buffers[b].pending, headers[h].Record());
    }
  }

  // A finalizer that pushes to a buffer finalized before it: the new block's
  // reference is never given back.
  method GrowCollected() returns (pool: Pool, ghost p: Pooled)
    ensures fresh(pool) && pool.Shows(p) && !pool.Balanced(p)
  {
    hide Conserved, Fits, Stepped, Pool.Balanced, Pool.Shows, PoolFits, Leaks;
    pool, p := CollectedBuffer();
    LeakyPush(p);
    pool.PerformPush(0, 0, p);
    p := Stepped(ABI, p, PushTo(0, 0));
  }

  method CollectedBuffer() returns (pool: Pool, ghost p: Pooled)
    ensures fresh(pool) && fresh(pool.repr) && fresh(pool.L) && pool.abi == ABI && pool.Balanced(p)
    ensures p == Pooled([HeadState(Record.Record(1, 1, []), false)], [BufferState([], 0, true)])
  {
    hide Conserved, Fits, Stepped, Pool.Balanced, Pool.Shows;
    var L := new Registry<Anchor>();
    pool := new Pool(ABI, L);
    pool.Create(1, 1, [], NOTHING);
    ghost var one := WithHead(NOTHING, Record.Record(1, 1, []));
    pool.CreateBuffer(one);
    ghost var both := Stepped(ABI, one, NewBuffer);
    p := Stepped(ABI, both, DropBuffer(0));
    LeakySteps(one, both, p);
    pool.Opens(both);
    pool.DropBuffer(0, both);
  }

  lemma LeakySteps(one: Pooled, both: Pooled, p: Pooled)
    requires one == WithHead(NOTHING, Record.Record(1, 1, []))
    requires both == Stepped(ABI, one, NewBuffer) && p == Stepped(ABI, both, DropBuffer(0))
    ensures |both.buffers| == 1 && p == Pooled([HeadState(Record.Record(1, 1, []), false)], [BufferState([], 0, true)])
  {
  }

  lemma LeakyPush(p: Pooled)
    requires p == Pooled([HeadState(Record.Record(1, 1, []), false)], [BufferState([], 0, true)])
    ensures CanPush(p, 0, 0) && PoolFits(ABI, p, PushTo(0, 0)) && Leaks(ABI, p, PushTo(0, 0))
  {
    assert [] + [p.heads[0].record] == [p.heads[0].record];
    assert TotalSpace(ABI, [p.heads[0].record]) == CmsgSpace(ABI, 0) == 16;
    assert Pow256(8) == 256 * 256 * Pow256(6);
  }

  // Whether the references balance after a push, by what it did to the registry.
  lemma PushBalance(abi: Abi, v: View, p: Pooled, b: nat, h: nat, w: View, ref: int, memory: array<byte>)
    requires Fits(v, p) && Conserved(v, p) && CanPush(p, b, h)
    requires var k, l := p.buffers[b], Stepped(abi, p, PushTo(b, h)).buffers[b];
      && (l.bytes == k.bytes ==> w == v)
      && (l.bytes != k.bytes ==> Unused(v, b, ref, memory) && w == Grown(v, b, ref, memory))
    requires Fits(w, Stepped(abi, p, PushTo(b, h)))
    ensures Conserved(w, Stepped(abi, p, PushTo(b, h))) <==> !Leaks(abi, p, PushTo(b, h))
  {
    hide Conserved, TotalSpace, Unused, Sum, Grown;
    var k := PushedState(abi, p.buffers[b], p.heads[h].record);
    var q := WithBuffer(p, b, k);
    if k.bytes == p.buffers[b].bytes {
      SumUpdate(p.buffers, b, k, LiveBlock);
      RefsStay(v, p, q);
    } else if k.gone {
      LeakBreaks(v, p, b, ref, memory, k);
    } else {
      BlockGrows(v, p, b, ref, memory, k);
    }
  }

  lemma ShiftBalance(v: View, p: Pooled, b: nat)
    requires Fits(v, p) && Conserved(v, p) && b < |p.buffers| && p.buffers[b].pending != []
    ensures Fits(v, Popped(p, b)) && Conserved(v, Popped(p, b))
  {
    hide Conserved, Sum;
    var q := Popped(p, b);
    SumUpdate(p.buffers, b, q.buffers[b], LiveBlock);
    RefsStay(v, p, q);
  }

  lemma HeadHasRef(v: View, p: Pooled, h: nat)
    requires Fits(v, p) && Conserved(v, p) && h < |p.heads| && !p.heads[h].gone
    ensures v.heads[h].ref != NOREF
  {
    assert HeadOwns(v, p, h);
  }

  lemma RunStarts(abi: Abi, p: Pooled, ops: seq<PoolOp>)
    ensures SteppedAll(abi, p, ops[..0]) == p
    ensures ops == [] ==> AllFit(abi, p, ops) && NoneLeaks(abi, p, ops)
    ensures ops != [] ==>
      (AllFit(abi, p, ops) <==> PoolFits(abi, p, ops[0]) && AllFit(abi, Stepped(abi, p, ops[0]), ops[1..]))
    ensures ops != [] ==>
      (NoneLeaks(abi, p, ops) <==> !Leaks(abi, p, ops[0]) && NoneLeaks(abi, Stepped(abi, p, ops[0]), ops[1..]))
  {
  }

  // The first operation of a run and those after it.
  lemma FirstThen(abi: Abi, p: Pooled, ops: seq<PoolOp>, n: nat)
    requires n < |ops|
    ensures ops[..n + 1] == [ops[0]] + ops[1..][..n]
    ensures SteppedAll(abi, p, ops[..n + 1]) == SteppedAll(abi, Stepped(abi, p, ops[0]), ops[1..][..n])
    ensures n == 0 ==> SteppedAll(abi, p, ops[..n + 1]) == Stepped(abi, p, ops[0])
  {
    hide Stepped;
    assert ops[..n + 1][1..] == ops[1..][..n];
  }
}
