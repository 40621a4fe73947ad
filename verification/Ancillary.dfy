/**
 Any number of header objects and control buffers on one Lua registry: what every
 operation does to their contents, and when the references they hold are
 conserved.
 */
module Ancillary {
  import opened Anchors
  import opened CmsgLayout
  import opened CmsgStream
  import opened Cmsghdrs
  import opened LuaRegistry
  import opened Rights
  import opened Sequences

  // gone: the collector finalized the object. It can still be used by other
  // finalizers.
  datatype HeadState = HeadState(record: Record, gone: bool)

  datatype BufferState = BufferState(pending: seq<Record>, bytes: nat, gone: bool)

  datatype Pooled = Pooled(heads: seq<HeadState>, buffers: seq<BufferState>)

  datatype PoolOp =
    | NewHeader(level: int32, kind: int32, data: seq<byte>)
    | NewRights(fds: seq<int32>)
    | NewBuffer
    | PushTo(b: nat, h: nat)
    | ShiftFrom(b: nat)
    | DropHeader(h: nat)
    | DropBuffer(b: nat)

  const NOTHING := Pooled([], [])

  // ----- contents -----

  function WithHead(p: Pooled, r: Record): Pooled {
    p.(heads := p.heads + [HeadState(r, false)])
  }

  function WithBuffer(p: Pooled, b: nat, k: BufferState): Pooled
    requires b < |p.buffers|
  {
    p.(buffers := p.buffers[b := k])
  }

  predicate CanPush(p: Pooled, b: nat, h: nat) {
    b < |p.buffers| && h < |p.heads|
  }

  // What a buffer holds after a push, and its capacity then.
  function PushedState(abi: Abi, k: BufferState, r: Record): BufferState {
    k.(pending := k.pending + [r], bytes := Max(k.bytes, TotalSpace(abi, k.pending + [r])))
  }

  // The first record of a buffer is gone.
  function Popped(p: Pooled, b: nat): Pooled
    requires b < |p.buffers| && p.buffers[b].pending != []
  {
    WithBuffer(p, b, p.buffers[b].(pending := p.buffers[b].pending[1..]))
  }

  // Each operation on the contents alone. A handle that does not exist is no call.
  function Stepped(abi: Abi, p: Pooled, op: PoolOp): Pooled {
    match op
    case NewHeader(level, kind, data) => WithHead(p, Record.Record(level, kind, data))
    case NewRights(fds) =>
      if fds == [] then p else WithHead(p, Record.Record(abi.solSocket, abi.scmRights, EncodeFds(fds)))
    case NewBuffer => p.(buffers := p.buffers + [BufferState([], 0, false)])
    case PushTo(b, h) =>
      if !CanPush(p, b, h) then p else WithBuffer(p, b, PushedState(abi, p.buffers[b], p.heads[h].record))
    case ShiftFrom(b) =>
      if |p.buffers| <= b || p.buffers[b].pending == [] then p else WithHead(Popped(p, b), p.buffers[b].pending[0])
    case DropHeader(h) => if h < |p.heads| then p.(heads := p.heads[h := p.heads[h].(gone := true)]) else p
    case DropBuffer(b) => if b < |p.buffers| then WithBuffer(p, b, p.buffers[b].(gone := true)) else p
  }

  function SteppedAll(abi: Abi, p: Pooled, ops: seq<PoolOp>): Pooled
    decreases |ops|
  {
    if ops == [] then p else SteppedAll(abi, Stepped(abi, p, ops[0]), ops[1..])
  }

  // A push needs a payload that fits an int and a total that fits in size_t.
  predicate PoolFits(abi: Abi, p: Pooled, op: PoolOp) {
    op.PushTo? && CanPush(p, op.b, op.h) ==>
      var r := p.heads[op.h].record;
      |r.payload| <= INT32_MAX && TotalSpace(abi, p.buffers[op.b].pending + [r]) < Pow256(abi.lenSize)
  }

  // The push would grow a buffer that was collected.
  predicate Leaks(abi: Abi, p: Pooled, op: PoolOp) {
    && op.PushTo? && CanPush(p, op.b, op.h) && p.buffers[op.b].gone
    && p.buffers[op.b].bytes < TotalSpace(abi, p.buffers[op.b].pending + [p.heads[op.h].record])
  }

  predicate AllFit(abi: Abi, p: Pooled, ops: seq<PoolOp>)
    decreases |ops|
  {
    ops != [] ==> PoolFits(abi, p, ops[0]) && AllFit(abi, Stepped(abi, p, ops[0]), ops[1..])
  }

  predicate NoneLeaks(abi: Abi, p: Pooled, ops: seq<PoolOp>)
    decreases |ops|
  {
    ops != [] ==> !Leaks(abi, p, ops[0]) && NoneLeaks(abi, Stepped(abi, p, ops[0]), ops[1..])
  }

  // ----- what a run does to the contents -----

  // The records of the header objects, in the order they were made.
  function HeadRecords(p: Pooled): (rs: seq<Record>)
    ensures |rs| == |p.heads| && forall h :: 0 <= h < |rs| ==> rs[h] == p.heads[h].record
  {
    seq(|p.heads|, h requires 0 <= h < |p.heads| => p.heads[h].record)
  }

  // The header object a call makes: with the caller's level, type and bytes; over the
  // caller's descriptors; or of the record that leaves a buffer.
  function Made(abi: Abi, p: Pooled, op: PoolOp): seq<Record> {
    match op
    case NewHeader(level, kind, data) => [Record.Record(level, kind, data)]
    case NewRights(fds) => if fds == [] then [] else [Record.Record(abi.solSocket, abi.scmRights, EncodeFds(fds))]
    case ShiftFrom(b) => TakenFrom(p, op, b)
    case _ => []
  }

  function AllMade(abi: Abi, p: Pooled, ops: seq<PoolOp>): seq<Record>
    decreases |ops|
  {
    if ops == [] then [] else Made(abi, p, ops[0]) + AllMade(abi, Stepped(abi, p, ops[0]), ops[1..])
  }

  // What a call puts into buffer b, and what it takes out of it.
  function PutInto(p: Pooled, op: PoolOp, b: nat): seq<Record> {
    if op.PushTo? && op.b == b && CanPush(p, b, op.h) then [p.heads[op.h].record] else []
  }

  function TakenFrom(p: Pooled, op: PoolOp, b: nat): seq<Record> {
    if op.ShiftFrom? && op.b == b && b < |p.buffers| && p.buffers[b].pending != [] then [p.buffers[b].pending[0]]
    else []
  }

  function AllPut(abi: Abi, p: Pooled, ops: seq<PoolOp>, b: nat): seq<Record>
    decreases |ops|
  {
    if ops == [] then [] else PutInto(p, ops[0], b) + AllPut(abi, Stepped(abi, p, ops[0]), ops[1..], b)
  }

  function AllTaken(abi: Abi, p: Pooled, ops: seq<PoolOp>, b: nat): seq<Record>
    decreases |ops|
  {
    if ops == [] then [] else TakenFrom(p, ops[0], b) + AllTaken(abi, Stepped(abi, p, ops[0]), ops[1..], b)
  }

  // One call: no header object changes its record, and each buffer is a queue of its own.
  lemma StepContents(abi: Abi, p: Pooled, op: PoolOp)
    ensures var q := Stepped(abi, p, op);
      && HeadRecords(q) == HeadRecords(p) + Made(abi, p, op)
      && |p.buffers| <= |q.buffers| <= |p.buffers| + 1 && (|q.buffers| == |p.buffers| + 1 <==> op.NewBuffer?)
      && (forall b :: 0 <= b < |p.buffers| ==>
           p.buffers[b].pending + PutInto(p, op, b) == TakenFrom(p, op, b) + q.buffers[b].pending)
      && (forall b :: 0 <= b < |p.buffers| ==>
           q.buffers[b].bytes == if PutInto(p, op, b) == [] then p.buffers[b].bytes
                                 else Max(p.buffers[b].bytes, TotalSpace(abi, q.buffers[b].pending)))
      && (forall b :: 0 <= b < |p.buffers| ==> q.buffers[b].gone == (p.buffers[b].gone || op == DropBuffer(b)))
      && (forall h :: 0 <= h < |p.heads| ==> q.heads[h].gone == (p.heads[h].gone || op == DropHeader(h)))
      && (op.NewBuffer? ==> q.buffers[|p.buffers|] == BufferState([], 0, false))
  {
    hide TotalSpace, EncodeFds;
  }

  // Over any run each header object keeps the record it was made with, whatever
  // happens to buffers it was pushed to.
  lemma {:induction false} HeadersStay(abi: Abi, p: Pooled, ops: seq<PoolOp>)
    ensures HeadRecords(SteppedAll(abi, p, ops)) == HeadRecords(p) + AllMade(abi, p, ops)
    decreases |ops|
  {
    hide Stepped, Made;
    if ops != [] {
      StepContents(abi, p, ops[0]);
      HeadersStay(abi, Stepped(abi, p, ops[0]), ops[1..]);
      Associative(HeadRecords(p), Made(abi, p, ops[0]), AllMade(abi, Stepped(abi, p, ops[0]), ops[1..]));
    }
  }

  // Over any run, each buffer is first-in first-out, however the calls on different
  // buffers are interleaved.
  lemma {:induction false} EachBufferIsAQueue(abi: Abi, p: Pooled, ops: seq<PoolOp>, b: nat)
    requires b < |p.buffers|
    ensures b < |SteppedAll(abi, p, ops).buffers|
    ensures p.buffers[b].pending + AllPut(abi, p, ops, b)
         == AllTaken(abi, p, ops, b) + SteppedAll(abi, p, ops).buffers[b].pending
    decreases |ops|
  {
    hide Stepped, PutInto, TakenFrom;
    if ops != [] {
      StepContents(abi, p, ops[0]);
      var q := Stepped(abi, p, ops[0]);
      EachBufferIsAQueue(abi, q, ops[1..], b);
      var left := SteppedAll(abi, p, ops).buffers[b].pending;
      ChainFlows(p.buffers[b].pending, PutInto(p, ops[0], b), TakenFrom(p, ops[0], b), q.buffers[b].pending,
                 AllPut(abi, q, ops[1..], b), AllTaken(abi, q, ops[1..], b), left);
    }
  }

  // ----- references -----

  function LiveHead(k: HeadState): nat {
    if k.gone then 0 else 1
  }

  function LiveHeads(heads: seq<HeadState>): nat {
    Sum(heads, LiveHead)
  }

  // Buffers not collected that were pushed to.
  function LiveBlocks(buffers: seq<BufferState>): nat {
    Sum(buffers, LiveBlock)
  }

  function LiveBlock(k: BufferState): nat {
    if HasBlock(k) then 1 else 0
  }

  predicate HasBlock(k: BufferState) {
    !k.gone && 0 < k.bytes
  }

  datatype HeadView = HeadView(ref: int, data: seq<byte>)

  datatype BlockView = BlockView(ref: int, memory: array<byte>)

  // The reference fields of all objects, and the registry. Others hold references, too.
  datatype View = View(heads: seq<HeadView>, blocks: seq<BlockView>, refs: map<int, Anchor>, others: map<int, Anchor>)

  ghost predicate Fits(v: View, p: Pooled) {
    && |v.heads| == |p.heads| && |v.blocks| == |p.buffers|
    && (forall b :: 0 <= b < |v.blocks| ==> (v.blocks[b].ref == NOREF <==> p.buffers[b].bytes == 0))
    && (forall b, c :: 0 <= b < c < |v.blocks| ==> v.blocks[b].memory != v.blocks[c].memory)
  }

  ghost predicate HoldsRef(v: View, r: int, a: Anchor) {
    r in v.refs && r !in v.others && v.refs[r] == a
  }

  // An uncollected header anchors its own payload.
  ghost predicate HeadOwns(v: View, p: Pooled, i: nat)
    requires i < |v.heads| == |p.heads|
  {
    !p.heads[i].gone ==> HoldsRef(v, v.heads[i].ref, Text(v.heads[i].data))
  }

  // An uncollected buffer that was pushed to anchors its own block.
  ghost predicate BlockOwns(v: View, p: Pooled, b: nat)
    requires b < |v.blocks| == |p.buffers|
  {
    HasBlock(p.buffers[b]) ==> HoldsRef(v, v.blocks[b].ref, Block(v.blocks[b].memory))
  }

  ghost predicate Accounted(v: View, p: Pooled, r: int)
    requires |v.heads| == |p.heads| && |v.blocks| == |p.buffers|
  {
    || r in v.others
    || (exists i :: 0 <= i < |v.heads| && !p.heads[i].gone && v.heads[i].ref == r)
    || (exists b :: 0 <= b < |v.blocks| && HasBlock(p.buffers[b]) && v.blocks[b].ref == r)
  }

  ghost predicate OthersKept(v: View) {
    && (forall r :: r in v.refs ==> 0 < r)
    && (forall r :: r in v.others ==> r in v.refs && v.refs[r] == v.others[r])
  }

  ghost predicate Distinct(v: View, p: Pooled)
    requires |v.heads| == |p.heads|
  {
    forall i, j :: 0 <= i < j < |v.heads| && !p.heads[i].gone && !p.heads[j].gone ==> v.heads[i].ref != v.heads[j].ref
  }

  // Beside what others anchor, the registry holds exactly one reference for each
  // uncollected header and one for each uncollected buffer that was pushed to, each
  // for its own text or block.
  ghost predicate Conserved(v: View, p: Pooled)
    requires Fits(v, p)
  {
    && OthersKept(v) && Distinct(v, p)
    && (forall i :: 0 <= i < |v.heads| ==> HeadOwns(v, p, i))
    && (forall b :: 0 <= b < |v.blocks| ==> BlockOwns(v, p, b))
    && (forall r :: r in v.refs ==> Accounted(v, p, r))
    && |v.refs| == |v.others| + LiveHeads(p.heads) + LiveBlocks(p.buffers)
  }

  lemma Balance(v: View, p: Pooled)
    requires Fits(v, p) && Conserved(v, p)
    ensures OthersKept(v) && Distinct(v, p) && |v.refs| == |v.others| + LiveHeads(p.heads) + LiveBlocks(p.buffers)
  {
  }

  lemma AccountedAt(v: View, p: Pooled, r: int)
    requires Fits(v, p) && Conserved(v, p) && r in v.refs
    ensures Accounted(v, p, r)
  {
  }

  lemma Conserves(v: View, p: Pooled)
    requires Fits(v, p) && OthersKept(v) && Distinct(v, p)
    requires forall i :: 0 <= i < |v.heads| ==> HeadOwns(v, p, i)
    requires forall b :: 0 <= b < |v.blocks| ==> BlockOwns(v, p, b)
    requires forall r :: r in v.refs ==> Accounted(v, p, r)
    requires |v.refs| == |v.others| + LiveHeads(p.heads) + LiveBlocks(p.buffers)
    ensures Conserved(v, p)
  {
  }

  // ----- what each change does -----

  lemma HeadJoins(v: View, p: Pooled, r: Record, ref: int)
    requires Fits(v, p) && Conserved(v, p) && 0 < ref && ref !in v.refs
    ensures var w := v.(heads := v.heads + [HeadView(ref, r.payload)], refs := v.refs[ref := Text(r.payload)]);
      Fits(w, WithHead(p, r)) && Conserved(w, WithHead(p, r))
  {
    hide Sum;
    var w := v.(heads := v.heads + [HeadView(ref, r.payload)], refs := v.refs[ref := Text(r.payload)]);
    var q := WithHead(p, r);
    SumSnoc(p.heads, HeadState(r, false), LiveHead);
    forall i | 0 <= i < |w.heads| ensures HeadOwns(w, q, i) {
      assert i < |v.heads| ==> HeadOwns(v, p, i);
    }
    forall b | 0 <= b < |w.blocks| ensures BlockOwns(w, q, b) {
      assert BlockOwns(v, p, b);
    }
    assert Distinct(w, q) by {
      forall i | 0 <= i < |v.heads| && !p.heads[i].gone ensures v.heads[i].ref != ref {
        assert HeadOwns(v, p, i);
      }
    }
    forall x | x in w.refs ensures Accounted(w, q, x) {
      if x == ref {
        assert w.heads[|v.heads|].ref == x;
      } else {
        assert Accounted(v, p, x);
        StillAccounted(v, p, w, q, x);
      }
    }
  }

  lemma StillAccounted(v: View, p: Pooled, w: View, q: Pooled, x: int)
    requires Fits(v, p) && Fits(w, q) && Accounted(v, p, x) && w.others == v.others
    requires |v.heads| <= |w.heads| && |v.blocks| <= |w.blocks|
    requires forall i :: 0 <= i < |v.heads| && v.heads[i].ref == x && !p.heads[i].gone ==>
      w.heads[i].ref == x && !q.heads[i].gone
    requires forall b :: 0 <= b < |v.blocks| && v.blocks[b].ref == x && HasBlock(p.buffers[b]) ==>
      w.blocks[b].ref == x && HasBlock(q.buffers[b])
    ensures Accounted(w, q, x)
  {
    if i :| 0 <= i < |v.heads| && !p.heads[i].gone && v.heads[i].ref == x {
      assert w.heads[i].ref == x;
    } else if b :| 0 <= b < |v.blocks| && HasBlock(p.buffers[b]) && v.blocks[b].ref == x {
      assert w.blocks[b].ref == x;
    }
  }

  // The contents moved, and nobody's references did.
  lemma RefsStay(v: View, p: Pooled, q: Pooled)
    requires Fits(v, p) && Fits(v, q) && Conserved(v, p)
    requires forall i :: 0 <= i < |p.heads| ==> q.heads[i].gone == p.heads[i].gone
    requires forall b :: 0 <= b < |p.buffers| ==> HasBlock(q.buffers[b]) == HasBlock(p.buffers[b])
    requires LiveHeads(q.heads) == LiveHeads(p.heads) && LiveBlocks(q.buffers) == LiveBlocks(p.buffers)
    ensures Conserved(v, q)
  {
    hide Sum;
    forall i | 0 <= i < |v.heads| ensures HeadOwns(v, q, i) {
      assert HeadOwns(v, p, i);
    }
    forall b | 0 <= b < |v.blocks| ensures BlockOwns(v, q, b) {
      assert BlockOwns(v, p, b);
    }
    forall x | x in v.refs ensures Accounted(v, q, x) {
      assert Accounted(v, p, x);
      StillAccounted(v, p, v, q, x);
    }
  }

  lemma BlockJoins(v: View, p: Pooled, memory: array<byte>)
    requires Fits(v, p) && Conserved(v, p) && forall b :: 0 <= b < |v.blocks| ==> v.blocks[b].memory != memory
    ensures var w, q := v.(blocks := v.blocks + [BlockView(NOREF, memory)]), Stepped(ABI, p, NewBuffer);
      Fits(w, q) && Conserved(w, q)
  {
    hide Sum;
    var w, q := v.(blocks := v.blocks + [BlockView(NOREF, memory)]), Stepped(ABI, p, NewBuffer);
    SumSnoc(p.buffers, BufferState([], 0, false), LiveBlock);
    forall i | 0 <= i < |w.heads| ensures HeadOwns(w, q, i) {
      assert HeadOwns(v, p, i);
    }
    forall b | 0 <= b < |w.blocks| ensures BlockOwns(w, q, b) {
      assert b < |v.blocks| ==> BlockOwns(v, p, b);
    }
    forall x | x in w.refs ensures Accounted(w, q, x) {
      assert Accounted(v, p, x);
      StillAccounted(v, p, w, q, x);
    }
  }

  // Nothing of a new buffer depends on the platform.
  const ABI: Abi := Platform(8, 8, 1, 1)

  // gc_lua of a header.
  lemma HeadGoes(v: View, p: Pooled, h: nat)
    requires Fits(v, p) && Conserved(v, p) && h < |p.heads| && !p.heads[h].gone
    ensures var w, q := v.(refs := v.refs - {v.heads[h].ref}), Stepped(ABI, p, DropHeader(h));
      Fits(w, q) && Conserved(w, q)
  {
    hide Sum, HeadOwns, BlockOwns, Accounted, Conserved;
    var r := v.heads[h].ref;
    var w, q := v.(refs := v.refs - {r}), Stepped(ABI, p, DropHeader(h));
    SumUpdate(p.heads, h, q.heads[h], LiveHead);
    CountRemoved(v.refs, r);
    Balance(v, p);
    HeadAlone(v, p, h);
    OwnersStay(v, p, w, q);
    forall x | x in w.refs ensures Accounted(w, q, x) {
      AccountedAt(v, p, x);
      StillAccounted(v, p, w, q, x);
    }
    assert Distinct(w, q);
    hide Fits, Distinct, OthersKept;
    Conserves(w, q);
  }

  // Nobody else's reference is that of an uncollected header.
  lemma HeadAlone(v: View, p: Pooled, h: nat)
    requires Fits(v, p) && Conserved(v, p) && h < |p.heads| && !p.heads[h].gone
    ensures var r := v.heads[h].ref;
      && r in v.refs && r !in v.others
      && (forall i :: 0 <= i < |v.heads| && i != h && !p.heads[i].gone ==> v.heads[i].ref != r)
      && (forall b :: 0 <= b < |v.blocks| && HasBlock(p.buffers[b]) ==> v.blocks[b].ref != r)
  {
    assert HeadOwns(v, p, h);
    hide Sum, Accounted;
    forall b | 0 <= b < |v.blocks| && HasBlock(p.buffers[b]) ensures v.blocks[b].ref != v.heads[h].ref {
      assert BlockOwns(v, p, b);
    }
  }

  // Nobody else's reference is that of an uncollected buffer.
  lemma BlockAlone(v: View, p: Pooled, b: nat)
    requires Fits(v, p) && Conserved(v, p) && b < |p.buffers| && HasBlock(p.buffers[b])
    ensures var r := v.blocks[b].ref;
      && r in v.refs && r !in v.others
      && (forall i :: 0 <= i < |v.heads| && !p.heads[i].gone ==> v.heads[i].ref != r)
      && (forall c :: 0 <= c < |v.blocks| && c != b && HasBlock(p.buffers[c]) ==> v.blocks[c].ref != r)
  {
    assert BlockOwns(v, p, b);
    hide Sum, Accounted;
    forall i | 0 <= i < |v.heads| && !p.heads[i].gone ensures v.heads[i].ref != v.blocks[b].ref {
      assert HeadOwns(v, p, i);
    }
    forall c | 0 <= c < |v.blocks| && c != b && HasBlock(p.buffers[c]) ensures v.blocks[c].ref != v.blocks[b].ref {
      assert BlockOwns(v, p, c);
    }
  }

  // gc_lua of a buffer; one never pushed to holds nothing.
  lemma BlockGoes(v: View, p: Pooled, b: nat)
    requires Fits(v, p) && Conserved(v, p) && b < |p.buffers| && !p.buffers[b].gone
    ensures var w := if v.blocks[b].ref == NOREF then v else v.(refs := v.refs - {v.blocks[b].ref});
      var q := Stepped(ABI, p, DropBuffer(b));
      Fits(w, q) && Conserved(w, q)
  {
    hide Sum, Conserved;
    var q := Stepped(ABI, p, DropBuffer(b));
    SumUpdate(p.buffers, b, q.buffers[b], LiveBlock);
    if v.blocks[b].ref == NOREF {
      RefsStay(v, p, q);
    } else {
      BlockReleased(v, p, b);
    }
  }

  lemma BlockReleased(v: View, p: Pooled, b: nat)
    requires Fits(v, p) && Conserved(v, p) && b < |p.buffers| && HasBlock(p.buffers[b])
    ensures var w, q := v.(refs := v.refs - {v.blocks[b].ref}), Stepped(ABI, p, DropBuffer(b));
      Fits(w, q) && Conserved(w, q)
  {
    hide Sum, HeadOwns, BlockOwns, Accounted, Conserved;
    var r, q := v.blocks[b].ref, Stepped(ABI, p, DropBuffer(b));
    var w := v.(refs := v.refs - {r});
    SumUpdate(p.buffers, b, q.buffers[b], LiveBlock);
    CountRemoved(v.refs, r);
    Balance(v, p);
    BlockAlone(v, p, b);
    OwnersStay(v, p, w, q);
    forall x | x in w.refs ensures Accounted(w, q, x) {
      AccountedAt(v, p, x);
      StillAccounted(v, p, w, q, x);
    }
    assert Distinct(w, q);
    hide Fits, Distinct, OthersKept;
    Conserves(w, q);
  }

  ghost predicate Kept(v: View, w: View, r: int) {
    r in v.refs ==> r in w.refs && w.refs[r] == v.refs[r]
  }

  // Objects that keep their fields, and whose references keep their anchors, go on
  // owning them.
  lemma OwnersStay(v: View, p: Pooled, w: View, q: Pooled)
    requires Fits(v, p) && Fits(w, q) && Conserved(v, p) && w.others == v.others
    requires w.heads == v.heads && |w.blocks| == |v.blocks|
    requires forall i :: 0 <= i < |w.heads| && !q.heads[i].gone ==> !p.heads[i].gone && Kept(v, w, v.heads[i].ref)
    requires forall b :: 0 <= b < |w.blocks| && HasBlock(q.buffers[b]) ==>
      || HoldsRef(w, w.blocks[b].ref, Block(w.blocks[b].memory))
      || (HasBlock(p.buffers[b]) && w.blocks[b] == v.blocks[b] && Kept(v, w, v.blocks[b].ref))
    ensures forall i :: 0 <= i < |w.heads| ==> HeadOwns(w, q, i)
    ensures forall b :: 0 <= b < |w.blocks| ==> BlockOwns(w, q, b)
  {
    hide Sum, Accounted;
    forall i | 0 <= i < |w.heads| ensures HeadOwns(w, q, i) {
      assert HeadOwns(v, p, i);
    }
    forall b | 0 <= b < |w.blocks| ensures BlockOwns(w, q, b) {
      assert BlockOwns(v, p, b);
    }
  }

  // The registry after a growing push: the old reference of the buffer is released,
  // whoever holds it, and a new one anchors the new block.
  ghost function Grown(v: View, b: nat, ref: int, memory: array<byte>): View
    requires b < |v.blocks|
  {
    v.(blocks := v.blocks[b := BlockView(ref, memory)], refs := (v.refs - {v.blocks[b].ref})[ref := Block(memory)])
  }

  // No block is the new one yet, and the new reference is not in use.
  ghost predicate Unused(v: View, b: nat, ref: int, memory: array<byte>)
    requires b < |v.blocks|
  {
    && 0 < ref && ref !in v.refs - {v.blocks[b].ref}
    && (forall r :: r in v.refs ==> v.refs[r] != Block(memory))
    && (forall c :: 0 <= c < |v.blocks| ==> v.blocks[c].memory != memory)
  }

  // Growing an uncollected buffer swaps its reference, or takes its first one.
  lemma BlockGrows(v: View, p: Pooled, b: nat, ref: int, memory: array<byte>, k: BufferState)
    requires Fits(v, p) && Conserved(v, p) && b < |p.buffers| && !p.buffers[b].gone && !k.gone && 0 < k.bytes
    requires Unused(v, b, ref, memory)
    ensures Fits(Grown(v, b, ref, memory), WithBuffer(p, b, k))
    ensures Conserved(Grown(v, b, ref, memory), WithBuffer(p, b, k))
  {
    var w, q := Grown(v, b, ref, memory), WithBuffer(p, b, k);
    hide Sum, HeadOwns, BlockOwns, Accounted;
    GrownOwners(v, p, b, ref, memory, k);
    GrownCount(v, p, b, ref, memory, k);
    forall x | x in w.refs ensures Accounted(w, q, x) {
      GrownAccounted(v, p, b, ref, memory, k, x);
    }
    assert OthersKept(w) by { GrownOthers(v, p, b, ref, memory); }
  }

  lemma GrownOthers(v: View, p: Pooled, b: nat, ref: int, memory: array<byte>)
    requires Fits(v, p) && Conserved(v, p) && b < |p.buffers| && !p.buffers[b].gone && Unused(v, b, ref, memory)
    ensures OthersKept(Grown(v, b, ref, memory))
  {
    hide Conserved, Distinct;
    Balance(v, p);
    NewRefIsNew(v, p, b, ref, memory);
  }

  lemma GrownCount(v: View, p: Pooled, b: nat, ref: int, memory: array<byte>, k: BufferState)
    requires Fits(v, p) && Conserved(v, p) && b < |p.buffers| && !p.buffers[b].gone && !k.gone && 0 < k.bytes
    requires Unused(v, b, ref, memory)
    ensures |Grown(v, b, ref, memory).refs| == |v.others| + LiveHeads(p.heads) + LiveBlocks(p.buffers[b := k])
  {
    SumUpdate(p.buffers, b, k, LiveBlock);
    CountRemoved(v.refs, v.blocks[b].ref);
    if HasBlock(p.buffers[b]) {
      BlockAlone(v, p, b);
    }
    hide Sum, HeadOwns, BlockOwns, Accounted, Distinct, OthersKept;
  }

  lemma GrownAccounted(v: View, p: Pooled, b: nat, ref: int, memory: array<byte>, k: BufferState, x: int)
    requires Fits(v, p) && Conserved(v, p) && b < |p.buffers| && !k.gone && 0 < k.bytes
    requires Fits(Grown(v, b, ref, memory), WithBuffer(p, b, k)) && x in Grown(v, b, ref, memory).refs
    ensures Accounted(Grown(v, b, ref, memory), WithBuffer(p, b, k), x)
  {
    hide Sum, HeadOwns, BlockOwns, Distinct, OthersKept;
    var w, q := Grown(v, b, ref, memory), WithBuffer(p, b, k);
    if x == ref {
      assert w.blocks[b].ref == x;
    } else {
      assert Accounted(v, p, x);
      StillAccounted(v, p, w, q, x);
    }
  }

  lemma GrownOwners(v: View, p: Pooled, b: nat, ref: int, memory: array<byte>, k: BufferState)
    requires Fits(v, p) && Conserved(v, p) && b < |p.buffers| && !p.buffers[b].gone && !k.gone && 0 < k.bytes
    requires Unused(v, b, ref, memory)
    ensures var w, q := Grown(v, b, ref, memory), WithBuffer(p, b, k);
      && Fits(w, q)
      && (forall i :: 0 <= i < |w.heads| ==> HeadOwns(w, q, i))
      && (forall c :: 0 <= c < |w.blocks| ==> BlockOwns(w, q, c))
  {
    hide Conserved, HeadOwns, BlockOwns;
    NewRefIsNew(v, p, b, ref, memory);
    OwnersStay(v, p, Grown(v, b, ref, memory), WithBuffer(p, b, k));
  }

  // No other object has the new reference, or the old one.
  lemma NewRefIsNew(v: View, p: Pooled, b: nat, ref: int, memory: array<byte>)
    requires Fits(v, p) && Conserved(v, p) && b < |p.buffers| && !p.buffers[b].gone && Unused(v, b, ref, memory)
    ensures ref !in v.others && v.blocks[b].ref !in v.others
    ensures forall i :: 0 <= i < |v.heads| && !p.heads[i].gone ==> Apart(v, b, ref, v.heads[i].ref)
    ensures forall c :: 0 <= c < |v.blocks| && c != b && HasBlock(p.buffers[c]) ==> Apart(v, b, ref, v.blocks[c].ref)
  {
    if HasBlock(p.buffers[b]) {
      BlockAlone(v, p, b);
    }
    hide Sum, Accounted;
    forall i | 0 <= i < |v.heads| && !p.heads[i].gone ensures Apart(v, b, ref, v.heads[i].ref) {
      assert HeadOwns(v, p, i);
    }
    forall c | 0 <= c < |v.blocks| && c != b && HasBlock(p.buffers[c]) ensures Apart(v, b, ref, v.blocks[c].ref) {
      assert BlockOwns(v, p, c);
    }
  }

  ghost predicate Apart(v: View, b: nat, ref: int, r: int)
    requires b < |v.blocks|
  {
    r in v.refs && r != ref && r != v.blocks[b].ref
  }

  // Growing a collected one never keeps the balance: its old reference was given
  // back before, so either a new one is held by nobody, or somebody else's was taken.
  lemma LeakBreaks(v: View, p: Pooled, b: nat, ref: int, memory: array<byte>, k: BufferState)
    requires Fits(v, p) && Conserved(v, p) && b < |p.buffers| && p.buffers[b].gone && k.gone && 0 < k.bytes
    requires Unused(v, b, ref, memory)
    ensures Fits(Grown(v, b, ref, memory), WithBuffer(p, b, k))
    ensures !Conserved(Grown(v, b, ref, memory), WithBuffer(p, b, k))
  {
    hide Sum;
    var r, w, q := v.blocks[b].ref, Grown(v, b, ref, memory), WithBuffer(p, b, k);
    SumUpdate(p.buffers, b, k, LiveBlock);
    CountRemoved(v.refs, r);
    if Conserved(w, q) {
      assert Accounted(w, q, ref);
      LeakedRefIsNobodys(v, p, b, ref, memory, k);
    }
  }

  // The new reference anchors a block that no uncollected object has.
  lemma LeakedRefIsNobodys(v: View, p: Pooled, b: nat, ref: int, memory: array<byte>, k: BufferState)
    requires Fits(v, p) && Conserved(v, p) && b < |p.buffers| && p.buffers[b].gone && k.gone && 0 < k.bytes
    requires Unused(v, b, ref, memory) && Fits(Grown(v, b, ref, memory), WithBuffer(p, b, k))
    ensures var w, q := Grown(v, b, ref, memory), WithBuffer(p, b, k);
      Conserved(w, q) ==> !Accounted(w, q, ref)
  {
    hide Sum;
    var w, q := Grown(v, b, ref, memory), WithBuffer(p, b, k);
    if Conserved(w, q) {
      forall i | 0 <= i < |w.heads| && !q.heads[i].gone ensures w.heads[i].ref != ref {
        assert HeadOwns(w, q, i);
      }
      forall c | 0 <= c < |w.blocks| && HasBlock(q.buffers[c]) ensures w.blocks[c].ref != ref {
        assert BlockOwns(w, q, c);
      }
    }
  }

  // The headers and buffers keep their references when only others' changed.
  lemma MessagesKeep(v: View, p: Pooled, refs: map<int, Anchor>, others: map<int, Anchor>)
    requires Fits(v, p) && Conserved(v, p) && Moved(v.refs, v.others, refs, others)
    ensures var w := v.(refs := refs, others := others); Fits(w, p) && Conserved(w, p)
  {
    var w := v.(refs := refs, others := others);
    hide Sum;
    forall i | 0 <= i < |w.heads| ensures HeadOwns(w, p, i) {
      assert HeadOwns(v, p, i);
    }
    forall b | 0 <= b < |w.blocks| ensures BlockOwns(w, p, b) {
      assert BlockOwns(v, p, b);
    }
    forall r | r in w.refs ensures Accounted(w, p, r) {
      if r !in w.others {
        assert Accounted(v, p, r);
      }
    }
  }
}
