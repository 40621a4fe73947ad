/**
 Whole runs of push and shift on one buffer: the first-in first-out law, the
 high-water mark and the references the registry holds.
 */
module CmsgRuns {
  import opened LuaRegistry
  import opened CmsgLayout
  import opened CmsgStream
  import opened Cmsghdrs
  import opened Sequences
  import opened Wrappers

  datatype BufferOp = Push(item: Cmsghdr) | Shift

  // The buffer as a plain queue of records.
  function Apply(q: seq<Record>, op: BufferOp): seq<Record> {
    match op
    case Push(item) => q + [item.Record()]
    case Shift => if q == [] then [] else q[1..]
  }

  function After(q: seq<Record>, ops: seq<BufferOp>): seq<Record>
    decreases |ops|
  {
    if ops == [] then q else After(Apply(q, ops[0]), ops[1..])
  }

  function PushedBy(op: BufferOp): seq<Record> {
    if op.Push? then [op.item.Record()] else []
  }

  function Pushed(ops: seq<BufferOp>): seq<Record> {
    if ops == [] then [] else PushedBy(ops[0]) + Pushed(ops[1..])
  }

  // What a shift returns; a nil result gives nothing.
  function ShiftedBy(q: seq<Record>, op: BufferOp): seq<Record> {
    if op.Shift? && q != [] then [q[0]] else []
  }

  function Shifted(q: seq<Record>, ops: seq<BufferOp>): seq<Record>
    decreases |ops|
  {
    if ops == [] then [] else ShiftedBy(q, ops[0]) + Shifted(Apply(q, ops[0]), ops[1..])
  }

  // The largest `len` met along a run, its start included.
  function Peak(abi: Abi, q: seq<Record>, ops: seq<BufferOp>): nat
    decreases |ops|
  {
    if ops == [] then TotalSpace(abi, q)
    else Max(TotalSpace(abi, q), Peak(abi, Apply(q, ops[0]), ops[1..]))
  }

  // Everything put in comes out in order or is still pending.
  lemma {:induction false} FirstInFirstOut(q: seq<Record>, ops: seq<BufferOp>)
    ensures q + Pushed(ops) == Shifted(q, ops) + After(q, ops)
    decreases |ops|
  {
    if ops != [] {
      var q1 := Apply(q, ops[0]);
      assert q + PushedBy(ops[0]) == ShiftedBy(q, ops[0]) + q1;
      FirstInFirstOut(q1, ops[1..]);
      ChainFlows(q, PushedBy(ops[0]), ShiftedBy(q, ops[0]), q1,
                 Pushed(ops[1..]), Shifted(q1, ops[1..]), After(q1, ops[1..]));
    }
  }

  // A push needs a payload that fits an int and a total that fits in size_t.
  predicate OpFits(abi: Abi, q: seq<Record>, op: BufferOp) {
    op.Push? ==> op.item.Fits() && TotalSpace(abi, Apply(q, op)) < Pow256(abi.lenSize)
  }

  predicate RunFits(abi: Abi, q: seq<Record>, ops: seq<BufferOp>)
    decreases |ops|
  {
    ops != [] ==> OpFits(abi, q, ops[0]) && RunFits(abi, Apply(q, ops[0]), ops[1..])
  }

  function Records(items: seq<Cmsghdr>): (rs: seq<Record>)
    ensures |rs| == |items|
  {
    if items == [] then [] else [items[0].Record()] + Records(items[1..])
  }

  lemma {:induction false} RecordsConcat(a: seq<Cmsghdr>, b: seq<Cmsghdr>)
    ensures Records(a + b) == Records(a) + Records(b)
  {
    if a == [] {
      assert a + b == b;
    } else {
      RecordsConcat(a[1..], b);
      assert (a + b)[0] == a[0] && (a + b)[1..] == a[1..] + b;
      Associative([a[0].Record()], Records(a[1..]), Records(b));
    }
  }

  // References the registry holds for the buffer itself.
  function OwnRefs(buffer: Cmsghdrs): nat
    reads buffer
  {
    if buffer.ref == NOREF then 0 else 1
  }

  ghost predicate Ready(buffer: Cmsghdrs)
    reads buffer, buffer.L, buffer.data
  {
    buffer.Valid() && NOREF !in buffer.L.refs && buffer.len == TotalSpace(buffer.abi, buffer.pending)
  }

  // One operation of a run; out holds the header object a shift returned, if any.
  method Perform(buffer: Cmsghdrs, op: BufferOp) returns (out: seq<Cmsghdr>)
    requires Ready(buffer) && OpFits(buffer.abi, buffer.pending, op)
    modifies buffer, buffer.L, buffer.data
    ensures Ready(buffer) && (buffer.data == old(buffer.data) || fresh(buffer.data))
    ensures buffer.pending == Apply(old(buffer.pending), op)
    ensures Records(out) == ShiftedBy(old(buffer.pending), op)
    ensures buffer.bytes == Max(old(buffer.bytes), buffer.len)
    ensures |buffer.L.refs| + old(OwnRefs(buffer)) == |old(buffer.L.refs)| + |out| + OwnRefs(buffer)
  {
    hide Holds, Align, TotalSpace;
    out := [];
    match op {
      case Push(item) =>
        TotalSpaceSnoc(buffer.abi, buffer.pending, item.Record());
        buffer.Push(item);
      case Shift =>
        var r := buffer.Shift();
        out := if r.Some? then [r.value] else [];
    }
    HoldsSize(buffer.abi, buffer.data[..buffer.len], buffer.pending);
  }

  // Any run on a real buffer behaves as the queue does, and the capacity is the
  // high-water mark. Each record shifted out holds one reference and the buffer
  // holds one from its first push on.
  method Run(buffer: Cmsghdrs, ops: seq<BufferOp>) returns (out: seq<Cmsghdr>)
    requires Ready(buffer) && RunFits(buffer.abi, buffer.pending, ops)
    modifies buffer, buffer.L, buffer.data
    ensures Ready(buffer) && (buffer.data == old(buffer.data) || fresh(buffer.data))
    ensures buffer.pending == After(old(buffer.pending), ops)
    ensures Records(out) == Shifted(old(buffer.pending), ops)
    ensures old(buffer.pending) + Pushed(ops) == Records(out) + buffer.pending
    ensures buffer.bytes == Max(old(buffer.bytes), Peak(buffer.abi, old(buffer.pending), ops))
    ensures |buffer.L.refs| + old(OwnRefs(buffer)) == |old(buffer.L.refs)| + |out| + OwnRefs(buffer)
    decreases |ops|
  {
    hide Holds, Align, TotalSpace, Apply;
    FirstInFirstOut(buffer.pending, ops);
    if ops == [] {
      out := [];
    } else {
      var first := Perform(buffer, ops[0]);
      var rest := Run(buffer, ops[1..]);
      out := first + rest;
      RecordsConcat(first, rest);
    }
  }

  lemma {:induction false} RecordsAt(items: seq<Cmsghdr>, i: nat)
    requires i < |items|
    ensures Records(items)[i] == items[i].Record()
  {
    if i != 0 {
      RecordsAt(items[1..], i - 1);
    }
  }

  // Shifting until nil returns what a walk of the buffer just before would have met.
  method ShiftAll(buffer: Cmsghdrs) returns (out: seq<Cmsghdr>)
    requires Ready(buffer)
    modifies buffer, buffer.L, buffer.data
    ensures Ready(buffer) && buffer.data == old(buffer.data)
    ensures Records(out) == old(buffer.pending)
    ensures buffer.pending == [] && buffer.len == 0
    decreases |buffer.pending|
  {
    hide Holds, Align;
    var r := buffer.Shift();
    HoldsSize(buffer.abi, buffer.data[..buffer.len], buffer.pending);
    if r.None? {
      out := [];
    } else {
      var rest := ShiftAll(buffer);
      out := [r.value] + rest;
    }
  }
}
