/**
 Sockets with their hooks, header objects and control buffers on one Lua registry:
 no module releases or overwrites what another anchors, and over any interleaving
 of calls the registry holds exactly the references of the live objects.
 */
module SharedRegistry {
  import opened Anchors
  import opened CmsgLayout
  import opened LuaRegistry
  import opened SocketMachine
  import opened SocketInvariants
  import opened SocketHeap
  import opened AncillaryPool
  import SO = SocketObjects
  import A = Ancillary

  datatype Call = OnSockets(op: Op) | OnMessages(call: A.PoolOp)

  // The socket calls and the message calls of a program, each in order.
  function SocketCalls(calls: seq<Call>): seq<Op> {
    if calls == [] then []
    else (if calls[0].OnSockets? then [calls[0].op] else []) + SocketCalls(calls[1..])
  }

  function MessageCalls(calls: seq<Call>): seq<A.PoolOp> {
    if calls == [] then []
    else (if calls[0].OnMessages? then [calls[0].call] else []) + MessageCalls(calls[1..])
  }

  // The two sides have no object in common but the registry.
  ghost predicate Disjoint(w: World, pool: Pool)
    reads w`repr, pool`repr
  {
    w.registry == pool.L && w.repr !! pool.repr && pool !in w.repr && w !in pool.repr
  }

  // w shows a, pool holds p with balanced references, and each knows the other's.
  ghost predicate Together(w: World, pool: Pool, a: State, p: A.Pooled)
    reads w, w.repr, pool, pool.L, pool.repr
  {
    Disjoint(w, pool) && w.Shows(a) && pool.Balanced(p) && Split(w.registry.refs, w.others, pool.others)
  }

  // The others of w keep their anchors in any state it shows.
  lemma WorldKeepsOthers(w: World, a: State)
    requires w.Shows(a)
    ensures w.registry in w.repr && w !in w.repr && w.Sound() && Inv(a) && SO.Agrees(w.Snapshot(), a)
    ensures forall r :: r in w.registry.refs ==> 0 < r
    ensures forall r :: r in w.others ==> r in w.registry.refs && w.registry.refs[r] == w.others[r]
  {
  }

  lemma PoolKeepsOthers(pool: Pool, p: A.Pooled)
    requires pool.Balanced(p)
    ensures pool.Owns() && pool.Shows(p)
    ensures A.Fits(pool.Snapshot(), p) && A.Conserved(pool.Snapshot(), p)
    ensures forall r :: r in pool.L.refs ==> 0 < r
    ensures forall r :: r in pool.others ==> r in pool.L.refs && pool.L.refs[r] == pool.others[r]
  {
  }

  // A socket call does not touch the messages' objects.
  method SocketsAlone(w: World, pool: Pool, op: Op, ghost a: State, ghost p: A.Pooled)
    requires Disjoint(w, pool) && w.Shows(a) && pool.Shows(p) && pool.Owns()
    modifies w`sockets, w`hooks, w`repr, w.repr
    ensures w.Shows(Step(a, op).st) && fresh(w.repr - old(w.repr)) && w.registry in w.repr
    ensures pool.Shows(p) && pool.Snapshot() == old(pool.Snapshot()).(refs := w.registry.refs)
  {
    ghost var v := pool.Snapshot();
    WorldKeepsOthers(w, a);
    hide World.Shows, Pool.Shows, Inv, SO.Agrees, Step, World.Sound;
    var _ := w.Perform(op, a);
    assert BlockViews(pool.buffers) == v.blocks;
  }

  method CallSockets(w: World, pool: Pool, op: Op, ghost a: State, ghost p: A.Pooled)
    requires Together(w, pool, a, p)
    modifies w`sockets, w`hooks, w`repr, w.repr, pool`others
    ensures Together(w, pool, Step(a, op).st, p) && fresh(w.repr - old(w.repr))
  {
    hide World.Shows, Pool.Balanced, Pool.Shows, Inv, SO.Agrees, A.Conserved, A.Fits, Step, Split, Moved, Rest;
    hide World.Sound, Together, Pool.Owns;
    Parts(w, pool, a, p);
    ghost var v, mine := pool.Snapshot(), w.others;
    PoolKeepsOthers(pool, p);
    WorldKeepsOthers(w, a);
    SplitTurns(v.refs, mine, v.others);
    SocketsAlone(w, pool, op, a, p);
    WorldKeepsOthers(w, Step(a, op).st);
    OthersMove(v.refs, v.others, mine, w.registry.refs);
    pool.Resync(v, p, Rest(w.registry.refs, mine));
    Join(w, pool, Step(a, op).st, p);
  }

  // A message call does not touch the sockets' objects. It keeps the references
  // balanced exactly if it does not leak.
  method MessagesAlone(w: World, pool: Pool, call: A.PoolOp, ghost a: State, ghost p: A.Pooled)
    requires Disjoint(w, pool) && w.Owns() && w.Sound() && pool.Balanced(p) && A.PoolFits(pool.abi, p, call)
    modifies pool`headers, pool`headerGone, pool`buffers, pool`bufferGone, pool`repr, pool.L, pool.repr
    ensures pool.Shows(A.Stepped(pool.abi, p, call)) && fresh(pool.repr - old(pool.repr))
    ensures pool.Balanced(A.Stepped(pool.abi, p, call)) <==> !A.Leaks(pool.abi, p, call)
    ensures w.Sound() && w.Own() == old(w.Own()) && Disjoint(w, pool)
  {
    hide Pool.Shows, Pool.Balanced, Pool.Owns, World.Sound, World.Own, A.Stepped, A.Leaks, A.PoolFits;
    pool.Perform(call, p);
  }

  method CallMessages(w: World, pool: Pool, call: A.PoolOp, ghost a: State, ghost p: A.Pooled)
    requires Together(w, pool, a, p) && A.PoolFits(pool.abi, p, call)
    modifies pool`headers, pool`headerGone, pool`buffers, pool`bufferGone, pool`repr, pool.L, pool.repr, w`others
    ensures pool.Shows(A.Stepped(pool.abi, p, call)) && fresh(pool.repr - old(pool.repr))
    ensures Together(w, pool, a, A.Stepped(pool.abi, p, call)) <==> !A.Leaks(pool.abi, p, call)
  {
    hide World.Shows, Pool.Balanced, Pool.Shows, Inv, SO.Agrees, A.Conserved, A.Fits, A.Stepped, Split, Moved, Rest;
    hide World.Sound, A.Leaks, A.PoolFits, Together, Disjoint;
    ghost var m, mine := w.Snapshot(), pool.others;
    Parts(w, pool, a, p);
    PoolKeepsOthers(pool, p);
    WorldKeepsOthers(w, a);
    w.OwnPart();
    MessagesAlone(w, pool, call, a, p);
    ghost var q := A.Stepped(pool.abi, p, call);
    if pool.Balanced(q) {
      PoolKeepsOthers(pool, q);
      OthersMove(m.refs, m.others, mine, w.registry.refs);
      w.Resync(m, a, Rest(w.registry.refs, mine));
      SplitTurns(w.registry.refs, mine, w.others);
      Join(w, pool, a, q);
    } else if Together(w, pool, a, q) {
      Parts(w, pool, a, q);
    }
  }

  lemma Parts(w: World, pool: Pool, a: State, p: A.Pooled)
    requires Together(w, pool, a, p)
    ensures Disjoint(w, pool) && w.Shows(a) && pool.Balanced(p) && Split(w.registry.refs, w.others, pool.others)
    ensures w.registry == pool.L && w !in pool.repr && pool !in w.repr
  {
    hide World.Shows, Pool.Balanced;
  }

  lemma Join(w: World, pool: Pool, a: State, p: A.Pooled)
    requires Disjoint(w, pool) && w.Shows(a) && pool.Balanced(p) && Split(w.registry.refs, w.others, pool.others)
    ensures Together(w, pool, a, p)
  {
    hide World.Shows, Pool.Balanced;
  }

  // Over any interleaving: two references for each hook that waits or runs, one for
  // each uncollected header and one for each uncollected buffer that was pushed to.
  lemma SharedLaw(w: World, pool: Pool, a: State, p: A.Pooled)
    requires Together(w, pool, a, p)
    ensures |w.registry.refs| == 2 * SO.LiveHooks(a.hooks) + A.LiveHeads(p.heads) + A.LiveBlocks(p.buffers)
  {
    SplitCounts(w.registry.refs, w.others, pool.others);
    assert SO.RegistryAgrees(w.Snapshot(), a.hooks);
    hide Inv;
  }

  method Open(abi: Abi) returns (w: World, pool: Pool)
    ensures fresh(w) && fresh(pool) && fresh(w.repr) && fresh(pool.repr) && pool.abi == abi
    ensures Together(w, pool, INITIAL, A.NOTHING)
  {
    var registry := new Registry<Anchor>();
    w := new World(registry);
    pool := new Pool(abi, registry);
  }

  ghost function NextState(c: Call, a: State): State {
    if c.OnSockets? then Step(a, c.op).st else a
  }

  function NextPooled(abi: Abi, c: Call, p: A.Pooled): A.Pooled {
    if c.OnMessages? then A.Stepped(abi, p, c.call) else p
  }

  // A message call fits its types and leaks no reference.
  predicate Proper(abi: Abi, c: Call, p: A.Pooled) {
    c.OnMessages? ==> A.PoolFits(abi, p, c.call) && !A.Leaks(abi, p, c.call)
  }

  method MakeCall(w: World, pool: Pool, c: Call, ghost a: State, ghost p: A.Pooled)
    requires Together(w, pool, a, p) && Proper(pool.abi, c, p)
    modifies w, w.repr, pool, pool.repr
    ensures Together(w, pool, NextState(c, a), NextPooled(pool.abi, c, p))
    ensures fresh(w.repr - old(w.repr)) && fresh(pool.repr - old(pool.repr))
  {
    hide Together, Step, A.Stepped, A.Leaks, A.PoolFits, World.Shows, Pool.Balanced, World.Sound, Inv, SO.Agrees;
    Parts(w, pool, a, p);
    WorldKeepsOthers(w, a);
    match c {
      case OnSockets(op) => CallSockets(w, pool, op, a, p);
      case OnMessages(call) => CallMessages(w, pool, call, a, p);
    }
  }

  // Where the first n calls lead.
  ghost predicate Reached(w: World, pool: Pool, calls: seq<Call>, n: nat, a: State, p: A.Pooled)
    requires n <= |calls|
    reads w, w.repr, pool, pool.L, pool.repr
  {
    Together(w, pool, RunAll(a, SocketCalls(calls[..n])), A.SteppedAll(pool.abi, p, MessageCalls(calls[..n])))
  }

  // The call after the first n is a message call that is not proper, if there is one.
  predicate Stops(abi: Abi, calls: seq<Call>, n: nat, p: A.Pooled)
    requires n <= |calls|
  {
    n < |calls| ==> !Proper(abi, calls[n], A.SteppedAll(abi, p, MessageCalls(calls[..n])))
  }

  // Any program of calls, up to the first message call that is not proper.
  method RunSession(w: World, pool: Pool, calls: seq<Call>, ghost a: State, p: A.Pooled) returns (n: nat)
    requires Together(w, pool, a, p)
    modifies w, w.repr, pool, pool.repr
    ensures n <= |calls| && Reached(w, pool, calls, n, a, p)
    ensures Stops(pool.abi, calls, n, p)
    decreases |calls|
  {
    hide Together, Reached, Stops, NextState, NextPooled, Proper, SocketCalls, MessageCalls, A.SteppedAll;
    n := 0;
    NoneMade(w, pool, calls, a, p);
    if calls != [] && Proper(pool.abi, calls[0], p) {
      MakeCall(w, pool, calls[0], a, p);
      n := RunSession(w, pool, calls[1..], NextState(calls[0], a), NextPooled(pool.abi, calls[0], p));
      AlsoReached(w, pool, calls, n, a, p);
      n := n + 1;
    }
  }

  lemma NoneMade(w: World, pool: Pool, calls: seq<Call>, a: State, p: A.Pooled)
    requires Together(w, pool, a, p)
    ensures Reached(w, pool, calls, 0, a, p)
    ensures calls == [] || !Proper(pool.abi, calls[0], p) ==> Stops(pool.abi, calls, 0, p)
  {
    hide Together;
  }

  lemma AlsoReached(w: World, pool: Pool, calls: seq<Call>, n: nat, a: State, p: A.Pooled)
    requires n < |calls| && Reached(w, pool, calls[1..], n, NextState(calls[0], a), NextPooled(pool.abi, calls[0], p))
    requires Stops(pool.abi, calls[1..], n, NextPooled(pool.abi, calls[0], p))
    ensures Reached(w, pool, calls, n + 1, a, p) && Stops(pool.abi, calls, n + 1, p)
  {
    hide Together, Proper;
    FirstThen(pool.abi, calls, n, a, p);
  }

  lemma FirstThen(abi: Abi, calls: seq<Call>, n: nat, a: State, p: A.Pooled)
    requires n < |calls|
    ensures var b, q := NextState(calls[0], a), NextPooled(abi, calls[0], p);
      var done, rest := calls[..n + 1], calls[1..][..n];
      && RunAll(a, SocketCalls(done)) == RunAll(b, SocketCalls(rest))
      && A.SteppedAll(abi, p, MessageCalls(done)) == A.SteppedAll(abi, q, MessageCalls(rest))
  {
    hide Step, A.Stepped;
    var done, rest := calls[..n + 1], calls[1..][..n];
    assert done[0] == calls[0] && done[1..] == rest;
    if calls[0].OnSockets? {
      assert SocketCalls(done) == [calls[0].op] + SocketCalls(rest) && SocketCalls(done)[1..] == SocketCalls(rest);
      assert MessageCalls(done) == MessageCalls(rest);
    } else {
      assert MessageCalls(done) == [calls[0].call] + MessageCalls(rest);
      assert MessageCalls(done)[1..] == MessageCalls(rest);
      assert SocketCalls(done) == SocketCalls(rest);
    }
  }

  // So of any program on fresh objects.
  method Session(abi: Abi, calls: seq<Call>) returns (w: World, pool: Pool, n: nat)
    ensures fresh(w) && fresh(pool) && pool.abi == abi && n <= |calls| && Reached(w, pool, calls, n, INITIAL, A.NOTHING)
    ensures Stops(abi, calls, n, A.NOTHING)
  {
    w, pool := Open(abi);
    hide Together;
    n := RunSession(w, pool, calls, INITIAL, A.NOTHING);
  }

  lemma SplitTurns(refs: map<int, Anchor>, x: map<int, Anchor>, y: map<int, Anchor>)
    requires Split(refs, x, y)
    ensures Split(refs, y, x)
  {
  }
}
