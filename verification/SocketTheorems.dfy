/**
 The laws of close hooks and descriptors over whole runs from the empty state.
 */
module SocketTheorems {
  import opened SocketMachine
  import opened SocketInvariants
  import opened SocketRuns

  // No native call is in progress.
  ghost predicate Idle(st: State) {
    forall s :: 0 <= s < |st.socks| ==> st.socks[s].busy == 0
  }

  lemma ReachableKeeps(ops: seq<Op>)
    ensures Inv(RunAll(INITIAL, ops)) && Idle(RunAll(INITIAL, ops))
  {
    assert Inv(INITIAL);
    RunAllKeeps(INITIAL, ops);
  }

  // ----- hooks -----

  // Whole-run hook law. An open socket has called nothing and its list is the
  // registrations that survive; a closed, unwrapped or collected one has called
  // exactly the survivors, most recent first, each once.
  lemma HookLaw(ops: seq<Op>, s: nat)
    requires s < |RunAll(INITIAL, ops).socks|
    ensures var st := RunAll(INITIAL, ops); var k := st.socks[s];
      && (k.fd < 0 || k.life != Live ==> k.done)
      && (!k.done ==> CallsOn(st.log, s) == [] && k.q == Survivors(st.log, s))
      && (k.done ==> CallsOn(st.log, s) == Survivors(st.log, s) && k.q == [])
      && Descending(CallsOn(st.log, s))
  {
    hide RunAll, CallsOn, Survivors;
    ReachableKeeps(ops);
    var st := RunAll(INITIAL, ops);
    assert SockOk(st, s);
  }

  // A hook ends called or deleted before its call, never both, and is one of these
  // when its socket has been drained.
  lemma HookEnds(ops: seq<Op>, h: nat)
    requires h < |RunAll(INITIAL, ops).hooks|
    ensures var st := RunAll(INITIAL, ops); var k := st.hooks[h];
      && k.owner < |st.socks| && k.status != Running
      && (k.status == Called <==> h in CallsOn(st.log, k.owner))
      && (k.status == Deleted <==> h !in Survivors(st.log, k.owner))
      && (k.status == Registered <==> h in st.socks[k.owner].q)
      && (st.socks[k.owner].done ==> k.status == Called || k.status == Deleted)
  {
    hide RunAll, CallsOn, Survivors;
    ReachableKeeps(ops);
    var st := RunAll(INITIAL, ops);
    assert HookOk(st, h) && SockOk(st, st.hooks[h].owner);
    HookLaw(ops, st.hooks[h].owner);
  }

  // Draining under re-entrancy: whatever the functions of any hooks do, at any depth
  // of nesting and to any socket, closing an open socket calls the hooks registered
  // when the drain began that nobody deleted before their turn, most recent first,
  // and nothing else of that socket. None is left waiting.
  lemma DrainLaw(a: State, op: Op, s: nat)
    requires Inv(a) && Usable(a, s) && 0 <= a.socks[s].fd && !a.socks[s].done
    requires op == Close(s) || op == Unwrap(s) || (op == Gc(s) && Collectable(a, s))
    ensures var b := Step(a, op).st;
      && CallsOn(b.log, s) == CallsOn(a.log, s) + Undeleted(a.socks[s].q, b.hooks)
      && b.socks[s].done && b.socks[s].q == []
      && (forall h :: 0 <= h < |a.hooks| && a.hooks[h].owner == s ==> DrainedHook(a, b, h))
  {
    CallGcfnKeeps(a, s, op.Close?);
    var m := CallGcfn(Enter(a, s, op.Close?), s);
    ReturnedFacts(a, m, s, op.Close?);
    DrainedCalls(a, m, s, op.Close?);
    forall h | 0 <= h < |a.hooks| && a.hooks[h].owner == s ensures DrainedHook(a, m, h) {
      DrainedHooks(a, m, s, op.Close?, h);
    }
    hide Inv, CallGcfn;
  }

  ghost predicate DrainedHook(a: State, b: State, h: nat)
    requires h < |a.hooks| <= |b.hooks|
  {
    if a.hooks[h].status == Registered then b.hooks[h].status == Called || b.hooks[h].status == Deleted
    else b.hooks[h].status == a.hooks[h].status
  }

  lemma DrainedHooks(a: State, m: State, s: nat, close: bool, h: nat)
    requires Inv(a) && s < |a.socks| && !a.socks[s].done && Returned(a, m, s, close)
    requires h < |a.hooks| && a.hooks[h].owner == s
    ensures |a.hooks| <= |m.hooks| && DrainedHook(a, m, h)
  {
    assert SameHook(a.hooks[h], m.hooks[h]);
    HookOkAt(a, h);
    SockOkAt(a, s);
    HookOkAt(m, h);
  }

  lemma DrainedCalls(a: State, m: State, s: nat, close: bool)
    requires Inv(a) && s < |a.socks| && !a.socks[s].done && Returned(a, m, s, close)
    ensures CallsOn(m.log, s) == CallsOn(a.log, s) + Undeleted(a.socks[s].q, m.hooks)
  {
    hide Inv, CallsOn, Survivors, ListOk, MembersOk, SockCore, SockLater, HookLater, FaultsLater;
    SockOkAt(a, s);
    SockOkAt(m, s);
    assert Waiting(m, s) == [];
  }

  // Nothing a callback does adds a call to a drain in progress or reorders it: of the
  // hooks still waiting, exactly those deleted meanwhile are gone.
  lemma PendingDrainKept(a: State, sc: Script, s: nat)
    requires Inv(a) && s < |a.socks| && a.socks[s].done
    ensures var b := Run(a, sc);
      && s < |b.socks| && CallsOn(b.log, s) == CallsOn(a.log, s)
      && Waiting(b, s) == Undeleted(Waiting(a, s), b.hooks)
  {
    RunKeeps(a, sc);
    var b := Run(a, sc);
    assert SockLater(a, b, s) && SockCore(a, b, s);
    SockOkAt(a, s);
    SockOkAt(b, s);
    var calls, left := CallsOn(a.log, s), Undeleted(Waiting(a, s), b.hooks);
    forall h | h in calls && h < |b.hooks| ensures b.hooks[h].status != Deleted {
      assert h in Survivors(b.log, s);
      HookOkAt(b, h);
    }
    hide Inv, CallsOn, Survivors, Waiting, Later;
    UndeletedConcat(calls, Waiting(a, s), b.hooks);
    UndeletedAll(calls, b.hooks);
    assert (calls + Waiting(b, s))[|calls|..] == Waiting(b, s) && (calls + left)[|calls|..] == left;
  }

  // Once closed: no later add or delete through the socket ever has an effect again.
  lemma ClosedForGood(a: State, ops: seq<Op>, s: nat, fn: Script, h: nat)
    requires Inv(a) && s < |a.socks| && a.socks[s].done
    ensures var b := RunAll(a, ops);
      && s < |b.socks| && b.socks[s].done && CallsOn(b.log, s) == CallsOn(a.log, s)
      && Simple(b, Add(s, fn)).st == b && Simple(b, Del(s, h)).st == b
  {
    hide Inv, RunAll, CallsOn, Survivors;
    RunAllKeeps(a, ops);
    assert SockCore(a, RunAll(a, ops), s) && SockLater(a, RunAll(a, ops), s);
  }

  // ----- descriptors -----

  // Every close and hand-out is made by the one holder of an open descriptor,
  // exactly when no close or unwrap disabled a socket inside its own close or gave
  // up the descriptor of a finalized one.
  lemma DescriptorLaw(ops: seq<Op>)
    requires CleanWraps(RunAll(INITIAL, ops).log)
    ensures Balanced(RunAll(INITIAL, ops).log) <==> Clean(RunAll(INITIAL, ops))
  {
    hide RunAll, Balanced, CleanWraps, Owners;
    ReachableKeeps(ops);
    var st := RunAll(INITIAL, ops);
    forall s | 0 <= s < |st.socks| ensures !Undermined(st, s) {
      assert SockOk(st, s);
    }
  }

  ghost predicate LiveDescriptor(st: State, s: int) {
    0 <= s < |st.socks| && 0 <= st.socks[s].fd && st.socks[s].life != Collected
  }

  // Then the live sockets own pairwise distinct descriptors, and these are all
  // the module still holds: whatever else it opened was closed or handed out.
  lemma OwnershipLaw(ops: seq<Op>)
    requires CleanWraps(RunAll(INITIAL, ops).log) && Clean(RunAll(INITIAL, ops))
    ensures var st := RunAll(INITIAL, ops);
      && (forall s, s' :: LiveDescriptor(st, s) && LiveDescriptor(st, s') && s != s' ==>
           st.socks[s].fd != st.socks[s'].fd)
      && (forall s :: LiveDescriptor(st, s) ==> st.socks[s].fd in Owners(st.log))
      && (forall fd :: fd in Owners(st.log) ==> exists s :: LiveDescriptor(st, s) && st.socks[s].fd == fd)
  {
    hide RunAll, Balanced, CleanWraps, Owners;
    ReachableKeeps(ops);
    var st := RunAll(INITIAL, ops);
    forall s | LiveDescriptor(st, s)
      ensures st.socks[s].fd in Owners(st.log) && Owners(st.log)[st.socks[s].fd] == By(s)
    {
      assert Holds(st, s);
    }
    forall fd | fd in Owners(st.log) ensures exists s :: LiveDescriptor(st, s) && st.socks[s].fd == fd {
      assert HolderOk(st, fd);
      assert LiveDescriptor(st, Owners(st.log)[fd].s);
    }
  }

  // How often fd was opened or adopted, and how often closed or handed out.
  function Acquired(t: Trace, fd: int): nat {
    if t.Start? then 0
    else Acquired(t.past, fd) + (if (t.last.Opened? || t.last.Adopted?) && t.last.fd == fd then 1 else 0)
  }

  function Released(t: Trace, fd: int): nat {
    if t.Start? then 0
    else Released(t.past, fd) + (if (t.last.Closed? || t.last.HandedOut?) && t.last.fd == fd then 1 else 0)
  }

  // Conservation: each acquisition is released at most once, and is held until it is.
  lemma {:induction false} Conservation(t: Trace, fd: int)
    requires Balanced(t) && CleanWraps(t)
    ensures Acquired(t, fd) == Released(t, fd) + (if fd in Owners(t) then 1 else 0)
  {
    if t.Snoc? {
      Conservation(t.past, fd);
    }
  }

  lemma EachDescriptorClosedOnce(ops: seq<Op>, fd: int)
    requires CleanWraps(RunAll(INITIAL, ops).log) && Clean(RunAll(INITIAL, ops))
    ensures var st := RunAll(INITIAL, ops);
      Acquired(st.log, fd) == Released(st.log, fd)
        + (if exists s :: LiveDescriptor(st, s) && st.socks[s].fd == fd then 1 else 0)
  {
    DescriptorLaw(ops);
    OwnershipLaw(ops);
    Conservation(RunAll(INITIAL, ops).log, fd);
  }

  // The guards of the two failing branches, as a caller sees them before the call:
  // the socket's own close is running, or it was finalized, and the descriptor is
  // still there. Then its drain has begun, so addgcfn on it already fails. On any
  // other socket, close and unwrap add no fault to those of the calls its hooks make.
  lemma ReuseGuard(a: State, op: Op, s: nat)
    requires Inv(a) && Usable(a, s) && (op == Close(s) || op == Unwrap(s))
    ensures var k, was, f := a.socks[s], CallGcfn(Enter(a, s, op.Close?), s).faults, Step(a, op).st.faults;
      && (f.reentered <==> was.reentered || (k.closing && 0 <= k.fd))
      && (f.reused <==> was.reused || (k.life == Collected && 0 <= k.fd))
      && (k.done ==> was == a.faults) && (k.closing || k.life == Collected ==> k.done)
  {
    var m := CallGcfn(Enter(a, s, op.Close?), s);
    SockOkAt(a, s);
    if op.Unwrap? || 0 <= a.socks[s].fd {
      CallGcfnKeeps(a, s, op.Close?);
      ReturnedFacts(a, m, s, op.Close?);
    }
    hide Inv, CallGcfn, Later;
  }

  // ----- how it goes wrong -----

  // A callback that closes its own socket: close_lua then closes a descriptor it no longer holds.
  lemma CloseInsideOwnClose()
    ensures var ops := [New(3, true), Add(0, Then(Close(0), End)), Close(0)];
      var st := RunAll(INITIAL, ops);
      CleanWraps(st.log) && !Balanced(st.log) && Released(st.log, 3) == 2 && Acquired(st.log, 3) == 1
  {
    var fn := Then(Close(0), End);
    var s2 := OpenWithHook(fn);
    CloseUnderItself(s2, fn, s2.log);
    assert Step(s2, Close(0)).st == CloseLua(s2, 0);
    hide Step, CloseLua;
    RunThree(INITIAL, New(3, true), Add(0, fn), Close(0));
    TwoCloses();
  }

  ghost function OpenedTrace(): Trace {
    Snoc(Snoc(Start, Opened(By(0), 3)), HookAdded(0, 0))
  }

  const NO_FAULTS := Faults(false, false, false)

  lemma OpenWithHook(fn: Script) returns (st: State)
    ensures st == State([Sock(3, false, [0], 0, false, Live)], [Hook(0, fn, Registered)], OpenedTrace(), NO_FAULTS)
    ensures st == Step(Step(INITIAL, New(3, true)).st, Add(0, fn)).st
  {
    var s1 := State([Sock(3, false, [], 0, false, Live)], [], Snoc(Start, Opened(By(0), 3)), NO_FAULTS);
    st := State([Sock(3, false, [0], 0, false, Live)], [Hook(0, fn, Registered)], OpenedTrace(), NO_FAULTS);
    assert Step(INITIAL, New(3, true)).st == s1;
    assert AddHook(s1, 0, fn) == st by {
      assert [0] + s1.socks[0].q == [0];
    }
    assert Step(s1, Add(0, fn)).st == st;
  }

  lemma TwoCloses()
    ensures var t := Snoc(Snoc(Snoc(OpenedTrace(), HookCalled(0, 0)), Closed(By(0), 3)), Closed(By(0), 3));
      CleanWraps(t) && !Balanced(t) && Released(t, 3) == 2 && Acquired(t, 3) == 1
  {
  }

  lemma RunThree(st: State, o1: Op, o2: Op, o3: Op)
    ensures RunAll(st, [o1, o2, o3]) == Step(Step(Step(st, o1).st, o2).st, o3).st
  {
    hide Step;
    var b := Step(Step(st, o1).st, o2).st;
    assert [o1, o2, o3][1..] == [o2, o3] && [o2, o3][1..] == [o3] && [o3][1..] == [];
    assert RunAll(b, [o3]) == RunAll(Step(b, o3).st, []);
    assert RunAll(Step(st, o1).st, [o2, o3]) == RunAll(b, [o3]);
  }

  lemma CloseUnderItself(st: State, fn: Script, t: Trace)
    requires fn == Then(Close(0), End)
    requires st == State([Sock(3, false, [0], 0, false, Live)], [Hook(0, fn, Registered)], t, NO_FAULTS)
    ensures CloseLua(st, 0) == State([Sock(-1, true, [], 0, false, Live)], [Hook(0, fn, Called)],
      Snoc(Snoc(Snoc(t, HookCalled(0, 0)), Closed(By(0), 3)), Closed(By(0), 3)), Faults(true, false, false))
  {
    var late := Faults(true, false, false);
    var b := State([Sock(3, true, [0], 1, true, Live)], [Hook(0, fn, Running)], Snoc(t, HookCalled(0, 0)), NO_FAULTS);
    var c := State([Sock(-1, true, [0], 1, true, Live)], [Hook(0, fn, Running)],
      Snoc(Snoc(t, HookCalled(0, 0)), Closed(By(0), 3)), late);
    var d := State([Sock(-1, true, [], 1, true, Live)], [Hook(0, fn, Called)], c.log, late);
    var e := SetDone(Enter(st, 0, true), 0);
    assert BeginCall(e, 0, 0) == b;
    assert CallGcfn(Enter(b, 0, true), 0) == Enter(b, 0, true);
    assert CloseLua(b, 0) == c;
    assert Run(c, End) == c && Step(b, Close(0)).st == c;
    assert Run(b, fn) == c;
    assert Without([0], 0) == [];
    assert EndCall(c, 0) == d && Drain(d, 0) == d;
    assert Drain(e, 0) == d;
    assert CallGcfn(Enter(st, 0, true), 0) == d;
  }

  // A hook of one socket closes another that the collector finalized before: gc_lua
  // left the number in the field, and close_lua closes it again. No socket closes
  // itself, and nothing is wrapped.
  lemma CloseAfterCollection()
    ensures var ops := [New(3, true), New(4, true), Add(0, Then(Close(1), End)), Gc(1), Gc(0)];
      var st := RunAll(INITIAL, ops);
      && CleanWraps(st.log) && !Balanced(st.log) && !st.faults.reentered
      && Released(st.log, 4) == 2 && Acquired(st.log, 4) == 1
  {
    var fn := Then(Close(1), End);
    var s3 := TwoOpen(fn);
    var s4 := FinalizeSecond(s3, fn);
    var s5 := FinalizeFirst(s4, fn);
    hide Step;
    var ops := [New(3, true), New(4, true), Add(0, fn), Gc(1), Gc(0)];
    RunThree(INITIAL, New(3, true), New(4, true), Add(0, fn));
    RunThen(INITIAL, [New(3, true), New(4, true), Add(0, fn)], [Gc(1), Gc(0)]);
    assert ops == [New(3, true), New(4, true), Add(0, fn)] + [Gc(1), Gc(0)];
    assert RunAll(s3, [Gc(1), Gc(0)]) == s5 by {
      assert [Gc(1), Gc(0)][1..] == [Gc(0)] && [Gc(0)][1..] == [];
      assert RunAll(s4, [Gc(0)]) == RunAll(s5, []);
    }
  }

  lemma {:induction false} RunThen(st: State, ops: seq<Op>, more: seq<Op>)
    ensures RunAll(st, ops + more) == RunAll(RunAll(st, ops), more)
    decreases |ops|
  {
    hide Step;
    if ops == [] {
      assert ops + more == more;
    } else {
      assert (ops + more)[1..] == ops[1..] + more;
      RunThen(Step(st, ops[0]).st, ops[1..], more);
    }
  }

  ghost function TwoOpenTrace(): Trace {
    Snoc(Snoc(Snoc(Start, Opened(By(0), 3)), Opened(By(1), 4)), HookAdded(0, 0))
  }

  ghost function AfterFirstGc(fn: Script): State {
    State([Sock(3, false, [0], 0, false, Live), Sock(4, true, [], 0, false, Collected)],
          [Hook(0, fn, Registered)], Snoc(TwoOpenTrace(), Closed(By(1), 4)), NO_FAULTS)
  }

  lemma TwoOpen(fn: Script) returns (st: State)
    ensures st == Step(Step(Step(INITIAL, New(3, true)).st, New(4, true)).st, Add(0, fn)).st
    ensures st == State([Sock(3, false, [0], 0, false, Live), Sock(4, false, [], 0, false, Live)],
      [Hook(0, fn, Registered)], TwoOpenTrace(), NO_FAULTS)
  {
    var first, second := Sock(3, false, [], 0, false, Live), Sock(4, false, [], 0, false, Live);
    var s1 := State([first], [], Snoc(Start, Opened(By(0), 3)), NO_FAULTS);
    var s2 := State([first, second], [], Snoc(s1.log, Opened(By(1), 4)), NO_FAULTS);
    st := State([first.(q := [0]), second], [Hook(0, fn, Registered)], TwoOpenTrace(), NO_FAULTS);
    assert Step(INITIAL, New(3, true)).st == s1;
    assert Step(s1, New(4, true)).st == s2 by {
      assert [first] + [second] == [first, second];
    }
    assert AddHook(s2, 0, fn) == st by {
      assert [0] + first.q == [0];
    }
    assert Step(s2, Add(0, fn)).st == st;
  }

  lemma FinalizeSecond(a: State, fn: Script) returns (st: State)
    requires a == State([Sock(3, false, [0], 0, false, Live), Sock(4, false, [], 0, false, Live)],
      [Hook(0, fn, Registered)], TwoOpenTrace(), NO_FAULTS)
    ensures st == AfterFirstGc(fn) == Step(a, Gc(1)).st
  {
    st := AfterFirstGc(fn);
    var e := SetDone(Enter(a, 1, false), 1);
    assert Drain(e, 1) == e && CallGcfn(Enter(a, 1, false), 1) == e;
    assert ExitGc(e, 1) == st && GcLua(a, 1) == st;
  }

  lemma FinalizeFirst(a: State, fn: Script) returns (st: State)
    requires fn == Then(Close(1), End) && a == AfterFirstGc(fn)
    ensures st == Step(a, Gc(0)).st
    ensures CleanWraps(st.log) && !Balanced(st.log) && !st.faults.reentered
    ensures Released(st.log, 4) == 2 && Acquired(st.log, 4) == 1
  {
    var late := Faults(false, true, false);
    var e := SetDone(Enter(a, 0, false), 0);
    var busy, shut := Sock(3, true, [0], 1, false, Live), Sock(4, true, [], 0, false, Collected);
    var b := State([busy, shut], [Hook(0, fn, Running)], Snoc(a.log, HookCalled(0, 0)), NO_FAULTS);
    var c := CloseCollected(b, fn);
    var d := State([busy.(q := []), shut.(fd := -1)], [Hook(0, fn, Called)], c.log, late);
    assert BeginCall(e, 0, 0) == b;
    assert Without([0], 0) == [];
    assert EndCall(c, 0) == d && Drain(d, 0) == d;
    hide Run, Step, EndCall;
    assert Drain(e, 0) == d;
    assert CallGcfn(Enter(a, 0, false), 0) == d;
    st := ExitGc(d, 0);
    assert GcLua(a, 0) == st by { hide CallGcfn; }
    GcStep(a, 0);
    ClosedAgain();
  }

  lemma GcStep(a: State, s: nat)
    requires Collectable(a, s)
    ensures Step(a, Gc(s)).st == GcLua(a, s)
  {
    hide GcLua;
  }

  // The hook closes the second socket, whose field still holds its descriptor.
  lemma CloseCollected(b: State, fn: Script) returns (c: State)
    requires fn == Then(Close(1), End) && |b.socks| == 2 && b.socks[1] == Sock(4, true, [], 0, false, Collected)
    requires b.faults == NO_FAULTS
    ensures c == Run(b, fn)
    ensures var log, late := Snoc(b.log, Closed(By(1), 4)), Faults(false, true, false);
      c == State([b.socks[0], b.socks[1].(fd := -1)], b.hooks, log, late)
  {
    c := State([b.socks[0], b.socks[1].(fd := -1)], b.hooks, Snoc(b.log, Closed(By(1), 4)), Faults(false, true, false));
    assert CallGcfn(Enter(b, 1, true), 1) == Enter(b, 1, true);
    assert CloseLua(b, 1) == c;
    assert Run(c, End) == c && Step(b, Close(1)).st == c;
  }

  lemma ClosedAgain()
    ensures var past := Snoc(Snoc(TwoOpenTrace(), Closed(By(1), 4)), HookCalled(0, 0));
      var t := Snoc(Snoc(past, Closed(By(1), 4)), Closed(By(0), 3));
      CleanWraps(t) && !Balanced(t) && Released(t, 4) == 2 && Acquired(t, 4) == 1
  {
    var t1 := Snoc(Snoc(TwoOpenTrace(), Closed(By(1), 4)), HookCalled(0, 0));
    assert 4 !in Owners(t1) && Released(t1, 4) == 1 && Acquired(t1, 4) == 1 && CleanWraps(t1);
  }

  // A hook deletes, through another socket, the hook its own drain is to call next.
  lemma DeleteNextHook()
    ensures var fn := Then(Del(1, 0), End);
      var st := RunAll(INITIAL, [New(3, true), New(4, true), Add(0, End), Add(0, fn), Close(0)]);
      && st.faults.dangling && Clean(st)
      && |st.hooks| == 2 && st.hooks[0].status == Deleted && st.hooks[1].status == Called
  {
    var fn := Then(Del(1, 0), End);
    var a := FourSteps(fn);
    var b := CallsSecond(a, fn);
    var c := DeletesFirst(b, fn);
    hide Run;
    var ops := [New(3, true), New(4, true), Add(0, End), Add(0, fn)];
    RunThen(INITIAL, ops, [Close(0)]);
    assert ops + [Close(0)] == [New(3, true), New(4, true), Add(0, End), Add(0, fn), Close(0)];
    assert RunAll(a, [Close(0)]) == RunAll(Step(a, Close(0)).st, []) by { assert [Close(0)][1..] == []; }
    var d := EndCall(c, 1);
    assert Without([1], 1) == [] && d.socks[0].q == [];
    var e := Started(a, 0, true);
    assert Drain(d, 0) == d && Drain(e, 0) == d;
    assert CallGcfn(Enter(a, 0, true), 0) == d;
    assert CloseLua(a, 0) == ExitClose(d, 0, 3, false);
  }

  // Both sockets are open and the first has two hooks.
  lemma FourSteps(fn: Script) returns (a: State)
    ensures a == RunAll(INITIAL, [New(3, true), New(4, true), Add(0, End), Add(0, fn)])
    ensures a.socks == [Sock(3, false, [1, 0], 0, false, Live), Sock(4, false, [], 0, false, Live)]
    ensures a.hooks == [Hook(0, End, Registered), Hook(0, fn, Registered)] && a.faults == NO_FAULTS
  {
    var b := TwoOpen(End);
    a := AddHook(b, 0, fn);
    assert [1] + [0] == [1, 0] && [Hook(0, End, Registered)] + [Hook(0, fn, Registered)] == a.hooks;
    assert Step(b, Add(0, fn)).st == a;
    hide Step, AddHook;
    var ops := [New(3, true), New(4, true), Add(0, End)];
    RunThree(INITIAL, ops[0], ops[1], ops[2]);
    RunThen(INITIAL, ops, [Add(0, fn)]);
    assert ops + [Add(0, fn)] == [New(3, true), New(4, true), Add(0, End), Add(0, fn)];
    assert RunAll(b, [Add(0, fn)]) == RunAll(a, []) by { assert [Add(0, fn)][1..] == []; }
  }

  // Closing the first socket calls its newer hook.
  lemma CallsSecond(a: State, fn: Script) returns (b: State)
    requires a.socks == [Sock(3, false, [1, 0], 0, false, Live), Sock(4, false, [], 0, false, Live)]
    requires a.hooks == [Hook(0, End, Registered), Hook(0, fn, Registered)] && a.faults == NO_FAULTS
    ensures b == BeginCall(Started(a, 0, true), 0, 1)
    ensures b.socks == [Sock(3, true, [1, 0], 1, true, Live), Sock(4, false, [], 0, false, Live)]
    ensures b.hooks == [Hook(0, End, Registered), Hook(0, fn, Running)] && b.faults == NO_FAULTS
    ensures LeftBehind(b, 1, 0)
  {
    b := BeginCall(Started(a, 0, true), 0, 1);
  }

  lemma DeletesFirst(b: State, fn: Script) returns (c: State)
    requires b.socks == [Sock(3, true, [1, 0], 1, true, Live), Sock(4, false, [], 0, false, Live)]
    requires b.hooks == [Hook(0, End, Registered), Hook(0, fn, Running)] && fn == Then(Del(1, 0), End)
    ensures c == Run(b, fn) == DeleteHook(b, 1, 0)
    ensures c.socks == [Sock(3, true, [1], 1, true, Live), Sock(4, false, [], 0, false, Live)]
    ensures c.hooks == [Hook(0, End, Deleted), Hook(0, fn, Running)]
  {
    c := DeleteHook(b, 1, 0);
    assert Without([1, 0], 0) == [1] by {
      assert [1, 0][1..] == [0] && Without([0], 0) == [];
    }
    assert Step(b, Del(1, 0)).st == c && !Step(b, Del(1, 0)).raised;
    assert Run(c, End) == c;
  }
}
