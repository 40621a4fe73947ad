/**
 What each operation of the socket machine does, seen from outside: the events it
 adds to the trace, the objects it makes, and what it leaves alone.
 */
module SocketEffects {
  import opened SocketMachine
  import opened SocketInvariants
  import opened SocketRuns

  // ----- traces -----

  function Count(t: Trace, e: Event): nat {
    if t.Start? then 0 else Count(t.past, e) + if t.last == e then 1 else 0
  }

  // Each event of the list was added once, and no other.
  ghost predicate Adds(t: Trace, u: Trace, events: set<Event>) {
    forall e :: Count(u, e) == Count(t, e) + if e in events then 1 else 0
  }

  lemma AddsTwo(t: Trace, x: Event, y: Event)
    requires x != y
    ensures Adds(t, Snoc(Snoc(t, x), y), {x, y})
  {
    var u := Snoc(t, x);
    forall e ensures Count(Snoc(u, y), e) == Count(t, e) + if e in {x, y} then 1 else 0 {
      assert Count(u, e) == Count(t, e) + if e == x then 1 else 0;
    }
  }

  // Everything but the trace and socket s is as it was.
  ghost predicate OnlyOne(a: State, b: State, s: nat) {
    && s < |a.socks| == |b.socks| && b.hooks == a.hooks
    && forall i :: 0 <= i < |a.socks| && i != s ==> b.socks[i] == a.socks[i]
  }

  // ----- close, unwrap, collection -----

  // unwrap: when the hooks have been called, the number still in the field goes to the
  // caller. It is not closed, and the object is no socket any more.
  lemma UnwrapEffect(a: State, s: nat)
    requires Inv(a) && Usable(a, s)
    ensures var m, b := CallGcfn(Enter(a, s, false), s), Step(a, Unwrap(s)).st;
      var fd := m.socks[s].fd;
      && Adds(m.log, b.log, if fd < 0 then {} else {HandedOut(By(s), fd)})
      && OnlyOne(m, b, s) && b.socks[s].fd == -1 && !Usable(b, s) && b.socks[s].q == m.socks[s].q
  {
    hide CallGcfn;
  }

  // close: the number read before the hooks were called is closed, once, and not handed
  // out; the object stays one.
  lemma CloseEffect(a: State, s: nat)
    requires Inv(a) && Usable(a, s)
    ensures var m, b, fd := CallGcfn(Enter(a, s, true), s), Step(a, Close(s)).st, a.socks[s].fd;
      if fd < 0 then b == a
      else
        && Adds(m.log, b.log, {Closed(By(s), fd)})
        && OnlyOne(m, b, s) && b.socks[s].fd == -1 && b.socks[s].life == m.socks[s].life && b.socks[s].q == m.socks[s].q
  {
    hide CallGcfn;
  }

  // Collection: the number in the field when the hooks have been called is closed, and
  // stays in the field; there is no second collection.
  lemma GcEffect(a: State, s: nat)
    requires Inv(a) && Collectable(a, s)
    ensures var m, b := CallGcfn(Enter(a, s, false), s), Step(a, Gc(s)).st;
      && s < |b.socks| && !Collectable(b, s)
      && (a.socks[s].fd < 0 ==> OnlyOne(a, b, s) && b.log == a.log)
      && (0 <= a.socks[s].fd ==>
           var fd := m.socks[s].fd;
           && Adds(m.log, b.log, if fd < 0 then {} else {Closed(By(s), fd)})
           && OnlyOne(m, b, s) && b.socks[s].fd == fd && b.socks[s].q == m.socks[s].q)
  {
    hide CallGcfn;
  }

  // ----- opening operations -----

  // One more socket, open, around fd, without hooks.
  ghost predicate OneMore(a: State, b: State, fd: int) {
    && |b.socks| == |a.socks| + 1 && b.socks[..|a.socks|] == a.socks
    && b.hooks == a.hooks && b.faults == a.faults
    && var k := b.socks[|a.socks|];
    k.fd == fd && !k.done && k.q == [] && k.busy == 0 && !k.closing && k.life == Live
  }

  ghost predicate SameObjects(a: State, b: State) {
    b.socks == a.socks && b.hooks == a.hooks && b.faults == a.faults
  }

  // The socket that dup and accept work on is usable and has a descriptor.
  predicate Works(a: State, op: Op) {
    op.New? || ((op.Dup? || op.Accept? || op.AcceptFd?) && Usable(a, op.s) && 0 <= a.socks[op.s].fd)
  }

  // new, dup and accept: one more socket around what the kernel gave; when its flags
  // cannot be set, the descriptor is closed and there is no socket.
  lemma OpenEffect(a: State, op: Op)
    requires (op.New? || op.Dup? || op.Accept?) && Works(a, op)
    ensures var b, fd := Step(a, op).st, op.fd;
      && !Step(a, op).raised
      && (!KernelGives(a, fd) ==> b == a)
      && (KernelGives(a, fd) && op.ok ==> OneMore(a, b, fd) && Adds(a.log, b.log, {Opened(By(|a.socks|), fd)}))
      && (KernelGives(a, fd) && !op.ok ==>
           SameObjects(a, b) && Adds(a.log, b.log, {Opened(NoSocket, fd), Closed(NoSocket, fd)}))
  {
  }

  // On a socket without a descriptor dup and accept fail, and nothing happens.
  lemma IdleEffect(a: State, op: Op)
    requires (op.Dup? || op.Accept? || op.AcceptFd?) && Usable(a, op.s) && a.socks[op.s].fd < 0
    ensures Step(a, op) == Outcome(a, false)
  {
  }

  // acceptfd: the number goes to the caller open, or is closed; there is no socket.
  lemma AcceptFdEffect(a: State, op: Op)
    requires op.AcceptFd? && Works(a, op)
    ensures var b, fd := Step(a, op).st, op.fd;
      && !Step(a, op).raised && SameObjects(a, b)
      && (!KernelGives(a, fd) ==> b == a)
      && (KernelGives(a, fd) ==>
           Adds(a.log, b.log, {Opened(NoSocket, fd), if op.ok then HandedOut(NoSocket, fd) else Closed(NoSocket, fd)}))
  {
    if KernelGives(a, op.fd) {
      var last := if op.ok then HandedOut(NoSocket, op.fd) else Closed(NoSocket, op.fd);
      AddsTwo(a.log, Opened(NoSocket, op.fd), last);
    }
  }

  // wrap opens nothing: the caller's number gets an object, or nothing happens.
  lemma WrapEffect(a: State, fd: int, ok: bool)
    ensures var b := Step(a, Wrap(fd, ok)).st;
      && !Step(a, Wrap(fd, ok)).raised
      && (0 <= fd && ok ==> OneMore(a, b, fd) && Adds(a.log, b.log, {Adopted(|a.socks|, fd)}))
      && (fd < 0 || !ok ==> b == a)
  {
  }

  // ----- hooks -----

  // addgcfn: one more hook, registered, with the caller's function, first in its list.
  lemma AddEffect(a: State, s: nat, fn: Script)
    requires Usable(a, s)
    ensures var b, h := Step(a, Add(s, fn)).st, |a.hooks|;
      && (a.socks[s].done ==> b == a)
      && (!a.socks[s].done ==>
           && b.hooks == a.hooks + [Hook(s, fn, Registered)] && b.faults == a.faults
           && |b.socks| == |a.socks| && (forall i :: 0 <= i < |a.socks| && i != s ==> b.socks[i] == a.socks[i])
           && b.socks[s] == a.socks[s].(q := [h] + a.socks[s].q)
           && Adds(a.log, b.log, {HookAdded(s, h)}))
  {
  }

  // delgcfn through an open socket: that hook, if it is listed or running, leaves its
  // owner's list; a waiting one counts as deleted, a running one as called.
  lemma DelEffect(a: State, s: nat, h: nat)
    requires Inv(a) && Usable(a, s) && h < |a.hooks|
    ensures var b, k := Step(a, Del(s, h)).st, a.hooks[h];
      && (a.socks[s].done || !Alive(k) ==> b == a)
      && (!a.socks[s].done && Alive(k) ==>
           && k.owner < |a.socks| == |b.socks|
           && (forall i :: 0 <= i < |a.socks| && i != k.owner ==> b.socks[i] == a.socks[i])
           && b.socks[k.owner] == a.socks[k.owner].(q := Without(a.socks[k.owner].q, h))
           && |b.hooks| == |a.hooks| && (forall i :: 0 <= i < |a.hooks| && i != h ==> b.hooks[i] == a.hooks[i])
           && b.hooks[h].status == (if k.status == Registered then Deleted else Called)
           && Adds(a.log, b.log, {HookDeleted(k.owner, h)}))
  {
    HookOkAt(a, h);
  }

  // ----- errors -----

  // An operation raises exactly when the object it is given is no socket any more, or
  // the hook does not exist; then it does nothing. The collector never raises.
  lemma RaisesExactly(a: State, op: Op)
    ensures var o := Step(a, op);
      && (o.raised ==> o.st == a)
      && (op.New? || op.Wrap? || op.Gc? ==> !o.raised)
      && (op.Add? || op.Close? || op.Unwrap? || op.Dup? || op.Accept? || op.AcceptFd? ==>
           (o.raised <==> |a.socks| <= op.s || a.socks[op.s].life == Stripped))
      && (op.Del? ==> (o.raised <==> |a.socks| <= op.s || a.socks[op.s].life == Stripped || |a.hooks| <= op.h))
  {
    hide CloseLua, UnwrapLua, GcLua;
  }

  // The operations of a script, up to where it raises an error of its own.
  function Ops(sc: Script): seq<Op> {
    match sc
    case End => []
    case Raise => []
    case Then(op, rest) => [op] + Ops(rest)
  }

  // A script performs its operations in order, up to the first that raises: nothing
  // of it is done after that.
  lemma {:induction false} ScriptLaw(a: State, sc: Script) returns (n: nat)
    ensures n <= |Ops(sc)| && Run(a, sc) == RunAll(a, Ops(sc)[..n])
    ensures forall i :: 0 <= i < n - 1 ==> !Step(RunAll(a, Ops(sc)[..i]), Ops(sc)[i]).raised
    ensures n < |Ops(sc)| ==> 0 < n && Step(RunAll(a, Ops(sc)[..n - 1]), Ops(sc)[n - 1]).raised
    decreases sc
  {
    hide Step;
    n := 0;
    if sc.Then? {
      var o, ops := Step(a, sc.op), Ops(sc);
      assert ops[0] == sc.op && ops[1..] == Ops(sc.rest) && ops[..0] == [] && ops[..1] == [sc.op];
      assert RunAll(a, [sc.op]) == RunAll(o.st, []) by { assert [sc.op][1..] == []; }
      n := 1;
      if !o.raised {
        var k := ScriptLaw(o.st, sc.rest);
        n := k + 1;
        forall i | 0 < i <= |ops| ensures RunAll(a, ops[..i]) == RunAll(o.st, Ops(sc.rest)[..i - 1]) {
          assert ops[..i][1..] == Ops(sc.rest)[..i - 1];
        }
      }
    }
  }
}
