/**
 The socket objects of src/socket.c and the close hooks of src/gcfn.c as one
 machine on values: what every operation does, callbacks included.

 A hook's Lua function is a finite script of operations on sockets and hooks.
 The kernel is an argument: an operation that asks for a descriptor carries the
 one the kernel would give, and a request for a number that is still open, or
 for a negative one, is read as a failed system call.
 */
module SocketMachine {
  import opened Sequences

  datatype Script = End | Raise | Then(op: Op, rest: Script)

  datatype Op =
    | Add(s: nat, fn: Script)
    | Del(s: nat, h: nat)
    | Close(s: nat)
    | Unwrap(s: nat)
    | Gc(s: nat)
    | New(fd: int, ok: bool)
    | Dup(s: nat, fd: int, ok: bool)
    | Accept(s: nat, fd: int, ok: bool)
    | AcceptFd(s: nat, fd: int, ok: bool)
    | Wrap(fd: int, ok: bool)

  // Live and Collected objects have their metatable: a finalized one can still be
  // reached from another finalizer. Stripped is what unwrap leaves.
  datatype Life = Live | Stripped | Collected

  // lls_socket_t. done: gcfunc is GCFN_DONE. q: the linked hooks, those of a
  // running drain included. busy: native calls in progress on this socket;
  // closing: one of them is close_lua.
  datatype Sock = Sock(fd: int, done: bool, q: seq<nat>, busy: nat, closing: bool, life: Life)

  datatype Status = Registered | Running | Called | Deleted

  datatype Hook = Hook(owner: nat, fn: Script, status: Status)

  // The hook is linked and holds its references.
  predicate Alive(k: Hook) {
    k.status == Registered || k.status == Running
  }

  datatype Owner = By(s: nat) | NoSocket

  datatype Event =
    | HookAdded(s: nat, h: nat)
    | HookCalled(s: nat, h: nat)
    | HookDeleted(s: nat, h: nat)
    | Opened(who: Owner, fd: int)
    | Adopted(s: nat, fd: int)
    | Closed(who: Owner, fd: int)
    | HandedOut(who: Owner, fd: int)

  datatype Trace = Start | Snoc(past: Trace, last: Event)

  // reentered: some close or unwrap disabled a socket inside that socket's own close_lua.
  // reused: some close or unwrap gave up the descriptor field of a finalized socket.
  // dangling: some hook was deleted while a pointer the C code follows was on its node.
  datatype Faults = Faults(reentered: bool, reused: bool, dangling: bool)

  datatype State = State(socks: seq<Sock>, hooks: seq<Hook>, log: Trace, faults: Faults)

  const INITIAL := State([], [], Start, Faults(false, false, false))

  // ----- what a trace says -----

  function Without(q: seq<nat>, h: nat): seq<nat> {
    if q == [] then [] else if q[0] == h then q[1..] else [q[0]] + Without(q[1..], h)
  }

  // Hooks of socket s in the order they were called.
  function CallsOn(t: Trace, s: nat): seq<nat> {
    match t
    case Start => []
    case Snoc(past, HookCalled(s', h)) => CallsOn(past, s) + (if s' == s then [h] else [])
    case Snoc(past, _) => CallsOn(past, s)
  }

  // Hooks added to socket s and not deleted before their call, most recent first.
  function Survivors(t: Trace, s: nat): seq<nat> {
    match t
    case Start => []
    case Snoc(past, HookAdded(s', h)) => (if s' == s then [h] else []) + Survivors(past, s)
    case Snoc(past, HookDeleted(s', h)) =>
      if s' == s && h !in CallsOn(past, s) then Without(Survivors(past, s), h) else Survivors(past, s)
    case Snoc(past, _) => Survivors(past, s)
  }

  // Who holds each descriptor the module opened or adopted and has not given up.
  function Owners(t: Trace): map<int, Owner> {
    match t
    case Start => map[]
    case Snoc(past, Opened(o, fd)) => Owners(past)[fd := o]
    case Snoc(past, Adopted(s, fd)) => Owners(past)[fd := By(s)]
    case Snoc(past, Closed(_, fd)) => Owners(past) - {fd}
    case Snoc(past, HandedOut(_, fd)) => Owners(past) - {fd}
    case Snoc(past, _) => Owners(past)
  }

  // The numbers given to close(2), in order.
  function Closes(t: Trace): seq<int> {
    match t
    case Start => []
    case Snoc(past, Closed(_, fd)) => Closes(past) + [fd]
    case Snoc(past, _) => Closes(past)
  }

  // A descriptor is opened only while nobody holds it, and every close and every
  // hand-out is made by its holder.
  predicate Balanced(t: Trace) {
    match t
    case Start => true
    case Snoc(past, Opened(o, fd)) => Balanced(past) && fd !in Owners(past)
    case Snoc(past, Closed(o, fd)) => Balanced(past) && fd in Owners(past) && Owners(past)[fd] == o
    case Snoc(past, HandedOut(o, fd)) => Balanced(past) && fd in Owners(past) && Owners(past)[fd] == o
    case Snoc(past, _) => Balanced(past)
  }

  // socket.wrap was only given descriptors nobody holds.
  predicate CleanWraps(t: Trace) {
    match t
    case Start => true
    case Snoc(past, Adopted(s, fd)) => CleanWraps(past) && fd !in Owners(past)
    case Snoc(past, _) => CleanWraps(past)
  }

  // ----- sizes, for termination -----

  function Size(sc: Script): nat {
    match sc
    case End => 0
    case Raise => 0
    case Then(op, rest) => 1 + OpSize(op) + Size(rest)
  }

  function OpSize(op: Op): nat {
    if op.Add? then 1 + Size(op.fn) else 0
  }

  function HookWeight(k: Hook): nat {
    if k.status == Registered then 1 + Size(k.fn) else 0
  }

  function Weight(hooks: seq<Hook>): nat {
    Sum(hooks, HookWeight)
  }

  // ----- the parts of the operations that run no callback -----

  // lauxh_checkudata: the object still has its metatable.
  predicate Usable(st: State, s: nat) {
    s < |st.socks| && st.socks[s].life != Stripped
  }

  // The collector finalizes an object once, and only what no running call holds.
  predicate Collectable(st: State, s: nat) {
    s < |st.socks| && st.socks[s].life == Live && st.socks[s].busy == 0
  }

  function AddHook(st: State, s: nat, fn: Script): (r: State)
    requires s < |st.socks|
    ensures Weight(r.hooks) == Weight(st.hooks) + 1 + Size(fn)
  {
    var h, k := |st.hooks|, st.socks[s];
    SumSnoc(st.hooks, Hook(s, fn, Registered), HookWeight);
    st.(socks := st.socks[s := k.(q := [h] + k.q)],
        hooks := st.hooks + [Hook(s, fn, Registered)],
        log := Snoc(st.log, HookAdded(s, h)))
  }

  // Hook h leaves its owner's list.
  function Unlinked(st: State, h: nat, status: Status): (r: State)
    requires h < |st.hooks| && st.hooks[h].owner < |st.socks| && (status == Called || status == Deleted)
    ensures Weight(r.hooks) <= Weight(st.hooks)
  {
    var o := st.hooks[h].owner;
    SumUpdate(st.hooks, h, st.hooks[h].(status := status), HookWeight);
    st.(socks := st.socks[o := st.socks[o].(q := Without(st.socks[o].q, h))],
        hooks := st.hooks[h := st.hooks[h].(status := status)])
  }

  // The hook is the first of another open socket's list.
  predicate ForeignHead(st: State, s: nat, h: nat)
    requires h < |st.hooks| && st.hooks[h].owner < |st.socks|
  {
    var o := st.hooks[h].owner;
    o != s && !st.socks[o].done && st.socks[o].q != [] && st.socks[o].q[0] == h
  }

  // The hooks whose nodes a drain of socket s reads again when the function it calls
  // has returned: the one that runs, and the one to call next.
  function Holding(st: State, s: nat): seq<nat>
    requires s < |st.socks|
  {
    var q := st.socks[s].q;
    if q == [] || |st.hooks| <= q[0] || st.hooks[q[0]].status != Running then []
    else if |q| == 1 then [q[0]] else [q[0], q[1]]
  }

  predicate DrainHolds(st: State, h: nat)
    requires h < |st.hooks|
  {
    && st.hooks[h].owner < |st.socks|
    && var f := Holding(st, st.hooks[h].owner);
    (0 < |f| && f[0] == h) || (1 < |f| && f[1] == h)
  }

  // Deleting hook h through socket s leaves a pointer behind.
  predicate LeftBehind(st: State, s: nat, h: nat)
    requires h < |st.hooks| && st.hooks[h].owner < |st.socks|
  {
    ForeignHead(st, s, h) || DrainHolds(st, h)
  }

  // delgcfn through the open socket s. A hook deleted while it runs has been called.
  function DeleteHook(st: State, s: nat, h: nat): (r: State)
    requires h < |st.hooks| && st.hooks[h].owner < |st.socks|
    ensures Weight(r.hooks) <= Weight(st.hooks)
  {
    Unlinked(st, h, if st.hooks[h].status == Running then Called else Deleted)
    .(log := Snoc(st.log, HookDeleted(st.hooks[h].owner, h)),
      faults := st.faults.(dangling := st.faults.dangling || LeftBehind(st, s, h)))
  }

  // The kernel can return fd: it is a number and nothing the module holds open.
  predicate KernelGives(st: State, fd: int) {
    0 <= fd && fd !in Owners(st.log)
  }

  function WithSocket(st: State, fd: int, e: Event): State {
    st.(socks := st.socks + [Sock(fd, false, [], 0, false, Live)], log := Snoc(st.log, e))
  }

  // socket(), dup() or accept(), then the flag calls; when those fail the descriptor is closed again.
  function Acquire(st: State, fd: int, ok: bool): State {
    if !KernelGives(st, fd) then st
    else if ok then WithSocket(st, fd, Opened(By(|st.socks|), fd))
    else st.(log := Snoc(Snoc(st.log, Opened(NoSocket, fd)), Closed(NoSocket, fd)))
  }

  // acceptfd: a plain descriptor goes to the caller.
  function AcquireFd(st: State, fd: int, ok: bool): State {
    if !KernelGives(st, fd) then st
    else if ok then st.(log := Snoc(Snoc(st.log, Opened(NoSocket, fd)), HandedOut(NoSocket, fd)))
    else st.(log := Snoc(Snoc(st.log, Opened(NoSocket, fd)), Closed(NoSocket, fd)))
  }

  // ok: getsockname, getsockopt and fcntl all accept fd.
  function Adopt(st: State, fd: int, ok: bool): State {
    if 0 <= fd && ok then WithSocket(st, fd, Adopted(|st.socks|, fd)) else st
  }

  // An operation's result: the new state, and whether it raised a Lua error.
  datatype Outcome = Outcome(st: State, raised: bool)

  // Every operation but close, unwrap and collection.
  function Simple(st: State, op: Op): (r: Outcome)
    requires !op.Close? && !op.Unwrap? && !op.Gc?
    ensures Weight(r.st.hooks) <= Weight(st.hooks) + OpSize(op)
  {
    match op
    case Add(s, fn) =>
      if !Usable(st, s) then Outcome(st, true)
      else if st.socks[s].done then Outcome(st, false)
      else Outcome(AddHook(st, s, fn), false)
    case Del(s, h) =>
      if |st.hooks| <= h || !Usable(st, s) then Outcome(st, true)
      else if st.socks[s].done || !Alive(st.hooks[h]) || |st.socks| <= st.hooks[h].owner then Outcome(st, false)
      else Outcome(DeleteHook(st, s, h), false)
    case New(fd, ok) => Outcome(Acquire(st, fd, ok), false)
    case Dup(s, fd, ok) =>
      if !Usable(st, s) then Outcome(st, true)
      else Outcome(if st.socks[s].fd < 0 then st else Acquire(st, fd, ok), false)
    case Accept(s, fd, ok) =>
      if !Usable(st, s) then Outcome(st, true)
      else Outcome(if st.socks[s].fd < 0 then st else Acquire(st, fd, ok), false)
    case AcceptFd(s, fd, ok) =>
      if !Usable(st, s) then Outcome(st, true)
      else Outcome(if st.socks[s].fd < 0 then st else AcquireFd(st, fd, ok), false)
    case Wrap(fd, ok) => Outcome(Adopt(st, fd, ok), false)
  }

  // ----- close, unwrap and collection -----

  function Enter(st: State, s: nat, close: bool): State
    requires s < |st.socks|
  {
    var k := st.socks[s];
    st.(socks := st.socks[s := k.(busy := k.busy + 1, closing := k.closing || close)])
  }

  // s->gcfunc = &GCFN_DONE
  function SetDone(st: State, s: nat): State
    requires s < |st.socks|
  {
    st.(socks := st.socks[s := st.socks[s].(done := true)])
  }

  function BeginCall(st: State, s: nat, h: nat): (r: State)
    requires h < |st.hooks| && st.hooks[h].status == Registered
    ensures Weight(r.hooks) + 1 + Size(st.hooks[h].fn) == Weight(st.hooks)
  {
    SumUpdate(st.hooks, h, st.hooks[h].(status := Running), HookWeight);
    st.(hooks := st.hooks[h := st.hooks[h].(status := Running)], log := Snoc(st.log, HookCalled(s, h)))
  }

  // lls_gcfn_del on the hook just called, unless it was deleted while it ran.
  function EndCall(st: State, h: nat): (r: State)
    requires h < |st.hooks|
    ensures Weight(r.hooks) <= Weight(st.hooks)
  {
    if st.hooks[h].status == Running && st.hooks[h].owner < |st.socks| then Unlinked(st, h, Called) else st
  }

  function Leave(k: Sock): Sock {
    k.(busy := if k.busy == 0 then 0 else k.busy - 1)
  }

  // fd is the descriptor close_lua read before draining; was: an outer close_lua runs too.
  function ExitClose(st: State, s: nat, fd: int, was: bool): State
    requires s < |st.socks|
  {
    var k := st.socks[s];
    State(st.socks[s := Leave(k).(fd := -1, closing := was)], st.hooks, Snoc(st.log, Closed(By(s), fd)),
          st.faults.(reentered := st.faults.reentered || was, reused := st.faults.reused || k.life == Collected))
  }

  function ExitUnwrap(st: State, s: nat): State
    requires s < |st.socks|
  {
    var k := st.socks[s];
    State(st.socks[s := Leave(k).(fd := -1, life := Stripped)], st.hooks,
          if 0 <= k.fd then Snoc(st.log, HandedOut(By(s), k.fd)) else st.log,
          st.faults.(reentered := st.faults.reentered || (k.closing && 0 <= k.fd),
                     reused := st.faults.reused || (k.life == Collected && 0 <= k.fd)))
  }

  // close(s->fd) reads the field after the drain and leaves it set; closing -1 does nothing.
  function ExitGc(st: State, s: nat): State
    requires s < |st.socks|
  {
    var k := st.socks[s];
    State(st.socks[s := Leave(k).(life := Finalized(k.life))], st.hooks,
          if 0 <= k.fd then Snoc(st.log, Closed(By(s), k.fd)) else st.log, st.faults)
  }

  function Finalized(life: Life): Life {
    if life == Live then Collected else life
  }

  // ----- the operations -----

  function Step(st: State, op: Op): (r: Outcome)
    ensures |st.socks| <= |r.st.socks| && |st.hooks| <= |r.st.hooks|
    ensures Weight(r.st.hooks) <= Weight(st.hooks) + OpSize(op)
    decreases Weight(st.hooks) + OpSize(op), 3, 0
  {
    match op
    case Close(s) => if Usable(st, s) then Outcome(CloseLua(st, s), false) else Outcome(st, true)
    case Unwrap(s) => if Usable(st, s) then Outcome(UnwrapLua(st, s), false) else Outcome(st, true)
    case Gc(s) =>
      Outcome(if Collectable(st, s) then GcLua(st, s) else st, false)
    case _ => Simple(st, op)
  }

  // pcall swallows the error that Raise or an operation raises; the rest of the script is skipped.
  function Run(st: State, sc: Script): (r: State)
    ensures |st.socks| <= |r.socks| && |st.hooks| <= |r.hooks|
    ensures Weight(r.hooks) <= Weight(st.hooks) + Size(sc)
    decreases Weight(st.hooks) + Size(sc), 4, 0
  {
    match sc
    case End => st
    case Raise => st
    case Then(op, rest) =>
      var o := Step(st, op);
      if o.raised then o.st else Run(o.st, rest)
  }

  function CloseLua(st: State, s: nat): (r: State)
    requires s < |st.socks|
    ensures |st.socks| <= |r.socks| && |st.hooks| <= |r.hooks|
    ensures Weight(r.hooks) <= Weight(st.hooks)
    decreases Weight(st.hooks), 2, 0
  {
    var k := st.socks[s];
    if k.fd < 0 then st
    else ExitClose(CallGcfn(Enter(st, s, true), s), s, k.fd, k.closing)
  }

  function UnwrapLua(st: State, s: nat): (r: State)
    requires s < |st.socks|
    ensures |st.socks| <= |r.socks| && |st.hooks| <= |r.hooks|
    ensures Weight(r.hooks) <= Weight(st.hooks)
    decreases Weight(st.hooks), 2, 0
  {
    ExitUnwrap(CallGcfn(Enter(st, s, false), s), s)
  }

  function GcLua(st: State, s: nat): (r: State)
    requires s < |st.socks|
    ensures |st.socks| <= |r.socks| && |st.hooks| <= |r.hooks|
    ensures Weight(r.hooks) <= Weight(st.hooks)
    decreases Weight(st.hooks), 2, 0
  {
    if st.socks[s].fd < 0 then st.(socks := st.socks[s := st.socks[s].(life := Collected)])
    else ExitGc(CallGcfn(Enter(st, s, false), s), s)
  }

  // call_gcfn; draining the sentinel itself calls no function.
  function CallGcfn(st: State, s: nat): (r: State)
    requires s < |st.socks|
    ensures |st.socks| <= |r.socks| && |st.hooks| <= |r.hooks|
    ensures Weight(r.hooks) <= Weight(st.hooks)
    decreases Weight(st.hooks), 1, 0
  {
    if st.socks[s].done then st else Drain(SetDone(st, s), s)
  }

  // The loop of call_gcfn over the hooks still linked.
  function Drain(st: State, s: nat): (r: State)
    requires s < |st.socks|
    ensures |st.socks| <= |r.socks| && |st.hooks| <= |r.hooks|
    ensures Weight(r.hooks) <= Weight(st.hooks)
    decreases Weight(st.hooks), 0, |st.socks[s].q|
  {
    var q := st.socks[s].q;
    if q == [] then st
    else if q[0] < |st.hooks| && st.hooks[q[0]].status == Registered then
      var called := Run(BeginCall(st, s, q[0]), st.hooks[q[0]].fn);
      Drain(EndCall(called, q[0]), s)
    else
      Drain(st.(socks := st.socks[s := st.socks[s].(q := q[1..])]), s)
  }

  function RunAll(st: State, ops: seq<Op>): State
    decreases |ops|
  {
    if ops == [] then st else RunAll(Step(st, ops[0]).st, ops[1..])
  }
}
