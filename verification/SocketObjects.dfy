/**
 The objects behind the socket machine: lls_gcfn_t nodes linked through prev
 and next, lls_socket_t objects with a head pointer, the static sentinel
 GCFN_DONE and the Lua registry. An Image is one snapshot of their fields; here
 is when a snapshot agrees with a state, and how each relinking keeps that.

 Hooks are numbered in the order they were added, so a list runs from high
 numbers to low. A pointer skips only hooks that left the list; that is true of
 every node, also of one that was deleted through another socket.
 */
module SocketObjects {
  import opened Anchors
  import opened LuaRegistry
  import opened SocketMachine
  import opened SocketInvariants
  import opened SocketSteps
  import opened Sequences

  datatype SocketFields = SocketFields(fd: int, gcfunc: Gcfn?, life: Life, busy: nat, calling: Gcfn?, saved: Gcfn?)

  ghost function NewFields(fd: int): SocketFields {
    SocketFields(fd, null, Live, 0, null, null)
  }

  // lls_socket_t, with what Lua knows of the object: its metatable, and how many
  // native calls on the stack hold it.
  class Socket {
    var fd: int
    var gcfunc: Gcfn?
    var life: Life
    var busy: nat
    // gcfunc and next of the call_gcfn that drains the socket, while it calls a function
    ghost var calling: Gcfn?
    ghost var saved: Gcfn?

    constructor (fd: int)
      ensures Value() == NewFields(fd)
    {
      this.fd, gcfunc, life, busy := fd, null, Live, 0;
      calling, saved := null, null;
    }

    ghost function Value(): SocketFields
      reads this
    {
      SocketFields(fd, gcfunc, life, busy, calling, saved)
    }
  }

  // The descriptors the module holds open, and the numbers it gave to close(2).
  datatype Descriptors = Descriptors(held: set<int>, closes: seq<int>)
  {
    // opened, or adopted
    function Plus(fd: int): Descriptors {
      this.(held := held + {fd})
    }

    // A number handed to the caller is still open.
    function After(r: Release): Descriptors {
      match r
      case Nothing => this
      case Closing(fd) => Descriptors(held - {fd}, closes + [fd])
      case Handing(fd) => this.(held := held - {fd})
    }
  }

  // How a descriptor leaves the module: by close(2), or to the caller.
  datatype Release = Nothing | Closing(fd: int) | Handing(fd: int)

  function KernelOf(t: Trace): Descriptors {
    Descriptors(Owners(t).Keys, Closes(t))
  }

  // ids[h] is the node of hook h. The registry holds others' references, too.
  datatype Image = Image(
    socks: seq<SocketFields>, ids: seq<Gcfn>, nodes: seq<Links>, done: Gcfn,
    refs: map<int, Anchor>, others: map<int, Anchor>, kernel: Descriptors)

  // ----- pointers -----

  ghost predicate IdsOk(m: Image) {
    && |m.ids| == |m.nodes| && m.done !in m.ids
    && forall h :: 0 <= h < |m.ids| ==> m.ids[h].id == h
  }

  // A pointer is null or to the node of a hook of socket o.
  ghost predicate Into(m: Image, hooks: seq<Hook>, o: nat, p: Gcfn?) {
    p != null ==> p.id < |m.ids| && p.id < |hooks| && m.ids[p.id] == p && hooks[p.id].owner == o
  }

  // No hook of socket o numbered from lo up to hi is still listed.
  ghost predicate Gap(hooks: seq<Hook>, o: nat, lo: int, hi: int) {
    forall k :: lo <= k < hi && 0 <= k < |hooks| && hooks[k].owner == o ==> !Alive(hooks[k])
  }

  ghost function After(p: Gcfn?): int {
    if p == null then 0 else p.id + 1
  }

  ghost predicate NextOk(m: Image, hooks: seq<Hook>, h: nat)
    requires h < |m.nodes| && h < |hooks|
  {
    var o, p := hooks[h].owner, m.nodes[h].next;
    Into(m, hooks, o, p) && After(p) <= h && Gap(hooks, o, After(p), h)
  }

  ghost predicate PrevOk(m: Image, hooks: seq<Hook>, h: nat)
    requires h < |m.nodes| && h < |hooks|
  {
    var o, p := hooks[h].owner, m.nodes[h].prev;
    Into(m, hooks, o, p) && (p != null ==> h < p.id && Gap(hooks, o, h + 1, p.id))
  }

  // Where a list is entered: above the pointer nothing is listed.
  ghost predicate HeadOk(m: Image, hooks: seq<Hook>, s: nat, p: Gcfn?) {
    Into(m, hooks, s, p) && Gap(hooks, s, After(p), |hooks|)
  }

  ghost predicate SocketAgrees(m: Image, st: State, s: nat)
    requires s < |m.socks| && s < |st.socks|
  {
    var k, v := st.socks[s], m.socks[s];
    && v.fd == k.fd && v.life == k.life && v.busy == k.busy
    && if k.done then v.gcfunc == m.done else HeadOk(m, st.hooks, s, v.gcfunc)
  }

  // ----- references -----

  // A live hook holds its two references, a finished one none.
  ghost predicate RefsAgree(m: Image, k: Hook, h: nat)
    requires h < |m.ids| == |m.nodes|
  {
    var v := m.nodes[h];
    && m.ids[h].owner == k.owner
    && if Alive(k) then
         && v.refSelf in m.refs && v.refSelf !in m.others && m.refs[v.refSelf] == SelfRef(m.ids[h])
         && v.refFn in m.refs && v.refFn !in m.others && m.refs[v.refFn] == Closure(h, k.fn)
       else
         v.refSelf == NOREF && v.refFn == NOREF
  }

  function LiveHook(k: Hook): nat {
    if Alive(k) then 1 else 0
  }

  function LiveHooks(hooks: seq<Hook>): nat {
    Sum(hooks, LiveHook)
  }

  // Beside what others anchor, the registry holds two references for each live hook.
  ghost predicate RegistryAgrees(m: Image, hooks: seq<Hook>) {
    && (forall r :: r in m.refs ==> 0 < r)
    && (forall r :: r in m.others ==> r in m.refs && m.refs[r] == m.others[r])
    && |m.refs| == |m.others| + 2 * LiveHooks(hooks)
  }

  ghost predicate NodeAgrees(m: Image, hooks: seq<Hook>, h: nat)
    requires IdsOk(m) && h < |m.nodes| && h < |hooks|
  {
    NextOk(m, hooks, h) && PrevOk(m, hooks, h) && RefsAgree(m, hooks[h], h)
  }

  // ----- tight lists -----

  ghost predicate Listed(hooks: seq<Hook>, p: Gcfn?) {
    p != null ==> p.id < |hooks| && Alive(hooks[p.id])
  }

  // The pointers of a listed node lead to listed nodes, and only the first has no prev.
  ghost predicate TightAt(m: Image, hooks: seq<Hook>, h: nat)
    requires h < |m.nodes| && h < |hooks|
  {
    Alive(hooks[h]) ==>
      && Listed(hooks, m.nodes[h].next) && Listed(hooks, m.nodes[h].prev)
      && (m.nodes[h].prev == null ==> Gap(hooks, hooks[h].owner, h + 1, |hooks|))
  }

  // Nothing an open list can be entered or followed by was released.
  ghost predicate Tight(m: Image, st: State)
    requires |m.socks| == |st.socks| && |m.nodes| == |st.hooks|
  {
    && (forall s :: 0 <= s < |st.socks| && !st.socks[s].done ==> Listed(st.hooks, m.socks[s].gcfunc))
    && (forall h :: 0 <= h < |st.hooks| ==> TightAt(m, st.hooks, h))
  }

  // What a drain keeps in its locals are the nodes it holds.
  ghost predicate FrameOk(m: Image, st: State, s: nat)
    requires s < |m.socks| && s < |st.socks|
  {
    var f, v := Holding(st, s), m.socks[s];
    && (forall i :: 0 <= i < |f| ==> f[i] < |m.ids|)
    && v.calling == (if |f| < 1 then null else m.ids[f[0]])
    && v.saved == (if |f| < 2 then null else m.ids[f[1]])
  }

  ghost predicate FramesOk(m: Image, st: State)
    requires |m.socks| == |st.socks|
  {
    forall s :: 0 <= s < |m.socks| ==> FrameOk(m, st, s)
  }

  ghost predicate Agrees(m: Image, st: State) {
    && IdsOk(m) && RegistryAgrees(m, st.hooks)
    && |m.socks| == |st.socks| && |m.nodes| == |st.hooks|
    && (forall s :: 0 <= s < |m.socks| ==> SocketAgrees(m, st, s))
    && (forall h :: 0 <= h < |m.nodes| ==> NodeAgrees(m, st.hooks, h))
    && m.kernel == KernelOf(st.log)
    && (!st.faults.dangling ==> Tight(m, st) && FramesOk(m, st))
  }

  lemma Assembled(m: Image, st: State)
    requires IdsOk(m) && RegistryAgrees(m, st.hooks) && |m.socks| == |st.socks| && |m.nodes| == |st.hooks|
    requires forall s :: 0 <= s < |m.socks| ==> SocketAgrees(m, st, s)
    requires forall h :: 0 <= h < |m.nodes| ==> NodeAgrees(m, st.hooks, h)
    requires m.kernel == KernelOf(st.log) && (!st.faults.dangling ==> Tight(m, st) && FramesOk(m, st))
    ensures Agrees(m, st)
  {
  }

  lemma FrameStays(m: Image, a: State, n: Image, b: State, s: nat)
    requires s < |m.socks| <= |n.socks| && s < |a.socks| && s < |b.socks| && FrameOk(m, a, s)
    requires m.ids <= n.ids && Holding(b, s) == Holding(a, s)
    requires n.socks[s].calling == m.socks[s].calling && n.socks[s].saved == m.socks[s].saved
    ensures FrameOk(n, b, s)
  {
    hide Holding;
  }

  // The pointer is to a node that holds no reference: the collector may take it away.
  ghost predicate Released(m: Image, p: Gcfn?) {
    p != null && p.id < |m.ids| == |m.nodes| && m.ids[p.id] == p && m.nodes[p.id].refSelf == NOREF
  }

  // The C code will follow such a pointer: the head of an open list, the node a drain
  // is calling, or the next one, which the drain read before the call.
  ghost predicate Dangles(m: Image) {
    exists s :: 0 <= s < |m.socks| && DanglesAt(m, m.socks[s])
  }

  ghost predicate DanglesAt(m: Image, v: SocketFields) {
    Released(m, v.gcfunc) || Released(m, v.calling) || Released(m, v.saved)
  }

  // While no hook was deleted under such a pointer, this does not happen.
  lemma NeverDangles(m: Image, st: State)
    requires Inv(st) && Agrees(m, st) && !st.faults.dangling
    ensures !Dangles(m)
  {
    forall s | 0 <= s < |m.socks| ensures !DanglesAt(m, m.socks[s]) {
      assert SocketAgrees(m, st, s) && FrameOk(m, st, s) && m.done !in m.ids;
      assert !st.socks[s].done ==> Listed(st.hooks, m.socks[s].gcfunc);
      assert forall h :: 0 <= h < |m.ids| ==> m.ids[h].id == h;
      HeldAreAlive(st, s);
      hide Inv, Agrees, Holding;
      if !st.socks[s].done {
        AnchoredAt(m, st, m.socks[s].gcfunc);
      }
      AnchoredAt(m, st, m.socks[s].calling);
      AnchoredAt(m, st, m.socks[s].saved);
    }
  }

  lemma AnchoredAt(m: Image, st: State, p: Gcfn?)
    requires Agrees(m, st) && Listed(st.hooks, p)
    ensures !Released(m, p)
  {
    if p != null {
      assert NodeAgrees(m, st.hooks, p.id);
    }
  }

  lemma ListedNode(m: Image, st: State, h: nat)
    requires Agrees(m, st) && !st.faults.dangling && h < |st.hooks| && Alive(st.hooks[h])
    ensures IdsOk(m) && |m.nodes| == |st.hooks| && |m.socks| == |st.socks| && m.nodes[h].refSelf != NOREF
    ensures NextOk(m, st.hooks, h) && PrevOk(m, st.hooks, h)
    ensures Listed(st.hooks, m.nodes[h].next) && Listed(st.hooks, m.nodes[h].prev)
    ensures m.nodes[h].prev == null ==> Gap(st.hooks, st.hooks[h].owner, h + 1, |st.hooks|)
  {
    assert NodeAgrees(m, st.hooks, h) && TightAt(m, st.hooks, h);
  }

  // Then the list of the state is the list of the pointers: a listed node's prev and
  // next are its neighbours, null at the ends.
  lemma LinksAreNeighbours(m: Image, st: State, s: nat, j: nat)
    requires Inv(st) && Agrees(m, st) && !st.faults.dangling && s < |st.socks| && j < |st.socks[s].q|
    ensures var q := st.socks[s].q;
      && (forall i :: 0 <= i < |q| ==> q[i] < |m.ids|) && |m.ids| == |m.nodes|
      && m.nodes[q[j]].prev == (if j == 0 then null else m.ids[q[j - 1]])
      && m.nodes[q[j]].next == (if j + 1 == |q| then null else m.ids[q[j + 1]])
      && m.nodes[q[j]].refSelf != NOREF
  {
    hide Inv, Agrees, Gap;
    SockOkAt(st, s);
    var q, h := st.socks[s].q, st.socks[s].q[j];
    ListedNode(m, st, h);
    var p, n := m.nodes[h].prev, m.nodes[h].next;
    if p != null {
      HookOkAt(st, p.id);
    }
    if n != null {
      HookOkAt(st, n.id);
    }
    hide HistoryOk, MembersOk, FlagsOk, Into, Listed;
    NewerNeighbour(st, s, j, p);
    OlderNeighbour(st, s, j, n);
  }

  // And an open socket points to the first of its list.
  lemma HeadIsNewest(m: Image, st: State, s: nat)
    requires Inv(st) && Agrees(m, st) && !st.faults.dangling && s < |st.socks| && !st.socks[s].done
    ensures var q := st.socks[s].q;
      && (q != [] ==> q[0] < |m.ids|)
      && m.socks[s].gcfunc == (if q == [] then null else m.ids[q[0]])
  {
    var q, p := st.socks[s].q, m.socks[s].gcfunc;
    SockOkAt(st, s);
    assert SocketAgrees(m, st, s) && Listed(st.hooks, p);
    if p != null {
      HookOkAt(st, p.id);
    }
    hide Agrees, RegistryAgrees, Inv;
    assert q != [] ==> Alive(st.hooks[q[0]]) && st.hooks[q[0]].owner == s;
    if p != null {
      var i :| 0 <= i < |q| && q[i] == p.id;
    }
  }

  lemma NewerNeighbour(st: State, s: nat, j: nat, p: Gcfn?)
    requires s < |st.socks| && ListOk(st, s) && j < |st.socks[s].q|
    requires p != null ==> p.id in st.socks[s].q && st.socks[s].q[j] < p.id
    requires p != null ==> Gap(st.hooks, s, st.socks[s].q[j] + 1, p.id)
    requires p == null ==> Gap(st.hooks, s, st.socks[s].q[j] + 1, |st.hooks|)
    ensures p == null <==> j == 0
    ensures p != null ==> p.id == st.socks[s].q[j - 1]
  {
    var q := st.socks[s].q;
    assert j != 0 ==> Alive(st.hooks[q[j - 1]]) && q[j - 1] > q[j];
    if p != null {
      var i :| 0 <= i < |q| && q[i] == p.id;
      assert i < j;
    }
  }

  lemma OlderNeighbour(st: State, s: nat, j: nat, p: Gcfn?)
    requires s < |st.socks| && ListOk(st, s) && j < |st.socks[s].q|
    requires p != null ==> p.id in st.socks[s].q && p.id < st.socks[s].q[j]
    requires Gap(st.hooks, s, After(p), st.socks[s].q[j])
    ensures p == null <==> j + 1 == |st.socks[s].q|
    ensures p != null ==> p.id == st.socks[s].q[j + 1]
  {
    var q := st.socks[s].q;
    assert j + 1 < |q| ==> Alive(st.hooks[q[j + 1]]) && q[j + 1] < q[j];
    if p != null {
      var i :| 0 <= i < |q| && q[i] == p.id;
      assert j < i;
    }
  }

  // ----- addgcfn -----

  // The snapshot after addgcfn linked the new node g in front of the list of socket s.
  ghost function AddImage(m: Image, s: nat, fn: Script, g: Gcfn, self: int, cl: int): Image
    requires s < |m.socks|
  {
    var p := m.socks[s].gcfunc;
    var nodes := if p != null && p.id < |m.nodes| then m.nodes[p.id := m.nodes[p.id].(prev := g)] else m.nodes;
    Image(m.socks[s := m.socks[s].(gcfunc := g)], m.ids + [g], nodes + [Links(self, cl, null, p)], m.done,
          m.refs[self := SelfRef(g)][cl := Closure(|m.nodes|, fn)], m.others, m.kernel)
  }

  ghost predicate Fresh(m: Image, g: Gcfn, s: nat, self: int, cl: int) {
    && g.id == |m.nodes| && g.owner == s && g !in m.ids && g != m.done
    && 0 < self && self !in m.refs && 0 < cl && cl !in m.refs && cl != self
  }

  lemma AddedNode(a: State, m: Image, s: nat, fn: Script, g: Gcfn, self: int, cl: int, k: nat)
    requires Agrees(m, a) && s < |a.socks| && !a.socks[s].done && Fresh(m, g, s, self, cl) && k <= |m.nodes|
    requires IdsOk(AddImage(m, s, fn, g, self, cl))
    ensures NodeAgrees(AddImage(m, s, fn, g, self, cl), a.hooks + [Hook(s, fn, Registered)], k)
  {
    hide Agrees, RefsAgree, RegistryAgrees, KernelOf;
    RegistryIn(m, a);
    SocketIn(m, a, s);
    if k < |m.nodes| {
      NodeIn(m, a, k);
    }
    AddedRefs(m, a.hooks, s, fn, g, self, cl, k);
  }

  lemma RegistryIn(m: Image, a: State)
    requires Agrees(m, a)
    ensures IdsOk(m) && |m.nodes| == |a.hooks| && |m.socks| == |a.socks| && RegistryAgrees(m, a.hooks)
    ensures m.kernel == KernelOf(a.log)
  {
  }

  lemma AddedRefs(m: Image, hooks: seq<Hook>, s: nat, fn: Script, g: Gcfn, self: int, cl: int, k: nat)
    requires IdsOk(m) && s < |m.socks| && Fresh(m, g, s, self, cl) && k <= |m.nodes| == |hooks|
    requires RegistryAgrees(m, hooks)
    requires IdsOk(AddImage(m, s, fn, g, self, cl)) && (k < |m.nodes| ==> RefsAgree(m, hooks[k], k))
    ensures RefsAgree(AddImage(m, s, fn, g, self, cl), (hooks + [Hook(s, fn, Registered)])[k], k)
  {
    hide LiveHooks;
  }

  lemma AddedTight(a: State, m: Image, s: nat, fn: Script, g: Gcfn, self: int, cl: int, k: nat)
    requires Agrees(m, a) && s < |a.socks| && !a.socks[s].done && Fresh(m, g, s, self, cl) && k <= |m.nodes|
    requires !a.faults.dangling
    ensures TightAt(AddImage(m, s, fn, g, self, cl), a.hooks + [Hook(s, fn, Registered)], k)
  {
    assert SocketAgrees(m, a, s) && Listed(a.hooks, m.socks[s].gcfunc);
    assert k < |m.nodes| ==> NodeAgrees(m, a.hooks, k) && TightAt(m, a.hooks, k);
    hide Agrees, RegistryAgrees, RefsAgree;
  }

  lemma AddedRegistry(a: State, m: Image, s: nat, fn: Script, g: Gcfn, self: int, cl: int)
    requires Agrees(m, a) && s < |m.socks| && Fresh(m, g, s, self, cl)
    ensures RegistryAgrees(AddImage(m, s, fn, g, self, cl), a.hooks + [Hook(s, fn, Registered)])
  {
    assert RegistryAgrees(m, a.hooks);
    hide Agrees;
    SumSnoc(a.hooks, Hook(s, fn, Registered), LiveHook);
    assert |m.refs[self := SelfRef(g)]| == |m.refs| + 1;
  }

  lemma AddAgrees(a: State, m: Image, s: nat, fn: Script, g: Gcfn, self: int, cl: int)
    requires Inv(a) && Agrees(m, a) && s < |a.socks| && !a.socks[s].done && Fresh(m, g, s, self, cl)
    ensures Agrees(AddImage(m, s, fn, g, self, cl), AddHook(a, s, fn))
  {
    hide Weight, Size, LiveHooks, Inv, FramesOk;
    var b, n := AddHook(a, s, fn), AddImage(m, s, fn, g, self, cl);
    assert KernelOf(b.log) == KernelOf(a.log);
    hide KernelOf;
    AddedRegistry(a, m, s, fn, g, self, cl);
    AddedSockets(a, m, s, fn, g, self, cl);
    hide SocketAgrees, RegistryAgrees, TightAt, NodeAgrees;
    forall k | 0 <= k < |n.nodes| ensures NodeAgrees(n, b.hooks, k) {
      AddedNode(a, m, s, fn, g, self, cl, k);
    }
    if !b.faults.dangling {
      forall k | 0 <= k < |n.nodes| ensures TightAt(n, b.hooks, k) {
        AddedTight(a, m, s, fn, g, self, cl, k);
      }
      AddedFrames(a, m, s, fn, g, self, cl);
    }
  }

  lemma AddedFrames(a: State, m: Image, s: nat, fn: Script, g: Gcfn, self: int, cl: int)
    requires Inv(a) && Agrees(m, a) && !a.faults.dangling && s < |a.socks| && !a.socks[s].done
    requires Fresh(m, g, s, self, cl)
    ensures |AddHook(a, s, fn).socks| == |m.socks| && FramesOk(AddImage(m, s, fn, g, self, cl), AddHook(a, s, fn))
  {
    hide Inv, Weight, Size, IdsOk, RegistryAgrees, SocketAgrees, NodeAgrees, Tight, KernelOf;
    var b, n := AddHook(a, s, fn), AddImage(m, s, fn, g, self, cl);
    NoneHeld(a, s);
    assert Holding(b, s) == [];
    hide Holding;
    forall i | 0 <= i < |m.socks| ensures FrameOk(n, b, i) {
      assert FrameOk(m, a, i);
      if i != s {
        HoldingStays(a, b, i);
      }
      FrameStays(m, a, n, b, i);
    }
  }

  lemma AddedSockets(a: State, m: Image, s: nat, fn: Script, g: Gcfn, self: int, cl: int)
    requires Agrees(m, a) && s < |a.socks| && !a.socks[s].done && Fresh(m, g, s, self, cl)
    ensures var b, n := AddHook(a, s, fn), AddImage(m, s, fn, g, self, cl);
      && IdsOk(n) && |n.socks| == |b.socks|
      && (forall i :: 0 <= i < |n.socks| ==> SocketAgrees(n, b, i))
      && (!b.faults.dangling ==>
           forall i :: 0 <= i < |b.socks| && !b.socks[i].done ==> Listed(b.hooks, n.socks[i].gcfunc))
  {
    hide Weight, Size, LiveHooks, RegistryAgrees, NodeAgrees, TightAt, KernelOf;
    var b, n := AddHook(a, s, fn), AddImage(m, s, fn, g, self, cl);
    forall i | 0 <= i < |n.socks| ensures SocketAgrees(n, b, i) {
      assert SocketAgrees(m, a, i);
    }
  }

  // ----- lls_gcfn_del -----

  // The snapshot after the node of hook h was unlinked and its references released;
  // socks are the sockets then.
  ghost function CutImage(m: Image, h: nat, socks: seq<SocketFields>): Image
    requires h < |m.nodes|
  {
    var v := m.nodes[h];
    var p, x := v.prev, v.next;
    var n1 := if p != null && p.id < |m.nodes| then m.nodes[p.id := m.nodes[p.id].(next := x)] else m.nodes;
    var n2 := if x != null && x.id < |m.nodes| then n1[x.id := n1[x.id].(prev := p)] else n1;
    m.(socks := socks, nodes := n2[h := v.(refSelf := NOREF, refFn := NOREF)],
       refs := m.refs - {v.refFn} - {v.refSelf})
  }

  lemma CutOnly(m: Image, h: nat, socks: seq<SocketFields>)
    requires h < |m.nodes|
    ensures CutImage(m.(socks := socks), h, socks) == CutImage(m, h, socks)
  {
  }

  // b is a after hook h left its list; the rest is as it was.
  ghost predicate Cut(a: State, b: State, h: nat) {
    && h < |a.hooks| == |b.hooks| && Alive(a.hooks[h]) && !Alive(b.hooks[h])
    && b.hooks == a.hooks[h := b.hooks[h]] && SameHook(a.hooks[h], b.hooks[h])
    && |b.socks| == |a.socks| && (a.faults.dangling ==> b.faults.dangling) && KernelOf(b.log) == KernelOf(a.log)
    && forall s :: 0 <= s < |a.socks| ==> SameFlags(a.socks[s], b.socks[s])
  }

  ghost predicate SameFlags(k: Sock, l: Sock) {
    l.fd == k.fd && l.life == k.life && l.busy == k.busy && l.done == k.done
  }

  // A head pointer stays, or follows the node to the next one; while nothing dangles
  // none stays on the node.
  ghost predicate HeadFollows(m: Image, b: State, h: nat, socks: seq<SocketFields>, s: nat)
    requires h < |m.nodes| == |m.ids| && s < |m.socks| == |socks| == |b.socks|
  {
    var v, w := m.socks[s], socks[s];
    && w.fd == v.fd && w.life == v.life && w.busy == v.busy
    && (w.gcfunc == v.gcfunc || (v.gcfunc == m.ids[h] && w.gcfunc == m.nodes[h].next))
    && (!b.faults.dangling && !b.socks[s].done ==> w.gcfunc != m.ids[h])
  }

  ghost predicate HeadsFollow(m: Image, b: State, h: nat, socks: seq<SocketFields>) {
    && h < |m.nodes| == |m.ids| && |m.socks| == |socks| == |b.socks|
    && forall s :: 0 <= s < |socks| ==> HeadFollows(m, b, h, socks, s)
  }

  // The fields of a node after the cut.
  lemma CutFields(m: Image, hooks: seq<Hook>, h: nat, socks: seq<SocketFields>, k: nat)
    requires h < |m.nodes| == |m.ids| && h < |hooks| && k < |m.nodes| && NextOk(m, hooks, h) && PrevOk(m, hooks, h)
    ensures var n, v := CutImage(m, h, socks), m.nodes[h];
      && |n.nodes| == |m.nodes|
      && n.nodes[k].next == (if v.prev != null && v.prev.id == k then v.next else m.nodes[k].next)
      && n.nodes[k].prev == (if v.next != null && v.next.id == k then v.prev else m.nodes[k].prev)
      && n.nodes[k].refSelf == (if k == h then NOREF else m.nodes[k].refSelf)
      && n.nodes[k].refFn == (if k == h then NOREF else m.nodes[k].refFn)
  {
    hide Gap;
  }

  // What the snapshot says of one node.
  lemma NodeIn(m: Image, a: State, k: nat)
    requires Agrees(m, a) && (k < |m.nodes| || k < |a.hooks|)
    ensures k < |m.nodes| == |m.ids| == |a.hooks| && |m.socks| == |a.socks| && m.ids[k].id == k && IdsOk(m)
    ensures NextOk(m, a.hooks, k) && PrevOk(m, a.hooks, k) && RefsAgree(m, a.hooks[k], k)
    ensures !a.faults.dangling ==> TightAt(m, a.hooks, k)
  {
    assert NodeAgrees(m, a.hooks, k);
  }

  lemma FrameIn(m: Image, a: State, s: nat)
    requires Agrees(m, a) && !a.faults.dangling && s < |a.socks|
    ensures |m.socks| == |a.socks| && FrameOk(m, a, s)
  {
  }

  lemma SocketIn(m: Image, a: State, s: nat)
    requires Agrees(m, a) && s < |m.socks|
    ensures |m.socks| == |a.socks| && SocketAgrees(m, a, s)
    ensures !a.faults.dangling && !a.socks[s].done ==> Listed(a.hooks, m.socks[s].gcfunc)
  {
  }

  // A gap only grows.
  lemma GapStays(a: State, b: State, h: nat, o: nat, lo: int, hi: int)
    requires Cut(a, b, h) && Gap(a.hooks, o, lo, hi)
    ensures Gap(b.hooks, o, lo, hi)
  {
    hide KernelOf;
  }

  lemma CutNext(a: State, m: Image, b: State, h: nat, socks: seq<SocketFields>, k: nat)
    requires Agrees(m, a) && Cut(a, b, h) && k < |m.nodes|
    ensures |CutImage(m, h, socks).nodes| == |m.nodes| && NextOk(CutImage(m, h, socks), b.hooks, k)
  {
    hide Agrees, RefsAgree, KernelOf, TightAt, IdsOk;
    NodeIn(m, a, h);
    NodeIn(m, a, k);
    CutFields(m, a.hooks, h, socks, k);
    GapStays(a, b, h, a.hooks[k].owner, After(m.nodes[k].next), k);
    hide PrevOk;
    var v := m.nodes[h];
    if v.prev != null && v.prev.id == k {
      assert Gap(a.hooks, a.hooks[h].owner, h + 1, k) by { assert PrevOk(m, a.hooks, h); }
      GapStays(a, b, h, a.hooks[h].owner, After(v.next), h);
    }
  }

  lemma CutPrev(a: State, m: Image, b: State, h: nat, socks: seq<SocketFields>, k: nat)
    requires Agrees(m, a) && Cut(a, b, h) && k < |m.nodes|
    ensures |CutImage(m, h, socks).nodes| == |m.nodes| && PrevOk(CutImage(m, h, socks), b.hooks, k)
  {
    hide Agrees, RefsAgree, KernelOf, TightAt, IdsOk;
    NodeIn(m, a, h);
    NodeIn(m, a, k);
    CutFields(m, a.hooks, h, socks, k);
  }

  lemma CutRefs(a: State, m: Image, b: State, h: nat, socks: seq<SocketFields>, k: nat)
    requires Agrees(m, a) && Cut(a, b, h) && k < |m.nodes|
    ensures IdsOk(CutImage(m, h, socks)) && RefsAgree(CutImage(m, h, socks), b.hooks[k], k)
  {
    hide Agrees, KernelOf, NextOk, PrevOk, TightAt;
    NodeIn(m, a, h);
    NodeIn(m, a, k);
    CutFields(m, a.hooks, h, socks, k);
  }

  lemma CutTight(a: State, m: Image, b: State, h: nat, socks: seq<SocketFields>, k: nat)
    requires Agrees(m, a) && Cut(a, b, h) && k < |m.nodes| && !a.faults.dangling
    ensures |CutImage(m, h, socks).nodes| == |m.nodes| && TightAt(CutImage(m, h, socks), b.hooks, k)
  {
    hide Agrees, RefsAgree, KernelOf, CutImage, IdsOk;
    NodeIn(m, a, h);
    NodeIn(m, a, k);
    CutFields(m, a.hooks, h, socks, k);
  }

  lemma CutSocket(a: State, m: Image, b: State, h: nat, socks: seq<SocketFields>, s: nat)
    requires Agrees(m, a) && Cut(a, b, h) && HeadsFollow(m, b, h, socks) && s < |m.socks|
    ensures var n := CutImage(m, h, socks);
      && SocketAgrees(n, b, s)
      && (!b.faults.dangling && !b.socks[s].done ==> Listed(b.hooks, n.socks[s].gcfunc))
  {
    hide Agrees, RefsAgree, RegistryAgrees, KernelOf;
    NodeIn(m, a, h);
    SocketIn(m, a, s);
    assert HeadFollows(m, b, h, socks, s) && SameFlags(a.socks[s], b.socks[s]);
    hide PrevOk, IdsOk;
  }

  // Unlinking a hook gives back exactly its two references.
  lemma CutRegistry(a: State, m: Image, b: State, h: nat, socks: seq<SocketFields>)
    requires Agrees(m, a) && Cut(a, b, h)
    ensures RegistryAgrees(CutImage(m, h, socks), b.hooks)
  {
    assert NodeAgrees(m, a.hooks, h) && RegistryAgrees(m, a.hooks);
    hide Agrees, NextOk, PrevOk, KernelOf;
    var v := m.nodes[h];
    SumUpdate(a.hooks, h, b.hooks[h], LiveHook);
    CountRemoved(m.refs, v.refFn);
    CountRemoved(m.refs - {v.refFn}, v.refSelf);
    hide LiveHooks;
  }

  lemma CutAgrees(a: State, m: Image, b: State, h: nat, socks: seq<SocketFields>)
    requires Agrees(m, a) && Cut(a, b, h) && HeadsFollow(m, b, h, socks)
    requires !b.faults.dangling ==> FramesOk(m.(socks := socks), b)
    ensures Agrees(CutImage(m, h, socks), b)
  {
    hide Agrees, FramesOk, HeadFollows, SocketAgrees, RegistryAgrees, TightAt, NextOk, PrevOk, RefsAgree, Listed;
    hide KernelOf;
    var n := CutImage(m, h, socks);
    RegistryIn(m, a);
    if !b.faults.dangling {
      CutFrames(m, b, h, socks);
    }
    CutRegistry(a, m, b, h, socks);
    CutRefs(a, m, b, h, socks, h);
    forall k | 0 <= k < |n.nodes| ensures NodeAgrees(n, b.hooks, k) {
      CutNext(a, m, b, h, socks, k);
      CutPrev(a, m, b, h, socks, k);
      CutRefs(a, m, b, h, socks, k);
    }
    forall s | 0 <= s < |n.socks|
      ensures SocketAgrees(n, b, s)
      ensures !b.faults.dangling && !b.socks[s].done ==> Listed(b.hooks, n.socks[s].gcfunc)
    {
      CutSocket(a, m, b, h, socks, s);
    }
    if !b.faults.dangling {
      forall k | 0 <= k < |n.nodes| ensures TightAt(n, b.hooks, k) {
        CutTight(a, m, b, h, socks, k);
      }
    }
    hide IdsOk, Cut, HeadsFollow;
    Assembled(n, b);
  }

  lemma CutFrames(m: Image, b: State, h: nat, socks: seq<SocketFields>)
    requires h < |m.nodes| && |socks| == |b.socks| && FramesOk(m.(socks := socks), b)
    ensures FramesOk(CutImage(m, h, socks), b)
  {
    hide Holding;
    forall s | 0 <= s < |socks| ensures FrameOk(CutImage(m, h, socks), b, s) {
      assert FrameOk(m.(socks := socks), b, s);
    }
  }

  // The sockets after delgcfn through socket s moved its head pointer, if need be.
  ghost function Rehead(m: Image, s: nat, h: nat): seq<SocketFields>
    requires s < |m.socks| && h < |m.ids| == |m.nodes|
  {
    if m.socks[s].gcfunc == m.ids[h] then m.socks[s := m.socks[s].(gcfunc := m.nodes[h].next)] else m.socks
  }

  // A head pointer on a listed node names the first of the list.
  lemma HeadIsFirst(a: State, m: Image, i: nat, h: nat)
    requires Inv(a) && Agrees(m, a) && i < |a.socks| && !a.socks[i].done && h < |a.hooks| && Alive(a.hooks[h])
    requires m.socks[i].gcfunc == m.ids[h]
    ensures a.hooks[h].owner == i && a.socks[i].q != [] && a.socks[i].q[0] == h
  {
    assert SocketAgrees(m, a, i) && m.ids[h].id == h;
    HookOkAt(a, h);
    SockOkAt(a, i);
    hide Inv, Agrees, RegistryAgrees;
    var q := a.socks[i].q;
    var j :| 0 <= j < |q| && q[j] == h;
    assert Alive(a.hooks[q[0]]);
  }

  lemma ReheadFollows(a: State, m: Image, s: nat, h: nat, i: nat)
    requires Inv(a) && Agrees(m, a) && s < |a.socks| && h < |a.hooks| && Alive(a.hooks[h])
    requires a.hooks[h].owner < |a.socks|
    requires i < |m.socks|
    ensures HeadFollows(m, DeleteHook(a, s, h), h, Rehead(m, s, h), i)
  {
    assert NodeAgrees(m, a.hooks, h) && m.ids[h].id == h;
    if i != s && !a.socks[i].done && m.socks[i].gcfunc == m.ids[h] {
      HeadIsFirst(a, m, i, h);
    }
    hide Inv, Agrees;
  }

  // delgcfn through any open socket: the objects follow the state.
  lemma DeleteAgrees(a: State, m: Image, s: nat, h: nat)
    requires Inv(a) && Agrees(m, a) && s < |a.socks| && h < |a.hooks| && Alive(a.hooks[h])
    requires a.hooks[h].owner < |a.socks|
    ensures Agrees(CutImage(m, h, Rehead(m, s, h)), DeleteHook(a, s, h))
  {
    var b := DeleteHook(a, s, h);
    assert KernelOf(b.log) == KernelOf(a.log);
    assert Cut(a, b, h);
    assert |m.nodes| == |m.ids| && |m.socks| == |a.socks|;
    hide Inv, Agrees, Cut, KernelOf, Weight, HeadFollows, FramesOk;
    forall i | 0 <= i < |m.socks| ensures HeadFollows(m, b, h, Rehead(m, s, h), i) {
      ReheadFollows(a, m, s, h, i);
    }
    if !b.faults.dangling {
      DeletedFrames(a, m, s, h);
    }
    CutAgrees(a, m, b, h, Rehead(m, s, h));
  }

  lemma DeletedFrames(a: State, m: Image, s: nat, h: nat)
    requires Inv(a) && Agrees(m, a) && s < |a.socks| && h < |a.hooks| && Alive(a.hooks[h])
    requires a.hooks[h].owner < |a.socks|
    requires !a.faults.dangling && !LeftBehind(a, s, h)
    ensures |m.socks| == |DeleteHook(a, s, h).socks| && |m.ids| == |m.nodes| == |a.hooks|
    ensures FramesOk(m.(socks := Rehead(m, s, h)), DeleteHook(a, s, h))
  {
    hide Inv, Weight, Size, RegistryAgrees, SocketAgrees, NodeAgrees, Tight, KernelOf;
    var b, n := DeleteHook(a, s, h), m.(socks := Rehead(m, s, h));
    hide Holding;
    forall i | 0 <= i < |m.socks| ensures FrameOk(n, b, i) {
      assert FrameOk(m, a, i);
      DeletedHolds(a, s, h, i);
      FrameStays(m, a, n, b, i);
    }
  }

  // When the hook headed another open list, that list's head pointer now dangles.
  lemma ForeignHeadDangles(a: State, m: Image, s: nat, h: nat)
    requires Inv(a) && Agrees(m, a) && !a.faults.dangling && s < |a.socks|
    requires h < |a.hooks| && a.hooks[h].owner < |a.socks| && ForeignHead(a, s, h)
    ensures Dangles(CutImage(m, h, Rehead(m, s, h)))
  {
    hide Inv, Agrees, NextOk, PrevOk, RefsAgree, TightAt;
    var o := a.hooks[h].owner;
    NodeIn(m, a, h);
    HeadIsNewest(m, a, o);
    var n := CutImage(m, h, Rehead(m, s, h));
    assert n.socks[o].gcfunc == n.ids[h] && n.ids[h].id == h && n.nodes[h].refSelf == NOREF;
    assert DanglesAt(n, n.socks[o]);
  }

  // When a drain holds the hook, the drain's own pointer does.
  lemma HeldHookDangles(a: State, m: Image, s: nat, h: nat)
    requires Inv(a) && Agrees(m, a) && !a.faults.dangling && s < |a.socks|
    requires h < |a.hooks| && a.hooks[h].owner < |a.socks| && DrainHolds(a, h)
    ensures Dangles(CutImage(m, h, Rehead(m, s, h)))
  {
    hide Inv, Agrees, Holding, NextOk, PrevOk, RefsAgree, TightAt;
    var o := a.hooks[h].owner;
    NodeIn(m, a, h);
    FrameIn(m, a, o);
    var n := CutImage(m, h, Rehead(m, s, h));
    assert n.socks[o].calling == m.socks[o].calling && n.socks[o].saved == m.socks[o].saved;
    assert n.ids[h].id == h && n.nodes[h].refSelf == NOREF;
    assert DanglesAt(n, n.socks[o]);
  }

  // The sockets after the drain of s dropped the node it called.
  ghost function Unheld(m: Image, s: nat): seq<SocketFields>
    requires s < |m.socks|
  {
    m.socks[s := m.socks[s].(calling := null, saved := null)]
  }

  // A hook that ended is cut out, too.
  lemma EndAgrees(a: State, m: Image, s: nat, h: nat)
    requires Inv(a) && Agrees(m, a) && s < |a.socks| && h < |a.hooks| && a.hooks[h].owner == s
    requires a.hooks[h].status == Running
    ensures Agrees(CutImage(m, h, Unheld(m, s)), EndCall(a, h))
  {
    var b := EndCall(a, h);
    assert Cut(a, b, h);
    assert |m.nodes| == |m.ids| && |m.socks| == |a.socks|;
    hide Inv, Agrees, Cut, KernelOf, Weight, HeadFollows, FramesOk;
    forall i | 0 <= i < |m.socks| ensures HeadFollows(m, b, h, Unheld(m, s), i) {
      RunningHasNoHead(a, m, b, h, i);
    }
    if !b.faults.dangling {
      EndedFrames(a, m, s, h);
    }
    CutAgrees(a, m, b, h, Unheld(m, s));
  }

  lemma EndedFrames(a: State, m: Image, s: nat, h: nat)
    requires Inv(a) && Agrees(m, a) && !a.faults.dangling && s < |a.socks|
    requires h < |a.hooks| && a.hooks[h].owner == s && a.hooks[h].status == Running
    ensures |m.socks| == |EndCall(a, h).socks| && FramesOk(m.(socks := Unheld(m, s)), EndCall(a, h))
  {
    hide Inv, Weight, Size, RegistryAgrees, SocketAgrees, NodeAgrees, Tight, KernelOf, IdsOk;
    var b, n := EndCall(a, h), m.(socks := Unheld(m, s));
    NoneHeldAfter(a, s, h);
    hide Holding;
    forall i | 0 <= i < |m.socks| ensures FrameOk(n, b, i) {
      assert FrameOk(m, a, i);
      if i != s {
        HoldingStays(a, b, i);
        FrameStays(m, a, n, b, i);
      }
    }
  }

  lemma NoneHeldAfter(a: State, s: nat, h: nat)
    requires Inv(a) && s < |a.socks| && h < |a.hooks| && a.hooks[h].owner == s && a.hooks[h].status == Running
    ensures Holding(EndCall(a, h), s) == []
  {
    HookOkAt(a, h);
    SockOkAt(a, s);
    hide Inv, Weight;
    var q := a.socks[s].q;
    assert q[0] == h && Without(q, h) == q[1..];
  }

  // A drain whose hook was deleted during its call drops the node all the same.
  lemma DropAgrees(a: State, m: Image, s: nat)
    requires Inv(a) && Agrees(m, a) && s < |a.socks| && (!a.faults.dangling ==> Holding(a, s) == [])
    ensures Agrees(m.(socks := Unheld(m, s)), a)
  {
    assert |m.socks| == |a.socks| && SocketAgrees(m, a, s);
    if !a.faults.dangling {
      assert FrameOk(m, a, s);
      assert Unheld(m, s) == m.socks;
    } else {
      hide Inv, Agrees, FramesOk;
      FieldsAgree(a, m, a, m.(socks := Unheld(m, s)), s, m.socks[s].(calling := null, saved := null));
    }
  }

  // No head pointer is on a running hook: its socket is drained.
  lemma RunningHasNoHead(a: State, m: Image, b: State, h: nat, i: nat)
    requires Inv(a) && Agrees(m, a) && h < |a.hooks| && a.hooks[h].owner < |m.socks| && a.hooks[h].status == Running
    requires i < |m.socks| && |b.socks| == |a.socks| && b.socks[i].done == a.socks[i].done
    ensures HeadFollows(m, b, h, Unheld(m, a.hooks[h].owner), i)
  {
    HookOkAt(a, h);
    SockOkAt(a, i);
    if !a.socks[i].done && m.socks[i].gcfunc == m.ids[h] {
      HeadIsFirst(a, m, i, h);
    }
  }

  // ----- flags, descriptors and new sockets -----

  // The nodes say the same of two states whose hooks are equally linked.
  ghost predicate SameLinks(a: State, b: State) {
    && |b.hooks| == |a.hooks| && LiveHooks(b.hooks) == LiveHooks(a.hooks)
    && forall h :: 0 <= h < |a.hooks| ==>
         && b.hooks[h].owner == a.hooks[h].owner && b.hooks[h].fn == a.hooks[h].fn
         && Alive(b.hooks[h]) == Alive(a.hooks[h])
  }

  lemma NodesStay(a: State, m: Image, b: State, n: Image, h: nat)
    requires Agrees(m, a) && SameLinks(a, b) && h < |m.nodes|
    requires n.ids == m.ids && n.nodes == m.nodes && n.refs == m.refs && n.others == m.others && n.done == m.done
    ensures IdsOk(n) && NodeAgrees(n, b.hooks, h) && RegistryAgrees(n, b.hooks)
    ensures TightAt(m, a.hooks, h) ==> TightAt(n, b.hooks, h)
  {
    assert NodeAgrees(m, a.hooks, h);
    hide Agrees, LiveHooks, KernelOf;
  }

  lemma HeadStays(a: State, m: Image, b: State, n: Image, s: nat, p: Gcfn?)
    requires SameLinks(a, b) && n.ids == m.ids && HeadOk(m, a.hooks, s, p)
    ensures HeadOk(n, b.hooks, s, p) && (Listed(a.hooks, p) ==> Listed(b.hooks, p))
  {
    hide LiveHooks;
  }

  // Links and references stay; the sockets' plain fields follow the state.
  lemma FlagsAgree(a: State, m: Image, b: State, n: Image)
    requires Agrees(m, a) && SameLinks(a, b) && |b.socks| == |a.socks| && (a.faults.dangling ==> b.faults.dangling)
    requires n.ids == m.ids && n.nodes == m.nodes && n.refs == m.refs && n.others == m.others && n.done == m.done
    requires |n.socks| == |m.socks| && n.kernel == KernelOf(b.log) && RegistryAgrees(n, b.hooks) && IdsOk(n)
    requires forall i :: 0 <= i < |n.socks| ==> SocketAgrees(n, b, i)
    requires forall i :: 0 <= i < |n.socks| && !b.socks[i].done ==>
      !a.socks[i].done && n.socks[i].gcfunc == m.socks[i].gcfunc
    requires !b.faults.dangling ==> FramesOk(n, b)
    ensures Agrees(n, b)
  {
    hide SocketAgrees, KernelOf, LiveHooks, NodeAgrees, TightAt, RegistryAgrees, IdsOk, FramesOk;
    forall h | 0 <= h < |n.nodes|
      ensures NodeAgrees(n, b.hooks, h) && (TightAt(m, a.hooks, h) ==> TightAt(n, b.hooks, h))
    {
      NodesStay(a, m, b, n, h);
    }
  }

  // Only socket s changed, and its fields v are what the state says.
  ghost predicate FieldsFollow(a: State, m: Image, b: State, s: nat, v: SocketFields) {
    && s < |m.socks| == |a.socks| == |b.socks| && b.hooks == a.hooks && b.faults.dangling == a.faults.dangling
    && (forall i :: 0 <= i < |a.socks| && i != s ==> b.socks[i] == a.socks[i])
    && var k := b.socks[s];
    && v.fd == k.fd && v.life == k.life && v.busy == k.busy && k.q == a.socks[s].q
    && (if k.done then v.gcfunc == m.done else !a.socks[s].done && v.gcfunc == m.socks[s].gcfunc)
    && (!a.faults.dangling ==> v.calling == m.socks[s].calling && v.saved == m.socks[s].saved)
  }

  lemma FieldsAgree(a: State, m: Image, b: State, n: Image, s: nat, v: SocketFields)
    requires Agrees(m, a) && FieldsFollow(a, m, b, s, v)
    requires n == m.(socks := m.socks[s := v], kernel := n.kernel) && n.kernel == KernelOf(b.log)
    ensures Agrees(n, b)
  {
    if !b.faults.dangling {
      FieldsFrames(a, m, b, n);
    }
    hide KernelOf, LiveHooks, NodeAgrees, TightAt, RegistryAgrees, FramesOk;
    forall i | 0 <= i < |n.socks| ensures SocketAgrees(n, b, i) {
      assert SocketAgrees(m, a, i);
    }
    assert RegistryAgrees(n, b.hooks) by { RegistryStays(m, n, a.hooks); }
    hide SocketAgrees;
    FlagsAgree(a, m, b, n);
  }

  // Same lists, same hooks: every drain holds what it held.
  lemma FieldsFrames(a: State, m: Image, b: State, n: Image)
    requires |m.socks| == |a.socks| <= |b.socks| == |n.socks| && FramesOk(m, a) && b.hooks == a.hooks && n.ids == m.ids
    requires forall i :: 0 <= i < |a.socks| ==> b.socks[i].q == a.socks[i].q
    requires forall i :: 0 <= i < |a.socks| ==>
      n.socks[i].calling == m.socks[i].calling && n.socks[i].saved == m.socks[i].saved
    requires forall i :: |a.socks| <= i < |b.socks| ==> FrameOk(n, b, i)
    ensures FramesOk(n, b)
  {
    forall i | 0 <= i < |a.socks| ensures FrameOk(n, b, i) {
      assert FrameOk(m, a, i);
    }
  }

  lemma RegistryStays(m: Image, n: Image, hooks: seq<Hook>)
    requires RegistryAgrees(m, hooks) && n.refs == m.refs && n.others == m.others
    ensures RegistryAgrees(n, hooks)
  {
  }

  // The sockets while the drain of s calls the hook h.
  ghost function Held(m: Image, s: nat, h: nat): seq<SocketFields>
    requires s < |m.socks| && h < |m.ids| == |m.nodes|
  {
    m.socks[s := m.socks[s].(calling := m.ids[h], saved := m.nodes[h].next)]
  }

  // The call of a hook changes its status; the drain has read its node and the next.
  lemma BeginAgrees(a: State, m: Image, s: nat, h: nat)
    requires Inv(a) && Agrees(m, a) && s < |a.socks| && a.socks[s].q != [] && a.socks[s].q[0] == h
    requires h < |a.hooks| && a.hooks[h].status == Registered
    ensures Agrees(m.(socks := Held(m, s, h)), BeginCall(a, s, h))
  {
    var b, n := BeginCall(a, s, h), m.(socks := Held(m, s, h));
    SumUpdate(a.hooks, h, b.hooks[h], LiveHook);
    assert KernelOf(b.log) == KernelOf(a.log);
    hide KernelOf, Sum, Weight, NodeAgrees, TightAt, Inv;
    assert SameLinks(a, b);
    forall i | 0 <= i < |m.socks| ensures SocketAgrees(n, b, i) {
      assert SocketAgrees(m, a, i);
      if !a.socks[i].done {
        HeadStays(a, m, b, n, i, m.socks[i].gcfunc);
      }
    }
    if !b.faults.dangling {
      BegunFrames(a, m, s, h);
    }
    hide SocketAgrees, SameLinks, FramesOk;
    FlagsAgree(a, m, b, n);
  }

  lemma BegunFrames(a: State, m: Image, s: nat, h: nat)
    requires Inv(a) && Agrees(m, a) && !a.faults.dangling && s < |a.socks| && a.socks[s].q != [] && a.socks[s].q[0] == h
    requires h < |a.hooks| && a.hooks[h].status == Registered
    ensures FramesOk(m.(socks := Held(m, s, h)), BeginCall(a, s, h))
  {
    hide Inv, Agrees, Holding, BeginCall;
    RegistryIn(m, a);
    BegunFrame(a, m, s, h);
    var b, n := BeginCall(a, s, h), m.(socks := Held(m, s, h));
    forall i | 0 <= i < |m.socks| ensures i < |b.socks| && FrameOk(n, b, i) {
      FrameIn(m, a, i);
      if i != s {
        OtherHolding(a, s, h, i);
        FrameStays(m, a, n, b, i);
      }
    }
  }

  lemma OtherHolding(a: State, s: nat, h: nat, i: nat)
    requires Inv(a) && s < |a.socks| && a.socks[s].q != [] && a.socks[s].q[0] == h && i < |a.socks| && i != s
    requires h < |a.hooks| && a.hooks[h].status == Registered
    ensures |BeginCall(a, s, h).socks| == |a.socks| && Holding(BeginCall(a, s, h), i) == Holding(a, i)
  {
    SockOkAt(a, s);
    hide Inv, Weight, Holding;
    HoldingStays(a, BeginCall(a, s, h), i);
  }

  lemma BegunFrame(a: State, m: Image, s: nat, h: nat)
    requires Inv(a) && Agrees(m, a) && !a.faults.dangling && s < |a.socks| && a.socks[s].q != [] && a.socks[s].q[0] == h
    requires h < |a.hooks| && a.hooks[h].status == Registered
    ensures s < |m.socks| == |BeginCall(a, s, h).socks| && h < |m.ids| == |m.nodes|
    ensures FrameOk(m.(socks := Held(m, s, h)), BeginCall(a, s, h), s)
  {
    hide Inv, Agrees, Weight, HistoryOk, MembersOk, FlagsOk;
    RegistryIn(m, a);
    LinksAreNeighbours(m, a, s, 0);
    SockOkAt(a, s);
  }

  // A new socket shows in the table and in the kernel.
  lemma JoinShows(a: State, m: Image, fd: int, e: Event)
    requires Inv(a) && Agrees(m, a)
    requires || (e == Opened(By(|a.socks|), fd) && KernelGives(a, fd))
             || (e == Adopted(|a.socks|, fd) && 0 <= fd)
    ensures Inv(WithSocket(a, fd, e))
    ensures Agrees(m.(socks := m.socks + [NewFields(fd)], kernel := m.kernel.Plus(fd)), WithSocket(a, fd, e))
  {
    hide Inv, Agrees;
    JoinKeeps(a, fd, e);
    NoHooksYet(a, |a.socks|);
    assert KernelOf(WithSocket(a, fd, e).log) == KernelOf(a.log).Plus(fd);
    hide KernelOf;
    JoinAgrees(a, m, WithSocket(a, fd, e), fd);
  }

  lemma JoinAgrees(a: State, m: Image, b: State, fd: int)
    requires Agrees(m, a) && Gap(a.hooks, |a.socks|, 0, |a.hooks|)
    requires b.socks == a.socks + [Sock(fd, false, [], 0, false, Live)] && b.hooks == a.hooks && b.faults == a.faults
    requires KernelOf(b.log) == KernelOf(a.log).Plus(fd)
    ensures Agrees(m.(socks := m.socks + [NewFields(fd)], kernel := m.kernel.Plus(fd)), b)
  {
    hide KernelOf, LiveHooks;
    var n := m.(socks := m.socks + [NewFields(fd)], kernel := m.kernel.Plus(fd));
    if !b.faults.dangling {
      FieldsFrames(a, m, b, n);
    }
    hide FramesOk;
    forall i | 0 <= i < |n.socks| ensures SocketAgrees(n, b, i) {
      if i < |m.socks| {
        assert SocketAgrees(m, a, i);
      }
    }
    hide SocketAgrees;
    forall h | 0 <= h < |n.nodes|
      ensures NodeAgrees(n, b.hooks, h) && (TightAt(m, a.hooks, h) ==> TightAt(n, b.hooks, h))
    {
      assert NodeAgrees(m, a.hooks, h);
    }
  }

  // A socket that does not exist has no hooks.
  lemma NoHooksYet(a: State, s: nat)
    requires Inv(a) && |a.socks| <= s
    ensures Gap(a.hooks, s, 0, |a.hooks|)
  {
    forall h | 0 <= h < |a.hooks| ensures a.hooks[h].owner != s {
      HookOkAt(a, h);
    }
  }

  function EventOf(r: Release): Event
    requires !r.Nothing?
  {
    if r.Closing? then Closed(NoSocket, r.fd) else HandedOut(NoSocket, r.fd)
  }

  // A descriptor opened and given up again at once shows in the kernel alone.
  lemma PassingAgrees(m: Image, a: State, r: Release)
    requires Inv(a) && Agrees(m, a) && !r.Nothing? && KernelGives(a, r.fd)
    ensures var b := a.(log := Snoc(Snoc(a.log, Opened(NoSocket, r.fd)), EventOf(r)));
      Inv(b) && Agrees(m.(kernel := m.kernel.Plus(r.fd).After(r)), b)
  {
    hide Inv, Agrees, KernelOf;
    var b := a.(log := Snoc(Snoc(a.log, Opened(NoSocket, r.fd)), EventOf(r)));
    PassingKeeps(a, r.fd, EventOf(r));
    PassingLog(a.log, r);
    RegistryIn(m, a);
    KernelMoves(m, a, b);
  }

  // Only the kernel and the log moved.
  lemma KernelMoves(m: Image, a: State, b: State)
    requires Agrees(m, a) && b == a.(log := b.log)
    ensures Agrees(m.(kernel := KernelOf(b.log)), b)
  {
    hide Agrees, KernelOf, HeadOk, IdsOk, Holding;
    var n := m.(kernel := KernelOf(b.log));
    RegistryIn(m, a);
    RegistryStays(m, n, a.hooks);
    forall i | 0 <= i < |m.socks|
      ensures SocketAgrees(n, b, i) && (!a.faults.dangling ==> FrameOk(n, b, i))
    {
      SocketIn(m, a, i);
      HeadStaysWith(m, n, a.hooks, i);
      if !a.faults.dangling {
        FrameIn(m, a, i);
        assert Holding(b, i) == Holding(a, i) by { SameHolding(a, b, i); }
      }
    }
    assert IdsOk(n) by { SameIds(m, n); }
    hide SocketAgrees, FrameOk, RegistryAgrees;
    FlagsAgree(a, m, b, n);
  }

  lemma SameHolding(a: State, b: State, s: nat)
    requires s < |a.socks| && b.socks == a.socks && b.hooks == a.hooks
    ensures Holding(b, s) == Holding(a, s)
  {
  }

  lemma SameIds(m: Image, n: Image)
    requires IdsOk(m) && n == m.(kernel := n.kernel)
    ensures IdsOk(n)
  {
  }

  lemma HeadStaysWith(m: Image, n: Image, hooks: seq<Hook>, s: nat)
    requires s < |m.socks| && n == m.(kernel := n.kernel)
    ensures HeadOk(n, hooks, s, n.socks[s].gcfunc) == HeadOk(m, hooks, s, m.socks[s].gcfunc)
  {
  }

  lemma PassingLog(t: Trace, r: Release)
    requires !r.Nothing?
    ensures KernelOf(Snoc(Snoc(t, Opened(NoSocket, r.fd)), EventOf(r))) == KernelOf(t).Plus(r.fd).After(r)
  {
    var u := Snoc(t, Opened(NoSocket, r.fd));
    assert Owners(u) == Owners(t)[r.fd := NoSocket] && Closes(u) == Closes(t);
    assert Owners(Snoc(u, EventOf(r))) == Owners(u) - {r.fd};
    assert Closes(Snoc(u, EventOf(r))) == if r.Closing? then Closes(t) + [r.fd] else Closes(t);
  }

  // ----- other holders of references -----

  // The hooks keep their references when only others' changed.
  lemma HooksKeep(m: Image, a: State, refs: map<int, Anchor>, others: map<int, Anchor>)
    requires Agrees(m, a) && Moved(m.refs, m.others, refs, others)
    ensures Agrees(m.(refs := refs, others := others), a)
  {
    var n := m.(refs := refs, others := others);
    if !a.faults.dangling {
      FieldsFrames(a, m, a, n);
    }
    hide LiveHooks, KernelOf, TightAt, NextOk, PrevOk, FramesOk;
    forall s | 0 <= s < |n.socks| ensures SocketAgrees(n, a, s) {
      assert SocketAgrees(m, a, s);
    }
    hide SocketAgrees;
    forall h | 0 <= h < |n.nodes|
      ensures NodeAgrees(n, a.hooks, h) && (TightAt(m, a.hooks, h) ==> TightAt(n, a.hooks, h))
    {
      assert NodeAgrees(m, a.hooks, h);
      LinksStay(m, a, n, h);
    }
  }

  lemma LinksStay(m: Image, a: State, n: Image, h: nat)
    requires h < |m.nodes| && h < |a.hooks| && n.ids == m.ids && n.nodes == m.nodes
    ensures NextOk(n, a.hooks, h) == NextOk(m, a.hooks, h) && PrevOk(n, a.hooks, h) == PrevOk(m, a.hooks, h)
    ensures TightAt(n, a.hooks, h) == TightAt(m, a.hooks, h)
  {
  }
}
