/**
 src/gcfn.c and the lifecycle functions of src/socket.c on mutable objects.
 Every method is proved to do to the ghost state exactly what the machine says.
 */
module SocketHeap {
  import opened Anchors
  import opened LuaRegistry
  import opened SocketMachine
  import opened SocketInvariants
  import opened SocketSteps
  import opened SocketRuns
  import opened SocketTheorems
  import opened SocketObjects
  import opened Sequences

  // The descriptors the module holds open; the kernel gives out any other number. And
  // what the module asked the kernel to close.
  class Kernel {
    var held: set<int>
    ghost var closes: seq<int>

    ghost function Value(): Descriptors
      reads this
    {
      Descriptors(held, closes)
    }

    constructor ()
      ensures Value() == Descriptors({}, [])
    {
      held, closes := {}, [];
    }

    method Open(want: int) returns (fd: int)
      modifies this
      ensures fd == if 0 <= want && want !in old(held) then want else -1
      ensures Value() == if fd == -1 then old(Value()) else old(Value()).Plus(fd)
    {
      if 0 <= want && want !in held {
        held := held + {want};
        fd := want;
      } else {
        fd := -1;
      }
    }

    // close(2)
    method Close(fd: int)
      modifies this
      ensures Value() == old(Value()).After(Closing(fd))
    {
      held, closes := held - {fd}, closes + [fd];
    }

    // The caller has the number now, and it stays open.
    method HandOut(fd: int)
      modifies this
      ensures Value() == old(Value()).After(Handing(fd))
    {
      held := held - {fd};
    }

    method Adopt(fd: int)
      modifies this
      ensures Value() == old(Value()).Plus(fd)
    {
      held := held + {fd};
    }
  }

  ghost function SocketValues(ks: seq<Socket>): (vs: seq<SocketFields>)
    reads ks
    ensures |vs| == |ks| && forall i :: 0 <= i < |vs| ==> vs[i] == ks[i].Value()
  {
    seq(|ks|, i requires 0 <= i < |ks| reads ks => ks[i].Value())
  }

  ghost function HookValues(gs: seq<Gcfn>): (vs: seq<Links>)
    reads gs
    ensures |vs| == |gs| && forall i :: 0 <= i < |vs| ==> vs[i] == gs[i].Value()
  {
    seq(|gs|, i requires 0 <= i < |gs| reads gs => gs[i].Value())
  }

  lemma InitialAgrees(m: Image)
    requires m == Image([], [], [], m.done, m.refs, m.refs, Descriptors({}, [])) && forall r :: r in m.refs ==> 0 < r
    ensures Inv(INITIAL) && Agrees(m, INITIAL)
  {
  }

  // The image after the head pointer of s and the old head were set to g.
  ghost function LinkedImage(m: Image, s: nat, g: Gcfn): Image
    requires s < |m.socks|
  {
    var p := m.socks[s].gcfunc;
    m.(socks := m.socks[s := m.socks[s].(gcfunc := g)],
       nodes := if p != null && p.id < |m.nodes| then m.nodes[p.id := m.nodes[p.id].(prev := g)] else m.nodes)
  }

  lemma LinkedIsAdded(m: Image, n: Image, s: nat, fn: Script, g: Gcfn, self: int, cl: int)
    requires s < |m.socks| && n == m.(refs := m.refs[self := SelfRef(g)][cl := Closure(|m.nodes|, fn)])
    ensures var v, link := LinkedImage(n, s, g), Links(self, cl, null, null).(next := n.socks[s].gcfunc);
      AddImage(m, s, fn, g, self, cl) == v.(ids := v.ids + [g], nodes := v.nodes + [link])
  {
  }

  class World {
    const registry: Registry<Anchor>
    const kernel: Kernel
    const gcfnDone: Gcfn
    var sockets: seq<Socket>
    var hooks: seq<Gcfn>
    ghost var repr: set<object>
    // what the registry holds for other modules
    ghost var others: map<int, Anchor>

    ghost function Snapshot(): Image
      reads `sockets, `hooks, `others, registry, kernel, sockets, hooks
    {
      Image(SocketValues(sockets), hooks, HookValues(hooks), gcfnDone, registry.refs, others, kernel.Value())
    }

    // The snapshot without the registry, which others change, too.
    ghost function Own(): Image
      reads `sockets, `hooks, `others, kernel, sockets, hooks
    {
      Image(SocketValues(sockets), hooks, HookValues(hooks), gcfnDone, map[], others, kernel.Value())
    }

    lemma OwnPart()
      ensures Own() == Snapshot().(refs := map[])
    {
    }

    // The sentinel is linked to nothing, and is released at most once.
    ghost predicate SentinelOk()
      reads gcfnDone
    {
      && gcfnDone.prev == null && gcfnDone.next == null
      && (gcfnDone.refSelf == 0 || gcfnDone.refSelf == NOREF)
      && (gcfnDone.refFn == 0 || gcfnDone.refFn == NOREF)
    }

    ghost predicate ObjectsDistinct()
      reads `sockets, `hooks
    {
      && (forall i, j :: 0 <= i < j < |sockets| ==> sockets[i] != sockets[j])
      && (forall i :: 0 <= i < |hooks| ==> hooks[i].id == i)
      && gcfnDone !in hooks
    }

    // The node of hook h, as lls_gcfn_del finds it: newer hooks before it, older after.
    ghost predicate NodeReady(h: nat)
      reads `hooks, hooks
    {
      && h < |hooks|
      && (hooks[h].prev != null ==> hooks[h].prev in hooks && h < hooks[h].prev.id)
      && (hooks[h].next != null ==> hooks[h].next in hooks && hooks[h].next.id < h)
    }

    ghost predicate Owns()
      reads `sockets, `hooks, `repr
    {
      && this !in repr && registry in repr && kernel in repr && gcfnDone in repr
      && (forall k :: k in sockets ==> k in repr)
      && (forall g :: g in hooks ==> g in repr)
    }

    // The objects are well formed whatever state they stand for.
    ghost predicate Sound()
      reads this, gcfnDone
    {
      Owns() && SentinelOk() && ObjectsDistinct()
    }

    // The objects stand for state a.
    ghost predicate Shows(a: State)
      reads this, repr
    {
      Owns() && Sound() && Inv(a) && Agrees(Snapshot(), a)
    }

    constructor (registry: Registry<Anchor>)
      requires forall r :: r in registry.refs ==> 0 < r
      ensures Shows(INITIAL) && fresh(repr - {registry}) && sockets == [] && hooks == []
      ensures this.registry == registry && others == registry.refs
    {
      this.registry := registry;
      kernel := new Kernel();
      gcfnDone := new Gcfn(0, 0, 0, 0);
      sockets, hooks := [], [];
      repr := {registry, kernel, gcfnDone};
      others := registry.refs;
      new;
      hide Inv, Agrees;
      InitialAgrees(Snapshot());
    }

    // Others took or released references of their own.
    ghost method Resync(m: Image, a: State, others: map<int, Anchor>)
      requires Sound() && Inv(a) && Agrees(m, a) && Moved(m.refs, m.others, registry.refs, others)
      requires Own() == m.(refs := map[])
      modifies `others
      ensures this.others == others && Shows(a)
    {
      HooksKeep(m, a, registry.refs, others);
      this.others := others;
      assert Snapshot() == m.(refs := registry.refs, others := others);
    }

    // ----- src/gcfn.c -----

    // The relinking of lls_gcfn_del.
    method Detach(g: Gcfn)
      requires g.prev != g && g.next != g && (g.prev != null ==> g.prev != g.next)
      modifies g.prev, g.next
      ensures old(g.prev) != null ==> old(g.prev).Value() == old(g.prev.Value()).(next := old(g.next))
      ensures old(g.next) != null ==> old(g.next).Value() == old(g.next.Value()).(prev := old(g.prev))
    {
      if g.prev != null {
        g.prev.next := g.next;
      }
      if g.next != null {
        g.next.prev := g.prev;
      }
    }

    // lls_gcfn_del
    method GcfnDel(g: Gcfn) returns (deleted: bool)
      requires g.refSelf == NOREF || (g.prev != g && g.next != g && (g.prev != null ==> g.prev != g.next))
      modifies g, g.prev, g.next, registry
      ensures deleted == (old(g.refSelf) != NOREF)
      ensures !deleted ==> registry.refs == old(registry.refs) && g.Value() == old(g.Value())
      ensures !deleted && g.prev != null ==> g.prev.Value() == old(g.prev.Value())
      ensures !deleted && g.next != null ==> g.next.Value() == old(g.next.Value())
      ensures deleted ==> registry.refs == old(registry.refs) - {old(g.refFn)} - {old(g.refSelf)}
      ensures deleted ==> g.Value() == Links(NOREF, NOREF, old(g.prev), old(g.next))
      ensures deleted && old(g.prev) != null ==> old(g.prev).Value() == old(g.prev.Value()).(next := old(g.next))
      ensures deleted && old(g.next) != null ==> old(g.next).Value() == old(g.next.Value()).(prev := old(g.prev))
    {
      if g.refSelf == NOREF {
        return false;
      }
      Detach(g);
      g.refFn := registry.Unref(g.refFn);
      g.refSelf := registry.Unref(g.refSelf);
      deleted := true;
    }

    // lls_gcfn_new, past the argument checks
    method GcfnNew(fn: Script, ghost owner: nat) returns (g: Gcfn)
      modifies registry
      ensures fresh(g) && g.owner == owner && g.id == |hooks|
      ensures var self, cl := g.refSelf, g.refFn;
        && 0 < self && self !in old(registry.refs) && 0 < cl && cl !in old(registry.refs) && cl != self
        && g.Value() == Links(self, cl, null, null)
        && registry.refs == old(registry.refs)[self := SelfRef(g)][cl := Closure(|hooks|, fn)]
    {
      g := new Gcfn(NOREF, NOREF, |hooks|, owner);
      g.refSelf := registry.Ref(SelfRef(g));
      g.refFn := registry.Ref(Closure(|hooks|, fn));
    }

    // ----- how the fields a method reads follow from the state -----

    lemma Sizes(a: State)
      requires Shows(a)
      ensures |sockets| == |a.socks| && |hooks| == |a.hooks| && Owns()
      ensures kernel.Value() == KernelOf(a.log) && (forall r :: r in registry.refs ==> 0 < r)
    {
    }

    // The sentinel in the head pointer is how the C code sees `done`; else the
    // pointer is null or to a node of the socket.
    lemma SocketTells(a: State, s: nat)
      requires Shows(a) && s < |sockets| && s < |a.socks|
      ensures sockets[s] in repr && kernel in repr
      ensures var k, v := sockets[s], a.socks[s];
        && k.fd == v.fd && k.life == v.life && k.busy == v.busy
        && (k.gcfunc == gcfnDone <==> v.done)
        && (!v.done && k.gcfunc != null ==> k.gcfunc in hooks)
    {
      var m := Snapshot();
      assert SocketAgrees(m, a, s) && m.socks[s] == sockets[s].Value();
    }

    // What a node holds and where it leads.
    lemma NodeTells(a: State, h: nat)
      requires Shows(a) && h < |hooks| && h < |a.hooks|
      ensures NodeReady(h) && (hooks[h].refSelf != NOREF <==> Alive(a.hooks[h]))
    {
      var m := Snapshot();
      assert NodeAgrees(m, a.hooks, h) && m.nodes[h] == hooks[h].Value();
      hide Agrees, Inv, Gap;
    }

    // While nothing dangles, every linked node is where its list says.
    lemma NodeAt(a: State, s: nat, j: nat)
      requires Shows(a) && !a.faults.dangling && s < |a.socks| && j < |a.socks[s].q|
      ensures var q := a.socks[s].q;
        && (forall i :: 0 <= i < |q| ==> q[i] < |hooks|) && hooks[q[j]].refSelf != NOREF
        && hooks[q[j]].prev == (if j == 0 then null else hooks[q[j - 1]])
        && hooks[q[j]].next == (if j + 1 == |q| then null else hooks[q[j + 1]])
    {
      LinksAreNeighbours(Snapshot(), a, s, j);
      assert Snapshot().nodes[a.socks[s].q[j]] == hooks[a.socks[s].q[j]].Value();
    }

    // And an open socket points to its newest hook.
    lemma HeadAt(a: State, s: nat)
      requires Shows(a) && !a.faults.dangling && s < |sockets| && s < |a.socks| && !a.socks[s].done
      ensures var q := a.socks[s].q;
        && (q != [] ==> q[0] < |hooks|)
        && sockets[s].gcfunc == (if q == [] then null else hooks[q[0]])
    {
      HeadIsNewest(Snapshot(), a, s);
      assert Snapshot().socks[s] == sockets[s].Value();
    }

    // ----- addgcfn and delgcfn of src/socket.c -----

    // The relinking of addgcfn_lua.
    method LinkFirst(sock: Socket, g: Gcfn)
      requires sock.gcfunc != g
      modifies g, sock, sock.gcfunc
      ensures g.Value() == old(g.Value()).(next := old(sock.gcfunc))
      ensures sock.Value() == old(sock.Value()).(gcfunc := g)
      ensures old(sock.gcfunc) != null ==> old(sock.gcfunc).Value() == old(sock.gcfunc.Value()).(prev := g)
    {
      g.next := sock.gcfunc;
      if sock.gcfunc != null {
        sock.gcfunc.prev := g;
      }
      sock.gcfunc := g;
    }

    method LinkHead(s: nat, g: Gcfn)
      requires s < |sockets| && ObjectsDistinct() && g !in hooks && g != gcfnDone
      requires sockets[s].gcfunc != null ==> sockets[s].gcfunc in hooks
      modifies g, sockets[s], sockets[s].gcfunc
      ensures g.Value() == old(g.Value()).(next := old(Snapshot()).socks[s].gcfunc)
      ensures Snapshot() == LinkedImage(old(Snapshot()), s, g)
    {
      ghost var m := Snapshot();
      LinkFirst(sockets[s], g);
      assert SocketValues(sockets) == LinkedImage(m, s, g).socks;
      assert HookValues(hooks) == LinkedImage(m, s, g).nodes;
    }

    method AppendNode(g: Gcfn)
      requires ObjectsDistinct() && g.id == |hooks| && g != gcfnDone
      modifies `hooks
      ensures hooks == old(hooks) + [g] && ObjectsDistinct()
      ensures var m := old(Snapshot()); Snapshot() == m.(ids := m.ids + [g], nodes := m.nodes + [g.Value()])
    {
      ghost var nodes := HookValues(hooks);
      hooks := hooks + [g];
      assert HookValues(hooks) == nodes + [g.Value()];
    }

    // A node that no list holds yet.
    method NewNode(s: nat, fn: Script) returns (g: Gcfn)
      requires gcfnDone !in hooks
      modifies registry
      ensures fresh(g) && Fresh(old(Snapshot()), g, s, g.refSelf, g.refFn)
      ensures g.Value() == Links(g.refSelf, g.refFn, null, null)
      ensures var refs := old(registry.refs)[g.refSelf := SelfRef(g)][g.refFn := Closure(|hooks|, fn)];
        Snapshot() == old(Snapshot()).(refs := refs)
    {
      ghost var m := Snapshot();
      g := GcfnNew(fn, s);
      assert SocketValues(sockets) == m.socks && HookValues(hooks) == m.nodes;
    }

    // The linking of addgcfn_lua, on the objects alone.
    method Prepend(s: nat, fn: Script) returns (g: Gcfn)
      requires s < |sockets| && ObjectsDistinct() && SentinelOk()
      requires sockets[s].gcfunc != null ==> sockets[s].gcfunc in hooks
      modifies `hooks, registry, sockets[s], sockets[s].gcfunc
      ensures fresh(g) && hooks == old(hooks) + [g] && SentinelOk() && ObjectsDistinct()
      ensures Fresh(old(Snapshot()), g, s, g.refSelf, g.refFn)
      ensures Snapshot() == AddImage(old(Snapshot()), s, fn, g, g.refSelf, g.refFn)
    {
      ghost var m := Snapshot();
      g := NewNode(s, fn);
      ghost var n := Snapshot();
      LinkHead(s, g);
      LinkedIsAdded(m, n, s, fn, g, g.refSelf, g.refFn);
      hide AddImage, LinkedImage, Fresh;
      AppendNode(g);
    }

    // addgcfn_lua; null is the EBADF error.
    method AddGcfn(s: nat, fn: Script, ghost a: State) returns (g: Gcfn?)
      requires Shows(a) && s < |sockets| && s < |a.socks|
      modifies `sockets, `hooks, `repr, repr
      ensures sockets == old(sockets)
      ensures g == null <==> a.socks[s].done
      ensures g == null ==> Shows(a) && hooks == old(hooks) && repr == old(repr)
      ensures g != null ==> Shows(AddHook(a, s, fn)) && fresh(g) && hooks == old(hooks) + [g] && repr == old(repr) + {g}
    {
      hide Inv, Agrees, AddImage, Fresh, AddHook;
      ghost var m := Snapshot();
      Sizes(a);
      SocketTells(a, s);
      assert Sound() && Inv(a) && Agrees(m, a);
      hide Shows;
      if sockets[s].gcfunc == gcfnDone {
        return null;
      }
      g := Prepend(s, fn);
      repr := repr + {g};
      Added(m, a, s, fn, g);
    }

    lemma Added(m: Image, a: State, s: nat, fn: Script, g: Gcfn)
      requires Inv(a) && Agrees(m, a) && s < |a.socks| == |m.socks| && !a.socks[s].done
      requires Fresh(m, g, s, g.refSelf, g.refFn) && Snapshot() == AddImage(m, s, fn, g, g.refSelf, g.refFn)
      requires Owns() && SentinelOk() && ObjectsDistinct()
      ensures Shows(AddHook(a, s, fn))
    {
      hide Inv, Agrees, AddImage, Fresh, AddHook, Snapshot, Owns, SentinelOk, ObjectsDistinct;
      AddAgrees(a, m, s, fn, g, g.refSelf, g.refFn);
      AddKeeps(a, s, fn);
    }

    // delgcfn_lua past its first check, on the objects alone: the head pointer first,
    // then the node.
    method DelOpen(s: nat, h: nat) returns (ok: bool)
      requires s < |sockets| && h < |hooks| && Sound() && NodeReady(h)
      modifies registry, sockets[s], hooks
      ensures Sound() && ok == (old(hooks[h].refSelf) != NOREF)
      ensures ok ==> Snapshot() == CutImage(old(Snapshot()), h, Rehead(old(Snapshot()), s, h))
      ensures !ok ==> Snapshot() == old(Snapshot()).(socks := Rehead(old(Snapshot()), s, h))
    {
      ghost var m := Snapshot();
      CutOnly(m, h, Rehead(m, s, h));
      MoveHead(s, h);
      hide CutImage, Rehead;
      ok := DelNode(hooks[h], h);
    }

    method MoveHead(s: nat, h: nat)
      requires s < |sockets| && h < |hooks| && Sound() && NodeReady(h)
      modifies sockets[s]
      ensures Sound() && NodeReady(h) && Snapshot() == old(Snapshot()).(socks := Rehead(old(Snapshot()), s, h))
    {
      ghost var m := Snapshot();
      if sockets[s].gcfunc == hooks[h] {
        sockets[s].gcfunc := hooks[h].next;
      }
      assert SocketValues(sockets) == Rehead(m, s, h);
    }

    method DelNode(g: Gcfn, ghost h: nat) returns (deleted: bool)
      requires h < |hooks| && hooks[h] == g && Sound() && NodeReady(h)
      modifies registry, hooks
      ensures Sound() && deleted == (old(g.refSelf) != NOREF)
      ensures Snapshot() == if deleted then CutImage(old(Snapshot()), h, old(Snapshot()).socks) else old(Snapshot())
    {
      ghost var m := Snapshot();
      deleted := GcfnDel(g);
      assert SocketValues(sockets) == m.socks;
      hide Sound;
      if deleted {
        assert HookValues(hooks) == CutImage(m, h, m.socks).nodes;
      } else {
        assert HookValues(hooks) == m.nodes;
      }
    }

    // delgcfn_lua through socket s, which need not be the hook's own: true exactly for
    // a hook not deleted or called before.
    method DelGcfn(s: nat, h: nat, ghost a: State) returns (ok: bool)
      requires Shows(a) && s < |sockets| && h < |hooks| && s < |a.socks| && h < |a.hooks|
      requires a.hooks[h].owner < |a.socks|
      modifies repr
      ensures ok == (!a.socks[s].done && Alive(a.hooks[h]))
      ensures Shows(if ok then DeleteHook(a, s, h) else a)
      ensures !a.faults.dangling && ok ==> (Dangles(Snapshot()) <==> LeftBehind(a, s, h))
    {
      ghost var m := Snapshot();
      Sizes(a);
      SocketTells(a, s);
      NodeTells(a, h);
      hide Inv, Agrees, CutImage, Sound, NodeReady, Dangles;
      if sockets[s].gcfunc == gcfnDone {
        return false;
      }
      ok := DelOpen(s, h);
      if ok {
        DeleteKeeps(a, s, h);
        DeleteAgrees(a, m, s, h);
        if !a.faults.dangling {
          DanglesWhenLeft(a, m, s, h);
        }
      } else {
        SkipAgrees(a, m, s, h);
      }
    }

    lemma DanglesWhenLeft(a: State, m: Image, s: nat, h: nat)
      requires Inv(a) && Agrees(m, a) && !a.faults.dangling && s < |a.socks|
      requires h < |a.hooks| && a.hooks[h].owner < |a.socks| && Alive(a.hooks[h])
      ensures Dangles(CutImage(m, h, Rehead(m, s, h))) <==> LeftBehind(a, s, h)
    {
      if ForeignHead(a, s, h) {
        ForeignHeadDangles(a, m, s, h);
      } else if DrainHolds(a, h) {
        HeldHookDangles(a, m, s, h);
      } else {
        DeleteKeeps(a, s, h);
        DeleteAgrees(a, m, s, h);
        hide Inv, Agrees, Dangles, CutImage;
        NeverDangles(CutImage(m, h, Rehead(m, s, h)), DeleteHook(a, s, h));
      }
    }

    // ----- draining -----

    // s->gcfunc = &GCFN_DONE, on entry to a native call that holds the socket.
    method TakeList(s: nat) returns (gcfunc: Gcfn?)
      requires s < |sockets| && Sound()
      modifies sockets[s]
      ensures Sound() && gcfunc == old(sockets[s].gcfunc)
      ensures var m, k := old(Snapshot()), old(sockets[s].Value());
        Snapshot() == m.(socks := m.socks[s := k.(gcfunc := gcfnDone, busy := k.busy + 1)])
    {
      ghost var m := Snapshot();
      gcfunc := sockets[s].gcfunc;
      sockets[s].gcfunc := gcfnDone;
      sockets[s].busy := sockets[s].busy + 1;
      assert SocketValues(sockets) == m.socks[s := sockets[s].Value()];
    }

    // What pcall finds under ref_fn: the closure of a hook, or nothing callable.
    method Callable(refFn: int) returns (fn: Script)
      ensures refFn in registry.refs && registry.refs[refFn].Closure? ==> fn == registry.refs[refFn].fn
      ensures !(refFn in registry.refs && registry.refs[refFn].Closure?) ==> fn == Raise
    {
      if refFn in registry.refs && registry.refs[refFn].Closure? {
        fn := registry.refs[refFn].fn;
      } else {
        fn := Raise;
      }
    }

    // What the loop finds on a node: the first hook of the list, or one that was
    // deleted meanwhile. Unless something dangles it is the first.
    lemma BeforeCall(g: Gcfn, a: State, s: nat)
      requires Shows(a) && Draining(a, s) && At(hooks, g, a, s)
      ensures g.refSelf == NOREF <==> !Alive(a.hooks[g.id])
      ensures g.refSelf == NOREF ==> a.faults.dangling
      ensures g.refSelf != NOREF ==> FirstCallable(a, s) && g.id == a.socks[s].q[0]
      ensures g.refSelf != NOREF ==> g.refFn in registry.refs
      ensures g.refSelf != NOREF ==> registry.refs[g.refFn] == Closure(g.id, a.hooks[g.id].fn)
    {
      var h := g.id;
      assert NodeAgrees(Snapshot(), a.hooks, h) && Snapshot().nodes[h] == g.Value();
      if Alive(a.hooks[h]) {
        FirstIsHere(a, s, h);
      }
    }

    // The drain of s keeps the node it calls and the next one in its locals.
    ghost method Hold(g: Gcfn, a: State, s: nat)
      requires Shows(a) && Draining(a, s) && FirstCallable(a, s) && g.id == a.socks[s].q[0]
      requires g.id < |hooks| && hooks[g.id] == g && s < |sockets| && sockets[s] in repr
      modifies sockets[s]
      ensures Shows(BeginCall(a, s, g.id))
      ensures g.Value() == old(g.Value()) && sockets[s].calling == g && sockets[s].saved == g.next
    {
      hide Inv, Agrees, BeginCall;
      var m := Snapshot();
      Sizes(a);
      BeginKeeps(a, s);
      BeginAgrees(a, m, s, g.id);
      SetFrame(g, s);
    }

    ghost method SetFrame(g: Gcfn, s: nat)
      requires Sound() && s < |sockets| && g.id < |hooks| && hooks[g.id] == g
      modifies sockets[s]
      ensures Sound() && Snapshot() == old(Snapshot()).(socks := Held(old(Snapshot()), s, g.id))
      ensures g.Value() == old(g.Value()) && sockets[s].calling == g && sockets[s].saved == g.next
    {
      var m := Snapshot();
      sockets[s].calling, sockets[s].saved := g, g.next;
      assert SocketValues(sockets) == Held(m, s, g.id);
    }

    ghost method Drop(s: nat)
      requires s < |sockets| && Sound() && sockets[s] in repr
      modifies sockets[s]
      ensures Sound() && Snapshot() == old(Snapshot()).(socks := Unheld(old(Snapshot()), s))
    {
      var m := Snapshot();
      sockets[s].calling, sockets[s].saved := null, null;
      assert SocketValues(sockets) == Unheld(m, s);
    }

    // The protected call of lls_gcfn_call: an error raised by the function is swallowed.
    method ProtectedCall(g: Gcfn, ghost a: State, ghost s: nat)
      requires Shows(a) && Draining(a, s) && At(hooks, g, a, s) && g.refSelf != NOREF
      requires FirstCallable(a, s) && g.id == a.socks[s].q[0]
      modifies `sockets, `hooks, `repr, repr
      ensures fresh(repr - old(repr)) && old(sockets) <= sockets && old(hooks) <= hooks
      ensures Shows(MidRound(a, s))
      decreases Weight(a.hooks), 5, 0
    {
      hide Inv, Agrees, Sound, Shows, BeginCall, Draining, Weight, MidRound, Run, Gap, Listed;
      Sizes(a);
      SocketTells(a, s);
      BeforeCall(g, a, s);
      MidRoundIs(a, s);
      var fn := Callable(g.refFn);
      Hold(g, a, s);
      Sizes(BeginCall(a, s, g.id));
      RunScript(fn, BeginCall(a, s, g.id));
    }

    // lls_gcfn_call on the sentinel: it has no function to call.
    method CallSentinel(ghost a: State)
      requires Shows(a)
      modifies `sockets, `hooks, `repr, repr
      ensures fresh(repr - old(repr)) && old(sockets) <= sockets && old(hooks) <= hooks
      ensures Shows(a)
      decreases Weight(a.hooks), 5, 0
    {
      Sizes(a);
      assert gcfnDone.refFn !in registry.refs;
      hide Inv, Agrees, Sound, Shows;
      var fn := Callable(gcfnDone.refFn);
      RunScript(fn, a);
      Sizes(a);
      EndSentinel(a);
    }

    // lls_gcfn_del on the sentinel, whose references are not in use.
    method EndSentinel(ghost a: State)
      requires Shows(a)
      modifies registry, gcfnDone
      ensures Shows(a)
    {
      Sizes(a);
      hide Inv, Agrees;
      DelSentinel();
    }

    method DelSentinel()
      requires Sound() && forall r :: r in registry.refs ==> 0 < r
      modifies registry, gcfnDone
      ensures Sound() && Snapshot() == old(Snapshot())
    {
      ghost var m := Snapshot();
      var _ := GcfnDel(gcfnDone);
      assert registry.refs == m.refs;
      assert SocketValues(sockets) == m.socks && HookValues(hooks) == m.nodes;
    }

    // lls_gcfn_del after the call: the hook may have been deleted while it ran, and
    // then its node is read without an anchor.
    method EndRound(g: Gcfn, ghost s: nat, ghost c: State)
      requires Shows(c) && g.id < |hooks| && g.id < |c.hooks| && hooks[g.id] == g
      requires s < |c.socks| && c.hooks[g.id].owner == s
      requires Alive(c.hooks[g.id]) ==> c.hooks[g.id].status == Running
      requires !Alive(c.hooks[g.id]) ==> c.faults.dangling
      requires g.refSelf == NOREF ==> c.faults.dangling
      modifies repr
      ensures Shows(EndCall(c, g.id))
    {
      ghost var h := g.id;
      Sizes(c);
      SocketTells(c, s);
      NodeTells(c, h);
      EndImage(g, s, c);
      hide Inv, Agrees, CutImage, Sound, Unheld, EndCall;
      Drop(s);
      var _ := DelNode(g, h);
    }

    lemma EndImage(g: Gcfn, s: nat, c: State)
      requires Shows(c) && g.id < |hooks| && g.id < |c.hooks| && hooks[g.id] == g
      requires s < |c.socks| && c.hooks[g.id].owner == s
      requires Alive(c.hooks[g.id]) ==> c.hooks[g.id].status == Running
      requires !Alive(c.hooks[g.id]) ==> c.faults.dangling
      ensures g != gcfnDone && |Snapshot().socks| == |c.socks| && |Snapshot().nodes| == |c.hooks|
      ensures Inv(EndCall(c, g.id))
      ensures var n := Snapshot().(socks := Unheld(Snapshot(), s));
        Agrees(if g.refSelf == NOREF then n else CutImage(n, g.id, n.socks), EndCall(c, g.id))
    {
      var m, h := Snapshot(), g.id;
      assert gcfnDone !in hooks;
      hide Inv, Agrees, CutImage, Unheld;
      Sizes(c);
      NodeTells(c, h);
      EndKeeps(c, h);
      if Alive(c.hooks[h]) {
        EndAgrees(c, m, s, h);
        CutOnly(m, h, Unheld(m, s));
      } else {
        DropAgrees(c, m, s);
      }
    }

    // lls_gcfn_call on a node of a drain, or on the sentinel, which has no function:
    // calling it only raises. The node is anchored, unless something dangles.
    method GcfnCall(g: Gcfn, ghost a: State, ghost s: nat)
      requires Shows(a) && (g == gcfnDone || (Draining(a, s) && At(hooks, g, a, s)))
      requires g != gcfnDone && g.refSelf == NOREF ==> a.faults.dangling
      modifies `sockets, `hooks, `repr, repr
      ensures fresh(repr - old(repr)) && old(sockets) <= sockets && old(hooks) <= hooks
      ensures Shows(if g == gcfnDone then a else Round(a, s, g.id))
      decreases Weight(a.hooks), 6, 0
    {
      if g == gcfnDone {
        Sizes(a);
        hide Agrees, Inv, Sound, At, Draining;
        if g.refSelf != NOREF {
          CallSentinel(a);
        }
      } else {
        BeforeCall(g, a, s);
        Sizes(a);
        if g.refSelf != NOREF {
          CallNode(g, a, s);
        }
      }
    }

    method CallNode(g: Gcfn, ghost a: State, ghost s: nat)
      requires Shows(a) && g != gcfnDone && Draining(a, s) && At(hooks, g, a, s) && g.refSelf != NOREF
      modifies `sockets, `hooks, `repr, repr
      ensures fresh(repr - old(repr)) && old(sockets) <= sockets && old(hooks) <= hooks
      ensures Shows(Round(a, s, g.id))
      decreases Weight(a.hooks), 5, 1
    {
      BeforeCall(g, a, s);
      RoundEnds(a, s);
      Sizes(a);
      assert hooks[g.id] == g && Round(a, s, g.id) == EndCall(MidRound(a, s), g.id);
      hide Agrees, Inv, Sound, MidRound, OneRound, Round, EndCall, Draining, At;
      ProtectedCall(g, a, s);
      ghost var c := MidRound(a, s);
      Sizes(c);
      NodeTells(c, g.id);
      EndRound(g, s, c);
    }

    lemma LoopStarts(a: State, s: nat, close: bool)
      requires Shows(a) && s < |sockets| && s < |a.socks| && (close ==> 0 <= a.socks[s].fd)
      ensures InLoop(hooks, gcfnDone, sockets[s].gcfunc, Started(a, s, close), Started(a, s, close), s, a.socks[s].done)
    {
      assert SocketAgrees(Snapshot(), a, s) && Snapshot().socks[s] == sockets[s].Value();
      if !a.socks[s].done {
        assert !a.faults.dangling ==> Listed(a.hooks, sockets[s].gcfunc);
        StartsDraining(a, s, close);
        StartKeeps(a, s, close);
      }
    }

    // Entering a drain, or a call on a socket whose drain has begun before.
    method EnterDone(s: nat, ghost a: State, ghost close: bool) returns (gcfunc: Gcfn?)
      requires Shows(a) && s < |sockets| && s < |a.socks| && (close ==> 0 <= a.socks[s].fd)
      modifies sockets[s]
      ensures Shows(Started(a, s, close)) && gcfunc == old(sockets[s].gcfunc)
    {
      TakeAgrees(Snapshot(), a, s, close);
      hide Inv, Agrees, Sound, Started;
      gcfunc := TakeList(s);
    }

    // next, read before the call, is where the drain stands after it.
    lemma NextStands(g: Gcfn, b: State, c: State, s: nat, sentinel: bool) returns (d: State)
      requires Shows(c) && InLoop(hooks, gcfnDone, g, b, c, s, sentinel)
      ensures sentinel ==> g == gcfnDone
      ensures !sentinel ==> g != gcfnDone && Draining(c, s) && At(hooks, g, c, s)
      ensures g != gcfnDone && g.refSelf == NOREF ==> c.faults.dangling
      ensures d == if g == gcfnDone then c else Round(c, s, g.id)
      ensures InLoop(hooks, gcfnDone, g.next, b, d, s, sentinel) && SocketObjects.After(g.next) < SocketObjects.After(g)
      ensures d == c || Weight(d.hooks) < Weight(c.hooks)
    {
      d := c;
      if !sentinel {
        BeforeCall(g, c, s);
        NextFields(g, c, s);
        hide Inv, Agrees, Sound;
        RoundStands(c, s, g.id, SocketObjects.After(g.next));
        NextListed(Snapshot(), c, s, g.id);
        d := Round(c, s, g.id);
      }
    }

    lemma NextFields(g: Gcfn, c: State, s: nat)
      requires Shows(c) && At(hooks, g, c, s)
      ensures g.id < |c.hooks| == |hooks| && g.next == Snapshot().nodes[g.id].next
      ensures SocketObjects.After(g.next) < SocketObjects.After(g) && Gap(c.hooks, s, SocketObjects.After(g.next), g.id)
      ensures var p := g.next; p != null ==>
        p in hooks && p != gcfnDone && p.id < |hooks| == |c.hooks| && hooks[p.id] == p && c.hooks[p.id].owner == s
    {
      assert NodeAgrees(Snapshot(), c.hooks, g.id) && Snapshot().nodes[g.id] == g.Value();
    }

    lemma LoopEnds(a: State, c: State, s: nat, close: bool)
      requires s < |a.socks| && InLoop(hooks, gcfnDone, null, Started(a, s, close), c, s, a.socks[s].done)
      ensures c == SocketMachine.CallGcfn(Enter(a, s, close), s)
    {
      if !a.socks[s].done {
        SockOkAt(c, s);
        hide Inv;
        assert c.socks[s].q != [] ==> Alive(c.hooks[c.socks[s].q[0]]);
      }
    }

    // call_gcfn
    method CallGcfn(s: nat, ghost a: State, ghost close: bool)
      requires Shows(a) && s < |sockets| && s < |a.socks| && (close ==> 0 <= a.socks[s].fd)
      modifies `sockets, `hooks, `repr, repr
      ensures fresh(repr - old(repr)) && old(sockets) <= sockets && old(hooks) <= hooks
      ensures Shows(SocketMachine.CallGcfn(Enter(a, s, close), s))
      decreases Weight(a.hooks), 7, 0
    {
      hide Shows, Round, Drain, InLoop, At, Inv, Draining;
      ghost var b, sentinel := Started(a, s, close), a.socks[s].done;
      SocketTells(a, s);
      LoopStarts(a, s, close);
      var gcfunc := EnterDone(s, a, close);
      ghost var c := b;
      while gcfunc != null
        invariant Shows(c) && InLoop(hooks, gcfnDone, gcfunc, b, c, s, sentinel) && Weight(c.hooks) <= Weight(b.hooks)
        invariant fresh(repr - old(repr)) && old(sockets) <= sockets && old(hooks) <= hooks
        decreases Weight(c.hooks), SocketObjects.After(gcfunc)
      {
        ghost var nodes := hooks;
        ghost var d := NextStands(gcfunc, b, c, s, sentinel);
        var next := gcfunc.next;
        GcfnCall(gcfunc, c, s);
        LoopKept(nodes, hooks, gcfnDone, next, b, d, s, sentinel);
        c, gcfunc := d, next;
      }
      LoopEnds(a, c, s, close);
    }

    // ----- close, unwrap and collection -----

    // The plain fields of a socket are written on the way out, and the descriptor,
    // if one is released, goes back to the kernel.
    method WriteFields(s: nat, fd: int, life: Life, r: Release)
      requires s < |sockets| && Sound()
      modifies sockets[s], kernel
      ensures Sound()
      ensures Snapshot() == WrittenImage(old(Snapshot()), s, fd, life, r)
      ensures kernel.Value() == old(kernel.Value()).After(r)
    {
      WriteSocket(s, fd, life);
      LetGo(r);
    }

    method WriteSocket(s: nat, fd: int, life: Life)
      requires s < |sockets| && Sound()
      modifies sockets[s]
      ensures Sound() && Snapshot() == WrittenImage(old(Snapshot()), s, fd, life, Nothing)
    {
      ghost var m := Snapshot();
      sockets[s].fd := fd;
      sockets[s].life := life;
      sockets[s].busy := if sockets[s].busy == 0 then 0 else sockets[s].busy - 1;
      assert SocketValues(sockets) == m.socks[s := sockets[s].Value()];
    }

    // Leaving close, unwrap or collection: from state m to b.
    method Settle(s: nat, fd: int, life: Life, r: Release, ghost m: State, ghost b: State)
      requires Shows(m) && s < |sockets| && Inv(b) && LeavesAs(m, b, s, fd, life, r)
      modifies sockets[s], kernel
      ensures Shows(b) && kernel.Value() == KernelOf(m.log).After(r)
    {
      SettleShows(s, fd, life, r, m, b);
      hide Inv, Agrees, Sound, LeavesAs, WrittenImage, Shows;
      WriteFields(s, fd, life, r);
      Concludes(b);
    }

    lemma SettleShows(s: nat, fd: int, life: Life, r: Release, m: State, b: State)
      requires Shows(m) && s < |sockets| && Inv(b) && LeavesAs(m, b, s, fd, life, r)
      ensures Sound() && Agrees(WrittenImage(Snapshot(), s, fd, life, r), b)
    {
      SettleAgrees(Snapshot(), m, b, s, fd, life, r);
    }

    lemma Concludes(b: State)
      requires Owns() && Sound() && Inv(b) && Agrees(Snapshot(), b)
      ensures Shows(b)
    {
    }

    // close_lua; closefd takes the descriptor read before the drain.
    method CloseLua(s: nat, ghost a: State)
      requires Shows(a) && s < |sockets| && Usable(a, s)
      modifies `sockets, `hooks, `repr, repr
      ensures fresh(repr - old(repr)) && old(sockets) <= sockets && old(hooks) <= hooks
      ensures Shows(SocketMachine.CloseLua(a, s))
      ensures 0 <= a.socks[s].fd ==>
        kernel.closes == Closes(SocketMachine.CallGcfn(Enter(a, s, true), s).log) + [a.socks[s].fd]
      decreases Weight(a.hooks), 8, 0
    {
      SocketTells(a, s);
      hide Inv, Shows, Sound, Enter, SocketMachine.CallGcfn, Step, Run, Drain, Weight;
      var fd := sockets[s].fd;
      if 0 <= fd {
        CallGcfn(s, a, true);
        FinishClose(s, fd, a);
      }
    }

    method FinishClose(s: nat, fd: int, ghost a: State)
      requires Inv(a) && Usable(a, s) && 0 <= a.socks[s].fd == fd && s < |sockets|
      requires Shows(SocketMachine.CallGcfn(Enter(a, s, true), s))
      modifies repr
      ensures Shows(SocketMachine.CloseLua(a, s))
      ensures kernel.closes == Closes(SocketMachine.CallGcfn(Enter(a, s, true), s).log) + [fd]
    {
      ghost var m := SocketMachine.CallGcfn(Enter(a, s, true), s);
      hide Inv, Shows, LeavesAs, Sound, Enter, SocketMachine.CallGcfn, Step, Run, Drain, Weight;
      CloseSettles(a, m, s);
      SocketTells(m, s);
      Settle(s, -1, sockets[s].life, Closing(fd), m, ExitClose(m, s, fd, a.socks[s].closing));
    }

    // unwrap_lua: the descriptor, read after the drain, goes to the caller.
    method UnwrapLua(s: nat, ghost a: State) returns (fd: int)
      requires Shows(a) && s < |sockets| && Usable(a, s)
      modifies `sockets, `hooks, `repr, repr
      ensures fresh(repr - old(repr)) && old(sockets) <= sockets && old(hooks) <= hooks
      ensures Shows(SocketMachine.UnwrapLua(a, s))
      ensures fd == SocketMachine.CallGcfn(Enter(a, s, false), s).socks[s].fd
      ensures kernel.closes == Closes(SocketMachine.CallGcfn(Enter(a, s, false), s).log) && fd !in kernel.held
      decreases Weight(a.hooks), 8, 0
    {
      SocketTells(a, s);
      hide Inv, Shows, Sound, Enter, SocketMachine.CallGcfn, Step, Run, Drain, Weight;
      CallGcfn(s, a, false);
      fd := FinishUnwrap(s, a);
    }

    method FinishUnwrap(s: nat, ghost a: State) returns (fd: int)
      requires Inv(a) && Usable(a, s) && s < |sockets|
      requires Shows(SocketMachine.CallGcfn(Enter(a, s, false), s))
      modifies repr
      ensures Shows(SocketMachine.UnwrapLua(a, s))
      ensures fd == SocketMachine.CallGcfn(Enter(a, s, false), s).socks[s].fd
      ensures kernel.closes == Closes(SocketMachine.CallGcfn(Enter(a, s, false), s).log) && fd !in kernel.held
    {
      ghost var m := SocketMachine.CallGcfn(Enter(a, s, false), s);
      hide Inv, Shows, LeavesAs, Sound, Enter, SocketMachine.CallGcfn, Step, Run, Drain, Weight;
      SocketTells(m, s);
      fd := sockets[s].fd;
      UnwrapSettles(a, m, s);
      Settle(s, -1, Stripped, ReleaseOf(fd, false), m, ExitUnwrap(m, s));
    }

    // gc_lua: close(s->fd) reads the field after the drain and leaves it as it is.
    method GcLua(s: nat, ghost a: State)
      requires Shows(a) && s < |sockets| && Collectable(a, s)
      modifies `sockets, `hooks, `repr, repr
      ensures fresh(repr - old(repr)) && old(sockets) <= sockets && old(hooks) <= hooks
      ensures Shows(SocketMachine.GcLua(a, s))
      ensures 0 <= a.socks[s].fd ==>
        var m := SocketMachine.CallGcfn(Enter(a, s, false), s);
        kernel.closes == Closes(m.log) + if m.socks[s].fd < 0 then [] else [m.socks[s].fd]
      decreases Weight(a.hooks), 8, 0
    {
      SocketTells(a, s);
      hide Inv, Shows, LeavesAs, Sound, Enter, SocketMachine.CallGcfn, Step, Run, Drain, Weight;
      if sockets[s].fd < 0 {
        GcClosedSettles(a, s);
        Settle(s, sockets[s].fd, Collected, Nothing, a, a.(socks := a.socks[s := a.socks[s].(life := Collected)]));
      } else {
        CallGcfn(s, a, false);
        FinishGc(s, a);
      }
    }

    method FinishGc(s: nat, ghost a: State)
      requires Inv(a) && Collectable(a, s) && 0 <= a.socks[s].fd && s < |sockets|
      requires Shows(SocketMachine.CallGcfn(Enter(a, s, false), s))
      modifies repr
      ensures Shows(SocketMachine.GcLua(a, s))
      ensures var m := SocketMachine.CallGcfn(Enter(a, s, false), s);
        kernel.closes == Closes(m.log) + if m.socks[s].fd < 0 then [] else [m.socks[s].fd]
    {
      ghost var m := SocketMachine.CallGcfn(Enter(a, s, false), s);
      hide Inv, Shows, LeavesAs, Sound, Enter, SocketMachine.CallGcfn, Step, Run, Drain, Weight;
      SocketTells(m, s);
      var fd := sockets[s].fd;
      GcSettles(a, m, s);
      Settle(s, fd, Finalized(sockets[s].life), ReleaseOf(fd, true), m, ExitGc(m, s));
    }

    // ----- new sockets -----

    // A new socket object around descriptor fd.
    method Append(fd: int)
      requires Sound()
      modifies `sockets, `repr
      ensures fresh(repr - old(repr)) && old(sockets) <= sockets && Sound()
      ensures Snapshot() == old(Snapshot()).(socks := old(Snapshot()).socks + [NewFields(fd)])
    {
      ghost var m := Snapshot();
      var s := new Socket(fd);
      sockets := sockets + [s];
      repr := repr + {s};
      assert SocketValues(sockets) == m.socks + [NewFields(fd)];
    }

    // The kernel has just given fd to a module whose objects showed a in snapshot m.
    ghost predicate Given(m: Image, a: State, fd: int)
      reads this, repr
    {
      Owns() && Sound() && Inv(a) && Agrees(m, a) && KernelGives(a, fd) && Snapshot() == m.(kernel := m.kernel.Plus(fd))
    }

    method AskKernel(want: int, ghost a: State) returns (fd: int)
      requires Shows(a)
      modifies kernel
      ensures fd == if KernelGives(a, want) then want else -1
      ensures kernel.closes == old(kernel.closes) && (fd == -1 ==> Shows(a))
      ensures fd != -1 ==> Given(old(Snapshot()), a, fd)
    {
      Sizes(a);
      hide Inv, Agrees, Sound;
      fd := kernel.Open(want);
    }

    method GiveUp(r: Release, ghost m: Image, ghost a: State)
      requires !r.Nothing? && Given(m, a, r.fd)
      modifies kernel
      ensures Shows(a.(log := Snoc(Snoc(a.log, Opened(NoSocket, r.fd)), EventOf(r))))
      ensures kernel.closes == old(kernel.closes) + if r.Closing? then [r.fd] else []
    {
      hide Inv, Agrees, Sound, KernelGives;
      PassingAgrees(m, a, r);
      ghost var b := a.(log := Snoc(Snoc(a.log, Opened(NoSocket, r.fd)), EventOf(r)));
      LetGo(r);
      Concludes(b);
    }

    method LetGo(r: Release)
      requires Sound()
      modifies kernel
      ensures Sound() && Snapshot() == old(Snapshot()).(kernel := old(kernel.Value()).After(r))
      ensures kernel.Value() == old(kernel.Value()).After(r)
    {
      match r {
        case Nothing =>
        case Closing(fd) => kernel.Close(fd);
        case Handing(fd) => kernel.HandOut(fd);
      }
    }

    // new_lua, dup_lua and accept_lua: take what the kernel gives, then set its
    // flags; when that fails (ok is false) the descriptor is closed again.
    method AcquireSocket(want: int, ok: bool, ghost a: State)
      requires Shows(a)
      modifies `sockets, `hooks, `repr, repr
      ensures fresh(repr - old(repr)) && old(sockets) <= sockets && hooks == old(hooks)
      ensures Shows(Acquire(a, want, ok))
      ensures kernel.closes == old(kernel.closes) + if KernelGives(a, want) && !ok then [want] else []
    {
      hide Inv, Agrees, Sound, Shows, Given;
      ghost var m := Snapshot();
      Sizes(a);
      var fd := AskKernel(want, a);
      if fd != -1 {
        if ok {
          TakeUp(fd, m, a);
        } else {
          GiveUp(Closing(fd), m, a);
        }
      }
    }

    method TakeUp(fd: int, ghost m: Image, ghost a: State)
      requires Given(m, a, fd)
      modifies `sockets, `repr
      ensures fresh(repr - old(repr)) && old(sockets) <= sockets
      ensures Shows(WithSocket(a, fd, Opened(By(|a.socks|), fd)))
    {
      hide Inv, Agrees, Sound, Shows;
      JoinShows(a, m, fd, Opened(By(|a.socks|), fd));
      Append(fd);
      Joined(m, a, fd, Opened(By(|a.socks|), fd));
    }

    lemma Joined(m: Image, a: State, fd: int, e: Event)
      requires Sound() && Inv(WithSocket(a, fd, e))
      requires Snapshot() == m.(socks := m.socks + [NewFields(fd)], kernel := m.kernel.Plus(fd))
      requires Agrees(m.(socks := m.socks + [NewFields(fd)], kernel := m.kernel.Plus(fd)), WithSocket(a, fd, e))
      ensures Shows(WithSocket(a, fd, e))
    {
    }

    // acceptfd_lua: the descriptor itself goes to the caller.
    method AcquireDescriptor(want: int, ok: bool, ghost a: State) returns (fd: int)
      requires Shows(a)
      modifies repr
      ensures Shows(AcquireFd(a, want, ok))
      ensures fd == if KernelGives(a, want) && ok then want else -1
      ensures kernel.closes == old(kernel.closes) + if KernelGives(a, want) && !ok then [want] else []
    {
      ghost var m := Snapshot();
      Sizes(a);
      hide Shows, Given;
      fd := AskKernel(want, a);
      if fd != -1 {
        GiveUp(if ok then Handing(fd) else Closing(fd), m, a);
        fd := if ok then fd else -1;
      }
    }

    // wrap_lua; ok: every query on the descriptor succeeded.
    method WrapLua(fd: int, ok: bool, ghost a: State)
      requires Shows(a)
      modifies `sockets, `hooks, `repr, repr
      ensures fresh(repr - old(repr)) && old(sockets) <= sockets && hooks == old(hooks)
      ensures Shows(Adopt(a, fd, ok)) && kernel.closes == old(kernel.closes)
    {
      if fd < 0 || !ok {
        return;
      }
      ghost var m := Snapshot();
      Sizes(a);
      JoinShows(a, m, fd, Adopted(|a.socks|, fd));
      assert Sound();
      hide Inv, Agrees, Sound, Shows;
      Append(fd);
      kernel.Adopt(fd);
      Joined(m, a, fd, Adopted(|a.socks|, fd));
    }

    // ----- callbacks -----

    // lauxh_checkudata
    method CheckFails(s: nat, ghost a: State) returns (failed: bool)
      requires Shows(a)
      ensures failed == !Usable(a, s)
      ensures s < |sockets| ==> s < |a.socks| && sockets[s].fd == a.socks[s].fd
      ensures s < |sockets| ==> sockets[s].busy == a.socks[s].busy && sockets[s].life == a.socks[s].life
      ensures !failed ==> s < |sockets|
    {
      Sizes(a);
      if s < |sockets| {
        SocketTells(a, s);
      }
      failed := |sockets| <= s || sockets[s].life == Stripped;
    }

    // delgcfn through any socket.
    method PerformDel(s: nat, h: nat, ghost a: State) returns (raised: bool)
      requires Shows(a)
      modifies repr
      ensures Shows(Step(a, Del(s, h)).st) && raised == Step(a, Del(s, h)).raised
    {
      Sizes(a);
      raised := CheckFails(s, a);
      if raised || |hooks| <= h {
        return true;
      }
      OwnerExists(a, h);
      var _ := DelGcfn(s, h, a);
    }

    lemma OwnerExists(a: State, h: nat)
      requires Shows(a) && h < |a.hooks|
      ensures a.hooks[h].owner < |a.socks|
    {
      HookOkAt(a, h);
    }

    // One operation of a callback; raised: it raised a Lua error. Objects without
    // their metatable fail lauxh_checkudata.
    method Perform(op: Op, ghost a: State) returns (raised: bool)
      requires Shows(a)
      modifies `sockets, `hooks, `repr, repr
      ensures fresh(repr - old(repr)) && old(sockets) <= sockets && old(hooks) <= hooks
      ensures Shows(Step(a, op).st) && raised == Step(a, op).raised
      decreases Weight(a.hooks) + OpSize(op), 9, 0
    {
      hide Shows, Step;
      if op.Close? || op.Unwrap? || op.Gc? {
        raised := PerformDrain(op, a);
      } else if op.Add? || op.Del? {
        raised := PerformHook(op, a);
      } else {
        raised := PerformOpen(op, a);
      }
    }

    method PerformHook(op: Op, ghost a: State) returns (raised: bool)
      requires Shows(a) && (op.Add? || op.Del?)
      modifies `sockets, `hooks, `repr, repr
      ensures fresh(repr - old(repr)) && old(sockets) <= sockets && old(hooks) <= hooks
      ensures Shows(Step(a, op).st) && raised == Step(a, op).raised
    {
      Sizes(a);
      hide Shows, AddHook, DeleteHook;
      match op {
        case Add(s, fn) =>
          raised := CheckFails(s, a);
          if !raised {
            var _ := AddGcfn(s, fn, a);
          }
        case Del(s, h) =>
          raised := PerformDel(s, h, a);
      }
    }

    method PerformDrain(op: Op, ghost a: State) returns (raised: bool)
      requires Shows(a) && (op.Close? || op.Unwrap? || op.Gc?)
      modifies `sockets, `hooks, `repr, repr
      ensures fresh(repr - old(repr)) && old(sockets) <= sockets && old(hooks) <= hooks
      ensures Shows(Step(a, op).st) && raised == Step(a, op).raised
      decreases Weight(a.hooks) + OpSize(op), 8, 1
    {
      hide Shows, SocketMachine.CloseLua, SocketMachine.UnwrapLua, SocketMachine.GcLua;
      raised := CheckFails(op.s, a);
      if !raised {
        match op {
          case Close(s) => CloseLua(s, a);
          case Unwrap(s) => var _ := UnwrapLua(s, a);
          case Gc(s) =>
            if sockets[s].life == Live && sockets[s].busy == 0 {
              GcLua(s, a);
            }
        }
      }
      raised := raised && !op.Gc?;
    }

    method PerformOpen(op: Op, ghost a: State) returns (raised: bool)
      requires Shows(a) && (op.New? || op.Dup? || op.Accept? || op.AcceptFd? || op.Wrap?)
      modifies `sockets, `hooks, `repr, repr
      ensures fresh(repr - old(repr)) && old(sockets) <= sockets && hooks == old(hooks)
      ensures Shows(Step(a, op).st) && raised == Step(a, op).raised
    {
      hide Shows, Acquire, AcquireFd, Adopt;
      Sizes(a);
      raised := false;
      match op {
        case New(fd, ok) =>
          AcquireSocket(fd, ok, a);
        case Dup(s, fd, ok) =>
          raised := CheckFails(s, a);
          if !raised && 0 <= sockets[s].fd {
            AcquireSocket(fd, ok, a);
          }
        case Accept(s, fd, ok) =>
          raised := CheckFails(s, a);
          if !raised && 0 <= sockets[s].fd {
            AcquireSocket(fd, ok, a);
          }
        case AcceptFd(s, fd, ok) =>
          raised := CheckFails(s, a);
          if !raised && 0 <= sockets[s].fd {
            var _ := AcquireDescriptor(fd, ok, a);
          }
        case Wrap(fd, ok) =>
          WrapLua(fd, ok, a);
      }
    }

    // A callback script, run by lua_pcall: an error skips the rest.
    method RunScript(sc: Script, ghost a: State)
      requires Shows(a)
      modifies `sockets, `hooks, `repr, repr
      ensures fresh(repr - old(repr)) && old(sockets) <= sockets && old(hooks) <= hooks
      ensures Shows(Run(a, sc))
      decreases Weight(a.hooks) + Size(sc), 4, 0
    {
      hide Shows;
      match sc {
        case End =>
        case Raise =>
        case Then(op, rest) =>
          var raised := Perform(op, a);
          if !raised {
            RunScript(rest, Step(a, op).st);
          }
      }
    }
  }

  // Any sequence of calls from Lua, on objects made from nothing: the laws of the
  // machine are laws of these objects. A raised error ends one call, not the program.
  method RunProgram(ops: seq<Op>) returns (w: World)
    ensures fresh(w) && fresh(w.repr) && w.Shows(RunAll(INITIAL, ops)) && w.others == map[]
  {
    var registry := new Registry<Anchor>();
    w := new World(registry);
    hide World.Shows;
    MakeCalls(w, ops, INITIAL);
  }

  method MakeCalls(w: World, ops: seq<Op>, ghost a: State)
    requires w.Shows(a)
    modifies w`sockets, w`hooks, w`repr, w.repr
    ensures w.Shows(RunAll(a, ops)) && fresh(w.repr - old(w.repr))
    decreases |ops|
  {
    hide World.Shows, Step;
    if ops != [] {
      w.Sizes(a);
      var _ := w.Perform(ops[0], a);
      MakeCalls(w, ops[1..], Step(a, ops[0]).st);
    }
  }

  // Two references are in use for each hook that waits or runs, and none for the
  // rest: once every socket has been drained only what others anchor is left.
  lemma RegistryLaw(w: World, ops: seq<Op>)
    requires w.Shows(RunAll(INITIAL, ops))
    ensures var st := RunAll(INITIAL, ops);
      && |w.registry.refs| == |w.others| + 2 * LiveHooks(st.hooks)
      && (forall r :: r in w.others ==> r in w.registry.refs && w.registry.refs[r] == w.others[r])
      && ((forall s :: 0 <= s < |st.socks| ==> st.socks[s].done) ==> |w.registry.refs| == |w.others|)
  {
    var st := RunAll(INITIAL, ops);
    if forall s :: 0 <= s < |st.socks| ==> st.socks[s].done {
      forall h | 0 <= h < |st.hooks| ensures !Alive(st.hooks[h]) {
        HookEnds(ops, h);
      }
      SumZero(st.hooks, LiveHook);
    }
  }

  // A hook that heads the list of socket 0, deleted through socket 1: the head
  // pointer of socket 0 is left on a node that holds no reference.
  method DeleteForeignHead() returns (w: World)
    ensures Dangles(w.Snapshot())
  {
    hide RunAll, Dangles, LeftBehind;
    ghost var a := ThreeSteps();
    w := RunProgram([New(3, true), New(4, true), Add(0, End)]);
    w.Sizes(a);
    w.OwnerExists(a, 0);
    hide Inv, Agrees;
    var _ := w.DelGcfn(1, 0, a);
  }

  // The run of DeleteNextHook up to the deletion: while the drain of socket 0 calls
  // hook 1, the node of hook 0, which it keeps in next, is released.
  method DeleteUnderDrain() returns (w: World, ghost b: State)
    ensures w.Shows(b) && Dangles(w.Snapshot())
    ensures |b.socks| == 2 && b.socks[0].done && !b.socks[1].done && b.socks[1].q == []
  {
    hide RunAll, Dangles, LeftBehind, Inv, Agrees, BeginCall, DeleteHook;
    var fn := Then(Del(1, 0), End);
    ghost var a := FourSteps(fn);
    w := RunProgram([New(3, true), New(4, true), Add(0, End), Add(0, fn)]);
    b := CallsSecond(a, fn);
    EnterAndHold(w, a, b);
    w.Sizes(b);
    DeletedState(b, fn);
    var _ := w.DelGcfn(1, 0, b);
    b := DeleteHook(b, 1, 0);
  }

  lemma DeletedState(b: State, fn: Script)
    requires b.socks == [Sock(3, true, [1, 0], 1, true, Live), Sock(4, false, [], 0, false, Live)]
    requires b.hooks == [Hook(0, End, Registered), Hook(0, fn, Running)] && fn == Then(Del(1, 0), End)
    ensures DeleteHook(b, 1, 0).socks == [Sock(3, true, [1], 1, true, Live), Sock(4, false, [], 0, false, Live)]
  {
    var _ := DeletesFirst(b, fn);
  }

  // close_lua on socket 0 up to the call of its newer hook.
  method EnterAndHold(w: World, ghost a: State, ghost b: State)
    requires w.Shows(a) && |a.socks| == 2 && |a.hooks| == 2 && a.socks[0] == Sock(3, false, [1, 0], 0, false, Live)
    requires a.hooks[1].status == Registered && b == BeginCall(Started(a, 0, true), 0, 1)
    modifies w.repr
    ensures w.Shows(b)
  {
    w.Sizes(a);
    w.SocketTells(a, 0);
    hide Inv, Agrees;
    var gcfunc := w.EnterDone(0, a, true);
    ghost var e := Started(a, 0, true);
    w.Sizes(e);
    w.SocketTells(e, 0);
    assert w.hooks[1].id == 1 by { assert w.ObjectsDistinct(); }
    w.Hold(w.hooks[1], e, 0);
  }

  lemma ThreeSteps() returns (a: State)
    ensures a == RunAll(INITIAL, [New(3, true), New(4, true), Add(0, End)])
    ensures |a.socks| == 2 && |a.hooks| == 1 && a.hooks[0] == Hook(0, End, Registered)
    ensures !a.socks[1].done && LeftBehind(a, 1, 0) && !a.faults.dangling
  {
    a := TwoOpen(End);
    hide Step;
    RunThree(INITIAL, New(3, true), New(4, true), Add(0, End));
  }

  lemma StartsDraining(a: State, s: nat, close: bool)
    requires Inv(a) && s < |a.socks| && !a.socks[s].done
    ensures Draining(Started(a, s, close), s)
  {
    SockOkAt(a, s);
  }

  // g is where the drain of socket s stands: null at the end, else the node of one
  // of its hooks. Every hook that still waits is this one or an older one. Unless
  // something dangles the node is anchored.
  ghost predicate At(nodes: seq<Gcfn>, g: Gcfn?, a: State, s: nat) {
    && (g != null ==> g.id < |nodes| && nodes[g.id] == g && g.id < |a.hooks| && a.hooks[g.id].owner == s)
    && Gap(a.hooks, s, SocketObjects.After(g), |a.hooks|)
    && (!a.faults.dangling ==> Listed(a.hooks, g))
  }

  // The loop of call_gcfn between two rounds: b is where the drain began, c where it
  // is. A socket drained before holds the sentinel.
  ghost predicate InLoop(nodes: seq<Gcfn>, done: Gcfn, g: Gcfn?, b: State, c: State, s: nat, sentinel: bool) {
    if sentinel then c == b && (g == null || g == done)
    else
      && Inv(c) && s < |b.socks| && Draining(c, s) && Drain(c, s) == Drain(b, s) && Weight(c.hooks) <= Weight(b.hooks)
      && g != done && At(nodes, g, c, s)
  }

  // New nodes do not matter to a drain.
  lemma LoopKept(nodes: seq<Gcfn>, more: seq<Gcfn>, done: Gcfn, g: Gcfn?, b: State, c: State, s: nat, sentinel: bool)
    requires nodes <= more && InLoop(nodes, done, g, b, c, s, sentinel)
    ensures InLoop(more, done, g, b, c, s, sentinel)
  {
    hide Drain, Inv, Draining, Weight, Gap;
  }

  // One round of the drain loop: up to the return of the function, and to its end.
  ghost function MidRound(a: State, s: nat): (c: State)
    requires FirstCallable(a, s)
    ensures |a.socks| <= |c.socks| && |a.hooks| <= |c.hooks|
  {
    Run(BeginCall(a, s, a.socks[s].q[0]), a.hooks[a.socks[s].q[0]].fn)
  }

  lemma MidRoundIs(a: State, s: nat)
    requires FirstCallable(a, s)
    ensures var h := a.socks[s].q[0]; MidRound(a, s) == Run(BeginCall(a, s, h), a.hooks[h].fn)
    ensures var h := a.socks[s].q[0]; Weight(BeginCall(a, s, h).hooks) + 1 + Size(a.hooks[h].fn) == Weight(a.hooks)
  {
  }

  ghost function OneRound(a: State, s: nat): State
    requires FirstCallable(a, s)
  {
    EndCall(MidRound(a, s), a.socks[s].q[0])
  }

  // What a round does that finds the node of hook h.
  ghost function Round(a: State, s: nat, h: nat): State {
    if h < |a.hooks| && Alive(a.hooks[h]) && FirstCallable(a, s) then OneRound(a, s) else a
  }

  // The newest hook still listed is the one to call.
  lemma FirstIsHere(a: State, s: nat, h: nat)
    requires Inv(a) && Draining(a, s) && h < |a.hooks| && Alive(a.hooks[h]) && a.hooks[h].owner == s
    requires Gap(a.hooks, s, h + 1, |a.hooks|)
    ensures FirstCallable(a, s) && a.socks[s].q[0] == h
  {
    HookOkAt(a, h);
    SockOkAt(a, s);
    hide Inv;
    var q := a.socks[s].q;
    var j :| 0 <= j < |q| && q[j] == h;
    assert Alive(a.hooks[q[0]]);
  }

  // When the function returns, the hook runs still, unless it was deleted; and the
  // node the drain reads next is anchored still, unless something dangles.
  lemma RoundEnds(a: State, s: nat)
    requires Inv(a) && Draining(a, s) && FirstCallable(a, s)
    ensures var c, q := MidRound(a, s), a.socks[s].q;
      && Inv(c) && q[0] < |c.hooks| && c.hooks[q[0]].owner == s && (a.faults.dangling ==> c.faults.dangling)
      && (Alive(c.hooks[q[0]]) ==> c.hooks[q[0]].status == Running)
      && (!Alive(c.hooks[q[0]]) ==> c.faults.dangling)
      && (1 < |q| && !c.faults.dangling ==> q[1] < |c.hooks| && Alive(c.hooks[q[1]]))
  {
    var q := a.socks[s].q;
    var b, c := BeginCall(a, s, q[0]), MidRound(a, s);
    SockOkAt(a, s);
    BeginKeeps(a, s);
    RunKeeps(b, a.hooks[q[0]].fn);
    hide Inv;
    assert HookLater(b, c, q[0]) && SameHook(b.hooks[q[0]], c.hooks[q[0]]);
    assert 1 < |q| ==> HookLater(b, c, q[1]) && SameHook(b.hooks[q[1]], c.hooks[q[1]]);
    HeldAreAlive(c, s);
  }

  lemma GapsJoin(hooks: seq<Hook>, s: nat, lo: int, h: nat)
    requires h < |hooks| && Gap(hooks, s, lo, h) && Gap(hooks, s, h + 1, |hooks|)
    ensures !Alive(hooks[h]) ==> Gap(hooks, s, lo, |hooks|)
    ensures forall k :: lo <= k < |hooks| && 0 <= k && hooks[k].owner == s && Alive(hooks[k]) ==> k == h
  {
  }

  // After a round that found hook h, nothing is listed from lo on, if that was so of
  // all but h before: no hook joins a list that is being drained.
  lemma RoundStands(a: State, s: nat, h: nat, lo: int)
    requires Inv(a) && Draining(a, s) && h < |a.hooks| && a.hooks[h].owner == s && Gap(a.hooks, s, h + 1, |a.hooks|)
    requires Gap(a.hooks, s, lo, h)
    ensures var d := Round(a, s, h);
      && Inv(d) && Draining(d, s) && Drain(d, s) == Drain(a, s) && Gap(d.hooks, s, lo, |d.hooks|)
      && |a.hooks| <= |d.hooks| && (forall k :: 0 <= k < |a.hooks| ==> d.hooks[k].owner == a.hooks[k].owner)
      && (d == a || Weight(d.hooks) < Weight(a.hooks))
  {
    hide Inv, Draining, Gap, Weight, Run, BeginCall, EndCall, Drain;
    if Alive(a.hooks[h]) {
      FirstIsHere(a, s, h);
      AfterCall(a, MidRound(a, s), s);
      GapAfter(a, s, h, lo, OneRound(a, s));
    } else {
      GapsJoin(a.hooks, s, lo, h);
    }
  }

  lemma GapAfter(a: State, s: nat, h: nat, lo: int, d: State)
    requires Inv(a) && Draining(a, s) && FirstCallable(a, s) && a.socks[s].q[0] == h && CalledFirst(a, d, s)
    requires Gap(a.hooks, s, lo, h) && Gap(a.hooks, s, h + 1, |a.hooks|)
    ensures Gap(d.hooks, s, lo, |d.hooks|)
    ensures |a.hooks| <= |d.hooks| && forall k :: 0 <= k < |a.hooks| ==> d.hooks[k].owner == a.hooks[k].owner
  {
    hide Inv, Draining;
    GapsJoin(a.hooks, s, lo, h);
    forall k | lo <= k < |d.hooks| && 0 <= k && d.hooks[k].owner == s ensures !Alive(d.hooks[k]) {
      if Alive(d.hooks[k]) {
        WasWaiting(a, d, s, k);
        assert false;
      }
    }
    forall k | 0 <= k < |a.hooks| ensures d.hooks[k].owner == a.hooks[k].owner {
      assert SameHook(a.hooks[k], d.hooks[k]);
    }
  }

  // What the drain reads next is still listed then, unless something dangles.
  lemma NextListed(m: Image, a: State, s: nat, h: nat)
    requires Inv(a) && Agrees(m, a) && Draining(a, s) && h < |a.hooks| && h < |m.nodes|
    requires Alive(a.hooks[h]) ==> FirstCallable(a, s) && a.socks[s].q[0] == h
    requires !Alive(a.hooks[h]) ==> a.faults.dangling
    ensures var d := Round(a, s, h); !d.faults.dangling ==> Listed(d.hooks, m.nodes[h].next)
  {
    if Alive(a.hooks[h]) {
      RoundEnds(a, s);
      if !a.faults.dangling {
        LinksAreNeighbours(m, a, s, 0);
        IdAt(m, a, s);
      }
      SockOkAt(a, s);
      hide Inv, Agrees, MidRound;
    }
  }

  lemma IdAt(m: Image, a: State, s: nat)
    requires Inv(a) && Agrees(m, a) && s < |a.socks|
    ensures forall j :: 0 <= j < |a.socks[s].q| ==>
      a.socks[s].q[j] < |m.ids| && m.ids[a.socks[s].q[j]].id == a.socks[s].q[j]
  {
    SockOkAt(a, s);
  }

  // What is listed after the call was in the list before, behind the hook called.
  lemma WasWaiting(a: State, d: State, s: nat, k: nat)
    requires Inv(a) && Draining(a, s) && FirstCallable(a, s) && CalledFirst(a, d, s)
    requires k < |d.hooks| && d.hooks[k].owner == s && Alive(d.hooks[k])
    ensures k < |a.hooks| && a.hooks[k].owner == s && Alive(a.hooks[k]) && k != a.socks[s].q[0]
  {
    HookOkAt(d, k);
    UndeletedMembers(Survivors(a.log, s), d.hooks, k);
    SurvivorAt(a, s, k);
    assert SameHook(a.hooks[k], d.hooks[k]);
    SockOkAt(d, s);
    assert d.hooks[k].status == Registered by {
      assert Waiting(d, s) == d.socks[s].q;
    }
    CalledStays(d, s, a.socks[s].q[0]);
  }

  // A hook of the calls made is not registered any more.
  lemma CalledStays(d: State, s: nat, h: nat)
    requires Inv(d) && Draining(d, s) && h in CallsOn(d.log, s)
    ensures h < |d.hooks| && !Alive(d.hooks[h])
  {
    SockOkAt(d, s);
    assert h in Survivors(d.log, s);
    SurvivorAt(d, s, h);
    if Alive(d.hooks[h]) {
      HookOkAt(d, h);
      PlaceInHistory(d, s, h);
    }
  }

  // A head pointer on a released node moves on.
  lemma SkipAgrees(a: State, m: Image, s: nat, h: nat)
    requires Agrees(m, a) && s < |a.socks| && !a.socks[s].done && h < |a.hooks| && !Alive(a.hooks[h])
    ensures Agrees(m.(socks := Rehead(m, s, h)), a)
  {
    var n := m.(socks := Rehead(m, s, h));
    assert SocketAgrees(m, a, s) && NodeAgrees(m, a.hooks, h) && m.ids[h].id == h;
    if !a.faults.dangling {
      assert Listed(a.hooks, m.socks[s].gcfunc);
      assert n == m;
    }
    hide LiveHooks, KernelOf, TightAt;
    forall i | 0 <= i < |n.socks| ensures SocketAgrees(n, a, i) {
      assert SocketAgrees(m, a, i);
    }
    forall k | 0 <= k < |n.nodes| ensures NodeAgrees(n, a.hooks, k) {
      assert NodeAgrees(m, a.hooks, k);
    }
  }

  lemma TakeAgrees(m: Image, a: State, s: nat, close: bool)
    requires Inv(a) && Agrees(m, a) && s < |m.socks| && s < |a.socks| && (close ==> 0 <= a.socks[s].fd)
    ensures var k := m.socks[s];
      Agrees(m.(socks := m.socks[s := k.(gcfunc := m.done, busy := k.busy + 1)]), Started(a, s, close))
    ensures Inv(Started(a, s, close))
  {
    hide Inv, Agrees, KernelOf, Started, FieldsFollow;
    StartKeeps(a, s, close);
    TakenFields(m, a, s, close);
    var k := m.socks[s];
    var v := k.(gcfunc := m.done, busy := k.busy + 1);
    FieldsAgree(a, m, Started(a, s, close), m.(socks := m.socks[s := v]), s, v);
  }

  lemma TakenFields(m: Image, a: State, s: nat, close: bool)
    requires Agrees(m, a) && s < |m.socks| && s < |a.socks|
    ensures m.kernel == KernelOf(Started(a, s, close).log)
    ensures var k := m.socks[s]; FieldsFollow(a, m, Started(a, s, close), s, k.(gcfunc := m.done, busy := k.busy + 1))
  {
    hide HeadOk, Listed, KernelOf;
    assert SocketAgrees(m, a, s);
  }

  // What the fields written on the way out must be, to lead from m to b.
  ghost predicate LeavesAs(m: State, b: State, s: nat, fd: int, life: Life, r: Release) {
    && Leaves(m, b, s) && b.socks[s].fd == fd && b.socks[s].life == life
    && b.socks[s].busy == (if m.socks[s].busy == 0 then 0 else m.socks[s].busy - 1)
    && KernelOf(b.log) == KernelOf(m.log).After(r)
  }

  function ReleaseOf(fd: int, close: bool): Release {
    if fd < 0 then Nothing else if close then Closing(fd) else Handing(fd)
  }

  ghost function WrittenImage(v: Image, s: nat, fd: int, life: Life, r: Release): Image
    requires s < |v.socks|
  {
    var k := v.socks[s];
    v.(socks := v.socks[s := k.(fd := fd, life := life, busy := if k.busy == 0 then 0 else k.busy - 1)],
       kernel := v.kernel.After(r))
  }

  lemma SettleAgrees(v: Image, m: State, b: State, s: nat, fd: int, life: Life, r: Release)
    requires Agrees(v, m) && s < |v.socks| && LeavesAs(m, b, s, fd, life, r)
    ensures Agrees(WrittenImage(v, s, fd, life, r), b)
  {
    var n := WrittenImage(v, s, fd, life, r);
    assert SocketAgrees(v, m, s);
    hide Agrees;
    FieldsAgree(m, v, b, n, s, n.socks[s]);
  }

  lemma CloseSettles(a: State, m: State, s: nat)
    requires Inv(a) && Usable(a, s) && 0 <= a.socks[s].fd && m == SocketMachine.CallGcfn(Enter(a, s, true), s)
    ensures var fd, b := a.socks[s].fd, ExitClose(m, s, a.socks[s].fd, a.socks[s].closing);
      Inv(b) && LeavesAs(m, b, s, -1, m.socks[s].life, Closing(fd))
  {
    hide Inv, Returned, SocketMachine.CallGcfn, Later;
    CallGcfnKeeps(a, s, true);
    ReturnedFacts(a, m, s, true);
    CloseKeeps(a, m, s);
  }

  lemma UnwrapSettles(a: State, m: State, s: nat)
    requires Inv(a) && Usable(a, s) && m == SocketMachine.CallGcfn(Enter(a, s, false), s)
    ensures Inv(ExitUnwrap(m, s)) && LeavesAs(m, ExitUnwrap(m, s), s, -1, Stripped, ReleaseOf(m.socks[s].fd, false))
  {
    hide Inv, Returned, SocketMachine.CallGcfn, Later;
    CallGcfnKeeps(a, s, false);
    ReturnedFacts(a, m, s, false);
    UnwrapKeeps(a, m, s);
  }

  lemma GcSettles(a: State, m: State, s: nat)
    requires Inv(a) && Collectable(a, s) && m == SocketMachine.CallGcfn(Enter(a, s, false), s)
    ensures var k := m.socks[s];
      Inv(ExitGc(m, s)) && LeavesAs(m, ExitGc(m, s), s, k.fd, Finalized(k.life), ReleaseOf(k.fd, true))
  {
    hide Inv, Returned, SocketMachine.CallGcfn, Later;
    CallGcfnKeeps(a, s, false);
    ReturnedFacts(a, m, s, false);
    GcKeeps(a, m, s);
  }

  lemma GcClosedSettles(a: State, s: nat)
    requires Inv(a) && Collectable(a, s) && a.socks[s].fd < 0
    ensures var b := a.(socks := a.socks[s := a.socks[s].(life := Collected)]);
      Inv(b) && LeavesAs(a, b, s, a.socks[s].fd, Collected, Nothing)
  {
    GcClosedKeeps(a, s);
  }
}
