/**
 What every execution of the socket machine keeps, however callbacks nest, and
 what code that runs inside a callback may have changed when it returns.
 */
module SocketInvariants {
  import opened Sequences
  import opened SocketMachine

  // ----- the invariant -----

  // Most recent first, each once.
  ghost predicate Descending(q: seq<nat>) {
    forall i, j :: 0 <= i < j < |q| ==> q[j] < q[i]
  }

  // The list of socket s holds live hooks of s; only the first hook of a drain in
  // progress may be the one running.
  ghost predicate ListOk(st: State, s: nat)
    requires s < |st.socks|
  {
    var k := st.socks[s];
    && Descending(k.q)
    && forall j :: 0 <= j < |k.q| ==>
         && k.q[j] < |st.hooks| && st.hooks[k.q[j]].owner == s
         && (st.hooks[k.q[j]].status == Registered
             || (j == 0 && k.done && st.hooks[k.q[j]].status == Running))
  }

  // The hooks of a list that have not been called yet.
  ghost function Waiting(st: State, s: nat): seq<nat>
    requires s < |st.socks|
  {
    var q := st.socks[s].q;
    if q != [] && q[0] < |st.hooks| && st.hooks[q[0]].status == Running then q[1..] else q
  }

  // The hook law: until the drain starts nothing was called and the list is the
  // surviving registrations; from then on calls made and calls to come are exactly those.
  ghost predicate HistoryOk(st: State, s: nat)
    requires s < |st.socks|
  {
    var k := st.socks[s];
    if k.done then Survivors(st.log, s) == CallsOn(st.log, s) + Waiting(st, s)
    else CallsOn(st.log, s) == [] && Survivors(st.log, s) == k.q
  }

  ghost predicate FlagsOk(k: Sock) {
    && -1 <= k.fd
    && (k.fd < 0 || k.life != Live ==> k.done) && (k.life == Stripped ==> k.fd < 0)
    && (k.busy == 0 && k.done ==> k.q == [])
    && (k.closing ==> k.done && 0 < k.busy)
  }

  // Surviving registrations are hooks of s, most recent first.
  ghost predicate MembersOk(st: State, s: nat) {
    && Descending(Survivors(st.log, s))
    && forall h :: h in Survivors(st.log, s) ==> h < |st.hooks| && st.hooks[h].owner == s
  }

  ghost predicate SockOk(st: State, s: nat)
    requires s < |st.socks|
  {
    FlagsOk(st.socks[s]) && ListOk(st, s) && HistoryOk(st, s) && MembersOk(st, s)
  }

  // A hook that still holds its registry references is in its owner's list;
  // one that was not deleted in time survives in the history.
  ghost predicate HookOk(st: State, h: nat)
    requires h < |st.hooks|
  {
    var k := st.hooks[h];
    && k.owner < |st.socks|
    && (Alive(k) ==> h in st.socks[k.owner].q)
    && (k.status != Deleted <==> h in Survivors(st.log, k.owner))
  }

  // Nothing was recorded about sockets that do not exist.
  ghost predicate FreshOk(st: State, s: nat) {
    |st.socks| <= s ==> Survivors(st.log, s) == [] && CallsOn(st.log, s) == []
  }

  // A held descriptor is held by the socket whose field says so.
  ghost predicate HolderOk(st: State, fd: int)
    requires fd in Owners(st.log)
  {
    var o := Owners(st.log)[fd];
    0 <= fd && o.By? && o.s < |st.socks| && st.socks[o.s].fd == fd && st.socks[o.s].life != Collected
  }

  // The socket's descriptor is open and held by this socket alone.
  ghost predicate Holds(st: State, s: nat)
    requires s < |st.socks|
  {
    var k := st.socks[s];
    0 <= k.fd && k.life != Collected ==> k.fd in Owners(st.log) && Owners(st.log)[k.fd] == By(s)
  }

  // A close_lua is in progress whose socket was disabled under it.
  ghost predicate Undermined(st: State, s: nat)
    requires s < |st.socks|
  {
    st.socks[s].closing && st.socks[s].fd < 0
  }

  // No descriptor was given up by a socket that may not hold it any more.
  predicate Clean(st: State) {
    !st.faults.reentered && !st.faults.reused
  }

  ghost predicate AllHold(st: State) {
    forall s :: 0 <= s < |st.socks| ==> Holds(st, s)
  }

  ghost predicate DescriptorsOk(st: State) {
    && (forall fd :: fd in Owners(st.log) ==> HolderOk(st, fd))
    && (Clean(st) && CleanWraps(st.log) ==> Balanced(st.log) && AllHold(st))
    && (st.faults.reused ==> !Balanced(st.log))
    && (st.faults.reentered && Balanced(st.log) ==> exists s :: 0 <= s < |st.socks| && Undermined(st, s))
  }

  ghost predicate Inv(st: State) {
    && (forall s :: 0 <= s < |st.socks| ==> SockOk(st, s))
    && (forall h :: 0 <= h < |st.hooks| ==> HookOk(st, h))
    && (forall s: nat :: FreshOk(st, s))
    && DescriptorsOk(st)
  }

  lemma SockOkAt(a: State, s: nat)
    requires Inv(a) && s < |a.socks|
    ensures SockOk(a, s)
  {
  }

  lemma HookOkAt(a: State, h: nat)
    requires Inv(a) && h < |a.hooks|
    ensures HookOk(a, h)
  {
  }

  // ----- what a drain holds -----

  // An open socket is not being drained.
  lemma NoneHeld(a: State, s: nat)
    requires Inv(a) && s < |a.socks| && !a.socks[s].done
    ensures Holding(a, s) == []
  {
    SockOkAt(a, s);
  }

  // A drain holds hooks of its own socket that are in its list.
  lemma HeldAreAlive(a: State, s: nat)
    requires Inv(a) && s < |a.socks|
    ensures forall i :: 0 <= i < |Holding(a, s)| ==>
      Holding(a, s)[i] < |a.hooks| && Alive(a.hooks[Holding(a, s)[i]]) && a.hooks[Holding(a, s)[i]].owner == s
  {
    SockOkAt(a, s);
  }

  lemma HoldingStays(a: State, b: State, s: nat)
    requires Inv(a) && s < |a.socks| && s < |b.socks| && b.socks[s].q == a.socks[s].q && |a.hooks| <= |b.hooks|
    requires forall h :: 0 <= h < |a.hooks| && a.hooks[h].owner == s ==> b.hooks[h].status == a.hooks[h].status
    ensures Holding(b, s) == Holding(a, s)
  {
    SockOkAt(a, s);
  }

  // ----- hooks deleted since -----

  function Undeleted(q: seq<nat>, hooks: seq<Hook>): seq<nat> {
    if q == [] then []
    else (if q[0] < |hooks| && hooks[q[0]].status == Deleted then [] else [q[0]]) + Undeleted(q[1..], hooks)
  }

  lemma {:induction false} UndeletedAll(q: seq<nat>, hooks: seq<Hook>)
    requires forall h :: h in q && h < |hooks| ==> hooks[h].status != Deleted
    ensures Undeleted(q, hooks) == q
  {
    if q != [] {
      UndeletedAll(q[1..], hooks);
      assert q[0] in q && q == [q[0]] + q[1..];
    }
  }

  lemma {:induction false} UndeletedMembers(q: seq<nat>, hooks: seq<Hook>, h: nat)
    ensures h in Undeleted(q, hooks) <==> h in q && !(h < |hooks| && hooks[h].status == Deleted)
  {
    if q != [] {
      UndeletedMembers(q[1..], hooks, h);
    }
  }

  lemma {:induction false} UndeletedTwice(q: seq<nat>, x: seq<Hook>, y: seq<Hook>)
    requires |x| <= |y| && forall h :: 0 <= h < |x| && x[h].status == Deleted ==> y[h].status == Deleted
    ensures Undeleted(Undeleted(q, x), y) == Undeleted(q, y)
  {
    if q != [] {
      UndeletedTwice(q[1..], x, y);
      if q[0] < |x| && x[q[0]].status == Deleted {
        assert Undeleted(q, x) == Undeleted(q[1..], x) && Undeleted(q, y) == Undeleted(q[1..], y);
      } else {
        assert ([q[0]] + Undeleted(q[1..], x))[1..] == Undeleted(q[1..], x);
      }
    }
  }

  lemma {:induction false} UndeletedConcat(p: seq<nat>, q: seq<nat>, hooks: seq<Hook>)
    ensures Undeleted(p + q, hooks) == Undeleted(p, hooks) + Undeleted(q, hooks)
  {
    if p == [] {
      assert p + q == q;
    } else {
      UndeletedConcat(p[1..], q, hooks);
      assert (p + q)[0] == p[0] && (p + q)[1..] == p[1..] + q;
      var first := if p[0] < |hooks| && hooks[p[0]].status == Deleted then [] else [p[0]];
      Associative(first, Undeleted(p[1..], hooks), Undeleted(q, hooks));
    }
  }

  lemma {:induction false} UndeletedWithout(q: seq<nat>, hooks: seq<Hook>, h: nat)
    requires Descending(q) && h < |hooks| && hooks[h].status == Deleted
    requires forall k :: k in q && k < |hooks| && k != h ==> hooks[k].status != Deleted
    ensures Undeleted(q, hooks) == Without(q, h)
  {
    if q != [] {
      assert q[0] in q;
      if q[0] == h {
        UndeletedAll(q[1..], hooks);
      } else {
        UndeletedWithout(q[1..], hooks, h);
      }
    }
  }

  // ----- what nested code may change -----

  ghost predicate SockCore(a: State, b: State, s: nat)
    requires s < |a.socks| <= |b.socks|
  {
    var x, y := a.socks[s], b.socks[s];
    && y.busy == x.busy && y.closing == x.closing && (x.done ==> y.done)
    && (y.fd == x.fd || y.fd == -1)
    && (x.closing && y.fd != x.fd ==> b.faults.reentered)
    && (0 < x.busy && x.life != Collected ==> y.life != Collected)
  }

  // A socket whose drain has started gets no call from nested code; its history
  // only loses hooks deleted meanwhile.
  ghost predicate SockLater(a: State, b: State, s: nat)
    requires s < |a.socks| <= |b.socks|
  {
    a.socks[s].done ==>
      CallsOn(b.log, s) == CallsOn(a.log, s) && Survivors(b.log, s) == Undeleted(Survivors(a.log, s), b.hooks)
  }

  // The same hook; once called or deleted it stays so.
  ghost predicate SameHook(x: Hook, y: Hook) {
    x.owner == y.owner && x.fn == y.fn && (x.status == Called || x.status == Deleted ==> y.status == x.status)
  }

  ghost predicate StatusLater(a: State, b: State, h: nat)
    requires h < |a.hooks| <= |b.hooks|
  {
    var x, y := a.hooks[h], b.hooks[h];
    || y.status == x.status
    || (x.status == Registered && y.status == Deleted)
    || (x.status == Registered && y.status == Called && (x.owner < |a.socks| ==> !a.socks[x.owner].done))
    || (x.status == Running && y.status == Called)
  }

  // What a drain reads again stays so, unless it was deleted: then a pointer dangles.
  ghost predicate HookLater(a: State, b: State, h: nat)
    requires h < |a.hooks| <= |b.hooks|
  {
    StatusLater(a, b, h) && (DrainHolds(a, h) && !b.faults.dangling ==> DrainHolds(b, h))
  }

  ghost predicate FaultsLater(a: State, b: State) {
    && (a.faults.reentered ==> b.faults.reentered)
    && (a.faults.reused ==> b.faults.reused)
    && (a.faults.dangling ==> b.faults.dangling)
    && (Balanced(b.log) ==> Balanced(a.log))
    && (CleanWraps(b.log) ==> CleanWraps(a.log))
  }

  // b can be reached from a by code that leaves the list of `except` to its drain.
  ghost predicate Later(a: State, b: State, except: int) {
    && |a.socks| <= |b.socks| && |a.hooks| <= |b.hooks| && FaultsLater(a, b)
    && (forall s :: |a.socks| <= s < |b.socks| ==> b.socks[s].busy == 0)
    && (forall s :: 0 <= s < |a.socks| ==> SockCore(a, b, s))
    && (forall s :: 0 <= s < |a.socks| && s != except ==> SockLater(a, b, s))
    && (forall h :: 0 <= h < |a.hooks| ==> SameHook(a.hooks[h], b.hooks[h]))
    && (forall h :: 0 <= h < |a.hooks| && a.hooks[h].owner != except ==> HookLater(a, b, h))
  }

  lemma SockLaterTrans(a: State, b: State, c: State, s: nat)
    requires s < |a.socks| <= |b.socks| <= |c.socks| && SockLater(a, b, s) && SockLater(b, c, s) && SockCore(a, b, s)
    requires |b.hooks| <= |c.hooks| && forall h :: 0 <= h < |b.hooks| ==> SameHook(b.hooks[h], c.hooks[h])
    ensures SockLater(a, c, s)
  {
    UndeletedTwice(Survivors(a.log, s), b.hooks, c.hooks);
  }

  lemma LaterTrans(a: State, b: State, c: State, e: int)
    requires Later(a, b, e) && Later(b, c, e)
    ensures Later(a, c, e)
  {
    hide CallsOn, Survivors, Balanced, CleanWraps;
    forall s | |a.socks| <= s < |c.socks| ensures c.socks[s].busy == 0 {
      if s < |b.socks| {
        assert SockCore(b, c, s);
      }
    }
    forall s | 0 <= s < |a.socks| ensures SockCore(a, c, s) {
      assert SockCore(a, b, s) && SockCore(b, c, s);
    }
    forall s | 0 <= s < |a.socks| && s != e ensures SockLater(a, c, s) {
      assert SockCore(a, b, s);
      SockLaterTrans(a, b, c, s);
    }
    forall h | 0 <= h < |a.hooks| && a.hooks[h].owner != e ensures HookLater(a, c, h) {
      assert SameHook(a.hooks[h], b.hooks[h]);
      assert HookLater(a, b, h) && HookLater(b, c, h);
      if a.hooks[h].owner < |a.socks| {
        assert SockCore(a, b, a.hooks[h].owner);
      }
    }
    forall h | 0 <= h < |a.hooks| ensures SameHook(a.hooks[h], c.hooks[h]) {
      assert SameHook(a.hooks[h], b.hooks[h]) && SameHook(b.hooks[h], c.hooks[h]);
    }
  }

  // Nothing that survives has been deleted.
  lemma KeptAll(b: State, s: nat)
    requires Inv(b)
    ensures Undeleted(Survivors(b.log, s), b.hooks) == Survivors(b.log, s)
  {
    hide Survivors, CallsOn, DescriptorsOk;
    assert FreshOk(b, s) && (s < |b.socks| ==> SockOk(b, s));
    forall h | h in Survivors(b.log, s) && h < |b.hooks| ensures b.hooks[h].status != Deleted {
      assert HookOk(b, h);
    }
    UndeletedAll(Survivors(b.log, s), b.hooks);
  }

  lemma LaterRefl(a: State, e: int)
    requires Inv(a)
    ensures Later(a, a, e)
  {
    hide Inv;
    forall s | 0 <= s < |a.socks| ensures SockLater(a, a, s) {
      KeptAll(a, s);
    }
  }

  lemma LaterWeaken(a: State, b: State, e: int)
    requires Later(a, b, -1)
    ensures Later(a, b, e)
  {
  }

  // ----- frames -----

  // No hook event separates the two traces, as far as socket s is concerned.
  ghost predicate SameHistory(a: State, b: State, s: nat) {
    CallsOn(b.log, s) == CallsOn(a.log, s) && Survivors(b.log, s) == Survivors(a.log, s)
  }

  lemma SameIsLater(a: State, b: State, s: nat)
    requires Inv(b) && s < |a.socks| <= |b.socks| && SameHistory(a, b, s)
    ensures SockLater(a, b, s)
  {
    KeptAll(b, s);
  }

  lemma SockFrame(a: State, b: State, s: nat)
    requires s < |a.socks| <= |b.socks| && SockOk(a, s)
    requires FlagsOk(b.socks[s]) && b.socks[s].q == a.socks[s].q && b.socks[s].done == a.socks[s].done
    requires |a.hooks| <= |b.hooks|
    requires forall j :: 0 <= j < |a.socks[s].q| ==> b.hooks[a.socks[s].q[j]] == a.hooks[a.socks[s].q[j]]
    requires forall h :: 0 <= h < |a.hooks| ==> b.hooks[h].owner == a.hooks[h].owner
    requires SameHistory(a, b, s)
    ensures SockOk(b, s)
  {
    hide CallsOn, Survivors, Descending;
  }

  // Only flags and descriptors differ: lists, hooks and hook history stay.
  ghost predicate ListsKept(a: State, b: State) {
    && b.hooks == a.hooks && |b.socks| == |a.socks|
    && (forall s :: 0 <= s < |a.socks| ==> b.socks[s].q == a.socks[s].q && b.socks[s].done == a.socks[s].done)
    && (forall s :: 0 <= s < |a.socks| ==> FlagsOk(b.socks[s]))
    && (forall s: nat :: SameHistory(a, b, s))
  }

  lemma ListsFrame(a: State, b: State)
    requires Inv(a) && ListsKept(a, b) && DescriptorsOk(b)
    ensures Inv(b)
  {
    hide CallsOn, Survivors, DescriptorsOk, FlagsOk;
    forall s | 0 <= s < |b.socks| ensures SockOk(b, s) {
      assert SockOk(a, s) && SameHistory(a, b, s);
      SockFrame(a, b, s);
    }
    forall h | 0 <= h < |b.hooks| ensures HookOk(b, h) {
      assert HookOk(a, h) && SameHistory(a, b, a.hooks[h].owner);
    }
    forall s: nat ensures FreshOk(b, s) {
      assert FreshOk(a, s) && SameHistory(a, b, s);
    }
  }

  // Only socket s, its hooks and its history changed.
  ghost predicate OnlySocket(a: State, b: State, s: nat) {
    && |b.socks| == |a.socks| && s < |a.socks| && |b.hooks| == |a.hooks|
    && (forall i :: 0 <= i < |a.socks| && i != s ==> b.socks[i] == a.socks[i])
    && (forall h :: 0 <= h < |a.hooks| ==> SameHook(a.hooks[h], b.hooks[h]))
    && (forall h :: 0 <= h < |a.hooks| && a.hooks[h].owner != s ==> b.hooks[h] == a.hooks[h])
    && (forall i: nat :: i != s ==> SameHistory(a, b, i))
  }

  lemma OneSocketInv(a: State, b: State, s: nat)
    requires Inv(a) && OnlySocket(a, b, s)
    requires SockOk(b, s) && DescriptorsOk(b)
    requires forall h :: 0 <= h < |a.hooks| && a.hooks[h].owner == s ==> HookOk(b, h)
    ensures Inv(b)
  {
    hide CallsOn, Survivors, DescriptorsOk, FlagsOk, HistoryOk;
    forall i | 0 <= i < |b.socks| ensures SockOk(b, i) {
      if i != s {
        assert SockOk(a, i) && SameHistory(a, b, i);
        SockFrame(a, b, i);
      }
    }
    forall h | 0 <= h < |b.hooks| ensures HookOk(b, h) {
      assert HookOk(a, h) && SameHook(a.hooks[h], b.hooks[h]);
      if a.hooks[h].owner != s {
        assert SameHistory(a, b, a.hooks[h].owner);
      }
    }
    forall i: nat ensures FreshOk(b, i) {
      assert FreshOk(a, i);
      if i != s {
        assert SameHistory(a, b, i);
      }
    }
  }

  lemma OneSocketLater(a: State, b: State, s: nat)
    requires Inv(b) && OnlySocket(a, b, s) && SockCore(a, b, s) && FaultsLater(a, b)
    ensures Later(a, b, s)
  {
    hide CallsOn, Survivors, DescriptorsOk, Balanced, CleanWraps, Inv;
    forall i | 0 <= i < |a.socks| && i != s ensures SockCore(a, b, i) && SockLater(a, b, i) {
      SameIsLater(a, b, i);
    }
    forall h | 0 <= h < |a.hooks| && a.hooks[h].owner != s ensures HookLater(a, b, h) {
      HoldsStill(a, b, s, h);
    }
  }

  // A drain of another socket holds what it held.
  lemma HoldsStill(a: State, b: State, s: nat, h: nat)
    requires Inv(b) && OnlySocket(a, b, s) && h < |a.hooks| && a.hooks[h].owner != s
    ensures DrainHolds(a, h) ==> DrainHolds(b, h)
  {
    if a.hooks[h].owner < |a.socks| {
      HoldingStays(b, a, a.hooks[h].owner);
    }
  }

  // A new socket joins; the rest stays.
  lemma SocketJoins(a: State, k: Sock, log: Trace)
    requires Inv(a) && k.q == [] && !k.done && FlagsOk(k)
    requires var b := State(a.socks + [k], a.hooks, log, a.faults);
      DescriptorsOk(b) && forall s: nat :: SameHistory(a, b, s)
    ensures Inv(State(a.socks + [k], a.hooks, log, a.faults))
  {
    hide CallsOn, Survivors, DescriptorsOk;
    var b := State(a.socks + [k], a.hooks, log, a.faults);
    forall s | 0 <= s < |b.socks| ensures SockOk(b, s) {
      assert SameHistory(a, b, s) && FreshOk(a, s);
      if s < |a.socks| {
        assert SockOk(a, s);
        SockFrame(a, b, s);
      }
    }
    forall h | 0 <= h < |b.hooks| ensures HookOk(b, h) {
      assert HookOk(a, h) && SameHistory(a, b, a.hooks[h].owner);
    }
    forall s: nat ensures FreshOk(b, s) {
      assert FreshOk(a, s) && SameHistory(a, b, s);
    }
  }

  // ----- descriptors -----

  // The trace grew by hook events only and no descriptor field moved.
  lemma DescriptorsFrame(a: State, b: State)
    requires DescriptorsOk(a) && |b.socks| == |a.socks|
    requires b.faults.reentered == a.faults.reentered && b.faults.reused == a.faults.reused
    requires Owners(b.log) == Owners(a.log)
    requires Balanced(b.log) == Balanced(a.log) && CleanWraps(b.log) == CleanWraps(a.log)
    requires forall s :: 0 <= s < |a.socks| ==> b.socks[s].fd == a.socks[s].fd && b.socks[s].life == a.socks[s].life
    requires forall s :: 0 <= s < |a.socks| ==> b.socks[s].closing == a.socks[s].closing
    ensures DescriptorsOk(b)
  {
    hide Owners, Balanced, CleanWraps;
    forall fd | fd in Owners(b.log) ensures HolderOk(b, fd) {
      assert HolderOk(a, fd);
    }
    if Clean(b) && CleanWraps(b.log) {
      forall s | 0 <= s < |b.socks| ensures Holds(b, s) {
        assert Holds(a, s);
      }
    }
    if b.faults.reentered && Balanced(b.log) {
      var s :| 0 <= s < |a.socks| && Undermined(a, s);
      assert Undermined(b, s);
    }
  }
}
