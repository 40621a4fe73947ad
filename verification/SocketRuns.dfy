/**
 Every run of the socket machine: nested drains, and the invariant over
 arbitrary sequences of operations.
 */
module SocketRuns {
  import opened SocketMachine
  import opened SocketInvariants
  import opened SocketSteps

  // ----- one call of a hook -----

  lemma BeginKeeps(a: State, s: nat)
    requires Inv(a) && s < |a.socks| && a.socks[s].done && a.socks[s].q != []
    requires a.socks[s].q[0] < |a.hooks| && a.hooks[a.socks[s].q[0]].status == Registered
    ensures var b := BeginCall(a, s, a.socks[s].q[0]); Inv(b) && Later(a, b, s)
  {
    hide Weight, Size, HookWeight, Inv, DescriptorsOk, HistoryOk, MembersOk;
    var h := a.socks[s].q[0];
    var b := BeginCall(a, s, h);
    SockOkAt(a, s);
    BegunLog(a, s, h);
    DescriptorsOkAt(a);
    DescriptorsFrame(a, b);
    BegunSock(a, s);
    hide CallsOn, Survivors, Owners, Balanced, CleanWraps;
    forall k | 0 <= k < |a.hooks| && a.hooks[k].owner == s ensures HookOk(b, k) {
      HookOkAt(a, k);
    }
    OneSocketInv(a, b, s);
    OneSocketLater(a, b, s);
  }

  // The call shows in the history of its socket alone.
  lemma BegunLog(a: State, s: nat, h: nat)
    requires h < |a.hooks| && a.hooks[h].status == Registered
    ensures var b := BeginCall(a, s, h);
      && CallsOn(b.log, s) == CallsOn(a.log, s) + [h] && Survivors(b.log, s) == Survivors(a.log, s)
      && (forall i: nat :: i != s ==> SameHistory(a, b, i))
      && Owners(b.log) == Owners(a.log) && Balanced(b.log) == Balanced(a.log) && CleanWraps(b.log) == CleanWraps(a.log)
  {
  }

  lemma BegunSock(a: State, s: nat)
    requires s < |a.socks| && SockOk(a, s) && a.socks[s].done && a.socks[s].q != []
    requires a.socks[s].q[0] < |a.hooks| && a.hooks[a.socks[s].q[0]].status == Registered
    ensures SockOk(BeginCall(a, s, a.socks[s].q[0]), s)
  {
    hide Weight, Size, HookWeight;
    var h := a.socks[s].q[0];
    var b := BeginCall(a, s, h);
    BegunLog(a, s, h);
    hide CallsOn, Survivors;
    assert Waiting(a, s) == [h] + Waiting(b, s);
  }

  lemma DescriptorsOkAt(a: State)
    requires Inv(a)
    ensures DescriptorsOk(a)
  {
  }

  // ----- entering and leaving close, unwrap and collection -----

  ghost function Started(a: State, s: nat, close: bool): State
    requires s < |a.socks|
  {
    if a.socks[s].done then Enter(a, s, close) else SetDone(Enter(a, s, close), s)
  }

  lemma StartKeeps(a: State, s: nat, close: bool)
    requires Inv(a) && s < |a.socks| && (close ==> 0 <= a.socks[s].fd)
    ensures Inv(Started(a, s, close))
  {
    hide Inv, CallsOn, Survivors, SockOk, DescriptorsOk;
    var b := Started(a, s, close);
    SockOkAt(a, s);
    StartedSock(a, s, close);
    StartDescriptors(a, s, close);
    StartedOnly(a, s, close);
    forall k | 0 <= k < |a.hooks| ensures HookOk(b, k) {
      HookOkAt(a, k);
    }
    hide SockOk, HookOk, DescriptorsOk, OnlySocket;
    OneSocketInv(a, b, s);
  }

  lemma StartedOnly(a: State, s: nat, close: bool)
    requires s < |a.socks|
    ensures OnlySocket(a, Started(a, s, close), s)
  {
  }

  lemma StartedSock(a: State, s: nat, close: bool)
    requires s < |a.socks| && SockOk(a, s)
    ensures SockOk(Started(a, s, close), s)
  {
    hide CallsOn, Survivors, Descending, HistoryOk;
    StartedHistory(a, s, close);
  }

  lemma StartedHistory(a: State, s: nat, close: bool)
    requires s < |a.socks| && ListOk(a, s) && HistoryOk(a, s)
    ensures HistoryOk(Started(a, s, close), s)
  {
    hide CallsOn, Survivors, Descending;
    var b, q := Started(a, s, close), a.socks[s].q;
    assert !a.socks[s].done && q != [] ==> a.hooks[q[0]].status == Registered;
    hide ListOk;
    assert Waiting(b, s) == if a.socks[s].done then Waiting(a, s) else q;
  }

  lemma StartDescriptors(a: State, s: nat, close: bool)
    requires Inv(a) && s < |a.socks| && (close ==> 0 <= a.socks[s].fd)
    ensures DescriptorsOk(Started(a, s, close))
  {
    hide Owners, Balanced, CleanWraps, CallsOn, Survivors;
    var b := Started(a, s, close);
    forall fd | fd in Owners(b.log) ensures HolderOk(b, fd) {
      assert HolderOk(a, fd);
    }
    if Clean(b) && CleanWraps(b.log) {
      forall i | 0 <= i < |b.socks| ensures Holds(b, i) {
        assert Holds(a, i);
      }
    }
    if b.faults.reentered && Balanced(b.log) {
      var i :| 0 <= i < |a.socks| && Undermined(a, i);
      assert Undermined(b, i);
    }
  }

  // ----- what a drain did -----

  // The drain law: the list is empty, what was called before stays called, and the
  // history only lost hooks that were deleted before their turn.
  ghost predicate Drained(a: State, m: State, s: nat)
    requires s < |a.socks|
  {
    && Inv(m) && Later(a, m, s)
    && m.socks[s].q == []
    && CallsOn(a.log, s) <= CallsOn(m.log, s)
    && Survivors(m.log, s) == Undeleted(Survivors(a.log, s), m.hooks)
  }

  // A socket ready to drain: marked done, in use, none of its hooks running.
  ghost predicate Draining(a: State, s: nat) {
    && s < |a.socks| && a.socks[s].done && 0 < a.socks[s].busy
    && Waiting(a, s) == a.socks[s].q
  }

  // What call_gcfn leaves when entered from a.
  ghost predicate Returned(a: State, m: State, s: nat, close: bool)
    requires s < |a.socks|
  {
    if a.socks[s].done then m == Started(a, s, close) else Drained(Started(a, s, close), m, s)
  }

  lemma ReturnedFacts(a: State, m: State, s: nat, close: bool)
    requires Inv(a) && s < |a.socks| && (close ==> 0 <= a.socks[s].fd) && Returned(a, m, s, close)
    ensures Inv(m) && Later(Started(a, s, close), m, s)
    ensures m.socks[s].busy == a.socks[s].busy + 1 && m.socks[s].closing == (a.socks[s].closing || close)
    ensures m.socks[s].done && (a.socks[s].life != Collected ==> m.socks[s].life != Collected)
    ensures m.socks[s].q == if a.socks[s].done then a.socks[s].q else []
    ensures |a.socks| <= |m.socks| && |a.hooks| <= |m.hooks| && SockCore(Started(a, s, close), m, s)
  {
    hide Inv;
    StartKeeps(a, s, close);
    LaterRefl(m, s);
    assert SockCore(Started(a, s, close), m, s);
  }

  // ----- leaving -----

  lemma CloseDescriptors(a: State, m: State, s: nat)
    requires Inv(a) && Usable(a, s) && 0 <= a.socks[s].fd && Returned(a, m, s, true)
    ensures DescriptorsOk(ExitClose(m, s, a.socks[s].fd, a.socks[s].closing))
  {
    hide Inv, Drained, Later, DescriptorsOk, ListOk, HistoryOk, MembersOk, Owners, Balanced, CleanWraps;
    ReturnedFacts(a, m, s, true);
    SockOkAt(a, s);
    DescriptorsOkAt(m);
    var fd, was := a.socks[s].fd, a.socks[s].closing;
    var b := ExitClose(m, s, fd, was);
    GivenUp(m.log, s, fd);
    assert m.socks[s].fd == fd || (m.socks[s].life != Collected && m.socks[s].fd == -1 && m.faults.reentered);
    LeaveDescriptors(m, b, s, fd);
  }

  // A descriptor is closed, or handed out, by socket s.
  lemma GivenUp(t: Trace, s: nat, fd: int)
    ensures forall e :: e == Closed(By(s), fd) || e == HandedOut(By(s), fd) ==>
      && Owners(Snoc(t, e)) == Owners(t) - {fd} && CleanWraps(Snoc(t, e)) == CleanWraps(t)
      && (Balanced(Snoc(t, e)) <==> Balanced(t) && fd in Owners(t) && Owners(t)[fd] == By(s))
  {
  }

  // Socket s gives up fd: its own descriptor, or one it no longer holds. A
  // finalized socket holds none, whatever its field says.
  lemma LeaveDescriptors(m: State, b: State, s: nat, fd: int)
    requires DescriptorsOk(m) && s < |m.socks| == |b.socks| && 0 <= fd
    requires m.socks[s].fd == fd || (m.socks[s].life != Collected && m.socks[s].fd == -1 && m.faults.reentered)
    requires forall i :: 0 <= i < |m.socks| && i != s ==> b.socks[i] == m.socks[i]
    requires b.socks[s].fd == -1 || (b.socks[s].life == Collected && b.socks[s].fd == m.socks[s].fd)
    requires Owners(b.log) == Owners(m.log) - {fd}
    requires Balanced(b.log) <==> Balanced(m.log) && fd in Owners(m.log) && Owners(m.log)[fd] == By(s)
    requires CleanWraps(b.log) == CleanWraps(m.log)
    requires b.faults.reentered == (m.faults.reentered || b.socks[s].closing)
    requires b.faults.reused == (m.faults.reused || m.socks[s].life == Collected)
    requires b.socks[s].closing ==> b.socks[s].fd == -1
    ensures DescriptorsOk(b)
  {
    hide Owners, Balanced, CleanWraps;
    forall f | f in Owners(b.log) ensures HolderOk(b, f) {
      assert HolderOk(m, f);
    }
    if fd in Owners(m.log) {
      assert HolderOk(m, fd);
    }
    if Clean(b) && CleanWraps(b.log) {
      assert Holds(m, s);
      forall i | 0 <= i < |b.socks| ensures Holds(b, i) {
        assert Holds(m, i);
      }
    }
    if b.faults.reentered && Balanced(b.log) {
      if b.socks[s].closing {
        assert Undermined(b, s);
      } else {
        var i :| 0 <= i < |m.socks| && Undermined(m, i);
        assert Undermined(b, i);
      }
    }
  }

  // Leaving moves only the flags of s and records at most one descriptor event.
  ghost predicate Leaves(m: State, b: State, s: nat) {
    && s < |m.socks| == |b.socks| && b.hooks == m.hooks
    && (forall i :: 0 <= i < |m.socks| && i != s ==> b.socks[i] == m.socks[i])
    && b.socks[s].q == m.socks[s].q && b.socks[s].done == m.socks[s].done
    && (b.log == m.log || (b.log.Snoc? && b.log.past == m.log && (b.log.last.Closed? || b.log.last.HandedOut?)))
    && (m.faults.reentered ==> b.faults.reentered) && (m.faults.reused ==> b.faults.reused)
    && b.faults.dangling == m.faults.dangling
  }

  lemma LeaveHistory(m: State, b: State, s: nat)
    requires Leaves(m, b, s)
    ensures forall i: nat :: SameHistory(m, b, i)
    ensures FaultsLater(m, b)
  {
  }

  lemma LeaveInv(m: State, b: State, s: nat)
    requires Inv(m) && Leaves(m, b, s) && FlagsOk(b.socks[s]) && DescriptorsOk(b)
    ensures Inv(b)
  {
    LeaveHistory(m, b, s);
    hide CallsOn, Survivors, DescriptorsOk, Inv, SameHistory;
    forall i | 0 <= i < |m.socks| ensures FlagsOk(b.socks[i]) {
      SockOkAt(m, i);
    }
    ListsFrame(m, b);
  }

  lemma LeaveLater(a: State, m: State, b: State, s: nat, close: bool)
    requires Inv(a) && s < |a.socks| && (close ==> 0 <= a.socks[s].fd)
    requires Returned(a, m, s, close) && Leaves(m, b, s)
    requires |a.socks| <= |b.socks| && SockCore(a, b, s) && Inv(b)
    ensures Later(a, b, -1)
  {
    ReturnedFacts(a, m, s, close);
    LeaveHistory(m, b, s);
    var st := Started(a, s, close);
    if a.socks[s].done {
      SameIsLater(a, b, s);
    }
    hide CallsOn, Survivors, DescriptorsOk, Inv, Balanced, CleanWraps;
    forall i | 0 <= i < |a.socks| ensures SockCore(a, b, i) && SockLater(a, b, i) {
      assert SameHistory(m, b, i);
      if i != s {
        assert SockCore(st, m, i) && SockLater(st, m, i);
      }
    }
    forall h | 0 <= h < |a.hooks| ensures SameHook(a.hooks[h], b.hooks[h]) && HookLater(a, b, h) {
      LeftHook(a, m, b, s, close, h);
    }
  }

  lemma LeftHook(a: State, m: State, b: State, s: nat, close: bool, h: nat)
    requires Inv(a) && Inv(m) && s < |a.socks| <= |m.socks| && h < |a.hooks| <= |m.hooks|
    requires Returned(a, m, s, close) && Leaves(m, b, s) && Later(Started(a, s, close), m, s)
    ensures SameHook(a.hooks[h], b.hooks[h]) && HookLater(a, b, h)
  {
    hide Inv, CallsOn, Survivors, SockLater, SockCore, FaultsLater;
    var st := Started(a, s, close);
    assert SameHook(st.hooks[h], m.hooks[h]);
    if a.hooks[h].owner != s {
      assert HookLater(st, m, h);
    } else {
      ReturnedHook(a, m, s, close, h);
    }
  }

  // What a drain may have done to a hook of its own socket.
  lemma ReturnedHook(a: State, m: State, s: nat, close: bool, h: nat)
    requires Inv(a) && Inv(m) && s < |a.socks| && Returned(a, m, s, close)
    requires |a.hooks| <= |m.hooks| && h < |a.hooks| && a.hooks[h].owner == s && SameHook(a.hooks[h], m.hooks[h])
    ensures HookLater(a, m, h)
  {
    if !a.socks[s].done {
      HookOkAt(a, h);
      SockOkAt(a, s);
      HookOkAt(m, h);
    }
  }

  lemma CloseKeeps(a: State, m: State, s: nat)
    requires Inv(a) && Usable(a, s) && 0 <= a.socks[s].fd && Returned(a, m, s, true)
    ensures var b := ExitClose(m, s, a.socks[s].fd, a.socks[s].closing); Inv(b) && Later(a, b, -1)
  {
    hide Inv, DescriptorsOk, Returned, Later, ListOk, HistoryOk, MembersOk;
    ReturnedFacts(a, m, s, true);
    var b := ExitClose(m, s, a.socks[s].fd, a.socks[s].closing);
    SockOkAt(a, s);
    SockOkAt(m, s);
    CloseDescriptors(a, m, s);
    LeaveInv(m, b, s);
    LeaveLater(a, m, b, s, true);
  }

  lemma UnwrapDescriptors(a: State, m: State, s: nat)
    requires Inv(a) && Usable(a, s) && Returned(a, m, s, false)
    ensures DescriptorsOk(ExitUnwrap(m, s))
  {
    hide Inv, Returned, Later, DescriptorsOk, ListOk, HistoryOk, MembersOk, Owners, Balanced, CleanWraps;
    ReturnedFacts(a, m, s, false);
    SockOkAt(a, s);
    SockOkAt(m, s);
    DescriptorsOkAt(m);
    var b := ExitUnwrap(m, s);
    GivenUp(m.log, s, m.socks[s].fd);
    if 0 <= m.socks[s].fd {
      LeaveDescriptors(m, b, s, m.socks[s].fd);
    } else {
      QuietDescriptors(m, b, s);
    }
  }

  lemma GcDescriptors(a: State, m: State, s: nat)
    requires Inv(a) && Collectable(a, s) && Returned(a, m, s, false)
    ensures DescriptorsOk(ExitGc(m, s))
  {
    hide Inv, Returned, Later, DescriptorsOk, ListOk, HistoryOk, MembersOk, Owners, Balanced, CleanWraps;
    ReturnedFacts(a, m, s, false);
    SockOkAt(a, s);
    SockOkAt(m, s);
    DescriptorsOkAt(m);
    assert !m.socks[s].closing && m.socks[s].life != Collected;
    FinalizedDescriptors(m, s);
  }

  lemma FinalizedDescriptors(m: State, s: nat)
    requires s < |m.socks| && DescriptorsOk(m) && FlagsOk(m.socks[s])
    requires !m.socks[s].closing && m.socks[s].life != Collected
    ensures DescriptorsOk(ExitGc(m, s))
  {
    hide DescriptorsOk, Owners, Balanced, CleanWraps;
    var b := ExitGc(m, s);
    GivenUp(m.log, s, m.socks[s].fd);
    if 0 <= m.socks[s].fd {
      LeaveDescriptors(m, b, s, m.socks[s].fd);
    } else {
      QuietDescriptors(m, b, s);
    }
  }

  // A socket already without a descriptor changes flags only.
  lemma QuietDescriptors(m: State, b: State, s: nat)
    requires DescriptorsOk(m) && s < |m.socks| == |b.socks|
    requires b.log == m.log && b.faults == m.faults
    requires forall i :: 0 <= i < |m.socks| && i != s ==> b.socks[i] == m.socks[i]
    requires m.socks[s].fd == b.socks[s].fd == -1 && b.socks[s].closing == m.socks[s].closing
    ensures DescriptorsOk(b)
  {
    hide Owners, Balanced, CleanWraps;
    forall f | f in Owners(b.log) ensures HolderOk(b, f) {
      assert HolderOk(m, f);
    }
    if Clean(b) && CleanWraps(b.log) {
      forall i | 0 <= i < |b.socks| ensures Holds(b, i) {
        assert Holds(m, i);
      }
    }
    if b.faults.reentered && Balanced(b.log) {
      var i :| 0 <= i < |m.socks| && Undermined(m, i);
      assert Undermined(b, i);
    }
  }

  lemma UnwrapKeeps(a: State, m: State, s: nat)
    requires Inv(a) && Usable(a, s) && Returned(a, m, s, false)
    ensures Inv(ExitUnwrap(m, s)) && Later(a, ExitUnwrap(m, s), -1)
  {
    hide Inv, DescriptorsOk, Returned, Later, ListOk, HistoryOk, MembersOk;
    ReturnedFacts(a, m, s, false);
    var b := ExitUnwrap(m, s);
    SockOkAt(a, s);
    SockOkAt(m, s);
    UnwrapDescriptors(a, m, s);
    LeaveInv(m, b, s);
    LeaveLater(a, m, b, s, false);
  }

  lemma GcKeeps(a: State, m: State, s: nat)
    requires Inv(a) && Collectable(a, s) && Returned(a, m, s, false)
    ensures Inv(ExitGc(m, s)) && Later(a, ExitGc(m, s), -1)
  {
    hide Inv, DescriptorsOk, Returned, Later, ListOk, HistoryOk, MembersOk;
    ReturnedFacts(a, m, s, false);
    var b := ExitGc(m, s);
    SockOkAt(a, s);
    SockOkAt(m, s);
    GcDescriptors(a, m, s);
    LeaveInv(m, b, s);
    LeaveLater(a, m, b, s, false);
  }

  // Collecting a socket that was closed before only marks it.
  lemma GcClosedKeeps(a: State, s: nat)
    requires Inv(a) && Collectable(a, s) && a.socks[s].fd < 0
    ensures var b := a.(socks := a.socks[s := a.socks[s].(life := Collected)]); Inv(b) && Later(a, b, -1)
  {
    hide Inv, DescriptorsOk, ListOk, HistoryOk, MembersOk, CallsOn, Survivors, Balanced, CleanWraps;
    var b := a.(socks := a.socks[s := a.socks[s].(life := Collected)]);
    SockOkAt(a, s);
    DescriptorsOkAt(a);
    QuietDescriptors(a, b, s);
    LeaveInv(a, b, s);
    hide SockLater, FlagsOk;
    forall i | 0 <= i < |a.socks| ensures SockLater(a, b, i) {
      assert SameHistory(a, b, i);
      SameIsLater(a, b, i);
    }
  }

  // ----- draining -----

  lemma DrainedEmpty(a: State, s: nat)
    requires Inv(a) && Draining(a, s) && a.socks[s].q == []
    ensures Drained(a, a, s)
  {
    LaterRefl(a, s);
    KeptAll(a, s);
  }

  ghost predicate FirstCallable(a: State, s: nat) {
    && s < |a.socks| && a.socks[s].q != [] && a.socks[s].q[0] < |a.hooks|
    && a.hooks[a.socks[s].q[0]].status == Registered
  }

  // d is a after the first hook of the list was called and left: nothing else of the
  // socket was called, and of the rest of the list only deleted hooks are missing.
  ghost predicate CalledFirst(a: State, d: State, s: nat)
    requires FirstCallable(a, s)
  {
    && Inv(d) && Draining(d, s) && Later(a, d, s)
    && CallsOn(d.log, s) == CallsOn(a.log, s) + [a.socks[s].q[0]]
    && Survivors(d.log, s) == Undeleted(Survivors(a.log, s), d.hooks)
  }

  lemma CallLeaves(a: State, c: State, s: nat)
    requires Inv(a) && Draining(a, s) && FirstCallable(a, s)
    requires Inv(c) && Later(BeginCall(a, s, a.socks[s].q[0]), c, -1)
    ensures CalledFirst(a, EndCall(c, a.socks[s].q[0]), s)
  {
    hide Inv, CallsOn, Survivors, Weight, HookWeight;
    var h := a.socks[s].q[0];
    var b, d := BeginCall(a, s, h), EndCall(c, h);
    BeginKeeps(a, s);
    BegunLog(a, s, h);
    EndKeeps(c, h);
    LaterWeaken(b, c, s);
    LaterTrans(b, c, d, s);
    assert SockCore(b, c, s) && SockCore(c, d, s) && SameHook(b.hooks[h], c.hooks[h]);
    SockLaterTrans(b, c, d, s);
    NoneRuns(a, c, s);
    hide Later;
    LaterTrans(a, b, d, s);
  }

  // When the call is over, no hook of the socket runs.
  lemma NoneRuns(a: State, c: State, s: nat)
    requires Inv(a) && Draining(a, s) && FirstCallable(a, s)
    requires Inv(c) && Later(BeginCall(a, s, a.socks[s].q[0]), c, -1)
    requires Inv(EndCall(c, a.socks[s].q[0])) && s < |c.socks| && a.socks[s].q[0] < |c.hooks|
    ensures var d := EndCall(c, a.socks[s].q[0]); Waiting(d, s) == d.socks[s].q
  {
    hide CallsOn, Survivors, Weight, HookWeight;
    var h := a.socks[s].q[0];
    var b, d := BeginCall(a, s, h), EndCall(c, h);
    SockOkAt(d, s);
    SockOkAt(a, s);
    hide Inv;
    var q := d.socks[s].q;
    if q != [] {
      HookOkAt(d, q[0]);
      assert SockLater(b, c, s) by { assert b.socks[s].done; }
      BegunLog(a, s, h);
      UndeletedMembers(Survivors(b.log, s), c.hooks, q[0]);
      HookOkAt(a, q[0]);
      assert HookLater(b, c, q[0]) && SameHook(b.hooks[q[0]], c.hooks[q[0]]);
    }
  }

  lemma DrainStep(a: State, d: State, r: State, s: nat)
    requires FirstCallable(a, s) && CalledFirst(a, d, s) && Drained(d, r, s)
    ensures Drained(a, r, s)
  {
    hide CallsOn, Survivors, Inv;
    LaterTrans(a, d, r, s);
    UndeletedTwice(Survivors(a.log, s), d.hooks, r.hooks);
  }

  // How a drain stands when the called function has returned.
  lemma AfterCall(a: State, c: State, s: nat)
    requires Inv(a) && Draining(a, s) && FirstCallable(a, s)
    requires c == Run(BeginCall(a, s, a.socks[s].q[0]), a.hooks[a.socks[s].q[0]].fn)
    ensures var d := EndCall(c, a.socks[s].q[0]);
      Inv(c) && CalledFirst(a, d, s) && Weight(d.hooks) < Weight(a.hooks) && Drain(a, s) == Drain(d, s)
  {
    var h := a.socks[s].q[0];
    var b := BeginCall(a, s, h);
    BeginKeeps(a, s);
    RunKeeps(b, a.hooks[h].fn);
    CallLeaves(a, c, s);
  }

  // The first hook of a drain has not been called.
  lemma FirstIsRegistered(a: State, s: nat)
    requires Inv(a) && Draining(a, s) && a.socks[s].q != []
    ensures FirstCallable(a, s)
  {
    SockOkAt(a, s);
  }

  // The drain law, for any hooks whose functions do anything, at any depth of nesting.
  lemma {:induction false} DrainKeeps(a: State, s: nat)
    requires Inv(a) && Draining(a, s)
    ensures Drained(a, Drain(a, s), s)
    decreases Weight(a.hooks), 0, |a.socks[s].q|
  {
    if a.socks[s].q == [] {
      DrainedEmpty(a, s);
    } else {
      FirstIsRegistered(a, s);
      var h := a.socks[s].q[0];
      BeginKeeps(a, s);
      var b := BeginCall(a, s, h);
      RunKeeps(b, a.hooks[h].fn);
      var c := Run(b, a.hooks[h].fn);
      CallLeaves(a, c, s);
      DrainKeeps(EndCall(c, h), s);
      DrainStep(a, EndCall(c, h), Drain(EndCall(c, h), s), s);
    }
  }

  lemma {:induction false} CallGcfnKeeps(a: State, s: nat, close: bool)
    requires Inv(a) && s < |a.socks| && (close ==> 0 <= a.socks[s].fd)
    ensures Returned(a, CallGcfn(Enter(a, s, close), s), s, close)
    decreases Weight(a.hooks), 1, 0
  {
    StartKeeps(a, s, close);
    if !a.socks[s].done {
      SockOkAt(a, s);
      assert Draining(Started(a, s, close), s);
      DrainKeeps(Started(a, s, close), s);
    }
  }

  lemma {:induction false} StepKeeps(a: State, op: Op)
    requires Inv(a)
    ensures Inv(Step(a, op).st) && Later(a, Step(a, op).st, -1)
    decreases Weight(a.hooks) + OpSize(op), 3, 0
  {
    hide Inv, Later;
    LaterRefl(a, -1);
    match op
    case Close(s) =>
      if Usable(a, s) && 0 <= a.socks[s].fd {
        CallGcfnKeeps(a, s, true);
        CloseKeeps(a, CallGcfn(Enter(a, s, true), s), s);
      }
    case Unwrap(s) =>
      if Usable(a, s) {
        CallGcfnKeeps(a, s, false);
        UnwrapKeeps(a, CallGcfn(Enter(a, s, false), s), s);
      }
    case Gc(s) =>
      if Collectable(a, s) {
        if a.socks[s].fd < 0 {
          GcClosedKeeps(a, s);
        } else {
          CallGcfnKeeps(a, s, false);
          GcKeeps(a, CallGcfn(Enter(a, s, false), s), s);
        }
      }
    case _ => SimpleKeeps(a, op);
  }

  lemma {:induction false} RunKeeps(a: State, sc: Script)
    requires Inv(a)
    ensures Inv(Run(a, sc)) && Later(a, Run(a, sc), -1)
    decreases Weight(a.hooks) + Size(sc), 4, 0
  {
    hide Inv, Later;
    LaterRefl(a, -1);
    match sc
    case End =>
    case Raise =>
    case Then(op, rest) =>
      StepKeeps(a, op);
      var o := Step(a, op);
      if !o.raised {
        RunKeeps(o.st, rest);
        LaterTrans(a, o.st, Run(o.st, rest), -1);
      }
  }

  lemma {:induction false} RunAllKeeps(a: State, ops: seq<Op>)
    requires Inv(a)
    ensures Inv(RunAll(a, ops)) && Later(a, RunAll(a, ops), -1)
    decreases |ops|
  {
    hide Inv, Later;
    LaterRefl(a, -1);
    if ops != [] {
      StepKeeps(a, ops[0]);
      RunAllKeeps(Step(a, ops[0]).st, ops[1..]);
      LaterTrans(a, Step(a, ops[0]).st, RunAll(a, ops), -1);
    }
  }
}
