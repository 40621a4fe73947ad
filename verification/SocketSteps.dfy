/**
 The single transitions of the socket machine, each shown to keep the
 invariant and to stay within what nested code may change.
 */
module SocketSteps {
  import opened SocketMachine
  import opened SocketInvariants

  // ----- operations without callbacks -----

  lemma JoinKeeps(a: State, fd: int, e: Event)
    requires Inv(a)
    requires || (e == Opened(By(|a.socks|), fd) && KernelGives(a, fd))
             || (e == Adopted(|a.socks|, fd) && 0 <= fd)
    ensures Inv(WithSocket(a, fd, e)) && Later(a, WithSocket(a, fd, e), -1)
  {
    var b := WithSocket(a, fd, e);
    assert Owners(b.log) == Owners(a.log)[fd := By(|a.socks|)];
    assert Balanced(b.log) == Balanced(a.log);
    assert CleanWraps(b.log) ==> CleanWraps(a.log) && fd !in Owners(a.log);
    assert forall s: nat :: SameHistory(a, b, s);
    JoinDescriptors(a, b, fd);
    SocketJoins(a, Sock(fd, false, [], 0, false, Live), b.log);
    forall s | 0 <= s < |a.socks| ensures SockLater(a, b, s) {
      SameIsLater(a, b, s);
    }
  }

  lemma JoinDescriptors(a: State, b: State, fd: int)
    requires DescriptorsOk(a) && 0 <= fd
    requires b.socks == a.socks + [Sock(fd, false, [], 0, false, Live)] && b.faults == a.faults
    requires Owners(b.log) == Owners(a.log)[fd := By(|a.socks|)]
    requires Balanced(b.log) == Balanced(a.log)
    requires CleanWraps(b.log) ==> CleanWraps(a.log) && fd !in Owners(a.log)
    ensures DescriptorsOk(b)
  {
    hide Owners, Balanced, CleanWraps;
    forall f | f in Owners(b.log) ensures HolderOk(b, f) {
      if f != fd {
        assert HolderOk(a, f);
      }
    }
    if Clean(b) && CleanWraps(b.log) {
      forall s | 0 <= s < |b.socks| ensures Holds(b, s) {
        if s < |a.socks| {
          assert Holds(a, s);
        }
      }
    }
    if b.faults.reentered && Balanced(b.log) {
      var s :| 0 <= s < |a.socks| && Undermined(a, s);
      assert Undermined(b, s);
    }
  }

  // A descriptor opened and given up again at once leaves no mark.
  lemma PassingKeeps(a: State, fd: int, e: Event)
    requires Inv(a) && KernelGives(a, fd)
    requires e == Closed(NoSocket, fd) || e == HandedOut(NoSocket, fd)
    ensures var b := a.(log := Snoc(Snoc(a.log, Opened(NoSocket, fd)), e)); Inv(b) && Later(a, b, -1)
  {
    var mid := Snoc(a.log, Opened(NoSocket, fd));
    var b := a.(log := Snoc(mid, e));
    assert Owners(mid) == Owners(a.log)[fd := NoSocket];
    assert Owners(b.log) == Owners(a.log);
    assert Balanced(mid) == Balanced(a.log) && CleanWraps(mid) == CleanWraps(a.log);
    DescriptorsFrame(a, b);
    forall s: nat ensures SameHistory(a, b, s) {
      assert CallsOn(mid, s) == CallsOn(a.log, s) && Survivors(mid, s) == Survivors(a.log, s);
    }
    forall s | 0 <= s < |a.socks| ensures FlagsOk(b.socks[s]) {
      assert SockOk(a, s);
    }
    hide CallsOn, Survivors, Owners;
    ListsFrame(a, b);
    forall s | 0 <= s < |a.socks| ensures SockLater(a, b, s) {
      SameIsLater(a, b, s);
    }
  }

  lemma AddKeeps(a: State, s: nat, fn: Script)
    requires Inv(a) && s < |a.socks| && !a.socks[s].done
    ensures Inv(AddHook(a, s, fn)) && Later(a, AddHook(a, s, fn), -1)
  {
    var b := AddHook(a, s, fn);
    AddedInv(a, s, fn);
    hide Weight, Size, HookWeight, CallsOn, Survivors, Inv, Balanced, CleanWraps;
    forall i | 0 <= i < |a.socks| ensures SockLater(a, b, i) {
      if i != s {
        AddedHistory(a, s, fn, i);
        SameIsLater(a, b, i);
      }
    }
    AddedHistory(a, s, fn, s);
    hide SockLater, Holding;
    forall h | 0 <= h < |a.hooks| ensures HookLater(a, b, h) {
      AddedHolds(a, s, fn, h);
    }
  }

  lemma AddedHolds(a: State, s: nat, fn: Script, h: nat)
    requires Inv(a) && s < |a.socks| && !a.socks[s].done && h < |a.hooks|
    ensures var b := AddHook(a, s, fn); h < |b.hooks| && (DrainHolds(a, h) ==> DrainHolds(b, h))
  {
    hide Weight, Size, HookWeight, CallsOn, Survivors, Inv, Holding;
    NoneHeld(a, s);
    if a.hooks[h].owner < |a.socks| && a.hooks[h].owner != s {
      HoldingStays(a, AddHook(a, s, fn), a.hooks[h].owner);
    }
  }

  // Adding a hook shows in the history of its socket alone.
  lemma AddedHistory(a: State, s: nat, fn: Script, i: nat)
    requires s < |a.socks|
    ensures var b := AddHook(a, s, fn);
      && CallsOn(b.log, i) == CallsOn(a.log, i)
      && Survivors(b.log, i) == (if i == s then [|a.hooks|] + Survivors(a.log, s) else Survivors(a.log, i))
      && Owners(b.log) == Owners(a.log) && Balanced(b.log) == Balanced(a.log) && CleanWraps(b.log) == CleanWraps(a.log)
  {
    hide Weight, Size, HookWeight;
  }

  lemma AddedInv(a: State, s: nat, fn: Script)
    requires Inv(a) && s < |a.socks| && !a.socks[s].done
    ensures Inv(AddHook(a, s, fn))
  {
    hide Weight, Size, HookWeight, Owners, Balanced, CleanWraps, CallsOn, Survivors;
    var b, h := AddHook(a, s, fn), |a.hooks|;
    AddedHistory(a, s, fn, s);
    DescriptorsFrame(a, b);
    hide DescriptorsOk;
    forall i: nat ensures i != s ==> SameHistory(a, b, i) {
      AddedHistory(a, s, fn, i);
    }
    forall i | 0 <= i < |b.socks| ensures SockOk(b, i) {
      assert SockOk(a, i);
      if i != s {
        SockFrame(a, b, i);
      } else {
        AddedList(a, b, s);
      }
    }
    forall k | 0 <= k < |b.hooks| ensures HookOk(b, k) {
      if k < h {
        assert HookOk(a, k) && (a.hooks[k].owner != s ==> SameHistory(a, b, a.hooks[k].owner));
      } else {
        assert [h][0] in Survivors(b.log, s) && b.socks[s].q[0] == h;
      }
    }
    forall i: nat ensures FreshOk(b, i) {
      assert FreshOk(a, i) && (i != s ==> SameHistory(a, b, i));
    }
  }

  // Prepending a new hook keeps the list of its socket in order.
  lemma AddedList(a: State, b: State, s: nat)
    requires s < |a.socks| && SockOk(a, s) && !a.socks[s].done
    requires |b.socks| == |a.socks| && b.socks[s] == a.socks[s].(q := [|a.hooks|] + a.socks[s].q)
    requires |b.hooks| == |a.hooks| + 1 && b.hooks[..|a.hooks|] == a.hooks
    requires b.hooks[|a.hooks|].owner == s && b.hooks[|a.hooks|].status == Registered
    requires CallsOn(b.log, s) == CallsOn(a.log, s)
    requires Survivors(b.log, s) == [|a.hooks|] + Survivors(a.log, s)
    ensures SockOk(b, s)
  {
    hide CallsOn, Survivors, Descending;
    var q, h := a.socks[s].q, |a.hooks|;
    Prepended(h, q, q);
    forall j | 0 <= j < |b.socks[s].q|
      ensures var h := b.socks[s].q[j]; h < |b.hooks| && b.hooks[h].owner == s && b.hooks[h].status == Registered
    {
      assert b.socks[s].q[j] == if j == 0 then h else q[j - 1];
      assert b.socks[s].q[j] < h ==> b.hooks[b.socks[s].q[j]] == a.hooks[b.socks[s].q[j]];
    }
  }

  lemma {:induction false} WithoutIsCut(q: seq<nat>, j: nat)
    requires j < |q| && Descending(q)
    ensures Without(q, q[j]) == q[..j] + q[j + 1..]
  {
    if j == 0 {
      assert q[..0] + q[1..] == q[1..];
    } else {
      var rest := q[1..];
      assert q[j] != q[0] && rest[j - 1] == q[j];
      Tail(q);
      WithoutIsCut(rest, j - 1);
      hide Descending;
      CutOfRest(q, j);
    }
  }

  lemma CutOfRest<T>(q: seq<T>, j: nat)
    requires 0 < j < |q|
    ensures q[..j] + q[j + 1..] == [q[0]] + (q[1..][..j - 1] + q[1..][j..])
  {
  }

  lemma {:induction false} WithoutMember(q: seq<nat>, h: nat, x: nat)
    requires Descending(q)
    ensures x in Without(q, h) <==> x in q && x != h
  {
    if q != [] {
      var rest := q[1..];
      assert q == [q[0]] + rest && forall i :: 0 <= i < |rest| ==> rest[i] < q[0];
      hide Descending;
      if q[0] != h {
        assert Descending(rest) by { Tail(q); }
        WithoutMember(rest, h, x);
      }
    }
  }

  lemma Tail(q: seq<nat>)
    requires Descending(q) && q != []
    ensures Descending(q[1..])
  {
  }

  lemma {:induction false} WithoutMembers(q: seq<nat>, h: nat)
    requires Descending(q)
    ensures Descending(Without(q, h))
    ensures forall x :: x in Without(q, h) <==> x in q && x != h
  {
    forall x ensures x in Without(q, h) <==> x in q && x != h {
      WithoutMember(q, h, x);
    }
    if q != [] && q[0] != h {
      Tail(q);
      WithoutMembers(q[1..], h);
      Prepended(q[0], Without(q[1..], h), q[1..]);
    }
  }

  lemma Prepended(x: nat, q: seq<nat>, below: seq<nat>)
    requires Descending(q) && (forall y :: y in q ==> y in below) && forall i :: 0 <= i < |below| ==> below[i] < x
    ensures Descending([x] + q)
  {
    forall j | 0 <= j < |q| ensures q[j] < x {
      assert q[j] in q;
    }
  }

  lemma {:induction false} WithoutConcat(p: seq<nat>, q: seq<nat>, h: nat)
    requires h !in p
    ensures Without(p + q, h) == p + Without(q, h)
  {
    if p == [] {
      assert p + q == q;
    } else {
      assert (p + q)[0] == p[0] && p[0] in p && (p + q)[1..] == p[1..] + q;
      WithoutConcat(p[1..], q, h);
    }
  }

  // ----- one hook leaves its list -----

  // b is a without hook h: it was waiting and got deleted, or it was running.
  ghost predicate HookLeaves(a: State, b: State, h: nat) {
    && h < |a.hooks| && Alive(a.hooks[h]) && a.hooks[h].owner < |a.socks|
    && var o := a.hooks[h].owner;
    && b.hooks == a.hooks[h := a.hooks[h].(status := if a.hooks[h].status == Running then Called else Deleted)]
    && b.socks == a.socks[o := a.socks[o].(q := Without(a.socks[o].q, h))]
    && CallsOn(b.log, o) == CallsOn(a.log, o)
    && Survivors(b.log, o) ==
      (if a.hooks[h].status == Running then Survivors(a.log, o) else Without(Survivors(a.log, o), h))
    && (forall i: nat :: i != o ==> SameHistory(a, b, i))
  }

  // A waiting hook was not called yet; a running one was, and is the first of its list.
  lemma PlaceInHistory(a: State, o: nat, h: nat)
    requires o < |a.socks| && SockOk(a, o) && h in a.socks[o].q && h in Survivors(a.log, o)
    ensures h < |a.hooks| && Alive(a.hooks[h]) && a.hooks[h].owner == o
    ensures a.hooks[h].status == Registered ==> h in Waiting(a, o) && h !in CallsOn(a.log, o)
    ensures a.hooks[h].status == Running ==> a.socks[o].done && a.socks[o].q[0] == h && h in CallsOn(a.log, o)
  {
    PlaceInList(a, o, h);
    hide CallsOn, Survivors, Waiting, ListOk;
    var calls, w := CallsOn(a.log, o), Waiting(a, o);
    if a.hooks[h].status == Registered {
      assert calls + w == Survivors(a.log, o) || calls == [];
      LaterInDescending(calls, w, h);
    }
  }

  lemma PlaceInList(a: State, o: nat, h: nat)
    requires o < |a.socks| && ListOk(a, o) && h in a.socks[o].q
    ensures h < |a.hooks| && Alive(a.hooks[h]) && a.hooks[h].owner == o
    ensures a.hooks[h].status == Registered <==> h in Waiting(a, o)
    ensures a.hooks[h].status == Running ==> a.socks[o].done && a.socks[o].q[0] == h
  {
    var q, w := a.socks[o].q, Waiting(a, o);
    var j :| 0 <= j < |q| && q[j] == h;
    if a.hooks[h].status == Registered {
      assert w[if w == q then j else j - 1] == h;
    }
  }

  lemma LaterInDescending(p: seq<nat>, q: seq<nat>, h: nat)
    requires h in q && (Descending(p + q) || p == [])
    ensures h !in p
  {
    var i :| 0 <= i < |q| && q[i] == h;
    forall x | 0 <= x < |p| ensures p[x] != h {
      assert (p + q)[x] == p[x] && (p + q)[|p| + i] == h;
    }
  }

  // What was waiting and did not leave is still waiting, in order.
  lemma LeavingList(a: State, b: State, h: nat)
    requires HookLeaves(a, b, h) && SockOk(a, a.hooks[h].owner) && h in a.socks[a.hooks[h].owner].q
    requires h in Survivors(a.log, a.hooks[h].owner)
    ensures SockOk(b, a.hooks[h].owner)
  {
    LeftList(a, b, h);
    LeftHistory(a, b, h);
    LeftMembers(a, b, h);
    WithoutMembers(a.socks[a.hooks[h].owner].q, h);
    hide CallsOn, Survivors, Without, Waiting, ListOk, HistoryOk, MembersOk;
  }

  lemma LeftMembers(a: State, b: State, h: nat)
    requires HookLeaves(a, b, h) && MembersOk(a, a.hooks[h].owner)
    ensures MembersOk(b, a.hooks[h].owner)
  {
    hide CallsOn, Survivors, Without;
    WithoutMembers(Survivors(a.log, a.hooks[h].owner), h);
  }

  lemma LeftHistory(a: State, b: State, h: nat)
    requires HookLeaves(a, b, h) && SockOk(a, a.hooks[h].owner) && h in a.socks[a.hooks[h].owner].q
    requires h in Survivors(a.log, a.hooks[h].owner)
    ensures HistoryOk(b, a.hooks[h].owner)
  {
    var o := a.hooks[h].owner;
    PlaceInHistory(a, o, h);
    LeavingWaiting(a, b, h);
    hide CallsOn, Survivors, Without, Waiting, ListOk, MembersOk;
    if a.socks[o].done && a.hooks[h].status == Registered {
      WithoutConcat(CallsOn(a.log, o), Waiting(a, o), h);
    }
  }

  lemma LeftList(a: State, b: State, h: nat)
    requires HookLeaves(a, b, h) && ListOk(a, a.hooks[h].owner) && h in a.socks[a.hooks[h].owner].q
    ensures ListOk(b, a.hooks[h].owner)
  {
    hide CallsOn, Survivors, Without;
    var o := a.hooks[h].owner;
    var q, p := a.socks[o].q, b.socks[o].q;
    WithoutMembers(q, h);
    forall j | 0 <= j < |p| ensures p[j] in q && p[j] != h && (0 < j ==> p[j] != q[0]) {
      assert p[j] in p && p[0] in p;
    }
  }

  lemma LeavingWaiting(a: State, b: State, h: nat)
    requires HookLeaves(a, b, h) && ListOk(a, a.hooks[h].owner) && h in a.socks[a.hooks[h].owner].q
    ensures var o := a.hooks[h].owner;
      Waiting(b, o) == (if a.hooks[h].status == Running then Waiting(a, o) else Without(Waiting(a, o), h))
  {
    hide CallsOn, Survivors;
    var o := a.hooks[h].owner;
    var q, p := a.socks[o].q, b.socks[o].q;
    if q[0] == h {
      assert p == q[1..] && (p != [] ==> p[0] == q[1]);
    } else {
      assert p[0] == q[0] && p[1..] == Without(q[1..], h);
    }
  }

  lemma LeavingLater(a: State, b: State, h: nat)
    requires Inv(a) && Inv(b) && HookLeaves(a, b, h) && FaultsLater(a, b)
    ensures Later(a, b, a.hooks[h].owner) && LeavesLater(a, b, h)
  {
    hide CallsOn, Survivors, Inv, Without, FaultsLater, Undeleted, OnlySocket, Later;
    LeavingHistory(a, b, h);
    LeavingOthers(a, b, h);
    OneSocketLater(a, b, a.hooks[h].owner);
  }

  // For its own socket, too, the hook that leaves changes nothing but itself.
  ghost predicate LeavesLater(a: State, b: State, h: nat)
    requires h < |a.hooks| <= |b.hooks| && a.hooks[h].owner < |a.socks| <= |b.socks|
  {
    && SockLater(a, b, a.hooks[h].owner)
    && forall k :: 0 <= k < |a.hooks| ==> StatusLater(a, b, k)
  }

  lemma LeavingHistory(a: State, b: State, h: nat)
    requires Inv(a) && HookLeaves(a, b, h)
    ensures Survivors(b.log, a.hooks[h].owner) == Undeleted(Survivors(a.log, a.hooks[h].owner), b.hooks)
  {
    var o := a.hooks[h].owner;
    SockOkAt(a, o);
    hide CallsOn, Survivors, DescriptorsOk, Without, SockOk;
    var v := Survivors(a.log, o);
    forall k | k in v ensures k < |a.hooks| && a.hooks[k].status != Deleted {
      SurvivorAt(a, o, k);
    }
    if a.hooks[h].status == Running {
      UndeletedAll(v, b.hooks);
    } else {
      assert Descending(v) by { assert MembersOk(a, o); }
      UndeletedWithout(v, b.hooks, h);
    }
  }

  lemma SurvivorAt(a: State, o: nat, k: nat)
    requires Inv(a) && o < |a.socks| && k in Survivors(a.log, o)
    ensures k < |a.hooks| && a.hooks[k].owner == o && a.hooks[k].status != Deleted
  {
    SockOkAt(a, o);
    HookOkAt(a, k);
  }

  lemma LeavingKeeps(a: State, b: State, h: nat)
    requires Inv(a) && HookLeaves(a, b, h) && FaultsLater(a, b) && DescriptorsOk(b)
    ensures Inv(b) && Later(a, b, a.hooks[h].owner) && LeavesLater(a, b, h)
  {
    hide CallsOn, Survivors, DescriptorsOk, Without, Inv, FaultsLater, Later, LeavesLater;
    HookOkAt(a, h);
    SockOkAt(a, a.hooks[h].owner);
    hide SockOk;
    LeavingList(a, b, h);
    LeavingOthers(a, b, h);
    OneSocketInv(a, b, a.hooks[h].owner);
    LeavingLater(a, b, h);
  }

  lemma LeavingOthers(a: State, b: State, h: nat)
    requires Inv(a) && HookLeaves(a, b, h)
    ensures OnlySocket(a, b, a.hooks[h].owner)
    ensures forall k :: 0 <= k < |a.hooks| && a.hooks[k].owner == a.hooks[h].owner ==> HookOk(b, k)
  {
    hide CallsOn, Survivors, Without, Inv, HookOk, SockOk;
    HookOkAt(a, h);
    SockOkAt(a, a.hooks[h].owner);
    forall k | 0 <= k < |a.hooks| && a.hooks[k].owner == a.hooks[h].owner ensures HookOk(b, k) {
      HookOkAt(a, k);
      LeavingHook(a, b, h, k);
    }
  }

  lemma LeavingHook(a: State, b: State, h: nat, k: nat)
    requires HookLeaves(a, b, h) && SockOk(a, a.hooks[h].owner) && HookOk(a, h)
    requires k < |a.hooks| && a.hooks[k].owner == a.hooks[h].owner && HookOk(a, k)
    ensures HookOk(b, k)
  {
    hide CallsOn, Survivors, Without;
    var o := a.hooks[h].owner;
    WithoutMembers(a.socks[o].q, h);
    WithoutMembers(Survivors(a.log, o), h);
  }

  // delgcfn through any open socket.
  lemma DeleteKeeps(a: State, s: nat, h: nat)
    requires Inv(a) && h < |a.hooks| && Alive(a.hooks[h]) && a.hooks[h].owner < |a.socks|
    ensures Inv(DeleteHook(a, s, h)) && Later(a, DeleteHook(a, s, h), -1)
  {
    hide Weight, Size, HookWeight;
    var b, o := DeleteHook(a, s, h), a.hooks[h].owner;
    HookOkAt(a, h);
    SockOkAt(a, o);
    PlaceInHistory(a, o, h);
    assert HookLeaves(a, b, h);
    DescriptorsFrame(a, b);
    if !DrainHolds(a, h) {
      DeletedHolds(a, s, h, o);
    }
    hide Inv, DescriptorsOk, HookLeaves, SockOk, HookOk, Holding;
    LeavingKeeps(a, b, h);
    assert SockCore(a, b, o);
  }

  // A drain goes on holding what it held, if the deleted hook is none of it.
  lemma DeletedHolds(a: State, s: nat, h: nat, i: nat)
    requires Inv(a) && h < |a.hooks| && Alive(a.hooks[h]) && a.hooks[h].owner < |a.socks| && i < |a.socks|
    requires !DrainHolds(a, h)
    ensures Holding(DeleteHook(a, s, h), i) == Holding(a, i)
  {
    hide Inv, Weight, Size, Without;
    var b := DeleteHook(a, s, h);
    if i != a.hooks[h].owner {
      HoldingStays(a, b, i);
    } else {
      HookOkAt(a, h);
      SockOkAt(a, i);
      HoldsFirstTwo(a, b, i, h);
    }
  }

  lemma HoldsFirstTwo(a: State, b: State, o: nat, h: nat)
    requires o < |a.socks| && ListOk(a, o) && h in a.socks[o].q && h < |a.hooks| && a.hooks[h].owner == o
    requires !DrainHolds(a, h)
    requires o < |b.socks| && b.socks[o].q == Without(a.socks[o].q, h) && |b.hooks| == |a.hooks|
    requires forall k :: 0 <= k < |a.hooks| && k != h ==> b.hooks[k] == a.hooks[k]
    ensures Holding(b, o) == Holding(a, o)
  {
    var q := a.socks[o].q;
    WithoutMembers(q, h);
    if 1 < |q| && q[0] != h && q[1] != h {
      assert Without(q, h) == [q[0]] + Without(q[1..], h);
      assert Without(q[1..], h) == [q[1]] + Without(q[1..][1..], h);
    }
  }

  // The end of a call, for all but the drain that made it.
  lemma EndKeeps(a: State, h: nat)
    requires Inv(a) && h < |a.hooks|
    ensures Inv(EndCall(a, h)) && Later(a, EndCall(a, h), a.hooks[h].owner)
    ensures |a.socks| <= |EndCall(a, h).socks| && |a.hooks| <= |EndCall(a, h).hooks|
    ensures a.hooks[h].owner < |a.socks| && LeavesLater(a, EndCall(a, h), h)
  {
    hide Weight, Size, HookWeight;
    HookOkAt(a, h);
    if a.hooks[h].status == Running {
      var b := EndCall(a, h);
      assert HookLeaves(a, b, h);
      DescriptorsFrame(a, b);
      hide Inv, DescriptorsOk, HookLeaves, HookOk;
      LeavingKeeps(a, b, h);
    } else {
      LaterRefl(a, -1);
      LaterRefl(a, a.hooks[h].owner);
    }
  }

  lemma SimpleKeeps(a: State, op: Op)
    requires Inv(a) && !op.Close? && !op.Unwrap? && !op.Gc?
    ensures Inv(Simple(a, op).st) && Later(a, Simple(a, op).st, -1)
  {
    hide Inv, Later;
    LaterRefl(a, -1);
    match op
    case Add(s, fn) =>
      if Usable(a, s) && !a.socks[s].done { AddKeeps(a, s, fn); }
    case Del(s, h) =>
      if h < |a.hooks| && Usable(a, s) && !a.socks[s].done && Alive(a.hooks[h]) && a.hooks[h].owner < |a.socks| {
        DeleteKeeps(a, s, h);
      }
    case New(fd, ok) => AcquireKeeps(a, fd, ok);
    case Dup(s, fd, ok) => AcquireKeeps(a, fd, ok);
    case Accept(s, fd, ok) => AcquireKeeps(a, fd, ok);
    case AcceptFd(s, fd, ok) =>
      if KernelGives(a, fd) {
        PassingKeeps(a, fd, if ok then HandedOut(NoSocket, fd) else Closed(NoSocket, fd));
      }
    case Wrap(fd, ok) =>
      if 0 <= fd && ok { JoinKeeps(a, fd, Adopted(|a.socks|, fd)); }
  }

  lemma AcquireKeeps(a: State, fd: int, ok: bool)
    requires Inv(a)
    ensures Inv(Acquire(a, fd, ok)) && Later(a, Acquire(a, fd, ok), -1)
  {
    hide Inv, Later;
    LaterRefl(a, -1);
    if KernelGives(a, fd) {
      if ok {
        JoinKeeps(a, fd, Opened(By(|a.socks|), fd));
      } else {
        PassingKeeps(a, fd, Closed(NoSocket, fd));
      }
    }
  }
}
