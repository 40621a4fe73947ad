/**
 The argument capture of src/gcfn.c on a Lua stack: lls_gcfn_new packs the error
 function, the hook function and its arguments into one C closure, and
 gcfn_closure unpacks and calls them when the hook runs.
 */
module GcfnClosure {

  // What can lie on the stack. A C closure carries its upvalues.
  datatype Value = Nil | Integer(n: int) | Function(id: nat) | Data(id: nat) | CClosure(upvalues: seq<Value>)
  {
    predicate IsFunction() {
      Function? || CClosure?
    }
  }

  // MAXUPVAL
  const MAX_UPVALUES := 255

  // One lua_call: the function, its arguments and how many results are kept.
  datatype Call = Call(f: Value, args: seq<Value>, results: nat)

  class Stack {
    // slots[i - 1] is what index i denotes.
    var slots: seq<Value>
    var calls: seq<Call>
    // the most slots in use so far
    ghost var peak: nat

    constructor (slots: seq<Value>)
      ensures this.slots == slots && calls == [] && peak == |slots|
    {
      this.slots, calls, peak := slots, [], |slots|;
    }

    // lua_isnoneornil
    predicate NoneOrNil(i: nat)
      reads this
      requires 0 < i
    {
      i <= |slots| ==> slots[i - 1] == Nil
    }

    method Push(v: Value)
      modifies `slots, `peak
      ensures slots == old(slots) + [v] && peak == if old(peak) < |slots| then |slots| else old(peak)
    {
      slots := slots + [v];
      peak := if peak < |slots| then |slots| else peak;
    }

    method Pop()
      requires slots != []
      modifies `slots
      ensures slots == old(slots)[..|old(slots)| - 1]
    {
      slots := slots[..|slots| - 1];
    }

    // lua_insert: the top moves to index i, the rest shifts up.
    method Insert(i: nat)
      requires 0 < i <= |slots|
      modifies `slots
      ensures var n := |old(slots)|;
        slots == old(slots)[..i - 1] + [old(slots)[n - 1]] + old(slots)[i - 1..n - 1]
    {
      var n := |slots|;
      slots := slots[..i - 1] + [slots[n - 1]] + slots[i - 1..n - 1];
    }

    // lua_pushcclosure: the top n values become upvalues, first pushed first.
    method PushCClosure(n: nat)
      requires n <= |slots| && n <= MAX_UPVALUES
      modifies `slots
      ensures var k := |old(slots)| - n;
        slots == old(slots)[..k] + [CClosure(old(slots)[k..])]
    {
      var k := |slots| - n;
      slots := slots[..k] + [CClosure(slots[k..])];
    }

    // lua_call: the function lies below its n arguments; results replace all of them.
    method LuaCall(n: nat, results: nat)
      requires n + 1 <= |slots|
      modifies `slots, `calls
      ensures var f := |old(slots)| - n - 1;
        && calls == old(calls) + [Call(old(slots)[f], old(slots)[f + 1..], results)]
        && |slots| == f + results && slots[..f] == old(slots)[..f]
    {
      var f := |slots| - n - 1;
      calls := calls + [Call(slots[f], slots[f + 1..], results)];
      slots := slots[..f] + seq(results, _ => Nil);
    }

    // lls_gcfn_new up to lua_pushcclosure; false is the raised argument error. The
    // limit is that of lua_pushcclosure.
    method Capture(argidx: nat) returns (ok: bool)
      requires 0 < argidx && |slots| - argidx + 2 <= MAX_UPVALUES
      modifies `slots, `peak
      ensures ok <==>
        && (NoneOrNilIn(old(slots), argidx) || old(slots)[argidx - 1].IsFunction())
        && argidx < |old(slots)| && old(slots)[argidx].IsFunction()
      ensures !ok ==> slots == old(slots)
      ensures ok ==> slots == Captured(old(slots), argidx)
    {
      var nupv := |slots| - argidx + 2;
      if !NoneOrNil(argidx) && !slots[argidx - 1].IsFunction() {
        return false;
      }
      if |slots| <= argidx || !slots[argidx].IsFunction() {
        return false;
      }
      Push(Integer(nupv));
      Insert(argidx);
      assert slots == old(slots)[..argidx - 1] + ([Integer(nupv)] + old(slots)[argidx - 1..]);
      PushCClosure(nupv);
      ok := true;
    }

    // gcfn_closure, entered with no arguments. It needs room for all upvalues but the
    // count, and does not ask for it.
    method RunClosure(closure: Value)
      requires slots == [] && peak == 0 && closure.CClosure?
      requires var up := closure.upvalues; 3 <= |up| && up[0] == Integer(|up|)
      modifies this
      ensures var up := closure.upvalues;
        calls == old(calls) + [Call(up[2], up[3..], if up[1] == Nil then 0 else 1)] && peak == |up| - 1
    {
      var up := closure.upvalues;
      Push(up[0]);
      var argc := slots[0].n;
      Pop();
      var i := 2;
      while i <= argc
        invariant 2 <= i <= argc + 1 && argc == |up|
        invariant slots == up[1..i - 1] && peak == if i < 3 then 1 else i - 2
        invariant calls == old(calls)
      {
        Push(up[i - 1]);
        i := i + 1;
      }
      assert slots[1] == up[2] && slots[2..] == up[3..];
      LuaCall(argc - 3, if NoneOrNil(1) then 0 else 1);
    }
  }

  // The stack with everything from argidx on, and its count, inside one closure.
  ghost function Captured(slots: seq<Value>, argidx: nat): seq<Value>
    requires 0 < argidx <= |slots|
  {
    slots[..argidx - 1] + [CClosure([Integer(|slots| - argidx + 2)] + slots[argidx - 1..])]
  }

  ghost predicate NoneOrNilIn(slots: seq<Value>, i: nat)
    requires 0 < i
  {
    i <= |slots| ==> slots[i - 1] == Nil
  }

  // addgcfn(errfn, fn, args...) and, when the hook runs, its closure: the user's
  // function gets exactly the arguments it was registered with, in order. room: the
  // stack slots the closure uses.
  method Register(socket: Value, errfn: Value, fn: Value, args: seq<Value>) 
    returns (calls: seq<Call>, ghost room: nat)
    requires |args| + 3 <= MAX_UPVALUES
    ensures (errfn == Nil || errfn.IsFunction()) && fn.IsFunction() ==>
      calls == [Call(fn, args, if errfn == Nil then 0 else 1)] && room == |args| + 2
    ensures !((errfn == Nil || errfn.IsFunction()) && fn.IsFunction()) ==> calls == []
  {
    var L := new Stack([socket, errfn, fn] + args);
    var ok := L.Capture(2);
    if !ok {
      return [], 0;
    }
    var closure := L.slots[1];
    assert closure.upvalues == [Integer(|args| + 3), errfn, fn] + args;
    var R := new Stack([]);
    R.RunClosure(closure);
    calls, room := R.calls, R.peak;
  }
}
