/**
 The Lua registry as the C code sees it through lauxh_ref and lauxh_unref: a
 table from integer references to anchored values. A reference taken is one
 not in use, and it is always positive: which unused key luaL_ref picks is
 left open.
 */
module LuaRegistry {

  // LUA_NOREF
  const NOREF: int := -2

  class Registry<V> {
    var refs: map<int, V>

    constructor ()
      ensures refs == map[]
    {
      refs := map[];
    }

    // lauxh_ref: anchor v under an unused reference.
    method Ref(v: V) returns (r: int)
      modifies this
      ensures 0 < r && r !in old(refs)
      ensures refs == old(refs)[r := v]
    {
      UnusedRefExists(refs.Keys);
      r :| 0 < r && r !in refs;
      refs := refs[r := v];
    }

    // lauxh_unref: releasing a reference that is not in use changes nothing.
    method Unref(r: int) returns (noref: int)
      modifies this
      ensures noref == NOREF
      ensures refs == old(refs) - {r}
    {
      refs := refs - {r};
      noref := NOREF;
    }
  }

  // How many references are in use after one release.
  lemma CountRemoved<V>(refs: map<int, V>, r: int)
    ensures |refs - {r}| == |refs| - (if r in refs then 1 else 0)
  {
  }

  lemma {:induction false} UpperBound(s: set<int>) returns (b: int)
    ensures 0 < b && forall x :: x in s ==> x < b
  {
    if x :| x in s {
      b := UpperBound(s - {x});
      b := if x < b then b else x + 1;
      assert forall y :: y in s ==> y == x || y in s - {x};
    } else {
      b := 1;
    }
  }

  lemma UnusedRefExists(s: set<int>)
    ensures exists r :: 0 < r && r !in s
  {
    var b := UpperBound(s);
    assert 0 < b && b !in s;
  }

  // ----- sharing one registry -----

  // What the registry holds beside x.
  ghost function Rest<V>(refs: map<int, V>, x: map<int, V>): map<int, V> {
    map r | r in refs && r !in x :: refs[r]
  }

  // Every reference belongs to one of two sides: what one calls others is the
  // other's own.
  ghost predicate Split<V>(refs: map<int, V>, x: map<int, V>, y: map<int, V>) {
    refs.Keys == x.Keys + y.Keys && x.Keys !! y.Keys
  }

  lemma SplitCounts<V>(refs: map<int, V>, x: map<int, V>, y: map<int, V>)
    requires Split(refs, x, y)
    ensures |refs| == |x| + |y|
  {
    assert |x.Keys + y.Keys| == |x.Keys| + |y.Keys|;
    assert |refs| == |refs.Keys| && |x| == |x.Keys| && |y| == |y.Keys|;
  }

  lemma SplitAt<V>(refs: map<int, V>, x: map<int, V>, y: map<int, V>, r: int)
    requires Split(refs, x, y)
    ensures (r in refs <==> r in x || r in y) && !(r in x && r in y)
  {
    assert r in refs.Keys <==> r in x.Keys + y.Keys;
    assert !(r in x.Keys && r in y.Keys);
  }

  lemma RestSplits<V>(refs: map<int, V>, x: map<int, V>)
    requires x.Keys <= refs.Keys
    ensures Split(refs, x, Rest(refs, x)) && Split(refs, Rest(refs, x), x)
  {
    var y := Rest(refs, x);
    forall r ensures r in y.Keys <==> r in refs.Keys && r !in x.Keys {
      assert r in y <==> r in refs && r !in x;
    }
  }

  // The registry went from was to refs. A side that called x the others before and
  // calls y so now finds all its own references as they were.
  ghost predicate Moved<V>(was: map<int, V>, x: map<int, V>, refs: map<int, V>, y: map<int, V>) {
    && |refs| - |y| == |was| - |x|
    && (forall r :: r in refs ==> 0 < r)
    && (forall r :: r in y ==> r in refs && y[r] == refs[r])
    && (forall r :: r in refs && r !in y ==> r in was && r !in x)
    && (forall r :: r in was && r !in x ==> r in refs && r !in y && refs[r] == was[r])
  }

  // So it is when the other side kept mine, its others.
  lemma OthersMove<V>(was: map<int, V>, x: map<int, V>, mine: map<int, V>, refs: map<int, V>)
    requires Split(was, x, mine) && forall r :: r in refs ==> 0 < r
    requires forall r :: r in mine ==> r in was && was[r] == mine[r]
    requires forall r :: r in mine ==> r in refs && refs[r] == mine[r]
    ensures Moved(was, x, refs, Rest(refs, mine)) && Split(refs, mine, Rest(refs, mine))
  {
    var y := Rest(refs, mine);
    assert mine.Keys <= refs.Keys by {
      forall r | r in mine.Keys ensures r in refs.Keys {
        assert r in mine;
      }
    }
    RestSplits(refs, mine);
    SplitCounts(was, x, mine);
    SplitCounts(refs, mine, y);
    hide Split, Rest;
    forall r ensures (r in was <==> r in x || r in mine) && !(r in x && r in mine) {
      SplitAt(was, x, mine, r);
    }
    forall r ensures (r in refs <==> r in mine || r in y) && !(r in mine && r in y) {
      SplitAt(refs, mine, y, r);
    }
    forall r | r in y ensures y[r] == refs[r] {
      RestAt(refs, mine, r);
    }
  }

  lemma RestAt<V>(refs: map<int, V>, x: map<int, V>, r: int)
    requires r in Rest(refs, x)
    ensures r in refs && Rest(refs, x)[r] == refs[r]
  {
  }
}
