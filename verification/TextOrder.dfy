/**
 Strict order on strings, and lists of strings in increasing order.
 */
module TextOrder {

  // Byte order, as Lua compares identifiers in the C locale.
  predicate Less(a: string, b: string) {
    b != [] && (a == [] || a[0] < b[0] || (a[0] == b[0] && Less(a[1..], b[1..])))
  }

  lemma {:induction false} LessIsTotal(a: string, b: string)
    ensures a == b || Less(a, b) || Less(b, a)
    ensures !(Less(a, b) && Less(b, a)) && !Less(a, a)
  {
    if a != [] && b != [] {
      LessIsTotal(a[1..], b[1..]);
      assert a == [a[0]] + a[1..] && b == [b[0]] + b[1..];
    }
    if a != [] {
      LessIsTotal(a[1..], a[1..]);
    }
  }

  lemma {:induction false} LessTrans(a: string, b: string, c: string)
    requires Less(a, b) && Less(b, c)
    ensures Less(a, c)
  {
    if a != [] && a[0] == b[0] == c[0] {
      LessTrans(a[1..], b[1..], c[1..]);
    }
  }

  // Two strings agree up to i, and there the first ends or has the smaller character.
  predicate ComesFirst(a: string, b: string, i: nat) {
    && i <= |a| && i < |b| && a[..i] == b[..i]
    && (i < |a| ==> a[i] < b[i])
  }

  lemma {:induction false} LessMeans(a: string, b: string)
    ensures Less(a, b) <==> exists i :: ComesFirst(a, b, i)
  {
    if Less(a, b) {
      var i := FirstDifference(a, b);
      assert ComesFirst(a, b, i);
    }
    if i :| ComesFirst(a, b, i) {
      LessAt(a, b, i);
    }
  }

  lemma {:induction false} FirstDifference(a: string, b: string) returns (i: nat)
    requires Less(a, b)
    ensures ComesFirst(a, b, i)
  {
    i := 0;
    if a != [] && a[0] == b[0] {
      var j := FirstDifference(a[1..], b[1..]);
      i := j + 1;
      assert a[..i] == [a[0]] + a[1..][..j] && b[..i] == [b[0]] + b[1..][..j];
    }
  }

  lemma {:induction false} LessAt(a: string, b: string, i: nat)
    requires ComesFirst(a, b, i)
    ensures Less(a, b)
    decreases i
  {
    if i != 0 {
      assert a[0] == a[..i][0] == b[..i][0] == b[0];
      assert a[1..][..i - 1] == a[..i][1..] && b[1..][..i - 1] == b[..i][1..];
      LessAt(a[1..], b[1..], i - 1);
    }
  }

  // Strictly increasing: sorted without repetition.
  predicate Increasing(s: seq<string>) {
    forall i, j :: 0 <= i < j < |s| ==> Less(s[i], s[j])
  }

  // A set has one increasing listing.
  lemma {:induction false} IncreasingIsUnique(s: seq<string>, t: seq<string>)
    requires Increasing(s) && Increasing(t)
    requires forall x :: x in s <==> x in t
    ensures s == t
  {
    assert s != [] ==> s[0] in s && s[0] in t;
    assert t != [] ==> t[0] in t && t[0] in s;
    if s != [] {
      LessIsTotal(s[0], t[0]);
      forall x ensures x in s[1..] <==> x in t[1..] {
        LessIsTotal(s[0], s[0]);
        assert x in s <==> x == s[0] || x in s[1..];
        assert x in t <==> x == t[0] || x in t[1..];
        assert s[0] !in s[1..] && t[0] !in t[1..];
      }
      IncreasingIsUnique(s[1..], t[1..]);
      assert s == [s[0]] + s[1..] && t == [t[0]] + t[1..];
    }
  }

  // One insertion of the sort: x goes before the first larger element.
  method Insert(s: seq<string>, x: string) returns (r: seq<string>)
    requires Increasing(s) && x !in s
    ensures Increasing(r)
    ensures forall y :: y in r <==> y == x || y in s
  {
    hide Inserted;
    var i := 0;
    while i < |s| && Less(s[i], x)
      invariant 0 <= i <= |s|
      invariant forall j :: 0 <= j < i ==> Less(s[j], x)
    {
      i := i + 1;
    }
    r := Inserted(s, i, x);
    forall j | i <= j < |s| ensures Less(x, s[j]) {
      LessIsTotal(s[i], x);
      if i < j {
        LessTrans(x, s[i], s[j]);
      }
    }
    InsertedIncreases(s, i, x);
    forall y ensures y in r <==> y == x || y in s {
      InsertedMember(s, i, x, y);
    }
  }

  function Inserted(s: seq<string>, i: nat, x: string): seq<string>
    requires i <= |s|
  {
    s[..i] + [x] + s[i..]
  }

  lemma InsertedIncreases(s: seq<string>, i: nat, x: string)
    requires i <= |s| && Increasing(s)
    requires forall j :: 0 <= j < i ==> Less(s[j], x)
    requires forall j :: i <= j < |s| ==> Less(x, s[j])
    ensures Increasing(Inserted(s, i, x))
  {
    hide Less;
    var r := Inserted(s, i, x);
    forall p, q | 0 <= p < q < |r| ensures Less(r[p], r[q]) {
      assert r[p] == if p < i then s[p] else if p == i then x else s[p - 1];
      assert r[q] == if q < i then s[q] else if q == i then x else s[q - 1];
    }
  }

  lemma InsertedMember(s: seq<string>, i: nat, x: string, y: string)
    requires i <= |s|
    ensures y in Inserted(s, i, x) <==> y == x || y in s
  {
    assert s == s[..i] + s[i..];
  }
}
