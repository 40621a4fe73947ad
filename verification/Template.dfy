/**
 Why the generated file does not depend on the order of pairs: substituting the
 keys one after another is the same as replacing all markers at once.
 */
module Template {
  import opened Codegen

  type Decls = map<string, string>

  ghost predicate DeclsOk(all: Decls) {
    forall k :: k in all ==> IsKey(k) && IsBody(all[k])
  }

  ghost predicate StartsMarker(t: string, keys: set<string>) {
    exists k :: k in keys && Marker(k) <= t
  }

  // One simultaneous left-to-right replacement of the markers of `keys`.
  ghost function Replace(t: string, keys: set<string>, all: Decls): string
    requires keys <= all.Keys
  {
    if t == [] then []
    else if StartsMarker(t, keys) then
      var k :| k in keys && Marker(k) <= t;
      all[k] + Replace(t[|Marker(k)|..], keys, all)
    else [t[0]] + Replace(t[1..], keys, all)
  }

  // An empty body may only stand at the start of a line: anything before its
  // marker ends with a newline.
  ghost predicate Safe(t: string, all: Decls) {
    forall p, k :: 0 < p < |t| && k in all && all[k] == [] && Marker(k) <= t[p..] ==> t[p - 1] == '\n'
  }

  // expand_template: the keys in the order pairs gives them.
  function Expand(t: string, order: seq<string>, all: Decls): string
    requires forall k :: k in order ==> k in all
    decreases |order|
  {
    if order == [] then t
    else Expand(Gsub(t, Marker(order[0]), all[order[0]]), order[1..], all)
  }

  // ----- markers -----

  lemma MarkerShape(k: string)
    requires IsKey(k)
    ensures var m := Marker(k);
      && |m| == |k| + 9 && m[0] == '#' && m[1] == 'd' && m[|m| - 1] == '\n'
      && (forall i :: 0 < i < |m| ==> m[i] != '#')
      && (forall i :: 0 <= i < |m| - 1 ==> m[i] != '\n')
  {
  }

  lemma MarkersDiffer(t: string, k1: string, k2: string)
    requires IsKey(k1) && IsKey(k2) && Marker(k1) <= t && Marker(k2) <= t
    ensures k1 == k2
  {
    MarkerShape(k1);
    MarkerShape(k2);
    var m1, m2 := Marker(k1), Marker(k2);
    assert forall i :: 0 <= i < |m1| ==> m1[i] == t[i];
    assert forall i :: 0 <= i < |m2| ==> m2[i] == t[i];
    assert |m1| == |m2|;
    assert m1 == m2;
    assert k1 == m1[8..|m1| - 1] && k2 == m2[8..|m2| - 1];
  }

  lemma ReplaceAtMarker(t: string, keys: set<string>, all: Decls, k: string)
    requires DeclsOk(all) && keys <= all.Keys && k in keys && Marker(k) <= t
    ensures Replace(t, keys, all) == all[k] + Replace(t[|Marker(k)|..], keys, all)
  {
    forall k' | k' in keys && Marker(k') <= t ensures k' == k {
      MarkersDiffer(t, k', k);
    }
  }

  lemma SafeSuffix(t: string, all: Decls, n: nat)
    requires Safe(t, all) && n <= |t|
    ensures Safe(t[n..], all)
  {
  }

  // Text without a marker start is copied.
  lemma {:induction false} ReplaceCopies(t: string, keys: set<string>, all: Decls, n: nat)
    requires keys <= all.Keys && n <= |t|
    requires forall i :: 0 <= i < n ==> !StartsMarker(t[i..], keys)
    ensures Replace(t, keys, all) == t[..n] + Replace(t[n..], keys, all)
  {
    hide StartsMarker;
    assert t[0..] == t;
    if n != 0 {
      forall i | 0 <= i < n - 1 ensures !StartsMarker(t[1..][i..], keys) {
        assert t[1..][i..] == t[i + 1..];
      }
      ReplaceCopies(t[1..], keys, all, n - 1);
      assert Replace(t, keys, all) == [t[0]] + Replace(t[1..], keys, all);
      assert t[1..][n - 1..] == t[n..];
      assert t[..n] == [t[0]] + t[1..][..n - 1];
    }
  }

  lemma NoMarkerWithoutHash(t: string, keys: set<string>, all: Decls)
    requires DeclsOk(all) && keys <= all.Keys && (t == [] || t[0] != '#')
    ensures !StartsMarker(t, keys)
  {
  }

  // ----- substitution passes bodies by -----

  lemma {:induction false} GsubPassesBody(b: string, x: string, k: string, v: string)
    requires IsKey(k)
    requires forall i :: 0 <= i < |b| && b[i] == '#' ==> i + 1 < |b| && b[i + 1] != 'd'
    ensures Gsub(b + x, Marker(k), v) == b + Gsub(x, Marker(k), v)
  {
    var m := Marker(k);
    if b == [] {
      assert b + x == x;
    } else {
      MarkerShape(k);
      var s := b + x;
      assert s[0] == b[0] && (1 < |b| ==> s[1] == b[1]);
      assert !(m <= s);
      assert s[1..] == b[1..] + x;
      GsubPassesBody(b[1..], x, k, v);
      assert [b[0]] + (b[1..] + Gsub(x, m, v)) == b + Gsub(x, m, v);
    }
  }

  // ----- no replacement makes a new marker -----

  // Where the output goes on without '#' in the middle of a line, text is copied.
  lemma CopiedHere(t: string, keys: set<string>, all: Decls, j: nat)
    requires DeclsOk(all) && keys <= all.Keys && Safe(t, all) && 0 < j < |t| && t[j - 1] != '\n'
    requires var out := Replace(t[j..], keys, all); out != [] && out[0] != '#'
    ensures !StartsMarker(t[j..], keys)
  {
  }

  // If j characters of a marker were copied and the rest appears in the output,
  // the whole marker was in the text.
  lemma {:induction false} MarkerWasThere(t: string, keys: set<string>, all: Decls, k: string, j: nat)
    requires DeclsOk(all) && keys <= all.Keys && IsKey(k) && Safe(t, all)
    requires 0 < j <= |Marker(k)| && j <= |t| && t[..j] == Marker(k)[..j]
    requires Marker(k)[j..] <= Replace(t[j..], keys, all)
    ensures Marker(k) <= t
    decreases |Marker(k)| - j
  {
    var m, rest := Marker(k), t[j..];
    MarkerShape(k);
    if j == |m| {
      assert t[..j] == m;
    } else {
      assert rest != [];
      var out := Replace(rest, keys, all);
      assert out[0] == m[j..][0] == m[j];
      assert t[j - 1] == m[..j][j - 1] == m[j - 1];
      CopiedHere(t, keys, all, j);
      assert out == [rest[0]] + Replace(rest[1..], keys, all);
      assert rest[1..] == t[j + 1..] && m[j..][1..] == m[j + 1..];
      assert t[..j + 1] == t[..j] + [rest[0]] && m[..j + 1] == m[..j] + [m[j]];
      assert m[j + 1..] <= out[1..];
      MarkerWasThere(t, keys, all, k, j + 1);
    }
  }

  lemma NoNewMarker(t: string, keys: set<string>, all: Decls, k: string)
    requires DeclsOk(all) && keys <= all.Keys && IsKey(k) && Safe(t, all)
    requires t != [] && !StartsMarker(t, keys) && Marker(k) <= Replace(t, keys, all)
    ensures Marker(k) <= t
  {
    MarkerShape(k);
    var m, out := Marker(k), Replace(t, keys, all);
    assert out == [t[0]] + Replace(t[1..], keys, all);
    assert out[0] == m[0] && t[..1] == [t[0]] == m[..1];
    assert m[1..] <= out[1..];
    MarkerWasThere(t, keys, all, k, 1);
  }

  // ----- confluence -----

  // Substituting one more key turns the replacement of `keys` into that of `keys` and k.
  lemma {:induction false} OneMoreKey(t: string, keys: set<string>, all: Decls, k: string)
    requires DeclsOk(all) && keys <= all.Keys && k in all && k !in keys && Safe(t, all)
    ensures Gsub(Replace(t, keys, all), Marker(k), all[k]) == Replace(t, keys + {k}, all)
    decreases |t|
  {
    var m, more := Marker(k), keys + {k};
    MarkerShape(k);
    if t == [] {
    } else if StartsMarker(t, keys) {
      var d :| d in keys && Marker(d) <= t;
      var rest := t[|Marker(d)|..];
      MarkerShape(d);
      ReplaceAtMarker(t, keys, all, d);
      ReplaceAtMarker(t, more, all, d);
      SafeSuffix(t, all, |Marker(d)|);
      OneMoreKey(rest, keys, all, k);
      GsubPassesBody(all[d], Replace(rest, keys, all), k, all[k]);
    } else if m <= t {
      AtTheMarker(t, keys, all, k);
      SafeSuffix(t, all, |m|);
      OneMoreKey(t[|m|..], keys, all, k);
    } else {
      assert !StartsMarker(t, more);
      if m <= Replace(t, keys, all) {
        NoNewMarker(t, keys, all, k);
      }
      SafeSuffix(t, all, 1);
      OneMoreKey(t[1..], keys, all, k);
      assert Replace(t, keys, all)[1..] == Replace(t[1..], keys, all);
    }
  }

  // At a marker of k, which `keys` lacks, the marker itself is copied and then replaced.
  lemma AtTheMarker(t: string, keys: set<string>, all: Decls, k: string)
    requires DeclsOk(all) && keys <= all.Keys && k in all && k !in keys && Marker(k) <= t
    ensures var m, rest := Marker(k), t[|Marker(k)|..];
      && Gsub(Replace(t, keys, all), m, all[k]) == all[k] + Gsub(Replace(rest, keys, all), m, all[k])
      && Replace(t, keys + {k}, all) == all[k] + Replace(rest, keys + {k}, all)
  {
    var m := Marker(k);
    MarkerShape(k);
    forall i | 0 <= i < |m| ensures !StartsMarker(t[i..], keys) {
      if i == 0 {
        assert t[0..] == t;
        forall d | d in keys ensures !(Marker(d) <= t) {
          if Marker(d) <= t {
            MarkersDiffer(t, d, k);
          }
        }
      } else {
        assert t[i] == m[i];
        NoMarkerWithoutHash(t[i..], keys, all);
      }
    }
    ReplaceCopies(t, keys, all, |m|);
    var x := Replace(t[|m|..], keys, all);
    assert t[..|m|] == m && (m + x)[|m|..] == x;
    ReplaceAtMarker(t, keys + {k}, all, k);
  }

  predicate NoRepeats(order: seq<string>) {
    forall i, j :: 0 <= i < j < |order| ==> order[i] != order[j]
  }

  // Confluence: whatever order pairs chooses, the result is the simultaneous replacement.
  lemma {:induction false} ExpandIsReplace(t: string, order: seq<string>, done: set<string>, all: Decls)
    requires DeclsOk(all) && Safe(t, all) && done <= all.Keys
    requires NoRepeats(order) && (forall k :: k in order ==> k in all && k !in done)
    requires forall k :: k in all ==> k in done || k in order
    ensures Expand(Replace(t, done, all), order, all) == Replace(t, all.Keys, all)
    decreases |order|
  {
    if order == [] {
      assert done == all.Keys;
    } else {
      var k := order[0];
      OneMoreKey(t, done, all, k);
      assert k !in order[1..];
      ExpandIsReplace(t, order[1..], done + {k}, all);
    }
  }

  lemma {:induction false} ReplaceNothing(t: string, all: Decls)
    ensures Replace(t, {}, all) == t
  {
    if t != [] {
      ReplaceNothing(t[1..], all);
      assert t == [t[0]] + t[1..];
    }
  }

  // For any two orders of the same keys the generated file is the same.
  lemma Confluence(t: string, order1: seq<string>, order2: seq<string>, all: Decls)
    requires DeclsOk(all) && Safe(t, all) && NoRepeats(order1) && NoRepeats(order2)
    requires forall k :: k in all <==> k in order1
    requires forall k :: k in all <==> k in order2
    ensures Expand(t, order1, all) == Expand(t, order2, all) == Replace(t, all.Keys, all)
  {
    ReplaceNothing(t, all);
    ExpandIsReplace(t, order1, {}, all);
    ExpandIsReplace(t, order2, {}, all);
  }

  // ----- what the result looks like -----

  // No marker of any key is left anywhere.
  lemma {:induction false} NoMarkerLeft(t: string, all: Decls, p: nat, k: string)
    requires DeclsOk(all) && Safe(t, all) && k in all && p <= |Replace(t, all.Keys, all)|
    ensures !(Marker(k) <= Replace(t, all.Keys, all)[p..])
    decreases |t|
  {
    var out := Replace(t, all.Keys, all);
    MarkerShape(k);
    if t == [] {
    } else if StartsMarker(t, all.Keys) {
      var d :| d in all.Keys && Marker(d) <= t;
      MarkerShape(d);
      ReplaceAtMarker(t, all.Keys, all, d);
      SafeSuffix(t, all, |Marker(d)|);
      var b, rest := all[d], t[|Marker(d)|..];
      if p < |b| {
        assert out[p..][0] == b[p];
        assert p + 1 < |b| ==> out[p..][1] == b[p + 1];
      } else {
        NoMarkerLeft(rest, all, p - |b|, k);
        assert out[p..] == Replace(rest, all.Keys, all)[p - |b|..];
      }
    } else {
      if p == 0 {
        assert out[0..] == out;
        if Marker(k) <= out {
          NoNewMarker(t, all.Keys, all, k);
        }
      } else {
        SafeSuffix(t, all, 1);
        NoMarkerLeft(t[1..], all, p - 1, k);
        assert out[p..] == Replace(t[1..], all.Keys, all)[p - 1..];
      }
    }
  }

  // Markers occupy whole lines: each starts a line, and its own newline ends it.
  ghost predicate WholeLines(t: string, all: Decls) {
    forall p, k :: 0 < p < |t| && k in all && Marker(k) <= t[p..] ==> t[p - 1] == '\n'
  }

  // The length of the first line, its newline included.
  function LineEnd(t: string): (n: nat)
    requires '\n' in t
    ensures 0 < n <= |t| && t[n - 1] == '\n' && forall i :: 0 <= i < n - 1 ==> t[i] != '\n'
  {
    if t[0] == '\n' then 1 else 1 + LineEnd(t[1..])
  }

  ghost predicate IsMarkerLine(l: string, all: Decls) {
    exists k :: k in all && l == Marker(k)
  }

  ghost function ExpandLine(l: string, all: Decls): string {
    if IsMarkerLine(l, all) then
      var k :| k in all && l == Marker(k);
      all[k]
    else l
  }

  // Every marker line becomes its body; other lines, and what follows the last
  // newline, stay.
  ghost function ExpandText(t: string, all: Decls): string {
    if '\n' !in t then t
    else
      var n := LineEnd(t);
      ExpandLine(t[..n], all) + ExpandText(t[n..], all)
  }

  // A key's marker line becomes its declarations.
  lemma MarkerBecomesBody(all: Decls, k: string)
    requires DeclsOk(all) && k in all
    ensures ExpandLine(Marker(k), all) == all[k]
  {
    hide Marker;
    forall k' | k' in all && Marker(k) == Marker(k') ensures k' == k {
      MarkersDiffer(Marker(k), k', k);
    }
  }

  // A marker at the start of a text is its first line.
  lemma MarkerIsFirstLine(t: string, k: string)
    requires IsKey(k) && Marker(k) <= t
    ensures '\n' in t && t[..LineEnd(t)] == Marker(k)
  {
    var m := Marker(k);
    MarkerShape(k);
    assert forall i :: 0 <= i < |m| ==> m[i] == t[i];
    assert LineEnd(t) == |m|;
  }

  // The first line holds no marker unless it is one.
  lemma NoMarkerInLine(t: string, all: Decls, p: nat)
    requires DeclsOk(all) && WholeLines(t, all) && '\n' in t && p < LineEnd(t) && !IsMarkerLine(t[..LineEnd(t)], all)
    ensures !StartsMarker(t[p..], all.Keys)
  {
    forall k | k in all.Keys ensures !(Marker(k) <= t[p..]) {
      if p == 0 && Marker(k) <= t[p..] {
        MarkerIsFirstLine(t, k);
      }
    }
  }

  lemma {:induction false} ReplaceIsLineByLine(t: string, all: Decls)
    requires DeclsOk(all) && WholeLines(t, all)
    ensures Replace(t, all.Keys, all) == ExpandText(t, all)
    decreases |t|
  {
    if '\n' !in t {
      forall p | 0 <= p < |t| ensures !StartsMarker(t[p..], all.Keys) {
        forall k | k in all.Keys && Marker(k) <= t[p..] ensures false {
          MarkerIsFirstLine(t[p..], k);
        }
      }
      ReplaceCopies(t, all.Keys, all, |t|);
    } else {
      var n := LineEnd(t);
      var l := t[..n];
      ReplaceIsLineByLine(t[n..], all);
      if IsMarkerLine(l, all) {
        var k :| k in all && l == Marker(k);
        MarkerBecomesBody(all, k);
        ReplaceAtMarker(t, all.Keys, all, k);
      } else {
        forall p | 0 <= p < n ensures !StartsMarker(t[p..], all.Keys) {
          NoMarkerInLine(t, all, p);
        }
        ReplaceCopies(t, all.Keys, all, n);
      }
    }
  }

  // The generated file: whatever order pairs chooses, every marker line becomes
  // its body and everything else stays.
  lemma GeneratedText(t: string, order: seq<string>, all: Decls)
    requires DeclsOk(all) && WholeLines(t, all)
    requires NoRepeats(order) && forall k :: k in all <==> k in order
    ensures Expand(t, order, all) == ExpandText(t, all)
  {
    Confluence(t, order, order, all);
    ReplaceIsLineByLine(t, all);
  }

  // ----- expand_template -----

  lemma {:induction false} ExpandOneMore(t: string, order: seq<string>, k: string, all: Decls)
    requires (forall k :: k in order ==> k in all) && k in all
    ensures Expand(t, order + [k], all) == Gsub(Expand(t, order, all), Marker(k), all[k])
    decreases |order|
  {
    if order == [] {
      assert order + [k] == [k];
    } else {
      assert (order + [k])[1..] == order[1..] + [k];
      ExpandOneMore(Gsub(t, Marker(order[0]), all[order[0]]), order[1..], k, all);
    }
  }

  // The loop over pairs(decls): any order, one global substitution a key.
  method ExpandTemplate(template: string, decls: Decls) returns (content: string, ghost order: seq<string>)
    ensures NoRepeats(order) && forall k :: k in decls <==> k in order
    ensures content == Expand(template, order, decls)
    ensures DeclsOk(decls) && Safe(template, decls) ==> content == Replace(template, decls.Keys, decls)
  {
    content, order := template, [];
    var rest := decls.Keys;
    while rest != {}
      invariant rest <= decls.Keys && NoRepeats(order)
      invariant forall k :: k in order <==> k in decls && k !in rest
      invariant content == Expand(template, order, decls)
      decreases rest
    {
      var k :| k in rest;
      ExpandOneMore(template, order, k, decls);
      content := Gsub(content, Marker(k), decls[k]);
      order := order + [k];
      rest := rest - {k};
    }
    if DeclsOk(decls) && Safe(template, decls) {
      Confluence(template, order, order, decls);
    }
  }

  // ----- when the order shows -----

  ghost predicate Occurs(m: string, x: string) {
    exists p :: 0 <= p < |x| && m <= x[p..]
  }

  lemma {:induction false} GsubNone(x: string, m: string, v: string)
    requires m != [] && !Occurs(m, x)
    ensures Gsub(x, m, v) == x
  {
    if x != [] {
      assert x[0..] == x;
      forall p | 0 <= p < |x[1..]| ensures !(m <= x[1..][p..]) {
        assert x[1..][p..] == x[p + 1..];
      }
      GsubNone(x[1..], m, v);
      assert x == [x[0]] + x[1..];
    }
  }

  lemma {:induction false} GsubShrinks(x: string, m: string)
    requires m != []
    ensures |Gsub(x, m, [])| <= |x|
    decreases |x|
  {
    if x != [] {
      GsubShrinks(if m <= x then x[|m|..] else x[1..], m);
    }
  }

  // Where a marker occurs, replacing it by a body shows.
  lemma {:induction false} GsubChanges(x: string, k: string, b: string)
    requires IsKey(k) && IsBody(b) && Occurs(Marker(k), x)
    ensures Gsub(x, Marker(k), b) != x
  {
    var m := Marker(k);
    MarkerShape(k);
    if m <= x {
      GsubShrinks(x[|m|..], m);
      assert x[1] == m[1] == 'd';
    } else {
      var p :| 0 <= p < |x| && m <= x[p..];
      assert x[0..] == x;
      assert x[1..][p - 1..] == x[p..];
      GsubChanges(x[1..], k, b);
      assert Gsub(x, m, b)[1..] == Gsub(x[1..], m, b);
    }
  }

  // The first marker of a text is replaced, and the scan goes on behind it.
  lemma {:induction false} GsubFirst(u: string, m: string, x: string, v: string)
    requires m != [] && forall p :: 0 <= p < |u| ==> !(m <= (u + (m + x))[p..])
    ensures Gsub(u + (m + x), m, v) == u + (v + Gsub(x, m, v))
  {
    var t := u + (m + x);
    if u == [] {
      assert t == m + x && (m + x)[|m|..] == x;
    } else {
      var rest := u[1..] + (m + x);
      assert t[0..] == t && t[1..] == rest;
      forall p | 0 <= p < |u[1..]| ensures !(m <= rest[p..]) {
        assert t[p + 1..] == rest[p..];
      }
      GsubFirst(u[1..], m, x, v);
      assert u == [u[0]] + u[1..];
    }
  }

  // The text has one marker of e and k: that of e, between u and x.
  ghost predicate OneMarker(u: string, e: string, x: string, k: string) {
    var t := u + (Marker(e) + x);
    forall p :: 0 <= p < |t| ==> (Marker(e) <= t[p..] ==> p == |u|) && !(Marker(k) <= t[p..])
  }

  // One splice: around a marker with an empty body the order of two keys shows if
  // and only if joining what stands before and after it makes the other's marker.
  lemma SpliceDecides(u: string, x: string, e: string, k: string, b: string)
    requires IsKey(e) && IsKey(k) && e != k && IsBody(b) && OneMarker(u, e, x, k)
    ensures var t, all: Decls := u + (Marker(e) + x), map[e := [], k := b];
      Expand(t, [e, k], all) != Expand(t, [k, e], all) <==> Occurs(Marker(k), u + x)
  {
    var m, n := Marker(e), Marker(k);
    var t, all: Decls := u + (m + x), map[e := [], k := b];
    ExpandTwo(t, e, k, all);
    ExpandTwo(t, k, e, all);
    MarkerShape(e);
    MarkerShape(k);
    SpliceGsub(u, x, e, k, b);
    if Occurs(n, u + x) {
      GsubChanges(u + x, k, b);
    } else {
      GsubNone(u + x, n, b);
    }
  }

  lemma SpliceGsub(u: string, x: string, e: string, k: string, b: string)
    requires IsKey(e) && IsKey(k) && e != k && OneMarker(u, e, x, k)
    ensures Gsub(u + (Marker(e) + x), Marker(e), []) == u + x
    ensures Gsub(u + (Marker(e) + x), Marker(k), b) == u + (Marker(e) + x)
  {
    var m := Marker(e);
    var t := u + (m + x);
    MarkerShape(e);
    MarkerShape(k);
    hide Marker;
    GsubFirst(u, m, x, []);
    forall p | 0 <= p < |x| ensures !(m <= x[p..]) {
      assert t[|u| + |m| + p..] == x[p..];
    }
    GsubNone(x, m, []);
    assert [] + Gsub(x, m, []) == x;
    GsubNone(t, Marker(k), b);
  }

  lemma ExpandTwo(t: string, x: string, y: string, all: Decls)
    requires x in all && y in all
    ensures Expand(t, [x, y], all) == Gsub(Gsub(t, Marker(x), all[x]), Marker(y), all[y])
  {
    assert [x, y][1..] == [y];
    assert [y][1..] == [];
    assert Expand(Gsub(t, Marker(x), all[x]), [y], all) == Gsub(Gsub(t, Marker(x), all[x]), Marker(y), all[y]);
  }

  // Such texts exist for any two keys: an empty body in the middle of a marker.
  lemma OrderMatters(e: string, k: string, b: string)
    requires IsKey(e) && IsKey(k) && e != k && IsBody(b)
    ensures var all: Decls := map[e := [], k := b];
      && DeclsOk(all) && NoRepeats([e, k]) && NoRepeats([k, e])
      && exists t :: Expand(t, [e, k], all) != Expand(t, [k, e], all)
  {
    hide Expand, Marker, Occurs, OneMarker, IsKey, IsBody;
    EmptyIsBody();
    var half := HalfOf(k);
    HalvesApart(e, k, half);
    SpliceDecides("#", half, e, k, b);
  }

  lemma EmptyIsBody()
    ensures IsBody([])
  {
  }

  lemma HalfOf(k: string) returns (half: string)
    requires IsKey(k)
    ensures Marker(k) != [] && half == Marker(k)[1..] && Occurs(Marker(k), "#" + half)
  {
    MarkerShape(k);
    half := Marker(k)[1..];
    assert "#" + half == Marker(k);
    assert Marker(k) <= ("#" + half)[0..];
  }

  lemma HalvesApart(e: string, k: string, half: string)
    requires IsKey(e) && IsKey(k) && e != k && half == Marker(k)[1..]
    ensures OneMarker("#", e, half, k)
  {
    var m, n := Marker(e), Marker(k);
    var t := "#" + (m + half);
    MarkerShape(e);
    MarkerShape(k);
    assert forall i :: 0 <= i < |half| ==> half[i] == n[i + 1];
    assert t[1..] == m + half;
    forall p | 0 <= p < |t| ensures (m <= t[p..] ==> p == 1) && !(n <= t[p..]) {
      assert t[p..][0] == t[p];
      if p == 0 {
        assert t[0..][1] == m[0];
      } else if p == 1 && n <= t[p..] {
        MarkersDiffer(t[1..], e, k);
      }
    }
  }
}
