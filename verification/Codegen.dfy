/**
 codegen.lua: symbol lists become C declarations, and the declarations replace
 the markers of a template, one key after another in the order of pairs.
 */
module Codegen {
  import opened TextOrder

  // ----- bodies -----

  predicate IsWordChar(c: char) {
    'a' <= c <= 'z' || 'A' <= c <= 'Z' || '0' <= c <= '9' || c == '_'
  }

  // By code: the letters, the digits and the underscore of ASCII, and no other.
  lemma WordChars(c: char)
    ensures IsWordChar(c) <==>
      65 <= c as int <= 90 || 97 <= c as int <= 122 || 48 <= c as int <= 57 || c as int == 95
  {
  }

  predicate IsIdentifier(s: string) {
    s != [] && forall i :: 0 <= i < |s| ==> IsWordChar(s[i])
  }

  const OPENING := "#ifdef "
  const MIDDLE := "\n    lauxh_pushint2tbl( L, \""
  const COMMA := "\", "
  const CLOSING := " );\n#endif\n\n"

  // One entry of the generated file.
  function Declaration(d: string): string {
    OPENING + d + MIDDLE + d + COMMA + d + CLOSING
  }

  function Body(ids: seq<string>): string {
    if ids == [] then "" else Declaration(ids[0]) + Body(ids[1..])
  }

  // Line by line: a guard, the call with the name as text and as value, the end of
  // the guard, an empty line.
  lemma DeclarationLines(d: string)
    ensures Declaration(d) ==
      ("#ifdef " + d + "\n") + ("    lauxh_pushint2tbl( L, \"" + d + "\", " + d + " );\n") + "#endif\n" + "\n"
  {
    assert MIDDLE == "\n" + "    lauxh_pushint2tbl( L, \"";
    assert CLOSING == " );\n" + "#endif\n" + "\n";
  }

  // The declarations follow one another: the i-th identifier's begins where those of
  // the identifiers before it end.
  lemma {:induction false} BodyHolds(ids: seq<string>, i: nat)
    requires i < |ids|
    ensures Body(ids) == Body(ids[..i]) + Declaration(ids[i]) + Body(ids[i + 1..])
  {
    hide Declaration;
    if i == 0 {
      assert Body(ids[..0]) == "";
    } else {
      BodyHolds(ids[1..], i - 1);
      assert ids[1..][..i - 1] == ids[..i][1..] && ids[1..][i..] == ids[i + 1..];
    }
  }

  // The first line that is no identifier.
  predicate FirstBad(lines: seq<string>, i: nat) {
    i < |lines| && !IsIdentifier(lines[i]) && forall j :: 0 <= j < i ==> IsIdentifier(lines[j])
  }

  datatype Loaded = Invalid(line: string) | Loaded(ids: seq<string>, body: string)

  // load_decls for one file. The order in which pairs lists `seen` is arbitrary.
  method LoadDecls(lines: seq<string>) returns (r: Loaded)
    ensures r.Invalid? <==> exists i :: 0 <= i < |lines| && !IsIdentifier(lines[i])
    ensures r.Invalid? ==> exists i: nat :: FirstBad(lines, i) && r.line == lines[i]
    ensures r.Loaded? ==> Increasing(r.ids) && (forall d :: d in r.ids <==> d in lines)
    ensures r.Loaded? ==> r.body == Body(r.ids)
  {
    var seen: set<string> := {};
    var i := 0;
    while i < |lines|
      invariant 0 <= i <= |lines|
      invariant forall d :: d in seen <==> d in lines[..i]
      invariant forall j :: 0 <= j < i ==> IsIdentifier(lines[j])
    {
      if !IsIdentifier(lines[i]) {
        assert FirstBad(lines, i);
        return Invalid(lines[i]);
      }
      seen := seen + {lines[i]};
      i := i + 1;
    }
    assert lines[..i] == lines;
    var arr: seq<string> := [];
    var rest := seen;
    while rest != {}
      invariant rest <= seen && Increasing(arr)
      invariant forall d :: d in arr <==> d in seen && d !in rest
      decreases rest
    {
      var d :| d in rest;
      arr := Insert(arr, d);
      rest := rest - {d};
    }
    var body := "";
    var k := 0;
    while k < |arr|
      invariant 0 <= k <= |arr|
      invariant body + Body(arr[k..]) == Body(arr)
    {
      assert arr[k..][1..] == arr[k + 1..];
      body := body + Declaration(arr[k]);
      k := k + 1;
    }
    assert arr[k..] == [];
    r := Loaded(arr, body);
  }

  // The body is canonical: it depends on which identifiers the file lists, not on
  // their order or repetition, nor on the order pairs happened to use.
  lemma BodyIsCanonical(lines1: seq<string>, lines2: seq<string>, ids1: seq<string>, ids2: seq<string>)
    requires forall d :: d in lines1 <==> d in lines2
    requires Increasing(ids1) && forall d :: d in ids1 <==> d in lines1
    requires Increasing(ids2) && forall d :: d in ids2 <==> d in lines2
    ensures ids1 == ids2 && Body(ids1) == Body(ids2)
  {
    IncreasingIsUnique(ids1, ids2);
  }

  // ----- markers and substitution -----

  function Marker(key: string): string {
    "#define " + key + "\n"
  }

  // The shape of the keys: GEN_ and _DECL around an upper-case file name.
  predicate IsKey(key: string) {
    forall i :: 0 <= i < |key| ==> IsWordChar(key[i])
  }

  // string.gsub with a literal pattern and a literal replacement, left to right.
  function Gsub(s: string, m: string, v: string): string
    requires m != []
  {
    if s == [] then []
    else if m <= s then v + Gsub(s[|m|..], m, v)
    else [s[0]] + Gsub(s[1..], m, v)
  }

  // '#' opens a body and is never followed by the rest of a marker inside one.
  predicate IsBody(b: string) {
    && (b != [] ==> b[0] == '#')
    && forall i :: 0 <= i < |b| && b[i] == '#' ==> i + 1 < |b| && b[i + 1] != 'd'
  }

  lemma DeclarationIsBody(d: string)
    requires IsIdentifier(d)
    ensures IsBody(Declaration(d)) && Declaration(d) != [] && '%' !in Declaration(d)
  {
    var e := Declaration(d);
    var p1 := |OPENING| + |d|;
    var p2 := p1 + |MIDDLE| + |d|;
    var p3 := p2 + |COMMA| + |d|;
    forall i | 0 <= i < |e|
      ensures e[i] == '#' ==> i + 1 < |e| && e[i + 1] != 'd'
      ensures e[i] != '%'
    {
      assert |OPENING| <= i < p1 ==> e[i] == d[i - |OPENING|];
      assert p1 + |MIDDLE| <= i < p2 ==> e[i] == d[i - p1 - |MIDDLE|];
      assert p2 + |COMMA| <= i < p3 ==> e[i] == d[i - p2 - |COMMA|];
      assert i < |OPENING| ==> e[i] == OPENING[i];
      assert p1 <= i < p1 + |MIDDLE| ==> e[i] == MIDDLE[i - p1];
      assert p2 <= i < p2 + |COMMA| ==> e[i] == COMMA[i - p2];
      assert p3 <= i ==> e[i] == CLOSING[i - p3];
    }
  }

  // Generated bodies are literal replacements and hold no marker.
  lemma {:induction false} BodiesAreBodies(ids: seq<string>)
    requires forall i :: 0 <= i < |ids| ==> IsIdentifier(ids[i])
    ensures IsBody(Body(ids)) && '%' !in Body(ids)
    ensures Body(ids) == [] <==> ids == []
  {
    if ids != [] {
      DeclarationIsBody(ids[0]);
      BodiesAreBodies(ids[1..]);
    }
  }
}
