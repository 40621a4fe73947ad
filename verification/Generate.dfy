/**
 codegen.lua from end to end: the variable files on disk and the template make
 the generated file.
 */
module Generate {
  import opened Codegen
  import opened Template
  import opened TextOrder
  import opened Wrappers

  const VAR_FILES := [
    "address_family", "ai_flag", "ipproto", "msg_flags", "ni_flag", "scm_types", "socktype", "sol_levels"
  ]

  predicate IsStem(name: string) {
    forall i :: 0 <= i < |name| ==> 'a' <= name[i] <= 'z' || name[i] == '_'
  }

  function UpperChar(c: char): char {
    if 'a' <= c <= 'z' then c - 'a' + 'A' else c
  }

  function Upper(s: string): string {
    seq(|s|, i requires 0 <= i < |s| => UpperChar(s[i]))
  }

  // The key of a variable file, named without its suffix.
  function Key(name: string): string {
    "GEN_" + Upper(name) + "_DECL"
  }

  // The keys by name, as the template has them.
  lemma KeyNames()
    ensures Key("address_family") == "GEN_ADDRESS_FAMILY_DECL"
    ensures Key("ai_flag") == "GEN_AI_FLAG_DECL"
    ensures Key("ipproto") == "GEN_IPPROTO_DECL"
    ensures Key("msg_flags") == "GEN_MSG_FLAGS_DECL"
    ensures Key("ni_flag") == "GEN_NI_FLAG_DECL"
    ensures Key("scm_types") == "GEN_SCM_TYPES_DECL"
    ensures Key("socktype") == "GEN_SOCKTYPE_DECL"
    ensures Key("sol_levels") == "GEN_SOL_LEVELS_DECL"
  {
    hide Key;
    AddressFamilyKey();
    AiFlagKey();
    IpprotoKey();
    MsgFlagsKey();
    NiFlagKey();
    ScmTypesKey();
    SocktypeKey();
    SolLevelsKey();
  }

  lemma AddressFamilyKey()
    ensures Key("address_family") == "GEN_ADDRESS_FAMILY_DECL"
  {
    UpperIs("address_family", "ADDRESS_FAMILY");
    assert "GEN_" + "ADDRESS_FAMILY" + "_DECL" == "GEN_ADDRESS_FAMILY_DECL";
  }

  lemma AiFlagKey()
    ensures Key("ai_flag") == "GEN_AI_FLAG_DECL"
  {
    UpperIs("ai_flag", "AI_FLAG");
    assert "GEN_" + "AI_FLAG" + "_DECL" == "GEN_AI_FLAG_DECL";
  }

  lemma IpprotoKey()
    ensures Key("ipproto") == "GEN_IPPROTO_DECL"
  {
    UpperIs("ipproto", "IPPROTO");
    assert "GEN_" + "IPPROTO" + "_DECL" == "GEN_IPPROTO_DECL";
  }

  lemma MsgFlagsKey()
    ensures Key("msg_flags") == "GEN_MSG_FLAGS_DECL"
  {
    UpperIs("msg_flags", "MSG_FLAGS");
    assert "GEN_" + "MSG_FLAGS" + "_DECL" == "GEN_MSG_FLAGS_DECL";
  }

  lemma NiFlagKey()
    ensures Key("ni_flag") == "GEN_NI_FLAG_DECL"
  {
    UpperIs("ni_flag", "NI_FLAG");
    assert "GEN_" + "NI_FLAG" + "_DECL" == "GEN_NI_FLAG_DECL";
  }

  lemma ScmTypesKey()
    ensures Key("scm_types") == "GEN_SCM_TYPES_DECL"
  {
    UpperIs("scm_types", "SCM_TYPES");
    assert "GEN_" + "SCM_TYPES" + "_DECL" == "GEN_SCM_TYPES_DECL";
  }

  lemma SocktypeKey()
    ensures Key("socktype") == "GEN_SOCKTYPE_DECL"
  {
    UpperIs("socktype", "SOCKTYPE");
    assert "GEN_" + "SOCKTYPE" + "_DECL" == "GEN_SOCKTYPE_DECL";
  }

  lemma SolLevelsKey()
    ensures Key("sol_levels") == "GEN_SOL_LEVELS_DECL"
  {
    UpperIs("sol_levels", "SOL_LEVELS");
    assert "GEN_" + "SOL_LEVELS" + "_DECL" == "GEN_SOL_LEVELS_DECL";
  }

  lemma UpperIs(s: string, t: string)
    requires |t| == |s| && forall i :: 0 <= i < |s| ==> t[i] == UpperChar(s[i])
    ensures Upper(s) == t
  {
  }

  lemma KeysAreKeys(name: string)
    requires IsStem(name)
    ensures IsKey(Key(name))
  {
  }

  lemma KeysDiffer(a: string, b: string)
    requires IsStem(a) && IsStem(b) && Key(a) == Key(b)
    ensures a == b
  {
    assert |Key(a)| == |a| + 9 && |Key(b)| == |b| + 9;
    forall i | 0 <= i < |a| ensures a[i] == b[i] {
      assert Key(a)[i + 4] == UpperChar(a[i]) && Key(b)[i + 4] == UpperChar(b[i]);
    }
  }

  // The lines of each variable file, by name.
  type Disk = map<string, seq<string>>

  // The declarations that the listed files stand for.
  ghost predicate DeclsOf(decls: Decls, names: seq<string>, disk: Disk) {
    && (forall n :: n in names ==> n in disk && Key(n) in decls && IsBodyOf(decls[Key(n)], disk[n]))
    && (forall k :: k in decls ==> exists n :: n in names && k == Key(n))
  }

  // The text of the sorted, duplicate-free identifiers of the lines.
  ghost predicate IsBodyOf(body: string, lines: seq<string>) {
    exists ids :: Increasing(ids) && (forall d :: d in ids <==> d in lines) && body == Body(ids)
  }

  datatype Listing = Missing(name: string) | BadLine(line: string) | Found(decls: Decls)

  predicate BadFile(n: string, disk: Disk) {
    n !in disk || exists i :: 0 <= i < |disk[n]| && !IsIdentifier(disk[n][i])
  }

  // The first file that cannot be used decides the error: it is missing, or a line of
  // it is the first that is no identifier.
  ghost predicate FirstFailure(names: seq<string>, disk: Disk, i: nat, why: Listing) {
    && i < |names| && (forall j :: 0 <= j < i ==> !BadFile(names[j], disk))
    && if names[i] !in disk then why == Missing(names[i])
       else exists k: nat :: FirstBad(disk[names[i]], k) && why == BadLine(disk[names[i]][k])
  }

  // load_decls: one body a file, under the file's key.
  method LoadAll(names: seq<string>, disk: Disk) returns (r: Listing)
    requires NoRepeats(names) && forall n :: n in names ==> IsStem(n)
    ensures r.Found? <==> forall n :: n in names ==> !BadFile(n, disk)
    ensures r.Found? ==> DeclsOf(r.decls, names, disk) && DeclsOk(r.decls)
    ensures !r.Found? ==> exists i: nat :: FirstFailure(names, disk, i, r)
  {
    var decls: Decls := map[];
    var i := 0;
    assert DeclsOf(decls, names[..0], disk) && DeclsOk(decls);
    hide DeclsOf, DeclsOk, Key, IsStem, NoRepeats, IsBodyOf, FirstFailure, BadFile;
    while i < |names|
      invariant 0 <= i <= |names| && DeclsOf(decls, names[..i], disk) && DeclsOk(decls)
      invariant forall j :: 0 <= j < i ==> !BadFile(names[j], disk)
    {
      var n := names[i];
      assert n in names;
      if n !in disk {
        FileMissing(names, disk, i);
        return Missing(n);
      }
      var f := LoadDecls(disk[n]);
      if f.Invalid? {
        FileInvalid(names, disk, i, f.line);
        return BadLine(f.line);
      }
      FileFine(n, disk);
      OneMoreFile(decls, names, i, disk, f.ids, f.body);
      decls := decls[Key(n) := f.body];
      i := i + 1;
    }
    assert names[..i] == names;
    r := Found(decls);
  }

  lemma FileMissing(names: seq<string>, disk: Disk, i: nat)
    requires i < |names| && (forall j :: 0 <= j < i ==> !BadFile(names[j], disk)) && names[i] !in disk
    ensures BadFile(names[i], disk) && FirstFailure(names, disk, i, Missing(names[i]))
  {
  }

  lemma FileInvalid(names: seq<string>, disk: Disk, i: nat, line: string)
    requires i < |names| && (forall j :: 0 <= j < i ==> !BadFile(names[j], disk)) && names[i] in disk
    requires exists k: nat :: FirstBad(disk[names[i]], k) && line == disk[names[i]][k]
    ensures BadFile(names[i], disk) && FirstFailure(names, disk, i, BadLine(line))
  {
  }

  lemma FileFine(n: string, disk: Disk)
    requires n in disk && forall i :: 0 <= i < |disk[n]| ==> IsIdentifier(disk[n][i])
    ensures !BadFile(n, disk)
  {
  }

  lemma OneMoreFile(decls: Decls, names: seq<string>, i: nat, disk: Disk, ids: seq<string>, body: string)
    requires i < |names| && NoRepeats(names) && (forall n :: n in names ==> IsStem(n)) && names[i] in disk
    requires DeclsOf(decls, names[..i], disk) && DeclsOk(decls)
    requires Increasing(ids) && (forall d :: d in ids <==> d in disk[names[i]]) && body == Body(ids)
    requires forall d :: d in ids ==> IsIdentifier(d)
    ensures DeclsOf(decls[Key(names[i]) := body], names[..i + 1], disk) && DeclsOk(decls[Key(names[i]) := body])
  {
    var n := names[i];
    KeysAreKeys(n);
    BodiesAreBodies(ids);
    assert IsBodyOf(body, disk[n]);
    NewKey(names, i);
    hide IsBodyOf, Key, DeclsOf, IsKey, NoRepeats, Increasing;
    assert names[..i + 1] == names[..i] + [n];
    AddDecl(decls, names[..i], n, body, disk);
  }

  lemma NewKey(names: seq<string>, i: nat)
    requires i < |names| && NoRepeats(names) && forall n :: n in names ==> IsStem(n)
    ensures forall a :: a in names[..i] ==> Key(a) != Key(names[i])
  {
    hide IsStem, Key;
    forall a | a in names[..i] ensures Key(a) != Key(names[i]) {
      if Key(a) == Key(names[i]) {
        KeysDiffer(a, names[i]);
      }
    }
  }

  lemma AddDecl(decls: Decls, names: seq<string>, n: string, body: string, disk: Disk)
    requires DeclsOf(decls, names, disk) && n in disk && IsBodyOf(body, disk[n])
    requires forall a :: a in names ==> Key(a) != Key(n)
    ensures DeclsOf(decls[Key(n) := body], names + [n], disk)
  {
  }

  // ----- determinism -----

  // Two disks that list the same identifiers.
  ghost predicate SameLists(names: seq<string>, disk1: Disk, disk2: Disk) {
    forall n, d :: n in names && n in disk1 && n in disk2 ==> (d in disk1[n] <==> d in disk2[n])
  }

  lemma BodyIsUnique(body1: string, lines1: seq<string>, body2: string, lines2: seq<string>)
    requires IsBodyOf(body1, lines1) && IsBodyOf(body2, lines2) && forall d :: d in lines1 <==> d in lines2
    ensures body1 == body2
  {
    var ids1 :| Increasing(ids1) && (forall d :: d in ids1 <==> d in lines1) && body1 == Body(ids1);
    var ids2 :| Increasing(ids2) && (forall d :: d in ids2 <==> d in lines2) && body2 == Body(ids2);
    IncreasingIsUnique(ids1, ids2);
  }

  lemma DeclsAreCanonical(names: seq<string>, disk1: Disk, disk2: Disk, decls1: Decls, decls2: Decls)
    requires SameLists(names, disk1, disk2)
    requires DeclsOf(decls1, names, disk1) && DeclsOf(decls2, names, disk2)
    ensures decls1 == decls2
  {
    hide IsBodyOf, Key;
    forall k | k in decls1 ensures k in decls2 && decls1[k] == decls2[k] {
      var n :| n in names && k == Key(n);
      BodyIsUnique(decls1[k], disk1[n], decls2[k], disk2[n]);
    }
    forall k | k in decls2 ensures k in decls1 {
      var n :| n in names && k == Key(n);
    }
  }

  // The generated file depends on the template and on which identifiers each file
  // lists: not on the order or repetition of lines, nor on the orders of pairs.
  lemma GeneratedFileIsDeterministic(template: string, names: seq<string>, disk1: Disk, disk2: Disk,
                                     decls1: Decls, decls2: Decls, order1: seq<string>, order2: seq<string>)
    requires SameLists(names, disk1, disk2)
    requires DeclsOf(decls1, names, disk1) && DeclsOf(decls2, names, disk2) && DeclsOk(decls1)
    requires WholeLines(template, decls1)
    requires NoRepeats(order1) && forall k :: k in decls1 <==> k in order1
    requires NoRepeats(order2) && forall k :: k in decls2 <==> k in order2
    ensures decls2 == decls1
    ensures Expand(template, order1, decls1) == Expand(template, order2, decls2) == ExpandText(template, decls1)
  {
    DeclsAreCanonical(names, disk1, disk2, decls1, decls2);
    GeneratedText(template, order1, decls1);
    GeneratedText(template, order2, decls2);
  }

  datatype Result = NoDecls(why: Listing) | NoTemplate | NotWritten | Written(text: string)

  // A key has the declarations of its own file, and they stand for its line of the template.
  ghost predicate Filled(decls: Decls, disk: Disk, key: string, file: string) {
    && key in decls && file in disk && IsBodyOf(decls[key], disk[file])
    && ExpandLine("#define " + key + "\n", decls) == decls[key]
  }

  // Exactly these eight keys are filled, each from its own file.
  ghost predicate AllFilled(decls: Decls, disk: Disk) {
    && Filled(decls, disk, "GEN_ADDRESS_FAMILY_DECL", "address_family")
    && Filled(decls, disk, "GEN_AI_FLAG_DECL", "ai_flag")
    && Filled(decls, disk, "GEN_IPPROTO_DECL", "ipproto")
    && Filled(decls, disk, "GEN_MSG_FLAGS_DECL", "msg_flags")
    && Filled(decls, disk, "GEN_NI_FLAG_DECL", "ni_flag")
    && Filled(decls, disk, "GEN_SCM_TYPES_DECL", "scm_types")
    && Filled(decls, disk, "GEN_SOCKTYPE_DECL", "socktype")
    && Filled(decls, disk, "GEN_SOL_LEVELS_DECL", "sol_levels")
    && forall key :: key in decls ==>
         || key == "GEN_ADDRESS_FAMILY_DECL"
         || key == "GEN_AI_FLAG_DECL"
         || key == "GEN_IPPROTO_DECL"
         || key == "GEN_MSG_FLAGS_DECL"
         || key == "GEN_NI_FLAG_DECL"
         || key == "GEN_SCM_TYPES_DECL"
         || key == "GEN_SOCKTYPE_DECL"
         || key == "GEN_SOL_LEVELS_DECL"
  }

  lemma OwnFiles(decls: Decls, disk: Disk)
    requires DeclsOf(decls, VAR_FILES, disk) && DeclsOk(decls)
    ensures AllFilled(decls, disk)
  {
    hide Key, DeclsOf, DeclsOk, Filled;
    KeyNames();
    OwnFile(decls, disk, 0, "address_family");
    OwnFile(decls, disk, 1, "ai_flag");
    OwnFile(decls, disk, 2, "ipproto");
    OwnFile(decls, disk, 3, "msg_flags");
    OwnFile(decls, disk, 4, "ni_flag");
    OwnFile(decls, disk, 5, "scm_types");
    OwnFile(decls, disk, 6, "socktype");
    OwnFile(decls, disk, 7, "sol_levels");
    forall key | key in decls ensures exists i :: 0 <= i < 8 && key == Key(VAR_FILES[i]) {
      KeyOfSome(decls, disk, key);
    }
  }

  lemma OwnFile(decls: Decls, disk: Disk, i: nat, file: string)
    requires DeclsOf(decls, VAR_FILES, disk) && DeclsOk(decls) && i < 8 && VAR_FILES[i] == file
    ensures Filled(decls, disk, Key(file), file)
  {
    hide Key, IsBodyOf;
    assert VAR_FILES[i] in VAR_FILES;
    MarkerBecomesBody(decls, Key(file));
  }

  lemma KeyOfSome(decls: Decls, disk: Disk, key: string)
    requires DeclsOf(decls, VAR_FILES, disk) && key in decls
    ensures exists i :: 0 <= i < 8 && key == Key(VAR_FILES[i])
  {
    hide Key, IsBodyOf;
    var n :| n in VAR_FILES && key == Key(n);
    var i :| 0 <= i < |VAR_FILES| && VAR_FILES[i] == n;
  }

  // codegen.lua's main chunk. The template is None when it cannot be read; writable
  // says whether the output file can be opened.
  method GenerateFile(template: Option<string>, writable: bool, disk: Disk)
    returns (r: Result, ghost decls: Decls, ghost order: seq<string>)
    ensures r.NoDecls? <==> exists n :: n in VAR_FILES && BadFile(n, disk)
    ensures r.NoTemplate? <==> (forall n :: n in VAR_FILES ==> !BadFile(n, disk)) && template.None?
    ensures r.Written? <==> (forall n :: n in VAR_FILES ==> !BadFile(n, disk)) && template.Some? && writable
    ensures r.NoDecls? ==> exists i: nat :: FirstFailure(VAR_FILES, disk, i, r.why)
    ensures r.Written? ==> DeclsOf(decls, VAR_FILES, disk) && DeclsOk(decls) && AllFilled(decls, disk)
    ensures r.Written? ==> NoRepeats(order) && forall k :: k in decls <==> k in order
    ensures r.Written? ==> r.text == Expand(template.value, order, decls)
    ensures r.Written? && WholeLines(template.value, decls) ==> r.text == ExpandText(template.value, decls)
  {
    hide AllFilled, DeclsOf, DeclsOk;
    decls, order := map[], [];
    var l := LoadAll(VAR_FILES, disk);
    if !l.Found? {
      return NoDecls(l), decls, order;
    }
    if template.None? {
      return NoTemplate, decls, order;
    }
    decls := l.decls;
    OwnFiles(decls, disk);
    var text;
    text, order := ExpandTemplate(template.value, l.decls);
    if WholeLines(template.value, decls) {
      GeneratedText(template.value, order, decls);
    }
    r := if writable then Written(text) else NotWritten;
  }
}
