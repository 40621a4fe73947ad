/**
 The part of Lua's C API that the modules use on tables: a stack of values, and
 tables that live in the state and are updated in place. Indices are the API's:
 positive ones count from the bottom starting at 1, negative ones from the top.
 */
module LuaTables {

  datatype Value = Nil | Flag(b: bool) | Num(n: int) | Str(s: string) | Errno(code: int) | Ref(id: nat)

  type Fields = map<string, Value>

  // A table: its string keys, and its items 1 to |items|.
  datatype Table = Table(fields: Fields, items: seq<Value>)

  function Field(t: Table, key: string): Value {
    if key in t.fields then t.fields[key] else Nil
  }

  // The value under a key of the table v, nil when v is no table.
  function Lookup(tables: seq<Table>, v: Value, key: string): Value {
    if IsRef(tables, v) then Field(tables[v.id], key) else Nil
  }

  function One(key: string, v: Value): Fields {
    map[key := v]
  }

  // Table id with more fields.
  function WithFields(tables: seq<Table>, id: nat, more: Fields): seq<Table>
    requires id < |tables|
  {
    tables[id := tables[id].(fields := tables[id].fields + more)]
  }

  // A new table under a key of table id.
  function Made(tables: seq<Table>, id: nat, key: string): seq<Table>
    requires id < |tables|
  {
    var t := tables[id];
    (tables + [Table(map[], [])])[id := t.(fields := t.fields[key := Ref(|tables|)])]
  }

  // A new table with the given fields as the last item of table id.
  function Appended(tables: seq<Table>, id: nat, fields: Fields): seq<Table>
    requires id < |tables|
  {
    var t := tables[id];
    (tables + [Table(fields, [])])[id := t.(items := t.items + [Ref(|tables|)])]
  }

  lemma WithNoFields(tables: seq<Table>, id: nat)
    requires id < |tables|
    ensures WithFields(tables, id, map[]) == tables
  {
    assert tables[id].fields + map[] == tables[id].fields;
  }

  lemma WithFieldsTwice(tables: seq<Table>, id: nat, f: Fields, g: Fields)
    requires id < |tables|
    ensures WithFields(WithFields(tables, id, f), id, g) == WithFields(tables, id, f + g)
  {
    assert tables[id].fields + f + g == tables[id].fields + (f + g);
  }

  predicate IsRef(tables: seq<Table>, v: Value) {
    v.Ref? && v.id < |tables|
  }

  class LuaState {
    var stack: seq<Value>
    var tables: seq<Table>

    constructor ()
      ensures stack == [] && tables == []
    {
      stack, tables := [], [];
    }

    predicate ValidIndex(i: int)
      reads this`stack
    {
      0 < i <= |stack| || 0 < -i <= |stack|
    }

    function At(i: int): (v: Value)
      requires ValidIndex(i)
      reads this`stack
    {
      if i > 0 then stack[i - 1] else stack[|stack| + i]
    }

    predicate IsTable(i: int)
      reads this
    {
      ValidIndex(i) && IsRef(tables, At(i))
    }

    method Push(v: Value)
      modifies this`stack
      ensures stack == old(stack) + [v]
    {
      stack := stack + [v];
    }

    method Pop(n: nat)
      requires n <= |stack|
      modifies this`stack
      ensures stack == old(stack)[..|old(stack)| - n]
    {
      stack := stack[..|stack| - n];
    }

    // lua_newtable
    method NewTable()
      modifies this
      ensures tables == old(tables) + [Table(map[], [])]
      ensures stack == old(stack) + [Ref(|old(tables)|)]
    {
      tables := tables + [Table(map[], [])];
      stack := stack + [Ref(|tables| - 1)];
    }

    // lua_rawget: the key on top is replaced by its value in the table.
    method RawGet(i: int)
      requires IsTable(i) && At(-1).Str?
      modifies this`stack
      ensures stack == old(stack)[..|old(stack)| - 1] + [Field(tables[old(At(i)).id], old(At(-1)).s)]
    {
      var v := Field(tables[At(i).id], At(-1).s);
      stack := stack[..|stack| - 1] + [v];
    }

    // lua_rawset: the value on top is stored under the key below it.
    method RawSet(i: int)
      requires IsTable(i) && |stack| >= 2 && At(-2).Str? && !At(-1).Nil?
      modifies this
      ensures stack == old(stack)[..|old(stack)| - 2]
      ensures var id := old(At(i)).id;
        var t := old(tables)[id];
        tables == old(tables)[id := t.(fields := t.fields[old(At(-2)).s := old(At(-1))])]
    {
      var id := At(i).id;
      var t := tables[id];
      tables := tables[id := t.(fields := t.fields[At(-2).s := At(-1)])];
      stack := stack[..|stack| - 2];
    }

    // lua_rawseti at index lua_rawlen + 1: the value on top is appended.
    method Append(i: int)
      requires IsTable(i) && !At(-1).Nil?
      modifies this
      ensures stack == old(stack)[..|old(stack)| - 1]
      ensures var id := old(At(i)).id;
        var t := old(tables)[id];
        tables == old(tables)[id := t.(items := t.items + [old(At(-1))])]
    {
      var id := At(i).id;
      var t := tables[id];
      tables := tables[id := t.(items := t.items + [At(-1)])];
      stack := stack[..|stack| - 1];
    }

    // The lauxh_push...2tbl helpers: one field of the table on top.
    method SetField(key: string, v: Value)
      requires IsTable(-1) && !v.Nil?
      modifies this
      ensures stack == old(stack)
      ensures tables == WithFields(old(tables), old(At(-1)).id, One(key, v))
    {
      ghost var t := tables[At(-1).id];
      assert t.fields[key := v] == t.fields + One(key, v);
      Push(Str(key));
      Push(v);
      RawSet(-3);
    }
  }
}
