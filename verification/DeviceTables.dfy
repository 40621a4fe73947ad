/**
 getifaddrs_lua on the Lua stack: tables are found or created by absolute stack
 index, filled in place, and popped, so that every round of the loop leaves the
 stack as it found it.
 */
module DeviceTables {
  import opened Device
  import opened LuaTables
  import opened Wrappers

  // ----- tables that show a grouping -----

  // What a table is for. Tables of different roles are different tables.
  datatype Role = Outside | Result | OfIface(name: string) | OfList(name: string, key: string) | OfAddress

  ghost predicate ShowsAddress(tables: seq<Table>, roles: seq<Role>, v: Value, address: Fields)
    requires |roles| == |tables|
  {
    IsRef(tables, v) && roles[v.id] == OfAddress && tables[v.id] == Table(address, [])
  }

  ghost predicate ShowsList(tables: seq<Table>, roles: seq<Role>, v: Value, name: string, key: string, l: seq<Fields>)
    requires |roles| == |tables|
  {
    && IsRef(tables, v) && roles[v.id] == OfList(name, key)
    && var t := tables[v.id];
    && t.fields == map[] && |t.items| == |l|
    && forall j :: 0 <= j < |l| ==> ShowsAddress(tables, roles, t.items[j], l[j])
  }

  ghost predicate ShowsIface(tables: seq<Table>, roles: seq<Role>, v: Value, name: string, i: Iface)
    requires |roles| == |tables|
  {
    && IsRef(tables, v) && roles[v.id] == OfIface(name)
    && var t := tables[v.id];
    && t.items == [] && t.fields.Keys == i.attrs.Keys + i.lists.Keys
    && i.attrs.Keys !! LISTS && i.lists.Keys <= LISTS
    && (forall a :: a in i.attrs ==> t.fields[a] == i.attrs[a])
    && (forall k :: k in i.lists ==> ShowsList(tables, roles, t.fields[k], name, k, i.lists[k]))
  }

  // The table `root` and what it reaches are the grouping m, without sharing.
  ghost predicate Shows(tables: seq<Table>, roles: seq<Role>, root: nat, m: Interfaces) {
    && |roles| == |tables| && root < |tables| && roles[root] == Result
    && tables[root].items == [] && tables[root].fields.Keys == m.Keys
    && forall n :: n in m ==> ShowsIface(tables, roles, tables[root].fields[n], n, m[n])
  }

  // Only table x changed, and tables were added.
  ghost predicate Except(tables: seq<Table>, roles: seq<Role>, after: seq<Table>, roles2: seq<Role>, x: nat) {
    && |roles| == |tables| && |roles2| == |after| && |tables| <= |after|
    && (forall k :: 0 <= k < |tables| ==> roles2[k] == roles[k])
    && forall k :: 0 <= k < |tables| && k != x ==> after[k] == tables[k]
  }

  lemma ListStays(tables: seq<Table>, roles: seq<Role>, after: seq<Table>, roles2: seq<Role>, x: nat,
                  v: Value, name: string, key: string, l: seq<Fields>)
    requires Except(tables, roles, after, roles2, x) && ShowsList(tables, roles, v, name, key, l)
    requires x < |tables| ==> roles[x] != OfAddress && x != v.id
    ensures ShowsList(after, roles2, v, name, key, l)
  {
  }

  lemma IfaceStays(tables: seq<Table>, roles: seq<Role>, after: seq<Table>, roles2: seq<Role>, x: nat,
                   v: Value, name: string, i: Iface)
    requires Except(tables, roles, after, roles2, x) && ShowsIface(tables, roles, v, name, i)
    requires x < |tables| ==> roles[x] != OfAddress && x != v.id && !(roles[x].OfList? && roles[x].name == name)
    ensures ShowsIface(after, roles2, v, name, i)
  {
  }

  // A change that stays within one interface.
  lemma OneIface(tables: seq<Table>, roles: seq<Role>, after: seq<Table>, roles2: seq<Role>, x: nat,
                 root: nat, m: Interfaces, name: string, i: Iface)
    requires Except(tables, roles, after, roles2, x) && Shows(tables, roles, root, m) && name in m
    requires x < |tables| ==> roles[x] == OfIface(name) || (roles[x].OfList? && roles[x].name == name)
    requires ShowsIface(after, roles2, tables[root].fields[name], name, i)
    ensures Shows(after, roles2, root, m[name := i])
  {
    hide ShowsIface;
    RefShown(after, roles2, tables[root].fields[name], name, i);
    forall n | n in m && n != name ensures ShowsIface(after, roles2, tables[root].fields[n], n, m[n]) {
      RefShown(tables, roles, tables[root].fields[n], n, m[n]);
      IfaceStays(tables, roles, after, roles2, x, tables[root].fields[n], n, m[n]);
    }
  }

  // ----- each change -----

  lemma IfaceCreated(tables: seq<Table>, roles: seq<Role>, root: nat, m: Interfaces, name: string)
    requires Shows(tables, roles, root, m) && name !in m
    ensures Shows(Made(tables, root, name), roles + [OfIface(name)], root, m[name := Iface(map[], map[])])
  {
    hide ShowsList, ShowsIface;
    var t, after := tables[root], Made(tables, root, name);
    var roles2 := roles + [OfIface(name)];
    assert Except(tables, roles, after, roles2, root);
    NoIfaceYet(after, roles2, |tables|, name);
    forall n | n in m ensures ShowsIface(after, roles2, t.fields[n], n, m[n]) {
      RefShown(tables, roles, t.fields[n], n, m[n]);
      IfaceStays(tables, roles, after, roles2, root, t.fields[n], n, m[n]);
    }
  }

  lemma NoIfaceYet(tables: seq<Table>, roles: seq<Role>, id: nat, name: string)
    requires id < |tables| == |roles| && tables[id] == Table(map[], []) && roles[id] == OfIface(name)
    ensures ShowsIface(tables, roles, Ref(id), name, Iface(map[], map[]))
  {
  }

  lemma AttrsAdded(tables: seq<Table>, roles: seq<Role>, root: nat, m: Interfaces, name: string, own: Fields)
    requires Shows(tables, roles, root, m) && name in m && own.Keys !! LISTS
    ensures var id := tables[root].fields[name].id;
      Shows(WithFields(tables, id, own), roles, root, m[name := m[name].(attrs := m[name].attrs + own)])
  {
    var v := tables[root].fields[name];
    var t := tables[v.id];
    var after := tables[v.id := t.(fields := t.fields + own)];
    IfaceGainsAttrs(tables, roles, v, name, m[name], own);
    assert Except(tables, roles, after, roles, v.id) && roles[v.id] == OfIface(name);
    hide ShowsIface;
    OneIface(tables, roles, after, roles, v.id, root, m, name, m[name].(attrs := m[name].attrs + own));
  }

  lemma IfaceGainsAttrs(tables: seq<Table>, roles: seq<Role>, v: Value, name: string, i: Iface, own: Fields)
    requires |roles| == |tables| && ShowsIface(tables, roles, v, name, i) && own.Keys !! LISTS
    ensures var after := tables[v.id := tables[v.id].(fields := tables[v.id].fields + own)];
      ShowsIface(after, roles, v, name, i.(attrs := i.attrs + own))
  {
  }

  lemma ListCreated(tables: seq<Table>, roles: seq<Role>, root: nat, m: Interfaces, name: string, key: string)
    requires Shows(tables, roles, root, m) && name in m && key in LISTS && key !in m[name].lists
    ensures var after := Made(tables, tables[root].fields[name].id, key);
      Shows(after, roles + [OfList(name, key)], root, m[name := m[name].(lists := m[name].lists[key := []])])
  {
    var v, more := tables[root].fields[name], m[name].(lists := m[name].lists[key := []]);
    var t, after := tables[v.id], Made(tables, v.id, key);
    var roles2 := roles + [OfList(name, key)];
    IfaceGainsList(tables, roles, v, name, m[name], key);
    assert Except(tables, roles, after, roles2, v.id) && roles[v.id] == OfIface(name);
    hide ShowsIface;
    OneIface(tables, roles, after, roles2, v.id, root, m, name, more);
  }

  lemma IfaceGainsList(tables: seq<Table>, roles: seq<Role>, v: Value, name: string, i: Iface, key: string)
    requires |roles| == |tables| && ShowsIface(tables, roles, v, name, i) && key in LISTS && key !in i.lists
    ensures ShowsIface(Made(tables, v.id, key), roles + [OfList(name, key)], v, name, i.(lists := i.lists[key := []]))
  {
  }

  lemma RefShown(tables: seq<Table>, roles: seq<Role>, v: Value, name: string, i: Iface)
    requires |roles| == |tables| && ShowsIface(tables, roles, v, name, i)
    ensures IsRef(tables, v) && roles[v.id] == OfIface(name)
  {
  }

  // An address table that nothing refers to yet is appended to the list w.
  lemma AddressAppended(tables: seq<Table>, roles: seq<Role>, root: nat, m: Interfaces, name: string, key: string,
                        address: Fields, w: Value)
    requires Shows(tables, roles, root, m) && name in m && key in m[name].lists
    requires w == Lookup(tables, Lookup(tables, Ref(root), name), key)
    ensures IsRef(tables, w) && roles[w.id] == OfList(name, key)
    ensures var after := m[name := AddAddress(m[name], key, address)];
      Shows(Appended(tables, w.id, address), roles + [OfAddress], root, after)
  {
    hide ShowsList, AddAddress, ShowsIface;
    var v := tables[root].fields[name];
    assert ShowsIface(tables, roles, v, name, m[name]);
    RefShown(tables, roles, v, name, m[name]);
    IfaceGainsAddress(tables, roles, v, name, m[name], key, address, w);
    var after := Appended(tables, w.id, address);
    assert Except(tables, roles, after, roles + [OfAddress], w.id);
    hide Appended, Except, Shows;
    OneIface(tables, roles, after, roles + [OfAddress], w.id, root, m, name, AddAddress(m[name], key, address));
  }

  lemma IfaceGainsAddress(tables: seq<Table>, roles: seq<Role>, v: Value, name: string, i: Iface, key: string,
                          address: Fields, w: Value)
    requires |roles| == |tables| && ShowsIface(tables, roles, v, name, i) && key in i.lists
    requires w == Lookup(tables, v, key)
    ensures IsRef(tables, w) && roles[w.id] == OfList(name, key)
    ensures ShowsIface(Appended(tables, w.id, address), roles + [OfAddress], v, name, AddAddress(i, key, address))
  {
    hide ShowsList, Appended;
    assert ShowsList(tables, roles, w, name, key, i.lists[key]);
    ListShown(tables, roles, w, name, key, i.lists[key]);
    AppendedOnly(tables, roles, v.id, w.id, address);
    var t, after, roles2 := tables[v.id], Appended(tables, w.id, address), roles + [OfAddress];
    forall k | k in i.lists && k != key ensures ShowsList(after, roles2, t.fields[k], name, k, i.lists[k]) {
      ListShown(tables, roles, t.fields[k], name, k, i.lists[k]);
      ListStays(tables, roles, after, roles2, w.id, t.fields[k], name, k, i.lists[k]);
    }
    ListGains(tables, roles, w, name, key, i.lists[key], address);
  }

  lemma ListShown(tables: seq<Table>, roles: seq<Role>, v: Value, name: string, key: string, l: seq<Fields>)
    requires |roles| == |tables| && ShowsList(tables, roles, v, name, key, l)
    ensures IsRef(tables, v) && roles[v.id] == OfList(name, key)
  {
  }

  // Appending to table w changes neither another table nor what a table is for.
  lemma AppendedOnly(tables: seq<Table>, roles: seq<Role>, v: nat, w: nat, address: Fields)
    requires |roles| == |tables| && v < |tables| && w < |tables| && v != w
    ensures var after := Appended(tables, w, address);
      |after| == |tables| + 1 && after[v] == tables[v] && Except(tables, roles, after, roles + [OfAddress], w)
  {
  }

  lemma ListGains(tables: seq<Table>, roles: seq<Role>, w: Value, name: string, key: string, l: seq<Fields>,
                  address: Fields)
    requires |roles| == |tables| && ShowsList(tables, roles, w, name, key, l)
    ensures ShowsList(Appended(tables, w.id, address), roles + [OfAddress], w, name, key, l + [address])
  {
  }

  // Tables that stood outside the result are as they were.
  ghost predicate Untouched(before: seq<Table>, roles: seq<Role>, after: seq<Table>, roles2: seq<Role>)
    requires |roles| == |before|
  {
    && |roles2| == |after| && roles <= roles2
    && forall k :: 0 <= k < |before| && roles[k] == Outside ==> after[k] == before[k]
  }

  // ----- device.c -----

  // gettable: the table under the name is pushed, a new one if there is none.
  method GetTable(L: LuaState, index: int, name: string) returns (created: bool)
    requires 0 < index && L.IsTable(index)
    modifies L
    ensures var id := old(L.At(index)).id;
      var t := old(L.tables)[id];
      var v := Field(t, name);
      && created == !IsRef(old(L.tables), v)
      && L.stack == old(L.stack) + [if created then Ref(|old(L.tables)|) else v]
      && L.tables == if created then Made(old(L.tables), id, name) else old(L.tables)
  {
    L.Push(Str(name));
    L.RawGet(index);
    if !L.IsTable(-1) {
      L.Pop(1);
      L.Push(Str(name));
      L.NewTable();
      L.RawSet(index);
      L.Push(Str(name));
      L.RawGet(index);
      return true;
    }
    return false;
  }

  lemma OneMoreFlag(done: set<string>, f: string)
    requires f in FLAGS
    ensures FlagFields(done) + One(f, Flag(true)) == FlagFields(done + {f})
  {
  }

  // add_ifa_flags
  method AddFlags(L: LuaState, flags: set<string>)
    requires L.IsTable(-1)
    modifies L
    ensures L.stack == old(L.stack)
    ensures L.tables == WithFields(old(L.tables), old(L.At(-1)).id, FlagFields(flags))
  {
    var rest := flags * FLAGS;
    ghost var id, done: set<string> := L.At(-1).id, {};
    WithNoFields(L.tables, id);
    assert FlagFields({}) == map[];
    while rest != {}
      invariant rest + done == flags * FLAGS && rest !! done && L.stack == old(L.stack)
      invariant L.tables == WithFields(old(L.tables), id, FlagFields(done))
      decreases rest
    {
      var f :| f in rest;
      ghost var one := One(f, Flag(true));
      L.SetField(f, Flag(true));
      WithFieldsTwice(old(L.tables), id, FlagFields(done), one);
      OneMoreFlag(done, f);
      rest, done := rest - {f}, done + {f};
    }
    assert FlagFields(done) == FlagFields(flags);
  }

  method SetText(L: LuaState, key: string, text: Option<string>)
    requires L.IsTable(-1)
    modifies L
    ensures L.stack == old(L.stack)
    ensures L.tables == WithFields(old(L.tables), old(L.At(-1)).id, TextField(key, text))
  {
    if text.Some? {
      L.SetField(key, Str(text.value));
    } else {
      WithNoFields(L.tables, L.At(-1).id);
    }
  }

  // add_ifa_index and add_ifa_mtu set a number where the query succeeds.
  method SetNumber(L: LuaState, key: string, number: Option<int>)
    requires L.IsTable(-1)
    modifies L
    ensures L.stack == old(L.stack)
    ensures L.tables == WithFields(old(L.tables), old(L.At(-1)).id, NumberField(key, number))
  {
    if number.Some? {
      L.SetField(key, Num(number.value));
    } else {
      WithNoFields(L.tables, L.At(-1).id);
    }
  }

  // What a new interface table gets.
  method AddFirstFields(L: LuaState, e: Entry)
    requires L.IsTable(-1)
    modifies L
    ensures L.stack == old(L.stack)
    ensures L.tables == WithFields(old(L.tables), old(L.At(-1)).id, FirstFields(e))
  {
    ghost var id, start := L.At(-1).id, L.tables;
    ghost var a, b, c := FlagFields(e.flags), NumberField("index", IndexOf(e)), NumberField("mtu", e.mtu);
    AddFlags(L, e.flags);
    SetNumber(L, "index", IndexOf(e));
    WithFieldsTwice(start, id, a, b);
    SetNumber(L, "mtu", e.mtu);
    WithFieldsTwice(start, id, a + b, c);
  }

  // The address table of one entry.
  method PushAddress(L: LuaState, e: Entry)
    modifies L
    ensures L.stack == old(L.stack) + [Ref(|old(L.tables)|)]
    ensures L.tables == old(L.tables) + [Table(AddressFields(e), [])]
  {
    L.NewTable();
    ghost var id, start := |old(L.tables)|, L.tables;
    ghost var a, b := TextField("address", e.host), TextField("netmask", e.netmask);
    ghost var c, d := TextField("broadcast", BroadcastOf(e)), TextField("point2point", DestinationOf(e));
    SetText(L, "address", e.host);
    SetText(L, "netmask", e.netmask);
    WithFieldsTwice(start, id, a, b);
    SetText(L, "broadcast", BroadcastOf(e));
    WithFieldsTwice(start, id, a + b, c);
    SetText(L, "point2point", DestinationOf(e));
    WithFieldsTwice(start, id, a + b + c, d);
    assert map[] + AddressFields(e) == AddressFields(e);
  }

  // The interface table of the entry is on top, and one is made if the name is new.
  method EnterIface(L: LuaState, index: int, e: Entry, ghost roles: seq<Role>, ghost root: nat, ghost m: Interfaces)
    returns (ghost roles2: seq<Role>)
    requires Shows(L.tables, roles, root, m)
    requires index == |L.stack| > 0 && L.stack[index - 1] == Ref(root)
    modifies L
    ensures Shows(L.tables, roles2, root, m[e.name := IfaceOf(m, e)])
    ensures L.stack == old(L.stack) + [Lookup(L.tables, Ref(root), e.name)]
    ensures Untouched(old(L.tables), roles, L.tables, roles2)
  {
    hide FirstFields, Shows, Made, WithFields, Untouched;
    IfaceFound(L.tables, roles, root, m, e.name);
    var created := GetTable(L, index, e.name);
    if created {
      IfaceEntered(old(L.tables), roles, root, m, e);
      NewTable(old(L.tables), roles, root, e.name, OfIface(e.name), FirstFields(e));
      roles2 := roles + [OfIface(e.name)];
      AddFirstFields(L, e);
    } else {
      roles2 := roles;
      NoNewTable(L.tables, roles);
      assert m[e.name := m[e.name]] == m;
    }
  }

  // A table made under a key of a table of the result, and filled.
  lemma NewTable(tables: seq<Table>, roles: seq<Role>, id: nat, key: string, role: Role, own: Fields)
    requires |roles| == |tables| && id < |tables| && roles[id] != Outside
    ensures var after := Made(tables, id, key);
      && |after| == |tables| + 1
      && Untouched(tables, roles, after, roles + [role]) && Lookup(after, Ref(id), key) == Ref(|tables|)
      && Untouched(tables, roles, WithFields(after, |tables|, own), roles + [role])
      && Lookup(WithFields(after, |tables|, own), Ref(id), key) == Ref(|tables|)
  {
  }

  lemma NoNewTable(tables: seq<Table>, roles: seq<Role>)
    requires |roles| == |tables|
    ensures Untouched(tables, roles, tables, roles)
  {
  }

  lemma IfaceEntered(tables: seq<Table>, roles: seq<Role>, root: nat, m: Interfaces, e: Entry)
    requires Shows(tables, roles, root, m) && e.name !in m
    ensures var made := Made(tables, root, e.name);
      Shows(WithFields(made, |tables|, FirstFields(e)), roles + [OfIface(e.name)], root, m[e.name := IfaceOf(m, e)])
  {
    hide FirstFields, ShowsIface, Shows, FlagFields, NumberField;
    IfaceFound(tables, roles, root, m, e.name);
    IfaceCreated(tables, roles, root, m, e.name);
    FirstKeys(e);
    var empty := Iface(map[], map[]);
    var made, roles2 := Made(tables, root, e.name), roles + [OfIface(e.name)];
    NewIfaceFilled(made, roles2, root, m[e.name := empty], e.name, FirstFields(e));
    assert m[e.name := empty][e.name := IfaceOf(m, e)] == m[e.name := IfaceOf(m, e)];
  }

  lemma NewIfaceFilled(tables: seq<Table>, roles: seq<Role>, root: nat, m: Interfaces, name: string, own: Fields)
    requires Shows(tables, roles, root, m) && own.Keys !! LISTS && name in m && m[name] == Iface(map[], map[])
    ensures Shows(WithFields(tables, tables[root].fields[name].id, own), roles, root, m[name := Iface(own, map[])])
  {
    hide ShowsIface, Shows;
    AttrsAdded(tables, roles, root, m, name, own);
    assert map[] + own == own;
  }

  lemma IfaceFound(tables: seq<Table>, roles: seq<Role>, root: nat, m: Interfaces, name: string)
    requires Shows(tables, roles, root, m)
    ensures |roles| == |tables| && root < |tables| && roles[root] == Result
    ensures IsRef(tables, Field(tables[root], name)) <==> name in m
  {
  }

  lemma FirstKeys(e: Entry)
    ensures FirstFields(e).Keys !! LISTS
  {
    forall k | k in LISTS ensures k !in FirstFields(e) {
      assert k !in FlagFields(e.flags);
      assert k !in NumberField("index", IndexOf(e));
      assert k !in NumberField("mtu", e.mtu);
    }
  }

  lemma ListFound(tables: seq<Table>, roles: seq<Role>, root: nat, m: Interfaces, name: string, key: string)
    requires Shows(tables, roles, root, m) && name in m && key in LISTS
    ensures |roles| == |tables| && root < |tables| && name in tables[root].fields
    ensures var v := tables[root].fields[name];
      && v == Lookup(tables, Ref(root), name) && IsRef(tables, v) && v.id != root && roles[v.id] == OfIface(name)
      && (IsRef(tables, Lookup(tables, v, key)) <==> key in m[name].lists)
  {
  }

  // The interface with a list for the family, empty if there was none.
  function WithList(i: Iface, key: string): Iface {
    i.(lists := i.lists[key := ListOf(i, key)])
  }

  // The list of one family is on top of its interface table, which is found by the
  // absolute index of the slot above the result.
  method EnterList(L: LuaState, index: int, name: string, key: string,
                   ghost roles: seq<Role>, ghost root: nat, ghost m: Interfaces)
    returns (ghost roles2: seq<Role>)
    requires Shows(L.tables, roles, root, m) && name in m && key in LISTS
    requires index == |L.stack| > 0 && L.stack[index - 1] == Lookup(L.tables, Ref(root), name)
    modifies L
    ensures Shows(L.tables, roles2, root, m[name := WithList(m[name], key)])
    ensures L.stack == old(L.stack) + [Lookup(L.tables, Lookup(L.tables, Ref(root), name), key)]
    ensures Untouched(old(L.tables), roles, L.tables, roles2)
  {
    hide Shows, Made, Untouched;
    ListFound(L.tables, roles, root, m, name, key);
    ghost var id := L.tables[root].fields[name].id;
    var created := GetTable(L, index, key);
    if created {
      ListCreated(old(L.tables), roles, root, m, name, key);
      NewTable(old(L.tables), roles, id, key, OfList(name, key), map[]);
      MadeElsewhere(old(L.tables), root, id, key);
      roles2 := roles + [OfList(name, key)];
    } else {
      roles2 := roles;
      NoNewTable(L.tables, roles);
      ListThere(m, name, key);
    }
  }

  lemma MadeElsewhere(tables: seq<Table>, root: nat, id: nat, key: string)
    requires root < |tables| && id < |tables| && id != root
    ensures root < |Made(tables, id, key)| && Made(tables, id, key)[root] == tables[root]
  {
  }

  lemma ListThere(m: Interfaces, name: string, key: string)
    requires name in m && key in m[name].lists
    ensures m[name := WithList(m[name], key)] == m
  {
    assert m[name].lists[key := ListOf(m[name], key)] == m[name].lists;
  }

  // A new address table goes to the end of the list on top.
  method AddToList(L: LuaState, name: string, key: string, e: Entry,
                   ghost roles: seq<Role>, ghost root: nat, ghost m: Interfaces)
    returns (ghost roles2: seq<Role>)
    requires Shows(L.tables, roles, root, m) && name in m && key in m[name].lists
    requires |L.stack| > 0 && L.At(-1) == Lookup(L.tables, Lookup(L.tables, Ref(root), name), key)
    modifies L
    ensures L.stack == old(L.stack)
    ensures Shows(L.tables, roles2, root, m[name := AddAddress(m[name], key, AddressFields(e))])
    ensures Untouched(old(L.tables), roles, L.tables, roles2)
  {
    hide Shows, AddressFields, AddAddress;
    IfaceFound(L.tables, roles, root, m, name);
    ghost var w := L.At(-1);
    AddressAppended(L.tables, roles, root, m, name, key, AddressFields(e), w);
    PushAddress(L, e);
    L.Append(-2);
    roles2 := roles + [OfAddress];
    assert L.tables == Appended(old(L.tables), w.id, AddressFields(e));
  }

  // The hardware address goes into the interface table on top.
  method AddEther(L: LuaState, name: string, ether: Option<string>,
                  ghost roles: seq<Role>, ghost root: nat, ghost m: Interfaces)
    requires Shows(L.tables, roles, root, m) && name in m
    requires |L.stack| > 0 && L.At(-1) == Lookup(L.tables, Ref(root), name)
    modifies L
    ensures L.stack == old(L.stack)
    ensures Shows(L.tables, roles, root, m[name := SetEther(m[name], ether)])
    ensures Untouched(old(L.tables), roles, L.tables, roles)
  {
    EtherAdded(L.tables, roles, root, m, name, ether);
    hide Shows;
    SetText(L, "ether", ether);
  }

  lemma EtherAdded(tables: seq<Table>, roles: seq<Role>, root: nat, m: Interfaces, name: string, ether: Option<string>)
    requires Shows(tables, roles, root, m) && name in m
    ensures var v := Lookup(tables, Ref(root), name);
      && |roles| == |tables| && IsRef(tables, v) && roles[v.id] == OfIface(name)
      && Shows(WithFields(tables, v.id, TextField("ether", ether)), roles, root, m[name := SetEther(m[name], ether)])
  {
    ListFound(tables, roles, root, m, name, "inet");
    hide Shows, ShowsIface;
    AttrsAdded(tables, roles, root, m, name, TextField("ether", ether));
    EtherIsField(m[name], ether);
  }

  lemma EtherIsField(i: Iface, ether: Option<string>)
    ensures i.(attrs := i.attrs + TextField("ether", ether)) == SetEther(i, ether)
  {
  }

  // A new address table at the end of its list, which is found or made first.
  method AddToFamily(L: LuaState, index: int, key: string, e: Entry,
                     ghost roles: seq<Role>, ghost root: nat, ghost m: Interfaces)
    returns (ghost roles2: seq<Role>)
    requires Shows(L.tables, roles, root, m) && e.name in m && key in LISTS
    requires index == |L.stack| > 0 && L.stack[index - 1] == Lookup(L.tables, Ref(root), e.name)
    modifies L
    ensures L.stack == old(L.stack)
    ensures Shows(L.tables, roles2, root, m[e.name := AddAddress(m[e.name], key, AddressFields(e))])
    ensures Untouched(old(L.tables), roles, L.tables, roles2)
  {
    hide Shows, AddressFields;
    IfaceFound(L.tables, roles, root, m, e.name);
    var roles1 := EnterList(L, index, e.name, key, roles, root, m);
    ghost var i := WithList(m[e.name], key);
    roles2 := AddToList(L, e.name, key, e, roles1, root, m[e.name := i]);
    L.Pop(1);
    assert AddAddress(i, key, AddressFields(e)) == AddAddress(m[e.name], key, AddressFields(e)) by {
      assert i.lists[key := ListOf(i, key) + [AddressFields(e)]]
          == m[e.name].lists[key := ListOf(i, key) + [AddressFields(e)]];
    }
    assert m[e.name := i][e.name := AddAddress(i, key, AddressFields(e))]
        == m[e.name := AddAddress(m[e.name], key, AddressFields(e))];
  }

  // One round of the loop: the result gains the entry, and on every path the stack
  // is as it was.
  method AddEntry(L: LuaState, tblidx: int, e: Entry, ghost roles: seq<Role>, ghost root: nat, ghost m: Interfaces)
    returns (ghost roles2: seq<Role>)
    requires Shows(L.tables, roles, root, m)
    requires tblidx == |L.stack| > 0 && L.stack[tblidx - 1] == Ref(root)
    modifies L
    ensures L.stack == old(L.stack)
    ensures Shows(L.tables, roles2, root, Step(m, e))
    ensures Untouched(old(L.tables), roles, L.tables, roles2)
  {
    hide Shows, AddressFields, IfaceOf, AddAddress, SetEther;
    IfaceFound(L.tables, roles, root, m, e.name);
    if e.address.Null? {
      return roles;
    }
    roles2 := EnterIface(L, tblidx, e, roles, root, m);
    ghost var i := IfaceOf(m, e);
    ghost var m1 := m[e.name := i];
    match e.address {
      case Inet =>
        roles2 := AddToFamily(L, tblidx + 1, "inet", e, roles2, root, m1);
        assert m1[e.name := AddAddress(i, "inet", AddressFields(e))] == Step(m, e);
      case Inet6 =>
        roles2 := AddToFamily(L, tblidx + 1, "inet6", e, roles2, root, m1);
        assert m1[e.name := AddAddress(i, "inet6", AddressFields(e))] == Step(m, e);
      case Link(ether) =>
        AddEther(L, e.name, ether, roles2, root, m1);
        assert m1[e.name := SetEther(i, ether)] == Step(m, e);
      case Other =>
        assert m1 == Step(m, e);
    }
    L.Pop(1);
  }

  // What a Lua program finds in the result: under the interface's name and the family
  // the address tables in the order of the kernel's list, each telling its entry.
  lemma ResultTells(tables: seq<Table>, roles: seq<Role>, root: nat, list: seq<Entry>,
                    name: string, inet6: bool, i: nat)
    requires Shows(tables, roles, root, Group(list)) && i < |list| && InFamily(list[i], name, inet6)
    ensures var l := Lookup(tables, Lookup(tables, Ref(root), name), if inet6 then "inet6" else "inet");
      && IsRef(tables, l) && |tables[l.id].items| == Rank(list, name, inet6, |list|)
      && Rank(list, name, inet6, i) < |tables[l.id].items|
      && var t := tables[l.id].items[Rank(list, name, inet6, i)];
      IsRef(tables, t) && TellsAddress(tables[t.id].fields, list[i])
  {
    hide TellsAddress, Group, InFamily;
    var key := if inet6 then "inet6" else "inet";
    ListTells(list, name, inet6, i);
    assert ShowsIface(tables, roles, tables[root].fields[name], name, Group(list)[name]);
    GroupsByNameAndFamily(list, name, key);
    var v := Lookup(tables, Lookup(tables, Ref(root), name), key);
    assert ShowsList(tables, roles, v, name, key, Group(list)[name].lists[key]);
  }

  // And of the interface itself: what its first entry says, besides ether and lists.
  lemma ResultTellsInterface(tables: seq<Table>, roles: seq<Role>, root: nat, list: seq<Entry>,
                             name: string, first: nat)
    requires Shows(tables, roles, root, Group(list)) && first < |list| && Seen(list[first], name)
    requires forall j :: 0 <= j < first ==> !Seen(list[j], name)
    ensures var v := Lookup(tables, Ref(root), name);
      IsRef(tables, v) && TellsInterface(tables[v.id].fields - LISTS - {"ether"}, list[first])
  {
    hide TellsInterface, Group, Seen, ShowsList;
    FirstEntryGivesFlags(list, name, first);
    var v, i := Lookup(tables, Ref(root), name), Group(list)[name];
    assert ShowsIface(tables, roles, v, name, i);
    assert tables[v.id].fields - LISTS - {"ether"} == i.attrs - {"ether"};
  }

  datatype Listing = Failed(errno: int) | Listed(entries: seq<Entry>)

  // getifaddrs_lua
  method GetIfAddrs(L: LuaState, list: Listing) returns (results: nat, ghost roles: seq<Role>)
    modifies L
    ensures list.Failed? ==> results == 2 && L.stack == old(L.stack) + [Nil, Errno(list.errno)]
    ensures list.Failed? ==> L.tables == old(L.tables)
    ensures list.Listed? ==> results == 1 && L.stack == old(L.stack) + [Ref(|old(L.tables)|)]
    ensures list.Listed? ==> Shows(L.tables, roles, |old(L.tables)|, Group(list.entries))
    ensures old(L.tables) <= L.tables
  {
    var tblidx := |L.stack| + 1;
    if list.Failed? {
      L.Push(Nil);
      L.Push(Errno(list.errno));
      return 2, [];
    }
    ghost var root := |L.tables|;
    L.NewTable();
    roles := seq(root, k => Outside) + [Result];
    var n := 0;
    while n < |list.entries|
      invariant 0 <= n <= |list.entries|
      invariant L.stack == old(L.stack) + [Ref(root)]
      invariant Shows(L.tables, roles, root, Group(list.entries[..n]))
      invariant forall k :: 0 <= k < root ==> roles[k] == Outside && L.tables[k] == old(L.tables)[k]
    {
      roles := AddEntry(L, tblidx, list.entries[n], roles, root, Group(list.entries[..n]));
      assert list.entries[..n + 1][..n] == list.entries[..n];
      n := n + 1;
    }
    assert list.entries[..n] == list.entries;
    return 1, roles;
  }
}
