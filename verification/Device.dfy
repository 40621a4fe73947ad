/**
 getifaddrs of device.c: the linked list of interface addresses becomes nested
 tables, grouped by interface name and address family.
 */
module Device {
  import opened LuaTables
  import opened Wrappers

  // What the kernel reports in one entry. An AF_PACKET (or AF_LINK) address shows
  // its hardware address when it has one. Texts are getnameinfo's answers, None
  // where the call fails; index and mtu are the answers to queries by name.
  datatype Address = Null | Inet | Inet6 | Link(ether: Option<string>) | Other

  datatype Entry = Entry(
    name: string, address: Address, flags: set<string>, index: nat, mtu: Option<int>,
    host: Option<string>, netmask: Option<string>, broadcast: Option<string>, destination: Option<string>)

  const FLAGS := {
    "up", "broadcast", "debug", "loopback", "pointtopoint", "notrailers", "running", "noarp", "promisc",
    "allmulti", "multicast", "oactive", "simplex", "master", "slave", "portsel", "automedia", "dynamic",
    "lower_up", "dormant", "echo" }

  // ----- the grouping as a value -----

  // One interface: its own fields, and its addresses by family.
  datatype Iface = Iface(attrs: Fields, lists: map<string, seq<Fields>>)

  type Interfaces = map<string, Iface>

  const LISTS := {"inet", "inet6"}

  // The family's key in the interface table.
  function ListKey(a: Address): Option<string> {
    match a
    case Inet => Some("inet")
    case Inet6 => Some("inet6")
    case _ => None
  }

  function FlagFields(flags: set<string>): Fields {
    map f | f in flags * FLAGS :: Flag(true)
  }

  function TextField(key: string, text: Option<string>): Fields {
    if text.Some? then One(key, Str(text.value)) else map[]
  }

  function NumberField(key: string, number: Option<int>): Fields {
    if number.Some? then One(key, Num(number.value)) else map[]
  }

  // if_nametoindex answers 0 for an unknown name.
  function IndexOf(e: Entry): Option<int> {
    if e.index != 0 then Some(e.index) else None
  }

  // The fields an interface table gets when it is created.
  function FirstFields(e: Entry): Fields {
    FlagFields(e.flags) + NumberField("index", IndexOf(e)) + NumberField("mtu", e.mtu)
  }

  // Broadcast and destination addresses are asked for when the flags announce them.
  function BroadcastOf(e: Entry): Option<string> {
    if "broadcast" in e.flags then e.broadcast else None
  }

  function DestinationOf(e: Entry): Option<string> {
    if "pointtopoint" in e.flags then e.destination else None
  }

  // The fields of one address table.
  function AddressFields(e: Entry): Fields {
    TextField("address", e.host) + TextField("netmask", e.netmask)
    + TextField("broadcast", BroadcastOf(e)) + TextField("point2point", DestinationOf(e))
  }

  function ListOf(i: Iface, key: string): seq<Fields> {
    if key in i.lists then i.lists[key] else []
  }

  function AddAddress(i: Iface, key: string, address: Fields): Iface {
    i.(lists := i.lists[key := ListOf(i, key) + [address]])
  }

  function SetEther(i: Iface, ether: Option<string>): Iface {
    if ether.Some? then i.(attrs := i.attrs["ether" := Str(ether.value)]) else i
  }

  function IfaceOf(m: Interfaces, e: Entry): Iface {
    if e.name in m then m[e.name] else Iface(FirstFields(e), map[])
  }

  // One round of the loop.
  function Step(m: Interfaces, e: Entry): Interfaces {
    match e.address
    case Null => m
    case Inet => m[e.name := AddAddress(IfaceOf(m, e), "inet", AddressFields(e))]
    case Inet6 => m[e.name := AddAddress(IfaceOf(m, e), "inet6", AddressFields(e))]
    case Link(ether) => m[e.name := SetEther(IfaceOf(m, e), ether)]
    case Other => m[e.name := IfaceOf(m, e)]
  }

  function Group(list: seq<Entry>): Interfaces {
    if list == [] then map[] else Step(Group(list[..|list| - 1]), list[|list| - 1])
  }

  // ----- what the grouping means -----

  predicate Seen(e: Entry, name: string) {
    e.name == name && !e.address.Null?
  }

  predicate Belongs(e: Entry, name: string, key: string) {
    e.name == name && ListKey(e.address) == Some(key)
  }

  // The addresses of one name and family, in the order of the list.
  function AddressesOf(list: seq<Entry>, name: string, key: string): seq<Fields> {
    if list == [] then []
    else
      var e := list[|list| - 1];
      AddressesOf(list[..|list| - 1], name, key) + if Belongs(e, name, key) then [AddressFields(e)] else []
  }

  // An interface appears exactly when an entry with an address names it.
  lemma {:induction false} AppearsWhenSeen(list: seq<Entry>, name: string)
    ensures name in Group(list) <==> exists j :: 0 <= j < |list| && Seen(list[j], name)
  {
    if list != [] {
      var n := |list| - 1;
      var front := list[..n];
      AppearsWhenSeen(front, name);
      if name in Group(front) {
        var j :| 0 <= j < |front| && Seen(front[j], name);
        assert Seen(list[j], name);
      }
      if j :| 0 <= j < |list| && Seen(list[j], name) {
        assert j < n ==> Seen(front[j], name);
      }
    }
  }

  // Its lists hold exactly the name's addresses of each family, in list order.
  lemma {:induction false} GroupsByNameAndFamily(list: seq<Entry>, name: string, key: string)
    ensures name !in Group(list) ==> AddressesOf(list, name, key) == []
    ensures name in Group(list) ==> ListOf(Group(list)[name], key) == AddressesOf(list, name, key)
    ensures name in Group(list) ==> (key in Group(list)[name].lists <==> AddressesOf(list, name, key) != [])
  {
    hide FirstFields, AddressFields;
    if list != [] {
      GroupsByNameAndFamily(list[..|list| - 1], name, key);
    }
  }

  // The key holds the text exactly if there is one.
  predicate HasText(fields: Fields, key: string, text: Option<string>) {
    Field(Table(fields, []), key) == if text.Some? then Str(text.value) else Nil
  }

  // What the address table of an entry says, key by key: the host and the mask where
  // the kernel named them, the broadcast and the peer address where the flags
  // announce one, too; and nothing else.
  predicate TellsAddress(fields: Fields, e: Entry) {
    && HasText(fields, "address", e.host) && HasText(fields, "netmask", e.netmask)
    && HasText(fields, "broadcast", if "broadcast" in e.flags then e.broadcast else None)
    && HasText(fields, "point2point", if "pointtopoint" in e.flags then e.destination else None)
    && forall key :: key in fields ==> key in {"address", "netmask", "broadcast", "point2point"}
  }

  lemma AddressTells(e: Entry)
    ensures TellsAddress(AddressFields(e), e)
  {
    var host, mask := TextField("address", e.host), TextField("netmask", e.netmask);
    var broadcast, peer := TextField("broadcast", BroadcastOf(e)), TextField("point2point", DestinationOf(e));
    forall key ensures Field(Table(AddressFields(e), []), key) ==
      if key in peer then peer[key] else if key in broadcast then broadcast[key]
      else if key in mask then mask[key] else Field(Table(host, []), key)
    {
    }
    OneText("address", e.host);
    OneText("netmask", e.netmask);
    OneText("broadcast", BroadcastOf(e));
    OneText("point2point", DestinationOf(e));
    hide TextField;
  }

  lemma OneText(key: string, text: Option<string>)
    ensures forall k :: k in TextField(key, text) <==> k == key && text.Some?
    ensures text.Some? ==> TextField(key, text)[key] == Str(text.value)
  {
  }

  // The entries of one name and family before position i.
  function Rank(list: seq<Entry>, name: string, inet6: bool, i: nat): nat
    requires i <= |list|
  {
    if i == 0 then 0 else Rank(list, name, inet6, i - 1) + if InFamily(list[i - 1], name, inet6) then 1 else 0
  }

  predicate InFamily(e: Entry, name: string, inet6: bool) {
    e.name == name && if inet6 then e.address.Inet6? else e.address.Inet?
  }

  // The i-th entry, if it is of the name and family, is told by the table in its
  // place of the list under "inet" or "inet6".
  lemma {:induction false} ListTells(list: seq<Entry>, name: string, inet6: bool, i: nat)
    requires i < |list| && InFamily(list[i], name, inet6)
    ensures name in Group(list)
    ensures var l := ListOf(Group(list)[name], if inet6 then "inet6" else "inet");
      && |l| == Rank(list, name, inet6, |list|) && Rank(list, name, inet6, i) < |l|
      && TellsAddress(l[Rank(list, name, inet6, i)], list[i])
  {
    var key := if inet6 then "inet6" else "inet";
    AppearsWhenSeen(list, name);
    assert Seen(list[i], name);
    GroupsByNameAndFamily(list, name, key);
    RanksAddress(list, name, inet6, key, i);
    AddressTells(list[i]);
  }

  lemma {:induction false} RanksAddress(list: seq<Entry>, name: string, inet6: bool, key: string, i: nat)
    requires i < |list| && InFamily(list[i], name, inet6) && key == if inet6 then "inet6" else "inet"
    ensures var l := AddressesOf(list, name, key);
      && |l| == Rank(list, name, inet6, |list|) && Rank(list, name, inet6, i) < |l|
      && l[Rank(list, name, inet6, i)] == AddressFields(list[i])
  {
    hide AddressFields, AddressesOf, Rank;
    CountsRank(list, name, inet6, key, |list|);
    CountsRank(list, name, inet6, key, i);
    assert list[..|list|] == list;
    NextAddress(list, name, key, i);
    AddressesGrow(list, name, key, i + 1);
  }

  lemma NextAddress(list: seq<Entry>, name: string, key: string, i: nat)
    requires i < |list| && Belongs(list[i], name, key)
    ensures AddressesOf(list[..i + 1], name, key) == AddressesOf(list[..i], name, key) + [AddressFields(list[i])]
  {
    assert list[..i + 1][..i] == list[..i];
  }

  lemma {:induction false} CountsRank(list: seq<Entry>, name: string, inet6: bool, key: string, i: nat)
    requires i <= |list| && key == if inet6 then "inet6" else "inet"
    ensures |AddressesOf(list[..i], name, key)| == Rank(list, name, inet6, i)
  {
    if i != 0 {
      CountsRank(list, name, inet6, key, i - 1);
      assert list[..i][..i - 1] == list[..i - 1];
    }
  }

  lemma {:induction false} AddressesGrow(list: seq<Entry>, name: string, key: string, i: nat)
    requires i <= |list|
    ensures AddressesOf(list[..i], name, key) <= AddressesOf(list, name, key)
    decreases |list|
  {
    if i == |list| {
      assert list[..i] == list;
    } else {
      var front := list[..|list| - 1];
      AddressesGrow(front, name, key, i);
      assert front[..i] == list[..i];
    }
  }

  // The names add_ifa_flags knows.
  predicate KnownFlag(f: string) {
    || f == "up" || f == "broadcast" || f == "debug" || f == "loopback" || f == "pointtopoint"
    || f == "notrailers" || f == "running" || f == "noarp" || f == "promisc" || f == "allmulti" || f == "multicast"
    || f == "oactive" || f == "simplex" || f == "master" || f == "slave" || f == "portsel" || f == "automedia"
    || f == "dynamic" || f == "lower_up" || f == "dormant" || f == "echo"
  }

  // What an interface table is created with, key by key: a true field for each known
  // flag that is set, the index if the kernel knows one, the mtu if it answers.
  ghost predicate TellsInterface(fields: Fields, e: Entry) {
    && (forall f :: KnownFlag(f) ==> Field(Table(fields, []), f) == if f in e.flags then Flag(true) else Nil)
    && Field(Table(fields, []), "index") == (if e.index == 0 then Nil else Num(e.index))
    && Field(Table(fields, []), "mtu") == (if e.mtu.Some? then Num(e.mtu.value) else Nil)
    && forall key :: key in fields ==> KnownFlag(key) || key == "index" || key == "mtu"
  }

  lemma FirstTells(e: Entry)
    ensures TellsInterface(FirstFields(e), e)
  {
    hide KnownFlag, FlagFields, NumberField, FirstFields;
    NoFlags();
    forall key
      ensures FirstField(e, key)
      ensures key in FirstFields(e) ==> KnownFlag(key) || key == "index" || key == "mtu"
    {
      FirstFieldIs(e, key);
    }
  }

  ghost predicate FirstField(e: Entry, key: string) {
    Field(Table(FirstFields(e), []), key) ==
      if key == "mtu" then (if e.mtu.Some? then Num(e.mtu.value) else Nil)
      else if key == "index" then (if e.index == 0 then Nil else Num(e.index))
      else if KnownFlag(key) && key in e.flags then Flag(true) else Nil
  }

  lemma FirstFieldIs(e: Entry, key: string)
    ensures FirstField(e, key)
    ensures key in FirstFields(e) ==> KnownFlag(key) || key == "index" || key == "mtu"
  {
    FlagIsKnown(key);
    NoFlags();
    hide KnownFlag;
    assert key in FlagFields(e.flags) <==> key in e.flags && KnownFlag(key);
    hide FlagFields;
    assert "index" != "mtu";
  }

  lemma FlagIsKnown(f: string)
    ensures f in FLAGS <==> KnownFlag(f)
  {
  }

  lemma NoFlags()
    ensures !KnownFlag("index") && !KnownFlag("mtu") && "index" != "mtu"
  {
    assert |"index"| == 5 && "index"[0] == 'i' && "mtu"[0] == 'm';
  }

  // Flags, index and MTU come from the first entry of the name that has an address,
  // whatever follows; only a hardware address may be added.
  lemma FirstEntryGivesFlags(list: seq<Entry>, name: string, first: nat)
    requires first < |list| && Seen(list[first], name) && forall j :: 0 <= j < first ==> !Seen(list[j], name)
    ensures name in Group(list) && TellsInterface(Group(list)[name].attrs - {"ether"}, list[first])
  {
    hide FirstFields, Group;
    var e := list[first];
    FirstFieldsStay(list, name, first, "index");
    var attrs := Group(list)[name].attrs;
    forall key | key != "ether"
      ensures (key in attrs <==> key in FirstFields(e)) && (key in attrs ==> attrs[key] == FirstFields(e)[key])
    {
      FirstFieldsStay(list, name, first, key);
    }
    FirstTells(e);
    NoFirstEther(e);
    hide TellsInterface;
    SameButEther(attrs, FirstFields(e));
  }

  lemma SameButEther(fields: Fields, own: Fields)
    requires "ether" !in own
    requires forall key :: key != "ether" ==>
      (key in fields <==> key in own) && (key in fields ==> fields[key] == own[key])
    ensures fields - {"ether"} == own
  {
  }

  lemma {:induction false} FirstFieldsStay(list: seq<Entry>, name: string, first: nat, key: string)
    requires first < |list| && Seen(list[first], name) && forall j :: 0 <= j < first ==> !Seen(list[j], name)
    requires key != "ether"
    ensures name in Group(list)
    ensures var attrs, own := Group(list)[name].attrs, FirstFields(list[first]);
      (key in attrs <==> key in own) && (key in attrs ==> attrs[key] == own[key])
    decreases |list|
  {
    hide FirstFields, AddressFields;
    var n := |list| - 1;
    var front := list[..n];
    if first < n {
      FirstFieldsStay(front, name, first, key);
    } else {
      AppearsWhenSeen(front, name);
    }
  }

  // The hardware address is the last one reported for the name.
  lemma {:induction false} LastLinkGivesEther(list: seq<Entry>, name: string)
    ensures name in Group(list) ==> Field(Table(Group(list)[name].attrs, []), "ether") == EtherOf(list, name)
    ensures name !in Group(list) ==> EtherOf(list, name).Nil?
  {
    hide FirstFields, AddressFields;
    if list != [] {
      NoFirstEther(list[|list| - 1]);
      LastLinkGivesEther(list[..|list| - 1], name);
    }
  }

  lemma NoFirstEther(e: Entry)
    ensures "ether" !in FirstFields(e)
  {
    assert "ether" !in FlagFields(e.flags);
  }

  function EtherOf(list: seq<Entry>, name: string): Value {
    if list == [] then Nil
    else
      var e := list[|list| - 1];
      if e.name == name && e.address.Link? && e.address.ether.Some? then Str(e.address.ether.value)
      else EtherOf(list[..|list| - 1], name)
  }

  // ----- conservation -----

  function CountOf(list: seq<Entry>, key: string): nat {
    if list == [] then 0
    else CountOf(list[..|list| - 1], key) + if ListKey(list[|list| - 1].address) == Some(key) then 1 else 0
  }

  // How many addresses of a family the interfaces `names` hold together.
  function TotalOf(list: seq<Entry>, names: seq<string>, key: string): nat {
    if names == [] then 0 else |AddressesOf(list, names[0], key)| + TotalOf(list, names[1..], key)
  }

  // Every address of the family is in exactly one list: the counts agree.
  lemma {:induction false} NothingLost(list: seq<Entry>, names: seq<string>, key: string)
    requires forall j, k :: 0 <= j < k < |names| ==> names[j] != names[k]
    requires forall name :: name in names <==> name in Group(list)
    ensures TotalOf(list, names, key) == CountOf(list, key)
  {
    forall j | 0 <= j < |list| && !list[j].address.Null? ensures list[j].name in names {
      AppearsWhenSeen(list, list[j].name);
      assert Seen(list[j], list[j].name);
    }
    CountsAgree(list, names, key);
  }

  lemma {:induction false} CountsAgree(list: seq<Entry>, names: seq<string>, key: string)
    requires forall j, k :: 0 <= j < k < |names| ==> names[j] != names[k]
    requires forall j :: 0 <= j < |list| && !list[j].address.Null? ==> list[j].name in names
    ensures TotalOf(list, names, key) == CountOf(list, key)
  {
    if list == [] {
      NoneAtAll(names, key);
    } else {
      var n := |list| - 1;
      var front, e := list[..n], list[n];
      assert forall j :: 0 <= j < n ==> front[j] == list[j];
      CountsAgree(front, names, key);
      OneMoreEntry(front, e, names, key);
      assert list == front + [e];
    }
  }

  lemma {:induction false} NoneAtAll(names: seq<string>, key: string)
    ensures TotalOf([], names, key) == 0
  {
    if names != [] {
      NoneAtAll(names[1..], key);
    }
  }

  // One more entry adds to the one interface it names.
  lemma {:induction false} OneMoreEntry(list: seq<Entry>, e: Entry, names: seq<string>, key: string)
    requires forall j, k :: 0 <= j < k < |names| ==> names[j] != names[k]
    ensures var more := if e.name in names && ListKey(e.address) == Some(key) then 1 else 0;
      TotalOf(list + [e], names, key) == TotalOf(list, names, key) + more
  {
    if names != [] {
      OneMoreEntry(list, e, names[1..], key);
      assert (list + [e])[..|list|] == list;
      assert e.name == names[0] ==> e.name !in names[1..];
    }
  }
}
