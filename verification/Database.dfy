/** The rows of a full rebuild, the writers that store them, and the reboot that starts from an empty database. */
module Database {
  import opened Wrappers
  import opened Text
  import opened Names
  import opened Transponder
  import opened Validation
  import opened RedisCodec
  import opened Redis
  import opened Rebuild

  // ---- The rows ----

  const DEVICE: Entry := map[
    "bgp_asn" := Scalar("65100"), "hostname" := Scalar("cassini"), "type" := Scalar("packet-transponder"),
    "hwsku" := Scalar("AS7716-24XC"), "mac" := Scalar("a8:2b:b5:b5:51:d5")]

  function PortEntry(lanes: int): Entry {
    map["lanes" := Scalar(PrintInt(lanes))]
  }

  function VlanEntry(vid: nat, members: seq<string>): Entry {
    map["members" := Items(members), "vlanid" := Scalar(Print(vid))]
  }

  function MemberEntry(mode: string): Entry {
    map["tagging_mode" := Scalar(mode)]
  }

  function OnOff(b: bool): string {
    if b then "on" else "off"
  }

  function GridTypeToInt(g: Grid): nat {
    match g
    case Grid100GHz => 100
    case Grid50GHz => 50
    case Grid33GHz => 33
    case Grid25GHz => 25
    case GridUnset => 50
  }

  function ModulationText(m: Modulation): string {
    if m.DpQpsk? then "dp-qpsk" else "dp-16qam"
  }

  /** The position of a module, counted from zero; None if its name has no number. */
  function ModuleIndex(name: string): Option<int> {
    if |name| < |"Opt"| || !HasPrefix(name, "Opt") then None
    else match Atoi(name[|"Opt"|..])
      case None => None
      case Some(index) => Some(index - 1)
  }

  /** The fields of a module's row. */
  datatype Column =
    | IndexColumn | ChannelColumn | GridColumn | LosiColumn | PrbsColumn | ModulationColumn | BerColumn | EnabledColumn

  function ColumnName(c: Column): string {
    match c
    case IndexColumn => "index"
    case ChannelColumn => "tx-frequency-ch"
    case GridColumn => "tx-frequency-grid"
    case LosiColumn => "losi"
    case PrbsColumn => "prbs"
    case ModulationColumn => "modulation-type"
    case BerColumn => "ber-interval"
    case EnabledColumn => "enabled"
  }

  lemma {:induction false} ColumnsApart(c: Column, d: Column)
    requires ColumnName(c) == ColumnName(d)
    ensures c == d
  {
    ColumnCode(c);
    ColumnCode(d);
  }

  /** Length and first character tell the columns apart. */
  lemma {:induction false} ColumnCode(c: Column)
    ensures match c
      case IndexColumn => |ColumnName(c)| == 5
      case ChannelColumn => |ColumnName(c)| == 15 && ColumnName(c)[0] == 't'
      case GridColumn => |ColumnName(c)| == 17
      case LosiColumn => |ColumnName(c)| == 4 && ColumnName(c)[0] == 'l'
      case PrbsColumn => |ColumnName(c)| == 4 && ColumnName(c)[0] == 'p'
      case ModulationColumn => |ColumnName(c)| == 15 && ColumnName(c)[0] == 'm'
      case BerColumn => |ColumnName(c)| == 12
      case EnabledColumn => |ColumnName(c)| == 7
  {
  }

  lemma {:induction false} ColumnPlain(c: Column)
    ensures ColumnName(c) != "" && !IsListName(ColumnName(c)) && ColumnName(c) != "members"
  {
    ColumnCode(c);
    assert |"members"| == 7 && "members"[0] == 'm' && "enabled"[0] == 'e';
  }

  /** The text of a column, for a module whose leaves are all set. */
  function ColumnText(index: int, m: OpticalModule, c: Column): string
    requires Filled(m)
  {
    match c
    case IndexColumn => PrintInt(index)
    case ChannelColumn => Print(m.channel.value)
    case GridColumn => Print(GridTypeToInt(m.grid))
    case LosiColumn => OnOff(m.losi.value)
    case PrbsColumn => OnOff(m.prbs.value)
    case ModulationColumn => ModulationText(m.modulation)
    case BerColumn => Print(m.berInterval.value)
    case EnabledColumn => OnOff(m.enabled.value)
  }

  /** The row of a module whose leaves are all set. */
  function ModuleRow(index: int, m: OpticalModule): Entry
    requires Filled(m)
  {
    map[
      ColumnName(IndexColumn) := Scalar(ColumnText(index, m, IndexColumn)),
      ColumnName(ChannelColumn) := Scalar(ColumnText(index, m, ChannelColumn)),
      ColumnName(GridColumn) := Scalar(ColumnText(index, m, GridColumn)),
      ColumnName(LosiColumn) := Scalar(ColumnText(index, m, LosiColumn)),
      ColumnName(PrbsColumn) := Scalar(ColumnText(index, m, PrbsColumn)),
      ColumnName(ModulationColumn) := Scalar(ColumnText(index, m, ModulationColumn)),
      ColumnName(BerColumn) := Scalar(ColumnText(index, m, BerColumn)),
      ColumnName(EnabledColumn) := Scalar(ColumnText(index, m, EnabledColumn))]
  }

  /** The row holds the text of every column, and nothing else. */
  lemma {:induction false} RowColumns(index: int, m: OpticalModule, c: Column)
    requires Filled(m)
    ensures ColumnName(c) in ModuleRow(index, m) && ModuleRow(index, m)[ColumnName(c)] == Scalar(ColumnText(index, m, c))
    ensures forall f :: f in ModuleRow(index, m) ==> exists d :: f == ColumnName(d)
  {
    hide ColumnName, ColumnText;
    forall d, e | ColumnName(d) == ColumnName(e) ensures d == e {
      ColumnsApart(d, e);
    }
  }

  predicate Filled(m: OpticalModule) {
    m.channel.Some? && m.losi.Some? && m.prbs.Some? && m.berInterval.Some? && m.enabled.Some?
  }

  /** The row of a module: defaults first. */
  function RowOf(name: string, m: OpticalModule): Entry {
    match ModuleIndex(name)
    case None => map[]
    case Some(index) => ModuleRow(index, WithDefaults(m, None))
  }

  // ---- What the database should hold ----

  ghost function Owner(c: Config, v: nat): Option<string> {
    if k: string :| OnVlan(c, k, v) then Some(k) else None
  }

  /** The row a full rebuild of the configuration stores under a key; map[] for no row. */
  ghost function RebuildAt(c: Config, key: Key): Entry {
    match key
    case DeviceKey(host) => if host == "localhost" then DEVICE else map[]
    case PortKey(p) => if p in c.interfaces || p in LinePortNames(LAST_LINE_PORT) then PortEntry(LaneOf(p)) else map[]
    case VlanKey(v) =>
      (match Owner(c, v)
       case None => map[]
       case Some(k) => VlanEntry(v, MembersOf(c, k)))
    case MemberKey(v, x) =>
      (match Owner(c, v)
       case None => map[]
       case Some(k) => if x == k then MemberEntry("untagged") else if FarEndOf(c, k) == Some(x) then MemberEntry("tagged") else map[])
    case ModuleKey(name) => if name in c.modules then RowOf(name, c.modules[name]) else map[]
  }

  /** The database holds exactly what a rebuild of the configuration stores. */
  ghost predicate InSync(db: Db, c: Config) {
    forall key :: Lookup(db, key) == RebuildAt(c, key)
  }

  // ---- WriteToConfigDB ----

  /** The row a SONiC configuration has under a key. */
  function SonicRow(s: SonicConfig, key: Key): Entry {
    match key
    case DeviceKey(host) => if host == "localhost" then DEVICE else map[]
    case PortKey(p) => if p in s.ports then PortEntry(s.ports[p]) else map[]
    case VlanKey(v) => if v in s.vlans then VlanEntry(s.vlans[v].vid, s.vlans[v].members) else map[]
    case MemberKey(v, x) => if (v, x) in s.members then MemberEntry(s.members[(v, x)]) else map[]
    case ModuleKey(_) => map[]
  }

  predicate HasRow(s: SonicConfig, key: Key) {
    match key
    case DeviceKey(host) => host == "localhost"
    case PortKey(p) => p in s.ports
    case VlanKey(v) => v in s.vlans
    case MemberKey(v, x) => (v, x) in s.members
    case ModuleKey(_) => false
  }

  /** The list of every VLAN can be stored. */
  predicate PlainVlans(s: SonicConfig) {
    forall v :: v in s.vlans ==> s.vlans[v].members != [] && Free(s.vlans[v].members, ',')
  }

  lemma {:induction false} SonicRowStored(s: SonicConfig, key: Key)
    requires PlainVlans(s) && HasRow(s, key)
    ensures Stored(SonicRow(s, key))
  {
    match key {
      case DeviceKey(_) => assert "mac" in DEVICE;
      case PortKey(p) => assert "lanes" in PortEntry(s.ports[p]);
      case VlanKey(v) => assert "members" in VlanEntry(s.vlans[v].vid, s.vlans[v].members);
      case MemberKey(v, x) => assert "tagging_mode" in MemberEntry(s.members[(v, x)]);
      case ModuleKey(_) =>
    }
  }

  /** The rows under these keys are stored, all others are as before. */
  ghost predicate Put(before: Db, db: Db, s: SonicConfig, keys: iset<Key>) {
    forall key :: Lookup(db, key) == if key in keys then SonicRow(s, key) else Lookup(before, key)
  }

  lemma {:induction false} PutOne(before: Db, db: Db, s: SonicConfig, keys: iset<Key>, key: Key)
    requires Put(before, db, s, keys)
    ensures Put(before, db[key := SonicRow(s, key)], s, keys + iset{key})
  {
    hide SonicRow;
  }

  ghost function PortKeys(ps: set<string>): iset<Key> {
    iset key: Key | key.PortKey? && key.port in ps
  }

  ghost function VlanKeys(vs: set<nat>): iset<Key> {
    iset key: Key | key.VlanKey? && key.vid in vs
  }

  ghost function MemberKeys(ms: set<(nat, string)>): iset<Key> {
    iset key: Key | key.MemberKey? && (key.vid, key.member) in ms
  }

  lemma {:induction false} OnePort(s: SonicConfig, rest: set<string>, p: string)
    requires p in rest && rest <= s.ports.Keys
    ensures PortKeys(s.ports.Keys - (rest - {p})) == PortKeys(s.ports.Keys - rest) + iset{PortKey(p)}
    ensures HasRow(s, PortKey(p)) && SonicRow(s, PortKey(p)) == PortEntry(s.ports[p])
  {
  }

  lemma {:induction false} OneVlan(s: SonicConfig, rest: set<nat>, v: nat)
    requires v in rest && rest <= s.vlans.Keys
    ensures VlanKeys(s.vlans.Keys - (rest - {v})) == VlanKeys(s.vlans.Keys - rest) + iset{VlanKey(v)}
    ensures HasRow(s, VlanKey(v)) && SonicRow(s, VlanKey(v)) == VlanEntry(s.vlans[v].vid, s.vlans[v].members)
  {
  }

  lemma {:induction false} OneMember(s: SonicConfig, rest: set<(nat, string)>, m: (nat, string))
    requires m in rest && rest <= s.members.Keys
    ensures MemberKeys(s.members.Keys - (rest - {m})) == MemberKeys(s.members.Keys - rest) + iset{MemberKey(m.0, m.1)}
    ensures HasRow(s, MemberKey(m.0, m.1)) && SonicRow(s, MemberKey(m.0, m.1)) == MemberEntry(s.members[m])
  {
    assert (m.0, m.1) == m;
  }

  lemma {:induction false} PutNothing(db: Db, s: SonicConfig)
    ensures Put(db, db, s, PortKeys({})) && Put(db, db, s, VlanKeys({})) && Put(db, db, s, MemberKeys({}))
  {
    hide SonicRow;
  }

  /** The walk over the ports. */
  method WritePorts(client: Client, s: SonicConfig)
    requires client.Valid() && PlainVlans(s)
    modifies client
    ensures client.Valid() && Put(old(client.rows), client.rows, s, PortKeys(s.ports.Keys))
  {
    hide *;
    var rest := s.ports.Keys;
    PutNothing(client.rows, s);
    assert s.ports.Keys - rest == {};
    while rest != {}
      invariant rest <= s.ports.Keys && client.Valid()
      invariant Put(old(client.rows), client.rows, s, PortKeys(s.ports.Keys - rest))
      decreases |rest|
    {
      var k :| k in rest;
      OnePort(s, rest, k);
      SonicRowStored(s, PortKey(k));
      PutOne(old(client.rows), client.rows, s, PortKeys(s.ports.Keys - rest), PortKey(k));
      client.SetEntry(PortKey(k), PortEntry(s.ports[k]));
      rest := rest - {k};
    }
    assert s.ports.Keys - rest == s.ports.Keys;
  }

  /** The walk over the VLANs. */
  method WriteVlans(client: Client, s: SonicConfig)
    requires client.Valid() && PlainVlans(s)
    modifies client
    ensures client.Valid() && Put(old(client.rows), client.rows, s, VlanKeys(s.vlans.Keys))
  {
    hide *;
    var rest := s.vlans.Keys;
    PutNothing(client.rows, s);
    assert s.vlans.Keys - rest == {};
    while rest != {}
      invariant rest <= s.vlans.Keys && client.Valid()
      invariant Put(old(client.rows), client.rows, s, VlanKeys(s.vlans.Keys - rest))
      decreases |rest|
    {
      var v :| v in rest;
      OneVlan(s, rest, v);
      SonicRowStored(s, VlanKey(v));
      PutOne(old(client.rows), client.rows, s, VlanKeys(s.vlans.Keys - rest), VlanKey(v));
      client.SetEntry(VlanKey(v), VlanEntry(s.vlans[v].vid, s.vlans[v].members));
      rest := rest - {v};
    }
    assert s.vlans.Keys - rest == s.vlans.Keys;
  }

  /** The walk over the VLAN members. */
  method WriteMembers(client: Client, s: SonicConfig)
    requires client.Valid() && PlainVlans(s)
    modifies client
    ensures client.Valid() && Put(old(client.rows), client.rows, s, MemberKeys(s.members.Keys))
  {
    hide *;
    var rest := s.members.Keys;
    PutNothing(client.rows, s);
    assert s.members.Keys - rest == {};
    while rest != {}
      invariant rest <= s.members.Keys && client.Valid()
      invariant Put(old(client.rows), client.rows, s, MemberKeys(s.members.Keys - rest))
      decreases |rest|
    {
      var m :| m in rest;
      OneMember(s, rest, m);
      SonicRowStored(s, MemberKey(m.0, m.1));
      PutOne(old(client.rows), client.rows, s, MemberKeys(s.members.Keys - rest), MemberKey(m.0, m.1));
      client.SetEntry(MemberKey(m.0, m.1), MemberEntry(s.members[m]));
      rest := rest - {m};
    }
    assert s.members.Keys - rest == s.members.Keys;
  }

  /** WriteToConfigDB: every row of the SONiC configuration replaces the row stored before; no other row changes. */
  method WriteToConfigDB(client: Client, s: SonicConfig)
    requires client.Valid() && PlainVlans(s)
    modifies client
    ensures client.Valid()
    ensures forall key :: Lookup(client.rows, key) == if HasRow(s, key) then SonicRow(s, key) else Lookup(old(client.rows), key)
  {
    hide Client.Valid, Stored, Lookup;
    DeviceStored(s);
    LookupAfter(client.rows, DeviceKey("localhost"), DEVICE);
    client.SetEntry(DeviceKey("localhost"), DEVICE);
    WritePorts(client, s);
    WriteVlans(client, s);
    WriteMembers(client, s);
  }

  lemma {:induction false} DeviceStored(s: SonicConfig)
    requires PlainVlans(s)
    ensures Stored(DEVICE) && SonicRow(s, DeviceKey("localhost")) == DEVICE
    ensures forall key :: HasRow(s, key) && key.DeviceKey? ==> key == DeviceKey("localhost")
  {
    SonicRowStored(s, DeviceKey("localhost"));
  }

  lemma {:induction false} LookupAfter(db: Db, key: Key, e: Entry)
    ensures forall j :: Lookup(db[key := e], j) == (if j == key then e else Lookup(db, j))
  {
    forall j ensures Lookup(db[key := e], j) == if j == key then e else Lookup(db, j) {
    }
  }

  // ---- ConfigureTransport ----

  datatype RebootError = BadModule | NoCapacityFor(error: CapacityError) | BadPorts(rebuild: RebuildError)

  ghost predicate Configurable(c: Config, name: string)
    requires name in c.modules
  {
    ModuleIndex(name).Some? && FillDefault(c, name, c.modules[name]).Ok?
  }

  lemma {:induction false} RowStored(name: string, m: OpticalModule)
    requires RowOf(name, m) != map[]
    ensures Stored(RowOf(name, m))
  {
    hide ModuleRow, WithDefaults, ColumnName, IsListName;
    var row := RowOf(name, m);
    var d := WithDefaults(m, None);
    DefaultsFill(m, None);
    RowColumns(ModuleIndex(name).value, d, IndexColumn);
    forall f | f in row ensures f != "" && !IsListName(f) && f != "members" && row[f].Scalar? {
      var c :| f == ColumnName(c);
      ColumnPlain(c);
      RowColumns(ModuleIndex(name).value, d, c);
    }
  }

  lemma {:induction false} DefaultsFill(m: OpticalModule, o: Option<bool>)
    ensures Filled(WithDefaults(m, o))
  {
  }

  /** The row of a filled module is that of the module. */
  lemma {:induction false} RowOfFilled(c: Config, name: string, m: OpticalModule)
    requires FillDefault(c, name, m).Ok?
    ensures RowOf(name, FillDefault(c, name, m).value) == RowOf(name, m)
    ensures Filled(FillDefault(c, name, m).value) && FillDefault(c, name, m).value.grid != GridUnset
    ensures FillDefault(c, name, m).value.modulation != ModulationUnset
  {
    hide Occupancy;
    var f := FillDefault(c, name, m).value;
    var d, e := WithDefaults(f, None), WithDefaults(m, None);
    forall index, k ensures ColumnText(index, d, k) == ColumnText(index, e, k) {
    }
    if ModuleIndex(name).Some? {
      SameRow(ModuleIndex(name).value, d, e);
    }
  }

  /** One module of ConfigureTransport. */
  method ConfigureModule(client: Client, c: Config, k: string) returns (r: Option<RebootError>)
    requires client.Valid() && k in c.modules
    modifies client
    ensures client.Valid()
    ensures r == None <==> Configurable(c, k)
    ensures r == None ==> client.rows == old(client.rows)[ModuleKey(k) := RowOf(k, c.modules[k])]
  {
    hide Client.Valid, Stored, FillDefault, RowOf, ModuleRow, WithinCapacity;
    var index := ModuleIndex(k);
    if index.None? {
      return Some(BadModule);
    }
    var v := FillTransportDefaultConfig(k, c.modules[k], c);
    if v.Err? {
      return Some(NoCapacityFor(v.error));
    }
    RowOfFilled(c, k, c.modules[k]);
    RowIs(k, c.modules[k], index.value, v.value);
    RowStored(k, c.modules[k]);
    client.SetEntry(ModuleKey(k), ModuleRow(index.value, v.value));
    r := None;
  }

  /** The rows of these modules are configured, all other rows are as before. */
  ghost predicate ModulesPut(before: Db, db: Db, c: Config, names: set<string>) {
    forall key :: Lookup(db, key) == if key.ModuleKey? && key.name in names && key.name in c.modules then RowOf(key.name, c.modules[key.name]) else Lookup(before, key)
  }

  lemma {:induction false} OneModule(before: Db, db: Db, c: Config, names: set<string>, k: string)
    requires ModulesPut(before, db, c, names) && k in c.modules
    ensures ModulesPut(before, db[ModuleKey(k) := RowOf(k, c.modules[k])], c, names + {k})
  {
    hide RowOf;
  }

  lemma {:induction false} NoModulesPut(db: Db, c: Config)
    ensures ModulesPut(db, db, c, {})
  {
    hide RowOf;
  }

  /** ConfigureTransport: the walk over the modules. */
  method ConfigureTransport(client: Client, c: Config) returns (r: Option<RebootError>)
    requires client.Valid()
    modifies client
    ensures client.Valid()
    ensures r == None <==> forall k :: k in c.modules ==> Configurable(c, k)
    ensures r == None ==> ModulesPut(old(client.rows), client.rows, c, c.modules.Keys)
  {
    hide *;
    var rest := c.modules.Keys;
    NoModulesPut(client.rows, c);
    assert c.modules.Keys - rest == {};
    while rest != {}
      invariant rest <= c.modules.Keys && client.Valid()
      invariant forall k :: k in c.modules && k !in rest ==> Configurable(c, k)
      invariant ModulesPut(old(client.rows), client.rows, c, c.modules.Keys - rest)
      decreases |rest|
    {
      var k :| k in rest;
      OneModule(old(client.rows), client.rows, c, c.modules.Keys - rest, k);
      r := ConfigureModule(client, c, k);
      if r.Some? {
        return;
      }
      assert c.modules.Keys - (rest - {k}) == c.modules.Keys - rest + {k};
      rest := rest - {k};
    }
    assert c.modules.Keys - rest == c.modules.Keys;
    r := None;
  }

  /** Oversubscription and occupancy do not show in the row. */
  lemma {:induction false} SameRow(index: int, m: OpticalModule, n: OpticalModule)
    requires Filled(m) && Filled(n) && forall c :: ColumnText(index, m, c) == ColumnText(index, n, c)
    ensures ModuleRow(index, m) == ModuleRow(index, n)
  {
    hide ColumnName, ColumnText;
  }

  lemma {:induction false} RowIs(name: string, m: OpticalModule, index: int, f: OpticalModule)
    requires Filled(f) && ModuleIndex(name) == Some(index) && RowOf(name, f) == RowOf(name, m)
    requires f.grid != GridUnset && f.modulation != ModulationUnset
    ensures ModuleRow(index, f) == RowOf(name, m) && RowOf(name, m) != map[]
  {
    assert WithDefaults(f, None).(oversubscription := f.oversubscription) == f;
    SameRow(index, f, WithDefaults(f, None));
    RowColumns(index, f, IndexColumn);
  }
}
