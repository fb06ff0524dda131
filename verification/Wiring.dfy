/** What wiring and acceptance give the rebuild: it succeeds, its lanes are distinct, and it leaves the database in sync. */
module Wiring {
  import opened Wrappers
  import opened Text
  import opened Names
  import opened Transponder
  import opened Validation
  import opened RedisCodec
  import opened Redis
  import opened Rebuild
  import opened Database

  // ---- Names the database can store ----

  lemma {:induction false} SplitHolds(s: string, sep: char, x: char)
    requires x in s && x != sep
    ensures exists i :: 0 <= i < |Split(s, sep)| && x in Split(s, sep)[i]
  {
    var rest := Split(s[1..], sep);
    var parts := Split(s, sep);
    if x == s[0] {
      assert x in parts[0];
    } else {
      SplitHolds(s[1..], sep, x);
      var i :| 0 <= i < |rest| && x in rest[i];
      if s[0] == sep {
        assert parts[i + 1] == rest[i];
      } else {
        assert x in parts[i];
      }
    }
  }

  lemma {:induction false} NumbersArePlain(s: string)
    requires Atoi(s).Some?
    ensures ',' !in s
  {
    var body := if s != "" && (s[0] == '+' || s[0] == '-') then s[1..] else s;
    DigitsHoldNo(body, ',');
    assert s == body || s == [s[0]] + body;
  }

  lemma {:induction false} ParsedElements(k: string)
    requires ParseInterfaceName(k).Ok?
    ensures HasPrefix(k, "Ethernet")
    ensures forall i :: 0 <= i < |Split(k[|"Ethernet"|..], '_')| ==> Atoi(Split(k[|"Ethernet"|..], '_')[i]).Some?
  {
    hide Split, Atoi;
  }

  /** An interface name the rebuild can parse holds no comma. */
  lemma {:induction false} ParsedIsPlain(k: string)
    requires ParseInterfaceName(k).Ok?
    ensures ',' !in k
  {
    hide ParseInterfaceName, Split, Atoi;
    ParsedElements(k);
    var tail := k[|"Ethernet"|..];
    if ',' in tail {
      SplitHolds(tail, '_', ',');
      var i :| 0 <= i < |Split(tail, '_')| && ',' in Split(tail, '_')[i];
      NumbersArePlain(Split(tail, '_')[i]);
    }
    assert k == "Ethernet" + tail;
    assert ',' !in "Ethernet";
  }

  lemma {:induction false} FarEndIsPlain(x: Connection)
    requires FarEnd(x).Some?
    ensures ',' !in FarEnd(x).value && FarEnd(x).value != ""
  {
    hide Print;
    forall n: nat ensures ',' !in Print(n) {
      DigitsHoldNo(Print(n), ',');
    }
    assert ',' !in "Ethernet";
    assert ',' !in "-";
  }

  lemma {:induction false} MembersArePlain(c: Config, s: SonicConfig)
    requires Rebuilt(c, s) && Rebuildable(c)
    ensures PlainVlans(s)
  {
    hide ParseInterfaceName, FarEnd, OptEthernetName, LaneOf, LinePortNames;
    forall v | v in s.vlans ensures s.vlans[v].members != [] && Free(s.vlans[v].members, ',') {
      var ms := s.vlans[v].members;
      var k :| k in c.interfaces && OnVlan(c, k, v);
      assert Joins(c, c.interfaces.Keys, v, k);
      forall i | 0 <= i < |ms| ensures ',' !in ms[i] {
        assert ms[i] in ms;
        assert Joins(c, c.interfaces.Keys, v, ms[i]);
        var j :| j in c.interfaces && OnVlan(c, j, v) && (ms[i] == j || FarEndOf(c, j) == Some(ms[i]));
        assert Buildable(c, j);
        ParsedIsPlain(j);
        if ms[i] != j {
          FarEndIsPlain(c.interfaces[j].connection.value);
        }
      }
    }
  }

  // ---- The rows of the result are the rows to be ----

  lemma {:induction false} OwnerIs(c: Config, k: string, v: nat)
    requires IdsUnique(c) && OnVlan(c, k, v)
    ensures Owner(c, v) == Some(k)
  {
  }

  lemma {:induction false} NoOwner(c: Config, v: nat)
    ensures Owner(c, v) == None <==> forall k :: !OnVlan(c, k, v)
    ensures Owner(c, v).Some? ==> OnVlan(c, Owner(c, v).value, v)
  {
  }

  /** With unique ids the VLAN of an interface has exactly that interface and its far end, in this order. */
  lemma {:induction false} VlanOfOwner(c: Config, s: SonicConfig, k: string, v: nat)
    requires IdsUnique(c) && Rebuilt(c, s) && OnVlan(c, k, v)
    ensures v in s.vlans && s.vlans[v] == SonicVlan(MembersOf(c, k), v)
  {
    hide LaneOf, LinePortNames, FarEndOf;
    assert k in c.interfaces.Keys;
    assert Used(c, c.interfaces.Keys, v);
    assert Sole(c, c.interfaces.Keys, k, v);
  }

  function RowIn(s: SonicConfig, key: Key): Entry {
    if HasRow(s, key) then SonicRow(s, key) else map[]
  }

  lemma {:induction false} RowsAreRebuilt(c: Config, s: SonicConfig, key: Key)
    requires IdsUnique(c) && Rebuilt(c, s) && !key.ModuleKey?
    ensures RowIn(s, key) == RebuildAt(c, key)
  {
    hide LaneOf, LinePortNames, FarEndOf, OnVlan, Owner, VlanOf, IdsUnique;
    match key {
      case VlanKey(v) =>
        NoOwner(c, v);
        if Owner(c, v).Some? {
          VlanOfOwner(c, s, Owner(c, v).value, v);
        }
      case MemberKey(v, x) =>
        NoOwner(c, v);
        if Owner(c, v).Some? {
          var k := Owner(c, v).value;
          VlanOfOwner(c, s, k, v);
          OnlyOwner(c, k, v);
          OnVlanKnown(c, k, v);
          assert x in MembersOf(c, k) <==> x == k || FarEndOf(c, k) == Some(x);
        }
      case _ =>
    }
  }

  lemma {:induction false} OnVlanKnown(c: Config, k: string, v: nat)
    requires OnVlan(c, k, v)
    ensures k in c.interfaces
  {
  }

  lemma {:induction false} OnlyOwner(c: Config, k: string, v: nat)
    requires IdsUnique(c) && OnVlan(c, k, v)
    ensures forall j :: OnVlan(c, j, v) ==> j == k
  {
  }

  // ---- rebootSystem ----

  /** Exactly the configurations a reboot does not refuse. */
  ghost predicate Bootable(c: Config) {
    (forall k :: k in c.modules ==> Configurable(c, k)) && Rebuildable(c)
  }

  /** rebootSystem: a new Redis, the modules, then the ports and VLANs. */
  method RebootSystem(client: Client, c: Config) returns (r: Option<RebootError>)
    requires client.Valid()
    modifies client
    ensures client.Valid()
    ensures r == None <==> Bootable(c)
    ensures r == None && IdsUnique(c) ==> InSync(client.rows, c)
  {
    hide Client.Valid, Lookup, Configurable, RowOf, Rebuildable, Rebuilt, PlainVlans, IdsUnique, RebuildAt, HasRow, SonicRow;
    client.Restart();
    EmptyLookup();
    r := ConfigureTransport(client, c);
    if r.Some? {
      return;
    }
    ghost var modules := client.rows;
    var s := NewSonicConfig(c);
    if s.Err? {
      return Some(BadPorts(s.error));
    }
    MembersArePlain(c, s.value);
    WriteToConfigDB(client, s.value);
    if IdsUnique(c) {
      forall key ensures Lookup(client.rows, key) == RebuildAt(c, key) {
        if key.ModuleKey? {
          ModuleRowIs(c, s.value, key);
        } else {
          RowsAreRebuilt(c, s.value, key);
          assert RowIn(s.value, key) == if HasRow(s.value, key) then SonicRow(s.value, key) else map[];
        }
      }
    }
    r := None;
  }

  lemma {:induction false} ModuleRowIs(c: Config, s: SonicConfig, key: Key)
    requires key.ModuleKey?
    ensures !HasRow(s, key)
    ensures RebuildAt(c, key) == if key.name in c.modules then RowOf(key.name, c.modules[key.name]) else map[]
  {
  }

  lemma {:induction false} EmptyLookup()
    ensures forall key :: Lookup(map[], key) == map[]
  {
  }

  // ---- Wired and accepted configurations ----

  /** Interface names of a wired configuration: port 1 to 16, channel 0 to 4. */
  lemma {:induction false} WiredName(c: Config, k: string) returns (n: nat, s: nat)
    requires Wired(c) && k in c.interfaces
    ensures 1 <= n <= PORTS && 0 <= s <= 4 && k == InterfaceName(n, s) && ParseInterfaceName(k) == Ok((n as int, s as int))
  {
    hide PortNames, ModuleNames, PortName, ParseInterfaceName;
    assert Owned(c, k);
    n, s := IndicesOf(k).value.0, IndicesOf(k).value.1;
    ParsePrintedName(n, s);
  }

  function EndpointOf(n: nat, channel: string): Option<Endpoint> {
    Some(Endpoint(Some(ModuleName(n)), Some(channel)))
  }

  /** The far end of a complete connection of a wired configuration is one of the ports 17 to 32. */
  lemma {:induction false} WiredEnd(c: Config, k: string) returns (i: nat)
    requires Wired(c) && k in c.interfaces && c.interfaces[k].connection.Some? && Complete(c.interfaces[k].connection.value)
    ensures OptEthernetName(c.interfaces[k].connection.value.line) == Ok(EthernetName(i))
    ensures FarEndOf(c, k) == Some(EthernetName(i)) && FIRST_LINE_PORT <= i <= LAST_LINE_PORT
    ensures EthernetName(i) in LinePortNames(LAST_LINE_PORT)
    ensures exists n: nat, ch :: ch in {"A", "B"} && LinePort(n, ch) == i && c.interfaces[k].connection.value.line == EndpointOf(n, ch)
  {
    hide PortNames, ModuleNames, PortName, ParseInterfaceName, ModuleName, EthernetName, Owned, OptEthernetName;
    var x := c.interfaces[k].connection.value;
    var name, ch := x.line.value.name.value, x.line.value.channel.value;
    assert ConnectionInRange(c, x);
    assert IsModuleName(name);
    ModuleNamesUpTo(MODULES, name);
    var n: nat :| 1 <= n <= MODULES && name == ModuleName(n);
    OptEthernetNameOf(n, ch);
    i := LinePort(n, ch);
    assert x.line == EndpointOf(n, ch);
    LinePortIn(i);
  }

  /** No interface has the name of a port of the optical modules. */
  lemma {:induction false} ClientsApart(c: Config, k: string)
    requires Wired(c) && k in c.interfaces
    ensures k !in LinePortNames(LAST_LINE_PORT)
  {
    var n, s := WiredName(c, k);
    hide *;
    NotALinePort(n, s);
  }

  lemma {:induction false} NotALinePort(n: nat, s: nat)
    requires n < FIRST_LINE_PORT
    ensures InterfaceName(n, s) !in LinePortNames(LAST_LINE_PORT)
  {
    hide InterfaceName, EthernetName;
    if InterfaceName(n, s) in LinePortNames(LAST_LINE_PORT) {
      var i: nat :| FIRST_LINE_PORT <= i <= LAST_LINE_PORT && InterfaceName(n, s) == EthernetName(i);
      EthernetIs(i);
      InterfaceNameInjective(n, s, i, 0);
    }
  }

  lemma {:induction false} EthernetIs(i: nat)
    ensures EthernetName(i) == InterfaceName(i, 0)
  {
  }

  lemma {:induction false} WiredIsRebuildable(c: Config)
    requires Wired(c) && ConnectionsComplete(c)
    ensures Rebuildable(c)
  {
    hide Wired, LinePortNames, ParseInterfaceName, OptEthernetName;
    forall k | k in c.interfaces ensures Buildable(c, k) && k !in LinePortNames(LAST_LINE_PORT) {
      var n, s := WiredName(c, k);
      ClientsApart(c, k);
      if c.interfaces[k].connection.Some? {
        var i := WiredEnd(c, k);
      }
    }
  }

  /** Wired, accepted configurations can be booted. */
  lemma {:induction false} AcceptedIsBootable(c: Config)
    requires Wired(c) && Accepts(c)
    ensures Bootable(c)
  {
    WiredIsRebuildable(c);
    hide PortNames, ModuleNames, PortName, Owned, FillDefault, Rebuildable, ModuleName;
    forall k | k in c.modules ensures Configurable(c, k) {
      assert IsModuleName(k);
      ModuleNamesUpTo(MODULES, k);
      var n: nat :| 1 <= n <= MODULES && k == ModuleName(n);
      ModuleIndexOf(n);
      assert ModuleAccepted(c, k, c.modules[k]);
    }
  }

  lemma {:induction false} ModuleIndexOf(n: nat)
    ensures ModuleIndex(ModuleName(n)) == Some(n - 1)
  {
    assert ModuleName(n)[|"Opt"|..] == Print(n);
    AtoiPrint(n);
  }

  /** What validation fills in does not change what a rebuild stores, and can be booted as well. */
  lemma {:induction false} FilledIsTheSame(c: Config)
    requires Wired(c) && Accepts(c)
    ensures Bootable(FilledConfig(c)) && IdsUnique(FilledConfig(c))
    ensures forall key :: RebuildAt(FilledConfig(c), key) == RebuildAt(c, key)
  {
    AcceptedIsBootable(c);
    var d := FilledConfig(c);
    FilledKeeps(c);
    SameInterfaces(c, d);
    hide *;
    forall key ensures RebuildAt(d, key) == RebuildAt(c, key) {
      if key.ModuleKey? {
        ModuleRowOf(c, key);
        ModuleRowOf(d, key);
      }
    }
    BootableIs(c);
    BootableIs(d);
  }

  lemma {:induction false} BootableIs(c: Config)
    ensures Bootable(c) <==> (forall k :: k in c.modules ==> Configurable(c, k)) && Rebuildable(c)
  {
  }

  lemma {:induction false} ModuleRowOf(c: Config, key: Key)
    requires key.ModuleKey?
    ensures RebuildAt(c, key) == if key.name in c.modules then RowOf(key.name, c.modules[key.name]) else map[]
  {
    hide RowOf;
  }

  lemma {:induction false} FilledKeeps(c: Config)
    requires Accepts(c) && Bootable(c)
    ensures IdsUnique(c) && FilledConfig(c).interfaces == c.interfaces && FilledConfig(c).modules.Keys == c.modules.Keys
    ensures forall k :: k in c.modules ==>
      Configurable(FilledConfig(c), k) && RowOf(k, FilledConfig(c).modules[k]) == RowOf(k, c.modules[k])
  {
    hide FillDefault, RowOf, ModuleIndex, IdsUnique, Rebuildable, WithinCapacity;
    var d := FilledConfig(c);
    forall k | k in c.modules ensures Configurable(d, k) && RowOf(k, d.modules[k]) == RowOf(k, c.modules[k]) {
      assert Configurable(c, k);
      RowOfFilled(c, k, c.modules[k]);
      FillAgain(c, d, k, c.modules[k]);
    }
  }

  lemma {:induction false} SameOwner(c: Config, d: Config, v: nat)
    requires d.interfaces == c.interfaces && IdsUnique(c)
    ensures Owner(d, v) == Owner(c, v)
  {
    hide OnVlan, IdsUnique;
    forall k ensures OnVlan(d, k, v) <==> OnVlan(c, k, v) {
      OnVlanSame(c, d, k, v);
    }
    NoOwner(c, v);
    NoOwner(d, v);
    if Owner(d, v).Some? {
      OwnerIs(c, Owner(d, v).value, v);
    }
  }

  lemma {:induction false} OnVlanSame(c: Config, d: Config, k: string, v: nat)
    requires d.interfaces == c.interfaces
    ensures OnVlan(d, k, v) <==> OnVlan(c, k, v)
  {
  }

  lemma {:induction false} SameInterfaces(c: Config, d: Config)
    requires d.interfaces == c.interfaces && IdsUnique(c)
    ensures Rebuildable(c) ==> Rebuildable(d)
    ensures IdsUnique(d)
    ensures forall key: Key :: !key.ModuleKey? ==> RebuildAt(d, key) == RebuildAt(c, key)
  {
    hide LinePortNames, LaneOf, ParseInterfaceName, OptEthernetName;
    forall v ensures Owner(d, v) == Owner(c, v) {
      SameOwner(c, d, v);
    }
    forall k ensures FarEndOf(d, k) == FarEndOf(c, k) {
    }
    forall k | k in c.interfaces ensures Buildable(d, k) <==> Buildable(c, k) {
    }
  }

  lemma {:induction false} FillAgain(c: Config, d: Config, name: string, m: OpticalModule)
    requires d.interfaces == c.interfaces && FillDefault(c, name, m).Ok?
    ensures FillDefault(d, name, FillDefault(c, name, m).value).Ok?
  {
    hide Load;
    assert Load(d, name, "A") == Load(c, name, "A") && Load(d, name, "B") == Load(c, name, "B") by {
      LoadSame(c, d, name, "A");
      LoadSame(c, d, name, "B");
    }
  }

  lemma {:induction false} LoadSame(c: Config, d: Config, name: string, ch: string)
    requires d.interfaces == c.interfaces
    ensures Load(d, name, ch) == Load(c, name, ch)
  {
  }

  // ---- What the rebuild gives ----

  /** No two ports of the rebuilt configuration share a lane: unbroken 1 to 16, optical 17 to 32, broken out 33 to 96. */
  lemma {:induction false} LanesDistinct(c: Config, s: SonicConfig, p: string, q: string)
    requires Wired(c) && Rebuilt(c, s) && p in s.ports && q in s.ports && p != q
    ensures s.ports[p] != s.ports[q] && 1 <= s.ports[p] <= 96
  {
    hide Wired, LaneOf, VlansBuilt, InterfaceName, LinePortNames;
    var n, i := PortIndices(c, p);
    var m, j := PortIndices(c, q);
  }

  lemma {:induction false} PortIndices(c: Config, p: string) returns (n: nat, s: nat)
    requires Wired(c) && p in c.interfaces.Keys + LinePortNames(LAST_LINE_PORT)
    ensures p == InterfaceName(n, s) && LaneOf(p) == Lane(n, s) && 1 <= n && s <= 4
    ensures if s == 0 then n <= LAST_LINE_PORT else n <= PORTS
  {
    hide Wired, ParseInterfaceName, InterfaceName, EthernetName;
    if p in c.interfaces {
      n, s := WiredName(c, p);
    } else {
      var i: nat :| FIRST_LINE_PORT <= i <= LAST_LINE_PORT && p == EthernetName(i);
      n, s := i, 0;
      EthernetIs(i);
      ParsePrintedName(i, 0);
    }
  }

  /**
   Whatever order the interfaces are walked in, the result has the same ports, members and VLANs with the same member
   sets; with unique ids it is the same altogether.
   */
  lemma {:induction false} RebuildIsUnique(c: Config, s: SonicConfig, t: SonicConfig)
    requires Rebuilt(c, s) && Rebuilt(c, t)
    ensures s.ports == t.ports && s.members == t.members && s.vlans.Keys == t.vlans.Keys
    ensures forall v, x :: v in s.vlans ==> (x in s.vlans[v].members <==> x in t.vlans[v].members)
    ensures EndsApart(c) ==> forall v :: v in s.vlans ==> NoRepeat(s.vlans[v].members)
    ensures IdsUnique(c) ==> s == t
  {
    hide LinePortNames, LaneOf, Joins, OnVlan, NoRepeat, EndsApart, IdsUnique, MembersOf, Sole;
    assert s.vlans.Keys == t.vlans.Keys by {
      assert forall v :: v in s.vlans <==> v in t.vlans;
    }
    forall p | p in s.members ensures p in t.members && s.members[p] == t.members[p] {
      assert (p.0, p.1) in s.members;
      assert (p.0, p.1) in t.members;
    }
    forall p | p in t.members ensures p in s.members {
      assert (p.0, p.1) in t.members;
      assert (p.0, p.1) in s.members;
    }
    if IdsUnique(c) {
      forall v | v in s.vlans ensures s.vlans[v] == t.vlans[v] {
        var k :| k in c.interfaces.Keys && OnVlan(c, k, v);
        VlanOfOwner(c, s, k, v);
        VlanOfOwner(c, t, k, v);
      }
    }
  }

  /** The VLAN holds exactly a client interface and an optical port. */
  predicate PairOnVlan(s: SonicConfig, v: nat, client: string, optical: string) {
    && client != optical && client in s.ports && optical in s.ports
    && v in s.vlans && s.vlans[v] == SonicVlan([client, optical], v)
    && (v, client) in s.members && s.members[(v, client)] == "untagged"
    && (v, optical) in s.members && s.members[(v, optical)] == "tagged"
  }

  /**
   The rebuild of a wired, accepted configuration: the VLAN of each connected interface holds that interface, untagged,
   and the port of its module channel, tagged, and nothing else; both are ports; there are no other VLANs or members.
   */
  lemma {:induction false} RebuildShape(c: Config, s: SonicConfig, k: string, v: nat, x: string)
    requires Wired(c) && Accepts(c) && Rebuilt(c, s)
    ensures v in s.vlans <==> exists j :: OnVlan(c, j, v)
    ensures (v, x) in s.members <==> v in s.vlans && x in s.vlans[v].members
    ensures OnVlan(c, k, v) ==> exists i: nat :: FIRST_LINE_PORT <= i <= LAST_LINE_PORT && PairOnVlan(s, v, k, EthernetName(i))
  {
    hide Wired, LinePortNames, LaneOf, EthernetName, ModulesAccepted, FarEndOf;
    if OnVlan(c, k, v) {
      VlanOfOwner(c, s, k, v);
      var i := WiredEnd(c, k);
      ClientsApart(c, k);
      assert k in s.vlans[v].members && EthernetName(i) in s.vlans[v].members by {
        assert s.vlans[v].members[0] == k && s.vlans[v].members[1] == EthernetName(i);
      }
      NotOnVlan(c, EthernetName(i), v);
    }
    if v in s.vlans {
      var j :| j in c.interfaces && OnVlan(c, j, v);
    }
    if j :| OnVlan(c, j, v) {
      assert j in c.interfaces.Keys;
    }
  }

  lemma {:induction false} NotOnVlan(c: Config, x: string, v: nat)
    requires Wired(c) && x in LinePortNames(LAST_LINE_PORT)
    ensures !OnVlan(c, x, v)
  {
    hide Wired, LinePortNames;
    if x in c.interfaces {
      ClientsApart(c, x);
    }
  }
}
