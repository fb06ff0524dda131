/** What the switch and the transponder read in their databases: lanes, VLANs and module settings, as texts. */
module DeviceView {
  import opened Wrappers
  import opened Text
  import opened Names
  import opened Transponder
  import opened Validation
  import opened RedisCodec
  import opened Redis
  import opened Rebuild
  import opened Database
  import opened Wiring
  import opened Moves
  import opened Convergence
  import opened Divergence
  import opened Sync

  // ---- Lanes ----

  lemma {:induction false} LaneIs(n: nat, s: nat)
    ensures LaneOf(InterfaceName(n, s)) == if s == 0 then n as int else 4 * n + 28 + s
  {
    hide ParseInterfaceName, InterfaceName;
    ParsePrintedName(n, s);
  }

  /**
   The ports of a rebuilt configuration are its interfaces and Ethernet17 to Ethernet32. An unbroken or optical port has the
   lane of its number. The broken-out ports take the lanes from 33 on, four each in the order of their channels.
   */
  lemma {:induction false} LanesInOrder(c: Config, s: SonicConfig, n: nat, i: nat)
    requires Rebuilt(c, s)
    ensures forall p :: p in s.ports <==> p in c.interfaces || exists j: nat :: 17 <= j <= 32 && p == EthernetName(j)
    ensures EthernetName(n) in s.ports ==> s.ports[EthernetName(n)] == n
    ensures InterfaceName(1, 1) in s.ports ==> s.ports[InterfaceName(1, 1)] == 33
    ensures i >= 1 && InterfaceName(n, i) in s.ports && InterfaceName(n, i + 1) in s.ports ==>
      s.ports[InterfaceName(n, i + 1)] == s.ports[InterfaceName(n, i)] + 1
    ensures InterfaceName(n, 4) in s.ports && InterfaceName(n + 1, 1) in s.ports ==>
      s.ports[InterfaceName(n + 1, 1)] == s.ports[InterfaceName(n, 4)] + 1
  {
    LaneIs(n, 0);
    LaneIs(1, 1);
    LaneIs(n, i);
    LaneIs(n, i + 1);
    LaneIs(n, 4);
    LaneIs(n + 1, 1);
    EthernetIs(n);
    OpticalPorts();
    hide LaneOf, InterfaceName, EthernetName, VlansBuilt, LinePortNames;
    assert forall p :: p in s.ports <==> p in c.interfaces.Keys + LinePortNames(LAST_LINE_PORT);
  }

  lemma {:induction false} OpticalPorts()
    ensures forall p :: p in LinePortNames(LAST_LINE_PORT) <==> exists j: nat :: 17 <= j <= 32 && p == EthernetName(j)
  {
    hide EthernetName;
  }

  /** The PORT_TABLE row of channel i of port n, 0 for the unbroken port: there exactly if the interface or optical port is. */
  lemma {:induction false} PortRow(c: Config, n: nat, i: nat)
    requires Wired(c)
    ensures RebuildAt(c, PortKey(InterfaceName(n, i))) ==
      if InterfaceName(n, i) !in c.interfaces && !(i == 0 && 17 <= n <= 32) then map[]
      else map["lanes" := Scalar(Print(if i == 0 then n else 4 * n + 28 + i))]
  {
    LaneIs(n, i);
    OpticalPorts();
    EthernetIs(n);
    hide Wired, LaneOf, InterfaceName, EthernetName, LinePortNames, Print;
    if InterfaceName(n, i) in LinePortNames(LAST_LINE_PORT) {
      var j: nat :| 17 <= j <= 32 && InterfaceName(n, i) == EthernetName(j);
      EthernetIs(j);
      InterfaceNameInjective(n, i, j, 0);
    }
  }

  // ---- Connections ----

  /** Channels A and B of modules 1 to 8 sit behind Ethernet17 to Ethernet32, A before B, module by module. */
  lemma {:induction false} ModulePorts(n: nat)
    requires n >= 1
    ensures OptEthernetName(Some(Endpoint(Some(ModuleName(n)), Some("A")))) == Ok("Ethernet" + Print(2 * n + 15))
    ensures OptEthernetName(Some(Endpoint(Some(ModuleName(n)), Some("B")))) == Ok("Ethernet" + Print(2 * n + 16))
  {
    OptEthernetNameOf(n, "A");
    OptEthernetNameOf(n, "B");
    assert "A" != "B";
  }

  /**
   A connected interface of a wired, accepted configuration: its VLAN has the id, lists the interface and the port behind the
   module channel, the first untagged and the second tagged.
   */
  lemma {:induction false} ConnectionRows(c: Config, k: string, v: nat, n: nat, ch: string)
    requires Sound(c) && 1 <= n <= 8 && ch in {"A", "B"}
    requires ConnectionAt(c, k) == Some(Connection(Some(v), Some(Endpoint(Some(ModuleName(n)), Some(ch)))))
    ensures var p := "Ethernet" + Print(if ch == "A" then 2 * n + 15 else 2 * n + 16);
      && RebuildAt(c, VlanKey(v)) == map["vlanid" := Scalar(Print(v)), "members" := Items([k, p])]
      && RebuildAt(c, MemberKey(v, k)) == map["tagging_mode" := Scalar("untagged")]
      && RebuildAt(c, MemberKey(v, p)) == map["tagging_mode" := Scalar("tagged")]
  {
    hide Sound, Plain, Owner, Print, ModuleName, OptEthernetName, ConnectionAt, FarEndOf, RebuildAt;
    SoundParts(c);
    ModulePorts(n);
    OneEnd(c, k);
    IdThere(c, k, v);
    OwnRow(c, k, v);
    OwnerById(c, v);
    MemberInSync(c, v, FarEndOf(c, k).value);
  }

  lemma {:induction false} IdThere(c: Config, k: string, v: nat)
    requires ConnectionAt(c, k).Some? && ConnectionAt(c, k).value.id == Some(v)
    ensures IdAt(c, k) == Some(v)
  {
  }

  lemma {:induction false} OneEnd(c: Config, k: string)
    requires ConnectionAt(c, k).Some? && OptEthernetName(ConnectionAt(c, k).value.line).Ok? && ConnectionAt(c, k).value.line.Some?
    ensures FarEndOf(c, k) == Some(OptEthernetName(ConnectionAt(c, k).value.line).value)
  {
    hide OptEthernetName;
  }

  // ---- Modules ----

  /** Every setting of module n as the transponder reads it, the defaults of unset leaves included. */
  lemma {:induction false} ModuleTexts(c: Config, n: nat)
    requires Wired(c) && 1 <= n <= 8
    ensures ModuleName(n) in c.modules
    ensures var m := c.modules[ModuleName(n)];
      RebuildAt(c, ModuleKey(ModuleName(n))) == map[
        "index" := Scalar(Print(n - 1)),
        "tx-frequency-ch" := Scalar(if m.channel.Some? then Print(m.channel.value) else "1"),
        "tx-frequency-grid" := Scalar(
          match m.grid case Grid100GHz => "100" case Grid33GHz => "33" case Grid25GHz => "25" case _ => "50"),
        "losi" := Scalar(if m.losi == Some(true) then "on" else "off"),
        "prbs" := Scalar(if m.prbs == Some(true) then "on" else "off"),
        "modulation-type" := Scalar(if m.modulation == DpQpsk then "dp-qpsk" else "dp-16qam"),
        "ber-interval" := Scalar(if m.berInterval.Some? then Print(m.berInterval.value) else "100"),
        "enabled" := Scalar(if m.enabled == Some(false) then "off" else "on")]
  {
    hide ModuleName, ModuleNames, IndicesOf, Owned;
    ModuleNamesUpTo(MODULES, ModuleName(n));
    assert IsModuleName(ModuleName(n));
    ModuleIndexOf(n);
    ModuleRowOf(c, ModuleKey(ModuleName(n)));
    ModuleRowTexts(n - 1, c.modules[ModuleName(n)]);
  }

  lemma {:induction false} DefaultTexts()
    ensures Print(1) == "1" && Print(25) == "25" && Print(33) == "33" && Print(50) == "50" && Print(100) == "100"
  {
    assert Print(2) == "2" && Print(3) == "3" && Print(5) == "5" && Print(10) == "10";
  }

  lemma {:induction false} ModuleRowTexts(index: nat, m: OpticalModule)
    ensures ModuleRow(index, WithDefaults(m, None)) == map[
      "index" := Scalar(Print(index)),
      "tx-frequency-ch" := Scalar(if m.channel.Some? then Print(m.channel.value) else "1"),
      "tx-frequency-grid" := Scalar(
        match m.grid case Grid100GHz => "100" case Grid33GHz => "33" case Grid25GHz => "25" case _ => "50"),
      "losi" := Scalar(if m.losi == Some(true) then "on" else "off"),
      "prbs" := Scalar(if m.prbs == Some(true) then "on" else "off"),
      "modulation-type" := Scalar(if m.modulation == DpQpsk then "dp-qpsk" else "dp-16qam"),
      "ber-interval" := Scalar(if m.berInterval.Some? then Print(m.berInterval.value) else "100"),
      "enabled" := Scalar(if m.enabled == Some(false) then "off" else "on")]
  {
    var d := WithDefaults(m, None);
    ColumnTexts(index, m);
    assert ModuleRow(index, d) == map[
      "index" := Scalar(ColumnText(index, d, IndexColumn)), "tx-frequency-ch" := Scalar(ColumnText(index, d, ChannelColumn)),
      "tx-frequency-grid" := Scalar(ColumnText(index, d, GridColumn)), "losi" := Scalar(ColumnText(index, d, LosiColumn)),
      "prbs" := Scalar(ColumnText(index, d, PrbsColumn)), "modulation-type" := Scalar(ColumnText(index, d, ModulationColumn)),
      "ber-interval" := Scalar(ColumnText(index, d, BerColumn)), "enabled" := Scalar(ColumnText(index, d, EnabledColumn))] by {
      hide ColumnText;
    }
    hide *;
  }

  lemma {:induction false} ColumnTexts(index: nat, m: OpticalModule)
    ensures var d := WithDefaults(m, None);
      && ColumnText(index, d, IndexColumn) == Print(index)
      && ColumnText(index, d, ChannelColumn) == (if m.channel.Some? then Print(m.channel.value) else "1")
      && ColumnText(index, d, GridColumn) ==
           (match m.grid case Grid100GHz => "100" case Grid33GHz => "33" case Grid25GHz => "25" case _ => "50")
      && ColumnText(index, d, LosiColumn) == (if m.losi == Some(true) then "on" else "off")
      && ColumnText(index, d, PrbsColumn) == (if m.prbs == Some(true) then "on" else "off")
      && ColumnText(index, d, ModulationColumn) == (if m.modulation == DpQpsk then "dp-qpsk" else "dp-16qam")
      && ColumnText(index, d, BerColumn) == (if m.berInterval.Some? then Print(m.berInterval.value) else "100")
      && ColumnText(index, d, EnabledColumn) == (if m.enabled == Some(false) then "off" else "on")
  {
    DefaultTexts();
    hide Print;
  }

  // ---- Hashes ----

  /** Where rows are kept, and how a VLAN's two fields are written there. */
  lemma {:induction false} HashesRead(v: nat, a: string, b: string, name: string)
    ensures Slot(PortKey(name)) == (4, "PORT_TABLE|" + name) && Slot(ModuleKey(name)) == (7, "MODULE_CONFIG_TABLE|" + name)
    ensures Slot(VlanKey(v)) == (4, "VLAN|Vlan" + Print(v)) && Slot(MemberKey(v, a)) == (4, "VLAN_MEMBER|Vlan" + Print(v) + "|" + a)
    ensures Serialize(VlanEntry(v, [a, b])) == map["members@" := a + "," + b, "vlanid" := Print(v)]
    ensures Serialize(MemberEntry("untagged")) == map["tagging_mode" := "untagged"] && Serialize(map[]) == map["NULL" := "NULL"]
  {
    hide Print;
    assert "PORT_TABLE" + "|" == "PORT_TABLE|" && "MODULE_CONFIG_TABLE" + "|" == "MODULE_CONFIG_TABLE|";
    assert "VLAN" + "|" + ("Vlan" + Print(v)) == "VLAN|Vlan" + Print(v);
    assert "VLAN_MEMBER" + "|" + ("Vlan" + Print(v) + "|" + a) == "VLAN_MEMBER|Vlan" + Print(v) + "|" + a;
    VlanSerialized(v, a, b);
    ModeSerialized("untagged");
  }

  lemma {:induction false} VlanSerialized(v: nat, a: string, b: string)
    ensures Serialize(VlanEntry(v, [a, b])) == map["members@" := a + "," + b, "vlanid" := Print(v)]
  {
    hide Print;
    var e, h := VlanEntry(v, [a, b]), map["members@" := a + "," + b, "vlanid" := Print(v)];
    assert [a, b][1..] == [b] && Join([a, b], ',') == a + "," + b;
    assert "members" in e && RawName("members", e["members"]) == "members@" && RawName("vlanid", e["vlanid"]) == "vlanid";
    assert "members@"[..7] == "members";
    assert RawNames(e) == {"members@", "vlanid"};
  }

  lemma {:induction false} ModeSerialized(mode: string)
    ensures Serialize(MemberEntry(mode)) == map["tagging_mode" := mode]
  {
    var e := MemberEntry(mode);
    assert "tagging_mode" in e && RawName("tagging_mode", e["tagging_mode"]) == "tagging_mode";
    assert RawNames(e) == {"tagging_mode"};
  }
}
