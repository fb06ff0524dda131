/** The packet transponder configuration: ports, interfaces, optical modules, and the wiring every CLI run keeps. */
module Transponder {
  import opened Wrappers
  import opened Names

  datatype Speed =
    | SpeedUnset | Speed10MB | Speed100MB | Speed1GB | Speed2500MB | Speed5GB
    | Speed10GB | Speed25GB | Speed40GB | Speed50GB | Speed100GB | SpeedUnknown

  datatype Grid = GridUnset | Grid100GHz | Grid50GHz | Grid33GHz | Grid25GHz

  datatype Modulation = ModulationUnset | DpQpsk | Dp16Qam

  /** The connection of an interface to an optical module; every part may be missing until validation. */
  datatype Connection = Connection(id: Option<nat>, line: Option<Endpoint>)

  datatype Interface = Interface(mtu: nat, speed: Speed, description: Option<string>, connection: Option<Connection>)

  datatype Port = Port(description: Option<string>, channelSpeed: Speed, numChannels: nat)

  /** Unset leaves are None; occupancy is the percentage per channel that validation computes. */
  datatype OpticalModule = OpticalModule(
    description: Option<string>,
    channel: Option<nat>,
    grid: Grid,
    losi: Option<bool>,
    prbs: Option<bool>,
    modulation: Modulation,
    berInterval: Option<nat>,
    enabled: Option<bool>,
    oversubscription: Option<bool>,
    occupancy: map<string, real>)

  const NEW_MODULE := OpticalModule(None, None, GridUnset, None, None, ModulationUnset, None, None, None, map[])

  datatype Config = Config(
    oversubscription: Option<bool>,
    ports: map<string, Port>,
    interfaces: map<string, Interface>,
    modules: map<string, OpticalModule>)

  /** The line side of an interface's connection; containers that are missing hold no leaf. */
  function LineOf(i: Interface): Endpoint {
    if i.connection.Some? && i.connection.value.line.Some? then i.connection.value.line.value else Endpoint(None, None)
  }

  function IdOf(i: Interface): Option<nat> {
    if i.connection.Some? then i.connection.value.id else None
  }

  const PORTS := 16
  const MODULES := 8

  function NewInterface(speed: Speed): Interface {
    Interface(1500, speed, None, None)
  }

  function PortNames(m: nat): set<string> {
    if m == 0 then {} else PortNames(m - 1) + {PortName(m)}
  }

  function EthernetNames(m: nat): set<string> {
    if m == 0 then {} else EthernetNames(m - 1) + {EthernetName(m)}
  }

  function ModuleNames(m: nat): set<string> {
    if m == 0 then {} else ModuleNames(m - 1) + {ModuleName(m)}
  }

  lemma {:induction false} PortNamesUpTo(m: nat, k: string)
    ensures k in PortNames(m) <==> exists n: nat :: 1 <= n <= m && k == PortName(n)
  {
    if m > 0 {
      hide PortName;
      PortNamesUpTo(m - 1, k);
      if k == PortName(m) {
      }
    }
  }

  lemma {:induction false} EthernetNamesUpTo(m: nat, k: string)
    ensures k in EthernetNames(m) <==> exists n: nat :: 1 <= n <= m && k == EthernetName(n)
  {
    if m > 0 {
      hide EthernetName;
      EthernetNamesUpTo(m - 1, k);
      if k == EthernetName(m) {
      }
    }
  }

  lemma {:induction false} ModuleNamesUpTo(m: nat, k: string)
    ensures k in ModuleNames(m) <==> exists n: nat :: 1 <= n <= m && k == ModuleName(n)
  {
    if m > 0 {
      hide ModuleName;
      ModuleNamesUpTo(m - 1, k);
      if k == ModuleName(m) {
      }
    }
  }

  const NEW_PORT := Port(None, Speed100GB, 1)

  function NewPorts(m: nat): map<string, Port> {
    map k | k in PortNames(m) :: NEW_PORT
  }

  function NewInterfaces(m: nat): map<string, Interface> {
    map k | k in EthernetNames(m) :: NewInterface(Speed100GB)
  }

  function NewModules(m: nat): map<string, OpticalModule> {
    map k | k in ModuleNames(m) :: NEW_MODULE
  }

  /** The configuration init starts from: every port unbroken at 100 Gb/s, nothing connected. */
  function DefaultConfig(): Config {
    Config(None, NewPorts(PORTS), NewInterfaces(PORTS), NewModules(MODULES))
  }

  // ---- Whose interface is it ----

  /** The port and the breakout channel (0 for an unbroken port) an interface name stands for. */
  function IndicesOf(k: string): Option<(nat, nat)> {
    match ParseInterfaceName(k)
    case Err(_) => None
    case Ok((n, s)) => if n >= 0 && s >= 0 && k == InterfaceName(n, s) then Some((n, s)) else None
  }

  lemma IndicesOfName(n: nat, s: nat)
    ensures IndicesOf(InterfaceName(n, s)) == Some((n, s))
  {
    ParsePrintedName(n, s);
  }

  /** A port with one channel owns sub-interface 0; a port with four owns 1 to 4. */
  predicate OwnsSub(p: Port, s: nat) {
    (p.numChannels == 1 && s == 0) || (p.numChannels == 4 && 1 <= s <= 4)
  }

  /** The name is that of an interface some port of the configuration owns. */
  predicate Owned(c: Config, k: string) {
    match IndicesOf(k)
    case None => false
    case Some((n, s)) => 1 <= n <= PORTS && PortName(n) in c.ports && OwnsSub(c.ports[PortName(n)], s)
  }

  predicate IsPortName(k: string) {
    k in PortNames(PORTS)
  }

  predicate IsModuleName(k: string) {
    k in ModuleNames(MODULES)
  }

  /** The leaves of a connection the CLI can set: an id of 100 to 4000, an existing module, channel A or B. */
  predicate ConnectionInRange(c: Config, x: Connection) {
    && (x.id.Some? ==> 100 <= x.id.value <= 4000)
    && (x.line.Some? && x.line.value.name.Some? ==> x.line.value.name.value in c.modules)
    && (x.line.Some? && x.line.value.channel.Some? ==> x.line.value.channel.value in {"A", "B"})
  }

  /**
   The wiring: the 16 ports with 1 or 4 channels each, exactly the interfaces they own, each at its port's speed, the
   8 optical modules, and connections with leaves in range.
   */
  ghost predicate Wired(c: Config) {
    && (forall k :: k in c.ports <==> IsPortName(k))
    && (forall k :: k in c.ports ==> c.ports[k].numChannels in {1, 4})
    && (forall k :: k in c.interfaces <==> Owned(c, k))
    && (forall k :: k in c.interfaces ==> c.interfaces[k].speed == c.ports[PortName(IndicesOf(k).value.0)].channelSpeed)
    && (forall k :: k in c.modules <==> IsModuleName(k))
    && (forall k :: k in c.interfaces && c.interfaces[k].connection.Some? ==> ConnectionInRange(c, c.interfaces[k].connection.value))
  }

  predicate AtPortSpeed(c: Config, k: string)
    requires k in c.interfaces
  {
    && IndicesOf(k).Some? && PortName(IndicesOf(k).value.0) in c.ports
    && c.interfaces[k].speed == c.ports[PortName(IndicesOf(k).value.0)].channelSpeed
  }

  /** The wiring part by part, for proofs that do not need to look into the parts. */
  lemma {:induction false} WiredBy(c: Config)
    requires forall k :: k in c.ports <==> IsPortName(k)
    requires forall k :: k in c.ports ==> c.ports[k].numChannels in {1, 4}
    requires forall k :: k in c.interfaces <==> Owned(c, k)
    requires forall k :: k in c.interfaces ==> AtPortSpeed(c, k)
    requires forall k :: k in c.modules <==> IsModuleName(k)
    requires forall k :: k in c.interfaces && c.interfaces[k].connection.Some? ==> ConnectionInRange(c, c.interfaces[k].connection.value)
    ensures Wired(c)
  {
    hide ConnectionInRange, IsPortName, IsModuleName, PortName, IndicesOf;
  }

  lemma {:induction false} WiredParts(c: Config)
    requires Wired(c)
    ensures forall k :: k in c.ports <==> IsPortName(k)
    ensures forall k :: k in c.ports ==> c.ports[k].numChannels in {1, 4}
    ensures forall k :: k in c.modules <==> IsModuleName(k)
  {
    hide ConnectionInRange, IsPortName, IsModuleName, PortName, Owned;
  }

  lemma {:induction false} WiredInterface(c: Config, k: string)
    requires Wired(c)
    ensures k in c.interfaces <==> Owned(c, k)
    ensures k in c.interfaces ==> IndicesOf(k).Some? && PortName(IndicesOf(k).value.0) in c.ports
    ensures k in c.interfaces ==> c.interfaces[k].speed == c.ports[PortName(IndicesOf(k).value.0)].channelSpeed
    ensures k in c.interfaces && c.interfaces[k].connection.Some? ==> ConnectionInRange(c, c.interfaces[k].connection.value)
  {
    hide ConnectionInRange, IsPortName, IsModuleName, PortName, IndicesOf;
  }

  /** A port owns exactly the interfaces its channel number asks for. */
  lemma PortOwns(c: Config, n: nat)
    requires Wired(c) && 1 <= n <= PORTS
    ensures PortName(n) in c.ports
    ensures forall s: nat :: InterfaceName(n, s) in c.interfaces <==> OwnsSub(c.ports[PortName(n)], s)
    ensures forall s: nat :: InterfaceName(n, s) in c.interfaces ==>
      c.interfaces[InterfaceName(n, s)].speed == c.ports[PortName(n)].channelSpeed
  {
    hide PortName, PortNames, InterfaceName, IndicesOf;
    PortNamesUpTo(PORTS, PortName(n));
    forall s: nat ensures InterfaceName(n, s) in c.interfaces <==> OwnsSub(c.ports[PortName(n)], s) {
      IndicesOfName(n, s);
      assert Owned(c, InterfaceName(n, s)) <==> OwnsSub(c.ports[PortName(n)], s);
    }
    forall s: nat | InterfaceName(n, s) in c.interfaces
      ensures c.interfaces[InterfaceName(n, s)].speed == c.ports[PortName(n)].channelSpeed {
      IndicesOfName(n, s);
    }
  }

  lemma {:induction false} DefaultInterfaces(k: string)
    ensures k in EthernetNames(PORTS) <==> Owned(DefaultConfig(), k)
    ensures k in EthernetNames(PORTS) ==> PortName(IndicesOf(k).value.0) in PortNames(PORTS)
  {
    hide IndicesOf, PortNames, EthernetNames, ModuleNames, PortName, EthernetName;
    EthernetNamesUpTo(PORTS, k);
    if k in EthernetNames(PORTS) {
      var n: nat :| 1 <= n <= PORTS && k == EthernetName(n);
      IndicesOfName(n, 0);
      PortNamesUpTo(PORTS, PortName(n));
    }
    if Owned(DefaultConfig(), k) {
      OwnedUnbroken(k);
    }
  }

  lemma {:induction false} OwnedUnbroken(k: string)
    requires Owned(DefaultConfig(), k)
    ensures IndicesOf(k).Some? && 1 <= IndicesOf(k).value.0 <= PORTS && k == EthernetName(IndicesOf(k).value.0)
  {
    hide PortNames, EthernetNames, ModuleNames, PortName, EthernetName, ParseInterfaceName;
  }

  lemma {:induction false} DefaultIsWired()
    ensures Wired(DefaultConfig())
  {
    hide IndicesOf, PortNames, EthernetNames, ModuleNames, Owned;
    forall k ensures k in DefaultConfig().interfaces <==> Owned(DefaultConfig(), k) {
      DefaultInterfaces(k);
    }
    forall k | k in DefaultConfig().interfaces
      ensures Owned(DefaultConfig(), k) && IndicesOf(k).Some? && PortName(IndicesOf(k).value.0) in DefaultConfig().ports
      ensures DefaultConfig().interfaces[k].speed == DefaultConfig().ports[PortName(IndicesOf(k).value.0)].channelSpeed {
      DefaultInterfaces(k);
      OwnedUnbroken(k);
    }
  }

  /**
   The default configuration, name by name: Port1 to Port16 unbroken at 100 Gb/s, Ethernet1 to Ethernet16 at 100 Gb/s and MTU
   1500 without description or connection, Opt1 to Opt8 with every leaf unset, and nothing else.
   */
  lemma {:induction false} DefaultHolds(k: string)
    ensures var d := DefaultConfig();
      && (k in d.ports <==> exists n: nat :: 1 <= n <= 16 && k == PortName(n))
      && (k in d.interfaces <==> exists n: nat :: 1 <= n <= 16 && k == EthernetName(n))
      && (k in d.modules <==> exists n: nat :: 1 <= n <= 8 && k == ModuleName(n))
      && (k in d.ports ==> d.ports[k] == Port(None, Speed100GB, 1))
      && (k in d.interfaces ==> d.interfaces[k] == Interface(1500, Speed100GB, None, None))
      && (k in d.modules ==>
            d.modules[k] == OpticalModule(None, None, GridUnset, None, None, ModulationUnset, None, None, None, map[]))
      && d.oversubscription == None
  {
    hide PortNames, EthernetNames, ModuleNames, PortName, EthernetName, ModuleName;
    PortNamesUpTo(PORTS, k);
    EthernetNamesUpTo(PORTS, k);
    ModuleNamesUpTo(MODULES, k);
  }

  // ---- defaultConfiguration ----

  /** defaultConfiguration. The generated New functions refuse an existing key; no key is ever met twice. */
  method DefaultConfiguration() returns (d: Config)
    ensures d == DefaultConfig()
  {
    hide PortNames, EthernetNames, ModuleNames, PortName, EthernetName, ModuleName;
    d := Config(None, map[], map[], map[]);
    NoNamesYet();
    for i: nat := 1 to PORTS + 1
      invariant d.ports == NewPorts(i - 1) && d.interfaces == NewInterfaces(i - 1)
      invariant d.modules == map[] && d.oversubscription == None
    {
      OneMoreName(i);
      assert PortName(i) !in d.ports && EthernetName(i) !in d.interfaces;
      d := Config(None, d.ports[PortName(i) := NEW_PORT], d.interfaces[EthernetName(i) := NewInterface(Speed100GB)], map[]);
    }
    for i: nat := 1 to MODULES + 1
      invariant d.ports == NewPorts(PORTS) && d.interfaces == NewInterfaces(PORTS)
      invariant d.modules == NewModules(i - 1) && d.oversubscription == None
    {
      OneMoreName(i);
      assert ModuleName(i) !in d.modules;
      d := Config(None, d.ports, d.interfaces, d.modules[ModuleName(i) := NEW_MODULE]);
    }
  }

  lemma {:induction false} NoNamesYet()
    ensures NewPorts(0) == map[] && NewInterfaces(0) == map[] && NewModules(0) == map[]
  {
  }

  lemma {:induction false} OneMoreName(i: nat)
    requires i >= 1
    ensures PortName(i) !in PortNames(i - 1) && NewPorts(i) == NewPorts(i - 1)[PortName(i) := NEW_PORT]
    ensures EthernetName(i) !in EthernetNames(i - 1) && NewInterfaces(i) == NewInterfaces(i - 1)[EthernetName(i) := NewInterface(Speed100GB)]
    ensures ModuleName(i) !in ModuleNames(i - 1) && NewModules(i) == NewModules(i - 1)[ModuleName(i) := NEW_MODULE]
  {
    PortNamesUpTo(i - 1, PortName(i));
    EthernetNamesUpTo(i - 1, EthernetName(i));
    ModuleNamesUpTo(i - 1, ModuleName(i));
    hide PortName, EthernetName, ModuleName;
    forall n: nat | n < i ensures PortName(n) != PortName(i) && EthernetName(n) != EthernetName(i) && ModuleName(n) != ModuleName(i) {
      if PortName(n) == PortName(i) { PortNameInjective(n, i); }
      if ModuleName(n) == ModuleName(i) { ModuleNameInjective(n, i); }
      if EthernetName(n) == EthernetName(i) { InterfaceNameInjective(n, 0, i, 0); }
    }
  }
}
