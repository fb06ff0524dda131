/** validateFinal: complete connections with unique ids, port modes, and the capacity of the optical module channels. */
module Validation {
  import opened Wrappers
  import opened Text
  import opened Names
  import opened Transponder
  import opened Sums

  // ---- Capacity ----

  function Mbps(s: Speed): Option<nat> {
    match s
    case Speed10MB => Some(10)
    case Speed100MB => Some(100)
    case Speed1GB => Some(1000)
    case Speed2500MB => Some(2500)
    case Speed5GB => Some(5000)
    case Speed10GB => Some(10000)
    case Speed25GB => Some(25000)
    case Speed40GB => Some(40000)
    case Speed50GB => Some(50000)
    case Speed100GB => Some(100000)
    case SpeedUnset => None
    case SpeedUnknown => None
  }

  /** The name of a speed in the data model. */
  function SpeedName(s: Speed): string {
    match s
    case Speed10MB => "SPEED_10MB"
    case Speed100MB => "SPEED_100MB"
    case Speed1GB => "SPEED_1GB"
    case Speed2500MB => "SPEED_2500MB"
    case Speed5GB => "SPEED_5GB"
    case Speed10GB => "SPEED_10GB"
    case Speed25GB => "SPEED_25GB"
    case Speed40GB => "SPEED_40GB"
    case Speed50GB => "SPEED_50GB"
    case Speed100GB => "SPEED_100GB"
    case SpeedUnknown => "SPEED_UNKNOWN"
    case SpeedUnset => ""
  }

  /** The speed a name tells: its digits, times 1000 if the unit is GB. */
  function NamedSpeed(name: string): Option<nat> {
    if |name| < |"SPEED_MB"| || !HasPrefix(name, "SPEED_") then None
    else
      var digits, unit := name[|"SPEED_"|..|name| - 2], name[|name| - 2..];
      if digits == "" || !AllDigits(digits) then None
      else if unit == "MB" then Some(ValueOf(digits))
      else if unit == "GB" then Some(1000 * ValueOf(digits))
      else None
  }

  lemma {:induction false} DigitsAre(a: char, b: char, c: char, d: char)
    requires IsDigit(a) && IsDigit(b) && IsDigit(c) && IsDigit(d)
    ensures ValueOf([a]) == (a - '0') as nat
    ensures ValueOf([a, b]) == 10 * ValueOf([a]) + (b - '0') as nat
    ensures ValueOf([a, b, c]) == 10 * ValueOf([a, b]) + (c - '0') as nat
    ensures ValueOf([a, b, c, d]) == 10 * ValueOf([a, b, c]) + (d - '0') as nat
  {
    assert [a][..0] == "";
    assert [a, b][..1] == [a] && [a, b, c][..2] == [a, b] && [a, b, c, d][..3] == [a, b, c];
  }

  lemma {:induction false} NameTells(digits: string, giga: bool)
    requires digits != "" && AllDigits(digits)
    ensures NamedSpeed("SPEED_" + digits + (if giga then "GB" else "MB")) == Some(if giga then 1000 * ValueOf(digits) else ValueOf(digits))
  {
    hide ValueOf;
    var name := "SPEED_" + digits + (if giga then "GB" else "MB");
    assert name[6..|name| - 2] == digits;
    assert name[|name| - 2..] == if giga then "GB" else "MB";
    assert name[..6] == "SPEED_";
  }

  /** A name put together from its digits and its unit. */
  lemma {:induction false} Told(digits: string, giga: bool, name: string)
    requires digits != "" && AllDigits(digits) && name == "SPEED_" + digits + (if giga then "GB" else "MB")
    ensures NamedSpeed(name) == Some(if giga then 1000 * ValueOf(digits) else ValueOf(digits))
  {
    NameTells(digits, giga);
  }

  lemma {:induction false} Numbers()
    ensures ValueOf("1") == 1 && ValueOf("5") == 5 && ValueOf("10") == 10 && ValueOf("25") == 25 && ValueOf("40") == 40
    ensures ValueOf("50") == 50 && ValueOf("100") == 100 && ValueOf("2500") == 2500
  {
    DigitsAre('1', '0', '0', '0');
    DigitsAre('2', '5', '0', '0');
    DigitsAre('4', '0', '0', '0');
    DigitsAre('5', '0', '0', '0');
  }

  /** Each speed counts for what its name says. */
  lemma {:induction false} SpeedIsItsName(s: Speed)
    ensures Mbps(s) == NamedSpeed(SpeedName(s))
  {
    Numbers();
    if s in {SpeedUnset, SpeedUnknown} {
      assert s == SpeedUnknown ==> SpeedName(s)[6..11][0] == 'U';
    } else {
      hide NamedSpeed, ValueOf;
      match s {
        case Speed10MB => Told("10", false, "SPEED_10MB");
        case Speed100MB => Told("100", false, "SPEED_100MB");
        case Speed1GB => Told("1", true, "SPEED_1GB");
        case Speed2500MB => Told("2500", false, "SPEED_2500MB");
        case Speed5GB => Told("5", true, "SPEED_5GB");
        case Speed10GB => Told("10", true, "SPEED_10GB");
        case Speed25GB => Told("25", true, "SPEED_25GB");
        case Speed40GB => Told("40", true, "SPEED_40GB");
        case Speed50GB => Told("50", true, "SPEED_50GB");
        case Speed100GB => Told("100", true, "SPEED_100GB");
      }
    }
  }

  const CHANNEL_CAPACITY := 100000

  predicate ConnectsTo(i: Interface, name: string, ch: string) {
    i.connection.Some? && i.connection.value.line == Some(Endpoint(Some(name), Some(ch)))
  }

  /** What interface k puts on channel ch of module name. */
  function LoadAt(interfaces: map<string, Interface>, name: string, ch: string, k: string): nat {
    if k in interfaces && ConnectsTo(interfaces[k], name, ch) && Mbps(interfaces[k].speed).Some?
    then Mbps(interfaces[k].speed).value else 0
  }

  function LoadOf(interfaces: map<string, Interface>, name: string, ch: string): string -> nat {
    k => LoadAt(interfaces, name, ch, k)
  }

  /** The sum of the speeds of all interfaces connected to channel ch of module name. */
  ghost function Load(c: Config, name: string, ch: string): nat {
    Sum(c.interfaces.Keys, LoadOf(c.interfaces, name, ch))
  }

  predicate SpeedsKnown(c: Config, name: string, ch: string) {
    forall k :: k in c.interfaces && ConnectsTo(c.interfaces[k], name, ch) ==> Mbps(c.interfaces[k].speed).Some?
  }

  datatype CapacityError = UnknownModulation | UnknownSpeed | NoCapacity

  /** The occupancy of a channel in percent. */
  ghost function Occupancy(c: Config, name: string, modulation: Modulation, ch: string): Result<real, CapacityError> {
    if modulation.ModulationUnset? then Err(UnknownModulation)
    else if !SpeedsKnown(c, name, ch) then Err(UnknownSpeed)
    else if modulation.DpQpsk? && ch != "A" then (if Load(c, name, ch) > 0 then Err(NoCapacity) else Ok(0.0))
    else Ok(Load(c, name, ch) as real * 100.0 / CHANNEL_CAPACITY as real)
  }

  /** calculateOccupancy: the walk over the interfaces, in any order. */
  method CalculateOccupancy(ch: string, name: string, modulation: Modulation, c: Config) returns (r: Result<real, CapacityError>)
    ensures r == Occupancy(c, name, modulation, ch)
  {
    var totalCapacity := 0;
    match modulation {
      case DpQpsk =>
        if ch == "A" {
          totalCapacity := CHANNEL_CAPACITY;
        }
      case Dp16Qam => totalCapacity := CHANNEL_CAPACITY;
      case ModulationUnset => return Err(UnknownModulation);
    }
    var acc := Accumulate(ch, name, c);
    if acc == None {
      return Err(UnknownSpeed);
    }
    if totalCapacity == 0 {
      return if acc.value > 0 then Err(NoCapacity) else Ok(0.0);
    }
    r := Ok(acc.value as real * 100.0 / totalCapacity as real);
  }

  /** The loop of calculateOccupancy; None for a connected interface of unknown speed. */
  method Accumulate(ch: string, name: string, c: Config) returns (r: Option<nat>)
    ensures r == if SpeedsKnown(c, name, ch) then Some(Load(c, name, ch)) else None
  {
    hide Mbps;
    var acc, rest := 0, c.interfaces.Keys;
    ghost var w := LoadOf(c.interfaces, name, ch);
    while rest != {}
      invariant rest <= c.interfaces.Keys
      invariant acc + Sum(rest, w) == Sum(c.interfaces.Keys, w)
      invariant forall k :: k in c.interfaces && k !in rest && ConnectsTo(c.interfaces[k], name, ch) ==> Mbps(c.interfaces[k].speed).Some?
      decreases |rest|
    {
      var k :| k in rest;
      SumTake(rest, w, k);
      rest := rest - {k};
      var v := c.interfaces[k];
      if v.connection.Some? && v.connection.value.line.Some? {
        var line := v.connection.value.line.value;
        if line.name != Some(name) || line.channel != Some(ch) {
          continue;
        }
        assert ConnectsTo(v, name, ch);
        var speed := Mbps(v.speed);
        if speed == None {
          return None;
        }
        acc := acc + speed.value;
      }
    }
    r := Some(acc);
  }

  // ---- Defaults ----

  /** The module with every unset leaf at its default; oversubscription falls back on the global leaf. */
  function WithDefaults(m: OpticalModule, oversubscription: Option<bool>): OpticalModule {
    OpticalModule(
      m.description,
      if m.channel == None then Some(1) else m.channel,
      if m.grid == GridUnset then Grid50GHz else m.grid,
      if m.losi == None then Some(false) else m.losi,
      if m.prbs == None then Some(false) else m.prbs,
      if m.modulation == ModulationUnset then Dp16Qam else m.modulation,
      if m.berInterval == None then Some(100) else m.berInterval,
      if m.enabled == None then Some(true) else m.enabled,
      if m.oversubscription == None then (if oversubscription == None then Some(false) else oversubscription) else m.oversubscription,
      m.occupancy)
  }

  ghost function FillDefault(c: Config, name: string, m: OpticalModule): Result<OpticalModule, CapacityError> {
    var d := WithDefaults(m, c.oversubscription);
    match Occupancy(c, name, d.modulation, "A")
    case Err(e) => Err(e)
    case Ok(a) =>
      match Occupancy(c, name, d.modulation, "B")
      case Err(e) => Err(e)
      case Ok(b) => Ok(d.(occupancy := d.occupancy["A" := a]["B" := b]))
  }

  /** FillTransportDefaultConfig. */
  method FillTransportDefaultConfig(name: string, m: OpticalModule, c: Config) returns (r: Result<OpticalModule, CapacityError>)
    ensures r == FillDefault(c, name, m)
  {
    var d := WithDefaults(m, c.oversubscription);
    var occupancy := d.occupancy;
    var a := CalculateOccupancy("A", name, d.modulation, c);
    match a {
      case Err(e) => return Err(e);
      case Ok(x) => occupancy := occupancy["A" := x];
    }
    var b := CalculateOccupancy("B", name, d.modulation, c);
    match b {
      case Err(e) => return Err(e);
      case Ok(x) => occupancy := occupancy["B" := x];
    }
    r := Ok(d.(occupancy := occupancy));
  }

  // ---- validateFinal ----

  predicate Complete(x: Connection) {
    x.id.Some? && x.line.Some? && x.line.value.name.Some? && x.line.value.channel.Some?
  }

  predicate Connected(c: Config, k: string) {
    k in c.interfaces && c.interfaces[k].connection.Some?
  }

  predicate ConnectionsComplete(c: Config) {
    forall k :: k in c.interfaces && c.interfaces[k].connection.Some? ==> Complete(c.interfaces[k].connection.value)
  }

  /** No two interfaces use the same id. */
  predicate IdsUnique(c: Config) {
    forall j, k :: j in c.interfaces && k in c.interfaces && j != k
      && c.interfaces[j].connection.Some? && c.interfaces[k].connection.Some?
      && c.interfaces[j].connection.value.id.Some?
      ==> c.interfaces[j].connection.value.id != c.interfaces[k].connection.value.id
  }

  predicate ModeAllowed(p: Port) {
    match p.numChannels
    case 1 => p.channelSpeed in {Speed40GB, Speed100GB}
    case 2 => p.channelSpeed in {Speed40GB, Speed50GB}
    case 4 => p.channelSpeed in {Speed10GB, Speed25GB}
    case _ => false
  }

  predicate ModesAllowed(c: Config) {
    forall k :: k in c.ports ==> ModeAllowed(c.ports[k])
  }

  /** The filled module does not exceed 100% on any channel, unless it may. */
  predicate WithinCapacity(m: OpticalModule) {
    m.oversubscription == Some(true) || forall ch :: ch in m.occupancy ==> m.occupancy[ch] <= 100.0
  }

  ghost predicate ModuleAccepted(c: Config, name: string, m: OpticalModule) {
    FillDefault(c, name, m).Ok? && WithinCapacity(FillDefault(c, name, m).value)
  }

  ghost predicate ModulesAccepted(c: Config) {
    forall k :: k in c.modules ==> ModuleAccepted(c, k, c.modules[k])
  }

  ghost predicate Accepts(c: Config) {
    ConnectionsComplete(c) && IdsUnique(c) && ModesAllowed(c) && ModulesAccepted(c)
  }

  /** The configuration validateFinal leaves behind when it accepts: every module filled in. */
  ghost function FilledConfig(c: Config): Config
    requires ModulesAccepted(c)
  {
    c.(modules := map k | k in c.modules :: FillDefault(c, k, c.modules[k]).value)
  }

  datatype ValidationError = IncompleteConnection | IdInUse | BadPortMode | Capacity(error: CapacityError) | Oversubscribed

  /** The loop over the interfaces, with the map of used ids. */
  method CheckConnections(c: Config) returns (r: Option<ValidationError>)
    ensures r == None <==> ConnectionsComplete(c) && IdsUnique(c)
  {
    var usedID: map<nat, string> := map[];
    var rest := c.interfaces.Keys;
    while rest != {}
      invariant rest <= c.interfaces.Keys
      invariant forall k :: Connected(c, k) && k !in rest ==>
        Complete(c.interfaces[k].connection.value)
        && c.interfaces[k].connection.value.id.value in usedID && usedID[c.interfaces[k].connection.value.id.value] == k
      invariant forall id :: id in usedID ==>
        Connected(c, usedID[id]) && usedID[id] !in rest && c.interfaces[usedID[id]].connection.value.id == Some(id)
      decreases |rest|
    {
      var k :| k in rest;
      rest := rest - {k};
      var v := c.interfaces[k];
      if v.connection.Some? {
        assert Connected(c, k);
        var x := v.connection.value;
        if !Complete(x) {
          return Some(IncompleteConnection);
        }
        if x.id.value in usedID {
          assert usedID[x.id.value] != k;
          return Some(IdInUse);
        }
        usedID := usedID[x.id.value := k];
      }
    }
    assert forall k :: k in c.interfaces && c.interfaces[k].connection.Some? ==> Connected(c, k);
    r := None;
  }

  /** The number of channels and the Mb/s of each. */
  function ModeOf(p: Port): (nat, Option<nat>) {
    (p.numChannels, Mbps(p.channelSpeed))
  }

  /** Exactly six modes are allowed; in each the port carries 40 to 100 Gb/s in all. */
  lemma {:induction false} AllowedModes(p: Port)
    ensures ModeAllowed(p) <==> ModeOf(p) in {
      (1, Some(40000)), (1, Some(100000)), (2, Some(40000)), (2, Some(50000)), (4, Some(10000)), (4, Some(25000))}
    ensures ModeAllowed(p) ==> Mbps(p.channelSpeed).Some? && 40000 <= p.numChannels * Mbps(p.channelSpeed).value <= 100000
  {
  }

  /** The loop over the ports. */
  method CheckPorts(c: Config) returns (r: Option<ValidationError>)
    ensures r == None <==> ModesAllowed(c)
    ensures r == None <==> forall k :: k in c.ports ==> ModeOf(c.ports[k]) in {
      (1, Some(40000)), (1, Some(100000)), (2, Some(40000)), (2, Some(50000)), (4, Some(10000)), (4, Some(25000))}
  {
    hide ModeOf;
    forall k | k in c.ports {
      AllowedModes(c.ports[k]);
    }
    var rest := c.ports.Keys;
    while rest != {}
      invariant rest <= c.ports.Keys
      invariant forall k :: k in c.ports && k !in rest ==> ModeAllowed(c.ports[k])
      decreases |rest|
    {
      var k :| k in rest;
      rest := rest - {k};
      var bMode := c.ports[k];
      match bMode.numChannels
      case 1 =>
        if bMode.channelSpeed !in {Speed40GB, Speed100GB} {
          return Some(BadPortMode);
        }
      case 2 =>
        if bMode.channelSpeed !in {Speed40GB, Speed50GB} {
          return Some(BadPortMode);
        }
      case 4 =>
        if bMode.channelSpeed !in {Speed10GB, Speed25GB} {
          return Some(BadPortMode);
        }
      case _ =>
        return Some(BadPortMode);
    }
    r := None;
  }

  /** The loop over the modules: each is filled in place and its occupancies are compared with 100%. */
  method CheckModules(c: Config) returns (r: Option<ValidationError>, modules: map<string, OpticalModule>)
    ensures r == None <==> ModulesAccepted(c)
    ensures r == None ==> modules == FilledConfig(c).modules
  {
    hide FillDefault;
    modules := c.modules;
    var rest := c.modules.Keys;
    while rest != {}
      invariant rest <= c.modules.Keys && modules.Keys == c.modules.Keys
      invariant forall k :: k in rest ==> modules[k] == c.modules[k]
      invariant forall k :: k in c.modules && k !in rest ==> ModuleAccepted(c, k, c.modules[k]) && modules[k] == FillDefault(c, k, c.modules[k]).value
      decreases |rest|
    {
      var k :| k in rest;
      rest := rest - {k};
      var filled := FillTransportDefaultConfig(k, modules[k], c);
      match filled {
        case Err(e) => return Some(Capacity(e)), modules;
        case Ok(v) =>
          modules := modules[k := v];
          if !WithinCapacity(v) {
            return Some(Oversubscribed), modules;
          }
      }
    }
    r := None;
  }

  /** validateFinal: which error is reported depends on map order, whether one is does not. */
  method ValidateFinal(c: Config) returns (r: Option<ValidationError>, filled: Config)
    ensures r == None <==> Accepts(c)
    ensures r == None ==> filled == FilledConfig(c)
  {
    filled := c;
    r := CheckConnections(c);
    if r.Some? {
      return;
    }
    r := CheckPorts(c);
    if r.Some? {
      return;
    }
    var modules;
    r, modules := CheckModules(c);
    filled := c.(modules := modules);
  }

  // ---- What acceptance means for the channels ----

  /** The modulation and the oversubscription that hold for a module, defaults included. */
  function EffectiveModulation(m: OpticalModule): Modulation {
    if m.modulation == ModulationUnset then Dp16Qam else m.modulation
  }

  function MayOversubscribe(c: Config, m: OpticalModule): bool {
    if m.oversubscription.Some? then m.oversubscription.value
    else c.oversubscription.Some? && c.oversubscription.value
  }

  /**
   A module is accepted exactly when the speeds on both channels are known, channel B carries nothing under QPSK, and,
   unless it may be oversubscribed, no channel carries more than 100000 Mb/s.
   */
  lemma {:induction false} AcceptedModule(c: Config, name: string, m: OpticalModule)
    requires m.occupancy == map[]
    ensures ModuleAccepted(c, name, m) <==>
      && SpeedsKnown(c, name, "A") && SpeedsKnown(c, name, "B")
      && (EffectiveModulation(m).DpQpsk? ==> Load(c, name, "B") == 0)
      && (!MayOversubscribe(c, m) ==> Load(c, name, "A") <= CHANNEL_CAPACITY && Load(c, name, "B") <= CHANNEL_CAPACITY)
  {
    hide Load;
    Percent(Load(c, name, "A"));
    Percent(Load(c, name, "B"));
    var r := FillDefault(c, name, m);
    if r.Ok? {
      assert "A" in r.value.occupancy && "B" in r.value.occupancy;
      assert forall ch :: ch in r.value.occupancy ==> ch == "A" || ch == "B";
      assert "A" != "B";
    }
  }

  lemma {:induction false} CompleteIs(x: Connection)
    ensures Complete(x) <==> exists id, name, ch :: x == Connection(Some(id), Some(Endpoint(Some(name), Some(ch))))
  {
    if Complete(x) {
      assert x == Connection(Some(x.id.value), Some(Endpoint(Some(x.line.value.name.value), Some(x.line.value.channel.value))));
    }
  }

  /**
   Acceptance as a whole: every connection has all its three leaves, no two have the same id, every port is in one of six
   modes, and the loads on the channels of every module are known, carried by its modulation, and, unless it may be
   oversubscribed, at most 100 Gb/s.
   */
  lemma {:induction false} AcceptedExactly(c: Config)
    requires forall k :: k in c.modules ==> c.modules[k].occupancy == map[]
    ensures Accepts(c) <==>
      && (forall k :: k in c.interfaces && c.interfaces[k].connection.Some? ==>
            exists id, name, ch :: c.interfaces[k].connection.value == Connection(Some(id), Some(Endpoint(Some(name), Some(ch)))))
      && (forall j, k | Connected(c, j) && Connected(c, k) && j != k && c.interfaces[j].connection.value.id.Some? ::
            c.interfaces[j].connection.value.id != c.interfaces[k].connection.value.id)
      && (forall k :: k in c.ports ==> ModeOf(c.ports[k]) in {
            (1, Some(40000)), (1, Some(100000)), (2, Some(40000)), (2, Some(50000)), (4, Some(10000)), (4, Some(25000))})
      && (forall k :: k in c.modules ==>
            && SpeedsKnown(c, k, "A") && SpeedsKnown(c, k, "B")
            && (c.modules[k].modulation == DpQpsk ==> Load(c, k, "B") == 0)
            && (!MayOversubscribe(c, c.modules[k]) ==> Load(c, k, "A") <= 100000 && Load(c, k, "B") <= 100000))
  {
    ConnectionsAccepted(c);
    forall k | k in c.ports {
      AllowedModes(c.ports[k]);
    }
    forall k | k in c.modules {
      AcceptedModule(c, k, c.modules[k]);
    }
    hide ConnectionsComplete, IdsUnique, ModeAllowed, ModeOf, ModuleAccepted, SpeedsKnown, Load, MayOversubscribe;
  }

  lemma {:induction false} ConnectionsAccepted(c: Config)
    ensures ConnectionsComplete(c) <==> forall k :: k in c.interfaces && c.interfaces[k].connection.Some? ==>
      exists id, name, ch :: c.interfaces[k].connection.value == Connection(Some(id), Some(Endpoint(Some(name), Some(ch))))
    ensures IdsUnique(c) <==>
      forall j, k | Connected(c, j) && Connected(c, k) && j != k && c.interfaces[j].connection.value.id.Some? ::
        c.interfaces[j].connection.value.id != c.interfaces[k].connection.value.id
  {
    hide Complete;
    forall k | k in c.interfaces && c.interfaces[k].connection.Some? {
      CompleteIs(c.interfaces[k].connection.value);
    }
  }

  lemma Percent(load: nat)
    ensures load as real * 100.0 / CHANNEL_CAPACITY as real <= 100.0 <==> load <= CHANNEL_CAPACITY
  {
  }

  // ---- Conservation ----

  /** The interface is connected to channel A or B of one of these modules. */
  predicate OnLine(i: Interface, modules: set<string>) {
    exists name :: name in modules && (ConnectsTo(i, name, "A") || ConnectsTo(i, name, "B"))
  }

  /** What an interface puts on the channels of these modules together. */
  function LineLoadOf(interfaces: map<string, Interface>, modules: set<string>): string -> nat {
    k => if k in interfaces && OnLine(interfaces[k], modules) && Mbps(interfaces[k].speed).Some? then Mbps(interfaces[k].speed).value else 0
  }

  function BothChannels(interfaces: map<string, Interface>, name: string): string -> nat {
    k => LoadAt(interfaces, name, "A", k) + LoadAt(interfaces, name, "B", k)
  }

  ghost function ModuleLoad(c: Config): string -> nat {
    name => Load(c, name, "A") + Load(c, name, "B")
  }

  /** The loads of all channels of all modules add up to the speeds of the interfaces connected to them, each counted once. */
  lemma {:induction false} LoadsAddUp(c: Config, modules: set<string>)
    ensures Sum(modules, ModuleLoad(c)) == Sum(c.interfaces.Keys, LineLoadOf(c.interfaces, modules))
    decreases modules
  {
    var ks := c.interfaces.Keys;
    if modules == {} {
      SumOfZero(ks, LineLoadOf(c.interfaces, modules));
    } else {
      var name :| name in modules;
      var less := modules - {name};
      SumTake(modules, ModuleLoad(c), name);
      LoadsAddUp(c, less);
      SumOfTwo(ks, LoadOf(c.interfaces, name, "A"), LoadOf(c.interfaces, name, "B"), BothChannels(c.interfaces, name));
      forall k | k in ks
        ensures LineLoadOf(c.interfaces, modules)(k) == BothChannels(c.interfaces, name)(k) + LineLoadOf(c.interfaces, less)(k) {
        OneModule(c.interfaces[k], modules, name);
      }
      SumOfTwo(ks, BothChannels(c.interfaces, name), LineLoadOf(c.interfaces, less), LineLoadOf(c.interfaces, modules));
    }
  }

  lemma {:induction false} OneModule(i: Interface, modules: set<string>, name: string)
    requires name in modules
    ensures OnLine(i, modules) <==> ConnectsTo(i, name, "A") || ConnectsTo(i, name, "B") || OnLine(i, modules - {name})
    ensures !(ConnectsTo(i, name, "A") && ConnectsTo(i, name, "B"))
    ensures !((ConnectsTo(i, name, "A") || ConnectsTo(i, name, "B")) && OnLine(i, modules - {name}))
  {
    assert "A" != "B";
  }
}
