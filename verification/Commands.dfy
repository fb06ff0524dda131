/** When each command succeeds, and what breakout makes of a wired configuration, name by name. */
module Commands {
  import opened Wrappers
  import opened Names
  import opened Transponder
  import opened Cli
  import opened Breakout

  /** What a command asks of its argument and of the configuration. */
  predicate Allowed(c: Config, cmd: Command) {
    match cmd
    case ChannelSpeed(name, speed) => name in c.ports && speed != SpeedUnset
    case NumChannels(name, num) => name in c.ports && num in {1, 4} && num != c.ports[name].numChannels
    case PortDescription(name, _) => name in c.ports
    case ConnectionId(name, id) => name in c.interfaces && 100 <= id <= 4000
    case ConnectionModule(name, target) => name in c.interfaces && target in c.modules
    case ConnectionChannel(name, channel) => name in c.interfaces && channel in {"A", "B"}
    case ConnectionClear(name) => name in c.interfaces
    case InterfaceDescription(name, _) => name in c.interfaces
    case EditModule(name, leaf) => name in c.modules && LeafAllowed(leaf)
    case Oversubscription(_) => true
  }

  predicate LeafAllowed(leaf: LeafEdit) {
    match leaf
    case SetGrid(g) => g != GridUnset
    case SetChannel(n) => 1 <= n <= 255
    case SetBerInterval(n) => 5 <= n <= 4294967295
    case SetModulation(x) => x != ModulationUnset
    case _ => true
  }

  lemma {:induction false} SpeedAllowed(c: Config, name: string, speed: Speed)
    requires Wired(c)
    ensures SetSpeed(c, name, speed).Ok? <==> name in c.ports && speed != SpeedUnset
  {
    hide Wired, PortIndex, SubInterface, AtSpeed, PortName;
    if name in c.ports {
      var n := PortNumber(c, name);
    }
  }

  lemma {:induction false} NumberAllowed(c: Config, name: string, num: nat)
    requires Wired(c)
    ensures SetChannels(c, name, num).Ok? <==> name in c.ports && num in {1, 4} && num != c.ports[name].numChannels
  {
    hide Wired, PortIndex, SubInterface, Channels, Made, PortName;
    NoDuplicates(c, name, num);
    if name in c.ports {
      var n := PortNumber(c, name);
    }
  }

  lemma {:induction false} EditAllowed(c: Config, cmd: Command)
    requires OnInterface(cmd) && cmd.name in c.interfaces
    ensures EditInterface(c, cmd).Ok? <==> Allowed(c, cmd)
  {
    hide Emitted, LineOf, IdOf;
  }

  /** On a wired configuration a command succeeds exactly if its argument is allowed: nothing else can fail. */
  lemma {:induction false} CommandSucceeds(c: Config, cmd: Command)
    requires Wired(c)
    ensures Execute(c, cmd).Ok? <==> Allowed(c, cmd)
  {
    hide Wired, SetSpeed, SetChannels, EditInterface;
    match cmd {
      case ChannelSpeed(name, speed) => SpeedAllowed(c, name, speed);
      case NumChannels(name, num) => NumberAllowed(c, name, num);
      case PortDescription(_, _) =>
      case EditModule(_, _) =>
      case Oversubscription(_) =>
      case _ =>
        if cmd.name in c.interfaces {
          EditAllowed(c, cmd);
        }
    }
  }

  /** The ports and interfaces the commands can name: 16 ports, their interfaces by port and channel. */
  lemma {:induction false} NamesOf(c: Config, name: string)
    requires Wired(c)
    ensures name in c.ports <==> exists n: nat :: 1 <= n <= 16 && name == PortName(n)
    ensures name in c.modules <==> exists n: nat :: 1 <= n <= 8 && name == ModuleName(n)
    ensures name in c.interfaces ==> exists n: nat, s: nat :: 1 <= n <= 16 && name == InterfaceName(n, s)
  {
    hide PortName, ModuleName, InterfaceName, PortNames, ModuleNames, Owned;
    WiredParts(c);
    PortNamesUpTo(PORTS, name);
    ModuleNamesUpTo(MODULES, name);
    if name in c.interfaces {
      OwnerExists(c, name);
    }
  }

  /**
   num-channels on port n of a wired configuration succeeds exactly if the number is 1 or 4 and not the present one. The
   port then has that number; its interfaces are EthernetN, or EthernetN_1 to N_4, all new: MTU 1500, the port's speed,
   no description and no connection. Everything else is as before.
   */
  lemma {:induction false} NumChannelsDoes(c: Config, n: nat, num: nat)
    requires Wired(c) && 1 <= n <= 16
    ensures PortName(n) in c.ports
    ensures Execute(c, NumChannels(PortName(n), num)).Ok? <==> (num == 1 || num == 4) && num != c.ports[PortName(n)].numChannels
    ensures Execute(c, NumChannels(PortName(n), num)).Ok? ==>
      var d := Execute(c, NumChannels(PortName(n), num)).value;
      && d == c.(ports := c.ports[PortName(n) := c.ports[PortName(n)].(numChannels := num)], interfaces := d.interfaces)
      && forall m: nat, s: nat | 1 <= m <= 16 :: SwitchedAt(c, d, n, num, m, s)
  {
    hide PortName, PortNames, InterfaceName, SetChannels, Owned, IndicesOf;
    PortOwns(c, n);
    CommandSucceeds(c, NumChannels(PortName(n), num));
    PortIndexOf(n);
    if Execute(c, NumChannels(PortName(n), num)).Ok? {
      var d := SetChannels(c, PortName(n), num).value;
      ChannelsFrame(c, PortName(n), num);
      ChannelsRest(c, PortName(n), num);
      forall m: nat, s: nat | 1 <= m <= 16 ensures SwitchedAt(c, d, n, num, m, s) {
        Switched(c, n, num, m, s);
      }
    }
  }

  /** Channel s of port m after num-channels on port n: 0 stands for the unbroken port. */
  predicate SwitchedAt(c: Config, d: Config, n: nat, num: nat, m: nat, s: nat) {
    var k := InterfaceName(m, s);
    if m != n then (k in d.interfaces <==> k in c.interfaces) && (k in c.interfaces ==> d.interfaces[k] == c.interfaces[k])
    else
      && (k in d.interfaces <==> if num == 1 then s == 0 else 1 <= s <= 4)
      && (k in d.interfaces ==> PortName(n) in c.ports && d.interfaces[k] == Interface(1500, c.ports[PortName(n)].channelSpeed, None, None))
  }

  lemma {:induction false} ChannelsRest(c: Config, name: string, num: nat)
    requires SetChannels(c, name, num).Ok?
    ensures SetChannels(c, name, num).value.oversubscription == c.oversubscription
  {
    hide PortIndex, SubInterface, Channels, Made;
  }

  lemma {:induction false} Switched(c: Config, n: nat, num: nat, m: nat, s: nat)
    requires Wired(c) && 1 <= n <= 16 && 1 <= m <= 16 && PortName(n) in c.ports && SetChannels(c, PortName(n), num).Ok?
    ensures SwitchedAt(c, SetChannels(c, PortName(n), num).value, n, num, m, s)
  {
    PortIndexOf(n);
    IndicesOfName(m, s);
    hide PortName, PortNames, ModuleNames, InterfaceName, SetChannels, IndicesOf;
    var d := SetChannels(c, PortName(n), num).value;
    ChannelsFrame(c, PortName(n), num);
    ChannelsSwitched(c, PortName(n), num, n, InterfaceName(m, s));
    PortOwns(c, m);
    if m != n && PortName(m) == PortName(n) {
      PortNameInjective(m, n);
    }
  }

  /**
   channel-speed on port n of a wired configuration succeeds exactly if a speed is given. The port and all its interfaces
   get it; everything else is as before.
   */
  lemma {:induction false} ChannelSpeedDoes(c: Config, n: nat, speed: Speed)
    requires Wired(c) && 1 <= n <= 16
    ensures PortName(n) in c.ports
    ensures Execute(c, ChannelSpeed(PortName(n), speed)).Ok? <==> speed != SpeedUnset
    ensures Execute(c, ChannelSpeed(PortName(n), speed)).Ok? ==>
      var d := Execute(c, ChannelSpeed(PortName(n), speed)).value;
      && d == c.(ports := c.ports[PortName(n) := c.ports[PortName(n)].(channelSpeed := speed)], interfaces := d.interfaces)
      && d.interfaces.Keys == c.interfaces.Keys
      && forall m: nat, s: nat | 1 <= m <= 16 && InterfaceName(m, s) in c.interfaces ::
           d.interfaces[InterfaceName(m, s)] ==
             if m == n then c.interfaces[InterfaceName(m, s)].(speed := speed) else c.interfaces[InterfaceName(m, s)]
  {
    hide PortName, PortNames, InterfaceName, SetSpeed, Owned, IndicesOf;
    PortOwns(c, n);
    CommandSucceeds(c, ChannelSpeed(PortName(n), speed));
    PortIndexOf(n);
    if Execute(c, ChannelSpeed(PortName(n), speed)).Ok? {
      SpeedFrame(c, PortName(n), speed);
      SpeedRest(c, PortName(n), speed);
      forall m: nat, s: nat | 1 <= m <= 16 && InterfaceName(m, s) in c.interfaces
        ensures SetSpeed(c, PortName(n), speed).value.interfaces[InterfaceName(m, s)] ==
          if m == n then c.interfaces[InterfaceName(m, s)].(speed := speed) else c.interfaces[InterfaceName(m, s)] {
        IndicesOfName(m, s);
        SpeedSet(c, PortName(n), speed, n, InterfaceName(m, s));
      }
    }
  }

  lemma {:induction false} SpeedRest(c: Config, name: string, speed: Speed)
    requires SetSpeed(c, name, speed).Ok?
    ensures SetSpeed(c, name, speed).value.oversubscription == c.oversubscription
  {
    hide PortIndex, SubInterface, AtSpeed;
  }
}
