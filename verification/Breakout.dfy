/** Every command keeps the wiring, so every run of commands from the default configuration does. */
module Breakout {
  import opened Wrappers
  import opened Text
  import opened Names
  import opened Transponder
  import opened Cli

  lemma {:induction false} PortIndexOf(n: nat)
    ensures PortIndex(PortName(n)) == Some(n as int)
  {
    assert PortName(n)[|"Port"|..] == Print(n);
    AtoiPrint(n);
  }

  /** The name of a port of a wired configuration, and the number the commands read from it. */
  lemma {:induction false} PortNumber(c: Config, name: string) returns (n: nat)
    requires Wired(c) && name in c.ports
    ensures 1 <= n <= PORTS && name == PortName(n) && PortIndex(name) == Some(n as int)
  {
    hide PortNames, PortName;
    assert IsPortName(name);
    PortNamesUpTo(PORTS, name);
    n :| 1 <= n <= PORTS && name == PortName(n);
    PortIndexOf(n);
  }

  lemma {:induction false} NamedBy(k: string)
    requires IndicesOf(k).Some?
    ensures k == InterfaceName(IndicesOf(k).value.0, IndicesOf(k).value.1)
  {
    hide ParseInterfaceName;
  }

  /** What channel-speed makes of one interface: only those of the port change, and only in speed. */
  lemma {:induction false} SpeedSet(c: Config, name: string, speed: Speed, n: nat, k: string)
    requires Wired(c) && SetSpeed(c, name, speed).Ok? && name == PortName(n) && PortIndex(name) == Some(n as int)
    requires k in c.interfaces
    ensures Owned(c, k)
    ensures var c' := SetSpeed(c, name, speed).value;
      k in c'.interfaces && c'.interfaces[k] == if IndicesOf(k).value.0 == n then c.interfaces[k].(speed := speed) else c.interfaces[k]
  {
    hide IndicesOf, PortNames, ModuleNames, PortName, PortIndex, SubInterface, InterfaceName, EthernetName, BelongsTo;
    assert Owned(c, k);
    NamedBy(k);
    BelongsToSelectsPort(n, IndicesOf(k).value.0, IndicesOf(k).value.1);
    SubInterfaceIs(n, 0);
    UnbrokenName(n);
  }

  lemma {:induction false} SpeedKeepsWiring(c: Config, name: string, speed: Speed)
    requires Wired(c) && SetSpeed(c, name, speed).Ok?
    ensures Wired(SetSpeed(c, name, speed).value)
  {
    var n := PortNumber(c, name);
    var c' := SetSpeed(c, name, speed).value;
    hide *;
    SpeedFrame(c, name, speed);
    forall k | k in c.interfaces
      ensures IndicesOf(k).Some? && PortName(IndicesOf(k).value.0) in c.ports
      ensures c'.interfaces[k].speed == c'.ports[PortName(IndicesOf(k).value.0)].channelSpeed
      ensures c'.interfaces[k].connection == c.interfaces[k].connection {
      SpeedSet(c, name, speed, n, k);
      OwnedIndices(c, k);
      SpeedWas(c, k);
      if PortName(IndicesOf(k).value.0) == name {
        PortNameInjective(IndicesOf(k).value.0, n);
      }
    }
    SameWiring(c, c');
  }

  lemma {:induction false} SpeedWas(c: Config, k: string)
    requires Wired(c) && k in c.interfaces && IndicesOf(k).Some? && PortName(IndicesOf(k).value.0) in c.ports
    ensures c.interfaces[k].speed == c.ports[PortName(IndicesOf(k).value.0)].channelSpeed
  {
    hide IndicesOf, PortName, PortNames, ModuleNames;
  }

  /** The wiring depends on names, channel numbers, speeds and connections only. */
  lemma {:induction false} SameWiring(c: Config, c': Config)
    requires Wired(c) && c'.interfaces.Keys == c.interfaces.Keys && c'.ports.Keys == c.ports.Keys && c'.modules.Keys == c.modules.Keys
    requires forall k :: k in c.ports ==> c'.ports[k].numChannels == c.ports[k].numChannels
    requires forall k :: k in c.interfaces ==>
      && IndicesOf(k).Some? && PortName(IndicesOf(k).value.0) in c.ports
      && c'.interfaces[k].speed == c'.ports[PortName(IndicesOf(k).value.0)].channelSpeed
      && c'.interfaces[k].connection == c.interfaces[k].connection
    ensures Wired(c')
  {
    SameOwners(c, c');
    hide *;
    WiredParts(c);
    forall k
      ensures k in c'.interfaces <==> Owned(c', k)
      ensures k in c'.interfaces ==> AtPortSpeed(c', k)
      ensures k in c'.interfaces && c'.interfaces[k].connection.Some? ==> ConnectionInRange(c', c'.interfaces[k].connection.value) {
      WiredInterface(c, k);
      SpeedMeans(c', k);
      if k in c'.interfaces && c'.interfaces[k].connection.Some? {
        SameModulesInRange(c, c', c'.interfaces[k].connection.value);
      }
    }
    assert forall k :: k in c'.ports <==> k in c.ports;
    assert forall k :: k in c'.modules <==> k in c.modules;
    WiredBy(c');
  }

  lemma {:induction false} SpeedMeans(c: Config, k: string)
    ensures k in c.interfaces ==> (AtPortSpeed(c, k) <==>
      && IndicesOf(k).Some? && PortName(IndicesOf(k).value.0) in c.ports
      && c.interfaces[k].speed == c.ports[PortName(IndicesOf(k).value.0)].channelSpeed)
  {
  }

  lemma {:induction false} SameModulesInRange(c: Config, c': Config, x: Connection)
    requires c'.modules.Keys == c.modules.Keys && ConnectionInRange(c, x)
    ensures ConnectionInRange(c', x)
  {
  }

  lemma {:induction false} OwnedIndices(c: Config, k: string)
    requires Owned(c, k)
    ensures IndicesOf(k).Some? && PortName(IndicesOf(k).value.0) in c.ports
  {
  }

  lemma {:induction false} SpeedFrame(c: Config, name: string, speed: Speed)
    requires SetSpeed(c, name, speed).Ok?
    ensures var c' := SetSpeed(c, name, speed).value;
      && c'.interfaces.Keys == c.interfaces.Keys && c'.modules == c.modules && name in c.ports
      && c'.ports == c.ports[name := c.ports[name].(channelSpeed := speed)]
  {
  }

  /** Ports with the same channel numbers own the same names. */
  lemma {:induction false} SameOwners(c: Config, c': Config)
    requires c'.ports.Keys == c.ports.Keys && forall k :: k in c.ports ==> c'.ports[k].numChannels == c.ports[k].numChannels
    ensures forall k :: Owned(c', k) <==> Owned(c, k)
  {
    hide IndicesOf, PortName;
  }

  lemma UnbrokenName(n: nat)
    ensures InterfaceName(n, 0) == EthernetName(n)
  {
  }

  /** Which names num-channels removes and adds, by their indices. */
  lemma {:induction false} ChannelNames(n: nat, k: string)
    ensures k in Channels(n, 4) <==> IndicesOf(k).Some? && IndicesOf(k).value.0 == n && 1 <= IndicesOf(k).value.1 <= 4
    ensures k == SubInterface(n, 0) <==> IndicesOf(k) == Some((n, 0))
  {
    hide ParseInterfaceName;
    if k in Channels(n, 4) {
      var s: nat :| 1 <= s <= 4 && k == SubInterface(n, s);
      SubInterfaceIs(n, s);
      IndicesOfName(n, s);
    }
    if IndicesOf(k).Some? && IndicesOf(k).value.0 == n && 1 <= IndicesOf(k).value.1 <= 4 {
      SubInterfaceIs(n, IndicesOf(k).value.1);
    }
    SubInterfaceIs(n, 0);
    IndicesOfName(n, 0);
  }

  /** num-channels never meets an existing interface: the other mode's interfaces of the port do not exist. */
  lemma {:induction false} NoDuplicates(c: Config, name: string, num: nat)
    requires Wired(c)
    ensures SetChannels(c, name, num) != Err(Duplicate)
  {
    if name in c.ports {
      var n := PortNumber(c, name);
      hide IndicesOf, PortNames, ModuleNames, PortName, PortIndex, SubInterface, Channels;
      if c.ports[name].numChannels != num && (num == 1 || num == 4) {
        forall k | k in c.interfaces && (k in Channels(n, 4) || k == SubInterface(n, 0))
          ensures if num == 1 then k in Channels(n, 4) else k == SubInterface(n, 0) {
          ChannelNames(n, k);
          assert Owned(c, k);
        }
        ChannelNames(n, SubInterface(n, 0));
        if num == 1 {
          assert (c.interfaces.Keys - Channels(n, 4)) * {SubInterface(n, 0)} == {};
        } else {
          assert (c.interfaces.Keys - {SubInterface(n, 0)}) * Channels(n, 4) == {};
        }
      }
    }
  }

  /** What num-channels makes of a wired configuration's interfaces, one name at a time. */
  lemma {:induction false} ChannelsSwitched(c: Config, name: string, num: nat, n: nat, k: string)
    requires Wired(c) && SetChannels(c, name, num).Ok? && name == PortName(n) && PortIndex(name) == Some(n as int)
    ensures var c' := SetChannels(c, name, num).value;
      && (k in c'.interfaces <==> Owned(c', k))
      && (k in c'.interfaces ==>
            c'.interfaces[k] == if IndicesOf(k).value.0 == n then NewInterface(c.ports[name].channelSpeed)
                                else if k in c.interfaces then c.interfaces[k] else NewInterface(SpeedUnset))
      && (k in c'.interfaces && IndicesOf(k).value.0 != n ==> k in c.interfaces)
  {
    hide PortNames, ModuleNames, PortName, PortIndex, SubInterface, Channels, IndicesOf;
    ChannelNames(n, k);
    var c' := SetChannels(c, name, num).value;
    assert k in c.interfaces <==> Owned(c, k);
    if IndicesOf(k).Some? {
      var (m, s) := IndicesOf(k).value;
      if m != n && PortName(m) == PortName(n) {
        PortNameInjective(m, n);
      }
      PortIsNumbered(c, name, n);
    }
  }

  lemma {:induction false} PortIsNumbered(c: Config, name: string, n: nat)
    requires Wired(c) && name in c.ports && name == PortName(n)
    ensures 1 <= n <= PORTS
  {
    var m := PortNumber(c, name);
    PortNameInjective(m, n);
  }

  lemma {:induction false} ChannelsPorts(c: Config, name: string, num: nat)
    requires Wired(c) && SetChannels(c, name, num).Ok?
    ensures var c' := SetChannels(c, name, num).value;
      && (forall k :: k in c'.ports <==> IsPortName(k))
      && (forall k :: k in c'.ports ==> c'.ports[k].numChannels in {1, 4})
      && (forall k :: k in c'.modules <==> IsModuleName(k))
  {
    WiredParts(c);
    ChannelsFrame(c, name, num);
    hide *;
  }

  lemma {:induction false} ChannelsKeepWiring(c: Config, name: string, num: nat)
    requires Wired(c) && SetChannels(c, name, num).Ok?
    ensures Wired(SetChannels(c, name, num).value)
  {
    var n := PortNumber(c, name);
    var c' := SetChannels(c, name, num).value;
    hide *;
    ChannelsPorts(c, name, num);
    forall k ensures k in c'.interfaces <==> Owned(c', k) {
      ChannelsSwitched(c, name, num, n, k);
    }
    forall k | k in c'.interfaces
      ensures AtPortSpeed(c', k)
      ensures c'.interfaces[k].connection.Some? ==> ConnectionInRange(c', c'.interfaces[k].connection.value) {
      SwitchedInterface(c, name, num, n, k);
      SpeedMeans(c', k);
    }
    WiredBy(c');
  }

  lemma {:induction false} ChannelsFrame(c: Config, name: string, num: nat)
    requires SetChannels(c, name, num).Ok?
    ensures var c' := SetChannels(c, name, num).value;
      && c'.modules == c.modules && name in c.ports && num in {1, 4}
      && c'.ports == c.ports[name := c.ports[name].(numChannels := num)]
  {
    hide PortIndex, SubInterface, Channels, Made;
  }

  /** An interface after num-channels runs at its port's speed, and its connection is in range. */
  lemma {:induction false} SwitchedInterface(c: Config, name: string, num: nat, n: nat, k: string)
    requires Wired(c) && SetChannels(c, name, num).Ok? && name == PortName(n) && PortIndex(name) == Some(n as int)
    requires k in SetChannels(c, name, num).value.interfaces
    ensures var c' := SetChannels(c, name, num).value;
      && Owned(c', k) && PortName(IndicesOf(k).value.0) in c'.ports
      && c'.interfaces[k].speed == c'.ports[PortName(IndicesOf(k).value.0)].channelSpeed
      && (c'.interfaces[k].connection.Some? ==> ConnectionInRange(c', c'.interfaces[k].connection.value))
  {
    hide IndicesOf, PortNames, ModuleNames, PortName, PortIndex, SetChannels;
    var c' := SetChannels(c, name, num).value;
    ChannelsFrame(c, name, num);
    ChannelsSwitched(c, name, num, n, k);
    assert Owned(c', k);
    var m := IndicesOf(k).value.0;
    if PortName(m) == name {
      PortNameInjective(m, n);
    }
  }

  /** An edited interface keeps its speed, and its connection stays in range. */
  lemma {:induction false} InterfaceEditKeepsWiring(c: Config, cmd: Command)
    requires cmd.ConnectionId? || cmd.ConnectionModule? || cmd.ConnectionChannel? || cmd.ConnectionClear? || cmd.InterfaceDescription?
    requires Wired(c) && cmd.name in c.interfaces
    requires EditInterface(c, cmd).Ok?
    ensures Wired(c.(interfaces := c.interfaces[cmd.name := EditInterface(c, cmd).value]))
  {
    hide IndicesOf, PortNames, ModuleNames, PortName;
    var i := EditInterface(c, cmd).value;
    var c' := c.(interfaces := c.interfaces[cmd.name := i]);
    assert i.speed == c.interfaces[cmd.name].speed;
    assert i.connection.Some? ==> ConnectionInRange(c, i.connection.value);
    SameOwners(c, c');
  }

  /** Descriptions, module leaves and the global flag have nothing to do with the wiring. */
  lemma {:induction false} PlainEditKeepsWiring(c: Config, c': Config)
    requires Wired(c) && c'.interfaces == c.interfaces && c'.ports.Keys == c.ports.Keys && c'.modules.Keys == c.modules.Keys
    requires forall k :: k in c.ports ==> c'.ports[k].numChannels == c.ports[k].numChannels && c'.ports[k].channelSpeed == c.ports[k].channelSpeed
    ensures Wired(c')
  {
    hide IndicesOf, PortNames, ModuleNames, PortName;
    forall k | k in c.interfaces
      ensures IndicesOf(k).Some? && PortName(IndicesOf(k).value.0) in c.ports
      ensures c'.interfaces[k].speed == c'.ports[PortName(IndicesOf(k).value.0)].channelSpeed {
      assert Owned(c, k);
    }
    SameWiring(c, c');
  }

  /** Every command keeps the wiring. */
  lemma {:induction false} CommandKeepsWiring(c: Config, cmd: Command)
    requires Wired(c) && Execute(c, cmd).Ok?
    ensures Wired(Execute(c, cmd).value)
  {
    if cmd.ChannelSpeed? {
      SpeedKeepsWiring(c, cmd.name, cmd.speed);
    } else if cmd.NumChannels? {
      ChannelsKeepWiring(c, cmd.name, cmd.num);
    } else if cmd.PortDescription? || cmd.EditModule? || cmd.Oversubscription? {
      hide SetSpeed, SetChannels, EditInterface, EditLeaf;
      var c' := Execute(c, cmd).value;
      PlainEditKeepsWiring(c, c');
    } else {
      hide SetSpeed, SetChannels, EditInterface, EditLeaf;
      InterfaceEditKeepsWiring(c, cmd);
    }
  }

  /** The file after a session: failed commands leave it as it is. */
  function RunAll(c: Config, cmds: seq<Command>): Config
    decreases |cmds|
  {
    if cmds == [] then c
    else
      var r := Execute(c, cmds[0]);
      RunAll(if r.Ok? then r.value else c, cmds[1..])
  }

  /** The breakout invariant over every session. */
  lemma {:induction false} RunsKeepWiring(c: Config, cmds: seq<Command>)
    requires Wired(c)
    ensures Wired(RunAll(c, cmds))
    decreases |cmds|
  {
    if cmds != [] {
      var r := Execute(c, cmds[0]);
      if r.Ok? {
        CommandKeepsWiring(c, cmds[0]);
      }
      RunsKeepWiring(if r.Ok? then r.value else c, cmds[1..]);
    }
  }

  /** From the default configuration: each port owns exactly its interfaces, at its speed, and no command meets a duplicate. */
  lemma {:induction false} EverySession(cmds: seq<Command>, n: nat, name: string, num: nat)
    requires 1 <= n <= PORTS
    ensures var c := RunAll(DefaultConfig(), cmds);
      && PortName(n) in c.ports && c.ports[PortName(n)].numChannels in {1, 4}
      && (forall s: nat :: InterfaceName(n, s) in c.interfaces <==> OwnsSub(c.ports[PortName(n)], s))
      && (forall s: nat :: InterfaceName(n, s) in c.interfaces ==> c.interfaces[InterfaceName(n, s)].speed == c.ports[PortName(n)].channelSpeed)
      && (forall k :: k in c.interfaces ==> exists m: nat, s: nat :: 1 <= m <= PORTS && k == InterfaceName(m, s))
      && Execute(c, NumChannels(name, num)) != Err(Duplicate)
  {
    hide RunAll, Wired, PortName, InterfaceName, IndicesOf, PortNames, ModuleNames, EthernetNames;
    var c := RunAll(DefaultConfig(), cmds);
    DefaultIsWired();
    RunsKeepWiring(DefaultConfig(), cmds);
    PortOwns(c, n);
    NoDuplicates(c, name, num);
    ModesOf(c);
    forall k | k in c.interfaces ensures exists m: nat, s: nat :: 1 <= m <= PORTS && k == InterfaceName(m, s) {
      OwnerExists(c, k);
    }
  }

  lemma {:induction false} ModesOf(c: Config)
    requires Wired(c)
    ensures forall k :: k in c.ports ==> c.ports[k].numChannels in {1, 4}
  {
  }

  lemma {:induction false} OwnerExists(c: Config, k: string)
    requires Wired(c) && k in c.interfaces
    ensures exists m: nat, s: nat :: 1 <= m <= PORTS && k == InterfaceName(m, s)
  {
    hide PortNames, ModuleNames, PortName, IndicesOf;
    assert Owned(c, k);
    NamedBy(k);
  }
}
