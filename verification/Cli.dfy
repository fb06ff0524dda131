/** The oopt commands that edit the working configuration, and the breakout wiring they keep. */
module Cli {
  import opened Wrappers
  import opened Text
  import opened Names
  import opened Transponder

  datatype LeafEdit =
    | SetGrid(grid: Grid)
    | SetChannel(channel: nat)
    | SetBerInterval(seconds: nat)
    | SetEnabled(enabled: bool)
    | SetPrbs(prbs: bool)
    | SetLosi(losi: bool)
    | SetOversubscription(allow: Option<bool>)
    | SetModulation(modulation: Modulation)
    | SetDescription(text: Option<string>)

  /** A command line, with the name of the port, interface or module it addresses. */
  datatype Command =
    | ChannelSpeed(name: string, speed: Speed)
    | NumChannels(name: string, num: nat)
    | PortDescription(name: string, text: Option<string>)
    | ConnectionId(name: string, id: nat)
    | ConnectionModule(name: string, target: string)
    | ConnectionChannel(name: string, channel: string)
    | ConnectionClear(name: string)
    | InterfaceDescription(name: string, description: string)
    | EditModule(name: string, leaf: LeafEdit)
    | Oversubscription(allow: bool)

  datatype CliError = NotFound | InvalidArgument | AlreadySet | BadName | Duplicate

  // ---- Port commands ----

  /** strconv.Atoi(name[len("Port"):]). */
  function PortIndex(name: string): Option<int> {
    if |name| < |"Port"| then None else Atoi(name[|"Port"|..])
  }

  /** "Ethernet%d" or "Ethernet%d_%d". */
  function SubInterface(n: int, s: nat): string {
    "Ethernet" + PrintInt(n) + if s == 0 then "" else "_" + Print(s)
  }

  lemma SubInterfaceIs(n: nat, s: nat)
    ensures SubInterface(n, s) == InterfaceName(n, s)
  {
  }

  /** The interfaces with those of the port set to the speed; others are left alone. */
  function AtSpeed(interfaces: map<string, Interface>, ethName: string, speed: Speed): map<string, Interface> {
    map k | k in interfaces :: if BelongsTo(k, ethName) then interfaces[k].(speed := speed) else interfaces[k]
  }

  /** The same after the first few interfaces. */
  function SomeAtSpeed(interfaces: map<string, Interface>, done: set<string>, ethName: string, speed: Speed): map<string, Interface> {
    map k | k in interfaces :: if k in done && BelongsTo(k, ethName) then interfaces[k].(speed := speed) else interfaces[k]
  }

  lemma {:induction false} NoneAtSpeed(interfaces: map<string, Interface>, ethName: string, speed: Speed)
    ensures SomeAtSpeed(interfaces, {}, ethName, speed) == interfaces
    ensures SomeAtSpeed(interfaces, interfaces.Keys, ethName, speed) == AtSpeed(interfaces, ethName, speed)
  {
    hide BelongsTo;
  }

  lemma {:induction false} OneAtSpeed(interfaces: map<string, Interface>, done: set<string>, ethName: string, speed: Speed, k: string)
    requires k in interfaces && k !in done
    ensures var before := SomeAtSpeed(interfaces, done, ethName, speed);
      var i := interfaces[k];
      k in before && before[k] == i && SomeAtSpeed(interfaces, done + {k}, ethName, speed) ==
        if BelongsTo(k, ethName) then before[k := Interface(i.mtu, speed, i.description, i.connection)] else before
  {
    hide BelongsTo;
  }

  function SetSpeed(c: Config, name: string, speed: Speed): Result<Config, CliError> {
    if name !in c.ports then Err(NotFound)
    else if speed == SpeedUnset then Err(InvalidArgument)
    else match PortIndex(name)
      case None => Err(BadName)
      case Some(n) =>
        Ok(c.(ports := c.ports[name := c.ports[name].(channelSpeed := speed)],
              interfaces := AtSpeed(c.interfaces, SubInterface(n, 0), speed)))
  }

  /** The four sub-interfaces of a broken-out port, up to number m. */
  function Channels(n: int, m: nat): set<string> {
    set s: nat | 1 <= s <= m :: SubInterface(n, s)
  }

  /** Newly created interfaces under these names. */
  function Made(ks: set<string>, speed: Speed): map<string, Interface> {
    map k | k in ks :: NewInterface(speed)
  }

  function SetChannels(c: Config, name: string, num: nat): Result<Config, CliError> {
    if name !in c.ports then Err(NotFound)
    else if num != 1 && num != 4 then Err(InvalidArgument)
    else if c.ports[name].numChannels == num then Err(AlreadySet)
    else match PortIndex(name)
      case None => Err(BadName)
      case Some(n) =>
        var goes, comes := if num == 1 then Channels(n, 4) else {SubInterface(n, 0)}, if num == 1 then {SubInterface(n, 0)} else Channels(n, 4);
        if (c.interfaces.Keys - goes) * comes != {} then Err(Duplicate)
        else Ok(c.(ports := c.ports[name := c.ports[name].(numChannels := num)],
                   interfaces := (c.interfaces - goes) + Made(comes, c.ports[name].channelSpeed)))
  }

  // ---- Interface commands ----

  /** Emitting JSON drops containers in which no leaf is set. */
  function Emitted(id: Option<nat>, line: Endpoint): Option<Connection> {
    var l := if line == Endpoint(None, None) then None else Some(line);
    if id == None && l == None then None else Some(Connection(id, l))
  }

  function EditInterface(c: Config, cmd: Command): Result<Interface, CliError>
    requires cmd.ConnectionId? || cmd.ConnectionModule? || cmd.ConnectionChannel? || cmd.ConnectionClear? || cmd.InterfaceDescription?
    requires cmd.name in c.interfaces
  {
    var i := c.interfaces[cmd.name];
    match cmd
    case ConnectionId(_, id) =>
      if id < 100 || id > 4000 then Err(InvalidArgument)
      else Ok(i.(connection := Emitted(Some(id), LineOf(i))))
    case ConnectionModule(_, target) =>
      if target !in c.modules then Err(NotFound)
      else Ok(i.(connection := Emitted(IdOf(i), LineOf(i).(name := Some(target)))))
    case ConnectionChannel(_, channel) =>
      if channel != "A" && channel != "B" then Err(InvalidArgument)
      else Ok(i.(connection := Emitted(IdOf(i), LineOf(i).(channel := Some(channel)))))
    case ConnectionClear(_) => Ok(i.(connection := None))
    case InterfaceDescription(_, text) => Ok(i.(description := Some(text)))
  }

  // ---- Optical module commands ----

  function EditLeaf(m: OpticalModule, leaf: LeafEdit): Result<OpticalModule, CliError> {
    match leaf
    case SetGrid(g) => if g == GridUnset then Err(InvalidArgument) else Ok(m.(grid := g))
    case SetChannel(n) => if n < 1 || n > 255 then Err(InvalidArgument) else Ok(m.(channel := Some(n)))
    case SetBerInterval(n) => if n < 5 || n >= 0x1_0000_0000 then Err(InvalidArgument) else Ok(m.(berInterval := Some(n)))
    case SetEnabled(b) => Ok(m.(enabled := Some(b)))
    case SetPrbs(b) => Ok(m.(prbs := Some(b)))
    case SetLosi(b) => Ok(m.(losi := Some(b)))
    case SetOversubscription(b) => Ok(m.(oversubscription := b))
    case SetModulation(x) => if x == ModulationUnset then Err(InvalidArgument) else Ok(m.(modulation := x))
    case SetDescription(t) => Ok(m.(description := t))
  }

  // ---- One command ----

  /** What a command makes of the configuration file; a command that fails leaves the file as it was. */
  function Execute(c: Config, cmd: Command): Result<Config, CliError> {
    match cmd
    case ChannelSpeed(name, speed) => SetSpeed(c, name, speed)
    case NumChannels(name, num) => SetChannels(c, name, num)
    case PortDescription(name, text) =>
      if name !in c.ports then Err(NotFound) else Ok(c.(ports := c.ports[name := c.ports[name].(description := text)]))
    case EditModule(name, leaf) =>
      if name !in c.modules then Err(NotFound)
      else (match EditLeaf(c.modules[name], leaf)
            case Err(e) => Err(e)
            case Ok(m) => Ok(c.(modules := c.modules[name := m])))
    case Oversubscription(b) => Ok(c.(oversubscription := Some(b)))
    case _ =>
      if cmd.name !in c.interfaces then Err(NotFound)
      else (match EditInterface(c, cmd)
            case Err(e) => Err(e)
            case Ok(i) => Ok(c.(interfaces := c.interfaces[cmd.name := i])))
  }

  // ---- Reading and writing the file ----

  /** An interface after it was emitted and read back. */
  function Trimmed(i: Interface): Interface {
    i.(connection := Emitted(IdOf(i), LineOf(i)))
  }

  /** What the file holds once the configuration was written. */
  function Saved(c: Config): Config {
    c.(interfaces := map k | k in c.interfaces :: Trimmed(c.interfaces[k]))
  }

  /** No container without a leaf: writing the configuration leaves it as it is. */
  predicate Lean(c: Config) {
    forall k :: k in c.interfaces ==> Trimmed(c.interfaces[k]) == c.interfaces[k]
  }

  predicate OnInterface(cmd: Command) {
    cmd.ConnectionId? || cmd.ConnectionModule? || cmd.ConnectionChannel? || cmd.ConnectionClear? || cmd.InterfaceDescription?
  }

  /** The interface with both containers of its connection there, as the interface commands want it. */
  function Opened(i: Interface): Interface {
    i.(connection := Some(Connection(IdOf(i), Some(LineOf(i)))))
  }

  lemma {:induction false} LeanIsSaved(c: Config)
    ensures Lean(Saved(c))
    ensures Lean(c) ==> Saved(c) == c
  {
    hide LineOf, IdOf, Emitted;
    forall k | k in c.interfaces ensures Trimmed(Trimmed(c.interfaces[k])) == Trimmed(c.interfaces[k]) {
      TrimmedTwice(c.interfaces[k]);
    }
    if Lean(c) {
      assert Saved(c).interfaces == c.interfaces;
    }
  }

  lemma {:induction false} TrimmedTwice(i: Interface)
    ensures Trimmed(Trimmed(i)) == Trimmed(i) && Trimmed(Opened(i)) == Trimmed(i)
    ensures IdOf(Trimmed(i)) == IdOf(i) && LineOf(Trimmed(i)) == LineOf(i)
  {
  }

  /** Writing after one interface changed. */
  lemma {:induction false} SavedOne(c: Config, k: string, i: Interface)
    ensures Saved(c.(interfaces := c.interfaces[k := i])) == Saved(c).(interfaces := Saved(c).interfaces[k := Trimmed(i)])
  {
    hide Trimmed;
  }

  /** A command that is not about an interface makes the same of a file and of the file written before. */
  lemma {:induction false} SavedBefore(c: Config, cmd: Command)
    requires !OnInterface(cmd)
    ensures Execute(Saved(c), cmd) == match Execute(c, cmd)
      case Ok(d) => Ok(Saved(d))
      case Err(e) => Err(e)
  {
    match cmd {
      case ChannelSpeed(name, speed) => SpeedSaved(c, name, speed);
      case NumChannels(name, num) => ChannelsSaved(c, name, num);
      case _ => hide SetSpeed, SetChannels, EditLeaf, Trimmed;
    }
  }

  lemma {:induction false} SpeedSaved(c: Config, name: string, speed: Speed)
    ensures SetSpeed(Saved(c), name, speed) == match SetSpeed(c, name, speed)
      case Ok(d) => Ok(Saved(d))
      case Err(e) => Err(e)
  {
    hide PortIndex, SubInterface, AtSpeed, Saved;
    SavedParts(c);
    if SetSpeed(c, name, speed).Ok? {
      var eth := SubInterface(PortIndex(name).value, 0);
      SavedParts(SetSpeed(c, name, speed).value);
      AtSpeedSaved(c, SetSpeed(c, name, speed).value, eth, speed);
    }
  }

  lemma {:induction false} SavedParts(c: Config)
    ensures SameButInterfaces(Saved(c), c) && Saved(c).interfaces.Keys == c.interfaces.Keys
  {
    hide Trimmed;
  }

  lemma {:induction false} AtSpeedSaved(c: Config, d: Config, ethName: string, speed: Speed)
    requires d.interfaces == AtSpeed(c.interfaces, ethName, speed)
    ensures Saved(d).interfaces == AtSpeed(Saved(c).interfaces, ethName, speed)
  {
    hide BelongsTo, Trimmed;
    forall k | k in c.interfaces ensures Trimmed(c.interfaces[k].(speed := speed)) == Trimmed(c.interfaces[k]).(speed := speed) {
      TrimmedSpeed(c.interfaces[k], speed);
    }
  }

  lemma {:induction false} TrimmedSpeed(i: Interface, speed: Speed)
    ensures Trimmed(i.(speed := speed)) == Trimmed(i).(speed := speed)
  {
  }

  lemma {:induction false} ChannelsSaved(c: Config, name: string, num: nat)
    ensures SetChannels(Saved(c), name, num) == match SetChannels(c, name, num)
      case Ok(d) => Ok(Saved(d))
      case Err(e) => Err(e)
  {
    hide PortIndex, SubInterface, Channels, Trimmed;
    assert Saved(c).interfaces.Keys == c.interfaces.Keys;
    if SetChannels(c, name, num).Ok? {
      var n := PortIndex(name).value;
      var goes, comes := if num == 1 then Channels(n, 4) else {SubInterface(n, 0)}, if num == 1 then {SubInterface(n, 0)} else Channels(n, 4);
      var d := SetChannels(c, name, num).value;
      NewIsTrimmed(c.ports[name].channelSpeed);
      assert (Saved(c).interfaces - goes) + Made(comes, c.ports[name].channelSpeed) == Saved(d).interfaces;
    }
  }

  lemma {:induction false} NewIsTrimmed(speed: Speed)
    ensures Trimmed(NewInterface(speed)) == NewInterface(speed)
  {
  }

  /** A command leaves a lean file lean. */
  lemma {:induction false} CommandKeepsLean(c: Config, cmd: Command)
    requires Lean(c) && Execute(c, cmd).Ok?
    ensures Lean(Execute(c, cmd).value)
  {
    LeanIsSaved(c);
    if OnInterface(cmd) {
      hide Execute, EditInterface, Trimmed;
      OneInterface(c, cmd);
    } else {
      SavedBefore(c, cmd);
      LeanIsSaved(Execute(c, cmd).value);
      hide Execute, Lean, Saved;
    }
  }

  lemma {:induction false} OneInterface(c: Config, cmd: Command)
    requires OnInterface(cmd) && Execute(c, cmd).Ok?
    ensures cmd.name in c.interfaces && EditInterface(c, cmd).Ok?
    ensures Execute(c, cmd).value == c.(interfaces := c.interfaces[cmd.name := EditInterface(c, cmd).value])
    ensures Trimmed(c.interfaces[cmd.name]) == c.interfaces[cmd.name] ==> Trimmed(EditInterface(c, cmd).value) == EditInterface(c, cmd).value
  {
  }

  // ---- The command line program ----

  /** The second configuration is the first with another interface under this name. */
  predicate OneChanged(a: Config, b: Config, k: string) {
    k in b.interfaces && b == a.(interfaces := a.interfaces[k := b.interfaces[k]])
  }

  predicate SameButInterfaces(a: Config, b: Config) {
    a.oversubscription == b.oversubscription && a.ports == b.ports && a.modules == b.modules
  }

  /** One user's session: every command loads the file into `current`, edits that, and writes it back unless it failed. */
  class Shell {
    var file: Config
    var current: Config

    constructor (file: Config)
      ensures this.file == file
    {
      this.file, this.current := file, file;
    }

    /** channel-speed: the port and, found by name prefix, all its interfaces. */
    method RunChannelSpeed(name: string, speed: Speed) returns (r: Option<CliError>)
      modifies this`current
      ensures match SetSpeed(old(current), name, speed)
        case Ok(c) => r == None && current == c
        case Err(e) => r == Some(e)
    {
      if name !in current.ports {
        return Some(NotFound);
      }
      if speed == SpeedUnset {
        return Some(InvalidArgument);
      }
      current := current.(ports := current.ports[name := current.ports[name].(channelSpeed := speed)]);
      var n := PortIndex(name);
      if n == None {
        return Some(BadName);
      }
      SetSpeeds(SubInterface(n.value, 0), speed);
      r := None;
    }

    /** The loop over all interfaces. */
    method SetSpeeds(ethName: string, speed: Speed)
      modifies this`current
      ensures current == old(current).(interfaces := AtSpeed(old(current).interfaces, ethName, speed))
    {
      hide *;
      ghost var interfaces := current.interfaces;
      var changed, rest := current.interfaces, current.interfaces.Keys;
      NoneAtSpeed(interfaces, ethName, speed);
      assert interfaces.Keys - rest == {};
      while rest != {}
        invariant rest <= interfaces.Keys && current == old(current)
        invariant changed == SomeAtSpeed(interfaces, interfaces.Keys - rest, ethName, speed)
        decreases |rest|
      {
        var k :| k in rest;
        OneAtSpeed(interfaces, interfaces.Keys - rest, ethName, speed, k);
        assert interfaces.Keys - (rest - {k}) == interfaces.Keys - rest + {k};
        if BelongsTo(k, ethName) {
          var i := changed[k];
          changed := changed[k := Interface(i.mtu, speed, i.description, i.connection)];
        }
        rest := rest - {k};
      }
      assert interfaces.Keys - rest == interfaces.Keys;
      current := current.(interfaces := changed);
    }

    /** newInterface: an interface that exists already is an error. */
    method CreateInterface(name: string, speed: Speed) returns (ok: bool)
      modifies this`current
      ensures ok <==> name !in old(current).interfaces
      ensures SameButInterfaces(old(current), current)
      ensures current.interfaces == if ok then old(current).interfaces[name := NewInterface(speed)] else old(current).interfaces
    {
      ok := name !in current.interfaces;
      if ok {
        current := current.(interfaces := current.interfaces[name := NewInterface(speed)]);
      }
    }

    method DeleteInterface(name: string)
      modifies this`current
      ensures SameButInterfaces(old(current), current) && current.interfaces == old(current).interfaces - {name}
    {
      current := current.(interfaces := current.interfaces - {name});
    }

    /** The four sub-interfaces go, the undivided one comes. */
    method Join(n: int, speed: Speed) returns (ok: bool)
      modifies this`current
      ensures SameButInterfaces(old(current), current)
      ensures ok <==> SubInterface(n, 0) !in old(current).interfaces.Keys - Channels(n, 4)
      ensures ok ==> current.interfaces == (old(current).interfaces - Channels(n, 4)) + Made({SubInterface(n, 0)}, speed)
    {
      hide SubInterface, Channels;
      ChannelsGrow(n, 1);
      for i: nat := 1 to 5
        invariant SameButInterfaces(old(current), current) && current.interfaces == old(current).interfaces - Channels(n, i - 1)
      {
        ChannelsGrow(n, i);
        DeleteInterface(SubInterface(n, i));
      }
      ok := CreateInterface(SubInterface(n, 0), speed);
    }

    /** The undivided interface goes, its four sub-interfaces come. */
    method Split(n: int, speed: Speed) returns (ok: bool)
      modifies this`current
      ensures SameButInterfaces(old(current), current)
      ensures ok <==> (old(current).interfaces.Keys - {SubInterface(n, 0)}) * Channels(n, 4) == {}
      ensures ok ==> current.interfaces == (old(current).interfaces - {SubInterface(n, 0)}) + Made(Channels(n, 4), speed)
    {
      hide SubInterface, Channels;
      DeleteInterface(SubInterface(n, 0));
      ghost var left := current.interfaces;
      ChannelsGrow(n, 1);
      for i: nat := 1 to 5
        invariant SameButInterfaces(old(current), current) && current.interfaces == left + Made(Channels(n, i - 1), speed)
        invariant left.Keys * Channels(n, i - 1) == {}
      {
        ChannelsGrow(n, i);
        ok := CreateInterface(SubInterface(n, i), speed);
        if !ok {
          assert SubInterface(n, i) in left.Keys * Channels(n, 4);
          return;
        }
      }
      ok := true;
    }

    /** num-channels: deletes the interfaces of the old mode and creates those of the new one. */
    method RunNumChannels(name: string, num: nat) returns (r: Option<CliError>)
      modifies this`current
      ensures match SetChannels(old(current), name, num)
        case Ok(c) => r == None && current == c
        case Err(e) => r == Some(e)
    {
      hide SubInterface, Channels, Made;
      if name !in current.ports {
        return Some(NotFound);
      }
      if num != 1 && num != 4 {
        return Some(InvalidArgument);
      }
      if current.ports[name].numChannels == num {
        return Some(AlreadySet);
      }
      current := current.(ports := current.ports[name := current.ports[name].(numChannels := num)]);
      var index := PortIndex(name);
      if index == None {
        return Some(BadName);
      }
      var ok;
      ghost var left := current.interfaces.Keys - Channels(index.value, 4);
      assert left * {SubInterface(index.value, 0)} == {} <==> SubInterface(index.value, 0) !in left by {
        assert SubInterface(index.value, 0) in left ==> SubInterface(index.value, 0) in left * {SubInterface(index.value, 0)};
      }
      if num == 1 {
        ok := Join(index.value, current.ports[name].channelSpeed);
      } else {
        ok := Split(index.value, current.ports[name].channelSpeed);
      }
      r := if ok then None else Some(Duplicate);
    }

    /** The interface commands: make the containers of the connection where they are missing, then set the leaf. */
    method RunInterface(cmd: Command) returns (r: Option<CliError>)
      requires OnInterface(cmd)
      modifies this`current
      ensures match Execute(Saved(old(current)), cmd)
        case Ok(c) => r == None && Saved(current) == c
        case Err(e) => r == Some(e)
    {
      hide Emitted, LineOf, IdOf, EditInterface, Saved;
      ghost var c := current;
      SavedParts(c);
      if cmd.name !in current.interfaces {
        return Some(NotFound);
      }
      OpenConnection(cmd.name);
      InterfaceSaved(c, current, cmd);
      r := SetInterfaceLeaf(cmd);
      if r == None {
        SavedOne(c, cmd.name, current.interfaces[cmd.name]);
        assert current == c.(interfaces := c.interfaces[cmd.name := current.interfaces[cmd.name]]);
      }
    }

    /** The containers an interface command finds missing. */
    method OpenConnection(name: string)
      requires name in current.interfaces
      modifies this`current
      ensures current == old(current).(interfaces := old(current).interfaces[name := Opened(old(current).interfaces[name])])
    {
      var i := current.interfaces[name];
      if i.connection.None? {
        i := i.(connection := Some(Connection(None, None)));
      }
      if i.connection.value.line.None? {
        i := i.(connection := Some(i.connection.value.(line := Some(Endpoint(None, None)))));
      }
      current := current.(interfaces := current.interfaces[name := i]);
    }

    /** The leaf an interface command sets, in containers that are there. */
    method SetInterfaceLeaf(cmd: Command) returns (r: Option<CliError>)
      requires OnInterface(cmd) && cmd.name in current.interfaces
      requires current.interfaces[cmd.name].connection.Some? && current.interfaces[cmd.name].connection.value.line.Some?
      modifies this`current
      ensures match EditInterface(old(current), cmd)
        case Err(e) => r == Some(e)
        case Ok(i) => r == None && OneChanged(old(current), current, cmd.name) && Trimmed(current.interfaces[cmd.name]) == Trimmed(i)
    {
      var i := current.interfaces[cmd.name];
      var x := i.connection.value;
      var end := x.line.value;
      match cmd {
        case ConnectionId(_, id) =>
          if id < 100 || id > 4000 {
            return Some(InvalidArgument);
          }
          i := i.(connection := Some(x.(id := Some(id))));
        case ConnectionModule(_, target) =>
          if target !in current.modules {
            return Some(NotFound);
          }
          i := i.(connection := Some(x.(line := Some(end.(name := Some(target))))));
        case ConnectionChannel(_, channel) =>
          if channel != "A" && channel != "B" {
            return Some(InvalidArgument);
          }
          i := i.(connection := Some(x.(line := Some(end.(channel := Some(channel))))));
        case ConnectionClear(_) =>
          i := i.(connection := None);
        case InterfaceDescription(_, text) =>
          i := i.(description := Some(text));
      }
      current := current.(interfaces := current.interfaces[cmd.name := i]);
      r := None;
    }

    /** The module commands: each sets its leaf of the module. */
    method RunModule(name: string, leaf: LeafEdit) returns (r: Option<CliError>)
      modifies this`current
      ensures match Execute(old(current), EditModule(name, leaf))
        case Ok(c) => r == None && current == c
        case Err(e) => r == Some(e)
    {
      if name !in current.modules {
        return Some(NotFound);
      }
      var m := current.modules[name];
      match leaf {
        case SetGrid(g) =>
          if g == GridUnset {
            return Some(InvalidArgument);
          }
          m := m.(grid := g);
        case SetChannel(n) =>
          if n > 255 || n < 1 {
            return Some(InvalidArgument);
          }
          m := m.(channel := Some(n));
        case SetBerInterval(n) =>
          if n >= 0x1_0000_0000 || n < 5 {
            return Some(InvalidArgument);
          }
          m := m.(berInterval := Some(n));
        case SetModulation(x) =>
          if x == ModulationUnset {
            return Some(InvalidArgument);
          }
          m := m.(modulation := x);
        case SetEnabled(b) => m := m.(enabled := Some(b));
        case SetPrbs(b) => m := m.(prbs := Some(b));
        case SetLosi(b) => m := m.(losi := Some(b));
        case SetOversubscription(b) => m := m.(oversubscription := b);
        case SetDescription(text) => m := m.(description := text);
      }
      current := current.(modules := current.modules[name := m]);
      r := None;
    }

    /** The description commands of a port. */
    method RunPortDescription(name: string, text: Option<string>) returns (r: Option<CliError>)
      modifies this`current
      ensures match Execute(old(current), PortDescription(name, text))
        case Ok(c) => r == None && current == c
        case Err(e) => r == Some(e)
    {
      if name !in current.ports {
        return Some(NotFound);
      }
      var p := current.ports[name];
      current := current.(ports := current.ports[name := Port(text, p.channelSpeed, p.numChannels)]);
      r := None;
    }

    /** The commands that are not about an interface. */
    method RunPlain(cmd: Command) returns (r: Option<CliError>)
      requires !OnInterface(cmd)
      modifies this`current
      ensures match Execute(old(current), cmd)
        case Ok(c) => r == None && current == c
        case Err(e) => r == Some(e)
    {
      hide SetSpeed, SetChannels, EditLeaf;
      match cmd {
        case ChannelSpeed(name, speed) => r := RunChannelSpeed(name, speed);
        case NumChannels(name, num) => r := RunNumChannels(name, num);
        case PortDescription(name, text) => r := RunPortDescription(name, text);
        case EditModule(name, leaf) => r := RunModule(name, leaf);
        case Oversubscription(b) =>
          current := current.(oversubscription := Some(b));
          r := None;
      }
    }

    /**
     One command line: load, run, and write the file unless the command failed. The command makes of any file what
     Execute makes of that file written before: empty containers, also those the command itself made, are gone.
     */
    method Run(cmd: Command) returns (r: Option<CliError>)
      modifies this
      ensures match Execute(Saved(old(file)), cmd)
        case Ok(c) => r == None && file == c
        case Err(e) => r == Some(e) && file == old(file)
    {
      hide Execute, SetSpeed, SetChannels, EditInterface, Saved;
      current := file;
      if OnInterface(cmd) {
        r := RunInterface(cmd);
      } else {
        SavedBefore(file, cmd);
        r := RunPlain(cmd);
      }
      if r == None {
        file := Saved(current);
      }
    }
  }

  /** Editing the written interface gives what editing the opened one and writing it gives. */
  lemma {:induction false} InterfaceSaved(c: Config, ready: Config, cmd: Command)
    requires OnInterface(cmd) && cmd.name in c.interfaces
    requires ready == c.(interfaces := c.interfaces[cmd.name := Opened(c.interfaces[cmd.name])])
    ensures cmd.name in Saved(c).interfaces
    ensures match EditInterface(ready, cmd)
      case Err(e) => EditInterface(Saved(c), cmd) == Err(e)
      case Ok(i) => EditInterface(Saved(c), cmd) == Ok(Trimmed(i))
  {
  }

  lemma {:induction false} ChannelsGrow(n: int, i: nat)
    requires 1 <= i <= 4
    ensures Channels(n, i) == Channels(n, i - 1) + {SubInterface(n, i)} && Channels(n, 0) == {}
    ensures SubInterface(n, i) !in Channels(n, i - 1)
    ensures SubInterface(n, i) in Channels(n, 4)
  {
    forall s: nat | s < i ensures SubInterface(n, s) != SubInterface(n, i) {
      if SubInterface(n, s) == SubInterface(n, i) {
        SubsDiffer(n, s, i);
      }
    }
  }

  lemma {:induction false} SubsDiffer(n: int, s: nat, t: nat)
    requires SubInterface(n, s) == SubInterface(n, t)
    ensures s == t
  {
    var head := "Ethernet" + PrintInt(n);
    var a, b := if s == 0 then "" else "_" + Print(s), if t == 0 then "" else "_" + Print(t);
    assert a == SubInterface(n, s)[|head|..] && b == SubInterface(n, t)[|head|..];
    if s > 0 && t > 0 {
      assert Print(s) == a[1..] && Print(t) == b[1..];
      PrintInjective(s, t);
    }
  }
}
