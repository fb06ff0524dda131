/** Commits after command line sessions: what they need, and the smallest session whose commit misses the rebuild. */
module Sessions {
  import opened Wrappers
  import opened Names
  import opened Transponder
  import opened Cli
  import opened Breakout
  import opened Commands
  import opened Sums
  import opened Validation
  import opened Redis
  import opened Database
  import opened Changes
  import opened Handlers
  import opened Moves
  import opened Convergence
  import opened Sync
  import opened System
  import opened Runs

  /** What a module command writes: the leaf, and its value. */
  function Written(e: LeafEdit): (Leaf, Option<Value>) {
    match e
    case SetGrid(g) => (GridLeaf, Some(GridOf(g)))
    case SetChannel(n) => (ChannelLeaf, Some(Number(n)))
    case SetBerInterval(n) => (BerLeaf, Some(Number(n)))
    case SetEnabled(b) => (EnabledLeaf, Some(Truth(b)))
    case SetPrbs(b) => (PrbsLeaf, Some(Truth(b)))
    case SetLosi(b) => (LosiLeaf, Some(Truth(b)))
    case SetOversubscription(b) => (OversubscriptionLeaf, TruthOf(b))
    case SetModulation(m) => (ModulationLeaf, Some(ModulationOf(m)))
    case SetDescription(text) => (DescriptionLeaf, TextOf(text))
  }

  /** The value a command gives a leaf; None if it is not about that leaf. */
  function Sets(cmd: Command, t: Table, name: string, l: Leaf): Option<Option<Value>> {
    match cmd
    case PortDescription(n, text) => if (t, name, l) == (Ports, n, DescriptionLeaf) then Some(TextOf(text)) else None
    case InterfaceDescription(n, text) => if (t, name, l) == (Interfaces, n, DescriptionLeaf) then Some(Some(Text(text))) else None
    case ConnectionId(n, id) => if (t, name, l) == (Interfaces, n, IdLeaf) then Some(Some(Number(id))) else None
    case ConnectionModule(n, target) => if (t, name, l) == (Interfaces, n, LineNameLeaf) then Some(Some(Text(target))) else None
    case ConnectionChannel(n, ch) => if (t, name, l) == (Interfaces, n, LineChannelLeaf) then Some(Some(Text(ch))) else None
    case ConnectionClear(n) => if t == Interfaces && name == n && l in END_LEAVES then Some(None) else None
    case EditModule(n, e) => if (t, name, l) == (Modules, n, Written(e).0) then Some(Written(e).1) else None
    case Oversubscription(b) => if (t, name, l) == (Elsewhere, "", OversubscriptionLeaf) then Some(Some(Truth(b))) else None
    case _ => None
  }

  /** Writing the file and reading it back changes no leaf, whatever containers were empty. */
  lemma {:induction false} SavedLeaves(c: Config, t: Table, name: string, l: Leaf)
    ensures LeafAt(Saved(c), t, name, l) == LeafAt(c, t, name, l)
  {
  }

  /** A command that is not about breakout changes exactly the leaves it names, although it writes and reads back the whole file. */
  lemma {:induction false} CommandSetsLeaf(c: Config, cmd: Command, t: Table, name: string, l: Leaf)
    requires Execute(c, cmd).Ok? && !cmd.ChannelSpeed? && !cmd.NumChannels?
    ensures LeafAt(Execute(c, cmd).value, t, name, l) == if Sets(cmd, t, name, l).Some? then Sets(cmd, t, name, l).value else LeafAt(c, t, name, l)
  {
    if cmd.EditModule? {
      ModuleCommand(c, cmd, t, name, l);
    } else if cmd.PortDescription? || cmd.Oversubscription? {
      PlainCommand(c, cmd, t, name, l);
    } else {
      InterfaceCommand(c, cmd, t, name, l);
    }
  }

  lemma {:induction false} ModuleCommand(c: Config, cmd: Command, t: Table, name: string, l: Leaf)
    requires Execute(c, cmd).Ok? && cmd.EditModule?
    ensures LeafAt(Execute(c, cmd).value, t, name, l) == if Sets(cmd, t, name, l).Some? then Sets(cmd, t, name, l).value else LeafAt(c, t, name, l)
  {
    hide SetSpeed, SetChannels, EditInterface, PortLeaf, InterfaceLeaf;
  }

  lemma {:induction false} PlainCommand(c: Config, cmd: Command, t: Table, name: string, l: Leaf)
    requires Execute(c, cmd).Ok? && (cmd.PortDescription? || cmd.Oversubscription?)
    ensures LeafAt(Execute(c, cmd).value, t, name, l) == if Sets(cmd, t, name, l).Some? then Sets(cmd, t, name, l).value else LeafAt(c, t, name, l)
  {
    hide SetSpeed, SetChannels, EditInterface, EditLeaf, ModuleLeaf, InterfaceLeaf;
  }

  lemma {:induction false} InterfaceCommand(c: Config, cmd: Command, t: Table, name: string, l: Leaf)
    requires OnInterface(cmd) && Execute(c, cmd).Ok?
    ensures LeafAt(Execute(c, cmd).value, t, name, l) == if Sets(cmd, t, name, l).Some? then Sets(cmd, t, name, l).value else LeafAt(c, t, name, l)
  {
    OneInterface(c, cmd);
    hide Execute, EditInterface, Sets, ModuleLeaf, PortLeaf, InterfaceLeaf;
    EditedLeaf(c, cmd, c.interfaces[cmd.name], EditInterface(c, cmd).value, l);
    if t != Interfaces || name != cmd.name {
      SetsElsewhere(cmd, t, name, l);
    }
  }

  lemma {:induction false} SetsElsewhere(cmd: Command, t: Table, name: string, l: Leaf)
    requires OnInterface(cmd)
    requires t != Interfaces || name != cmd.name
    ensures Sets(cmd, t, name, l) == None
  {
  }

  lemma {:induction false} EditedLeaf(c: Config, cmd: Command, i: Interface, j: Interface, l: Leaf)
    requires OnInterface(cmd)
    requires cmd.name in c.interfaces && i == c.interfaces[cmd.name] && EditInterface(c, cmd) == Ok(j)
    ensures var s := Sets(cmd, Interfaces, cmd.name, l);
      InterfaceLeaf(cmd.name, j, l) == if s.Some? then s.value else InterfaceLeaf(cmd.name, i, l)
  {
  }

  /**
   An editing command on a legal machine is done exactly if its argument is allowed, and else refused. It touches the file
   alone, and in it the leaves it names, or, for breakout, the port's number of channels or speed and its interfaces.
   */
  lemma {:induction false} EditIsDone(s: Machine, cmd: Command, s': Machine, v: Verdict)
    requires Legal(s) && StepRel(s, Edit(cmd), s', v)
    ensures v == if Allowed(s.file, cmd) then Done else Refused
    ensures s'.log == s.log && s'.db == s.db && (v == Refused ==> s'.file == s.file)
    ensures v == Done && !cmd.ChannelSpeed? && !cmd.NumChannels? ==> forall t, name, l ::
      LeafAt(s'.file, t, name, l) == if Sets(cmd, t, name, l).Some? then Sets(cmd, t, name, l).value else LeafAt(s.file, t, name, l)
    ensures v == Done && cmd.NumChannels? ==> forall n: nat, m: nat, i: nat | 1 <= n <= 16 && cmd.name == PortName(n) && 1 <= m <= 16 ::
      SwitchedAt(s.file, s'.file, n, cmd.num, m, i)
    ensures v == Done && cmd.ChannelSpeed? ==>
      cmd.name in s.file.ports && s'.file.ports == s.file.ports[cmd.name := s.file.ports[cmd.name].(channelSpeed := cmd.speed)]
  {
    hide Wired, Sound, Execute, LeafAt, Sets, SwitchedAt, PortName, Allowed;
    CommandSucceeds(s.file, cmd);
    if Execute(s.file, cmd).Ok? {
      if cmd.NumChannels? {
        forall n: nat, m: nat, i: nat | 1 <= n <= 16 && cmd.name == PortName(n) && 1 <= m <= 16
          ensures SwitchedAt(s.file, s'.file, n, cmd.num, m, i) {
          NumChannelsDoes(s.file, n, cmd.num);
        }
      } else if cmd.ChannelSpeed? {
        SpeedDone(s.file, cmd);
      } else {
        forall t, name, l
          ensures LeafAt(s'.file, t, name, l) == if Sets(cmd, t, name, l).Some? then Sets(cmd, t, name, l).value else LeafAt(s.file, t, name, l) {
          CommandSetsLeaf(s.file, cmd, t, name, l);
        }
      }
    }
  }

  lemma {:induction false} SpeedDone(c: Config, cmd: Command)
    requires cmd.ChannelSpeed? && Execute(c, cmd).Ok?
    ensures cmd.name in c.ports && Execute(c, cmd).value.ports == c.ports[cmd.name := c.ports[cmd.name].(channelSpeed := cmd.speed)]
  {
    hide PortIndex, SubInterface, AtSpeed;
  }

  /** No command unsets a module leaf that HandleOptDiff handles. */
  lemma {:induction false} CommandKeepsLeaf(c: Config, cmd: Command, name: string, l: Leaf)
    requires Execute(c, cmd).Ok? && l in HANDLED && LeafAt(c, Modules, name, l).Some?
    ensures LeafAt(Execute(c, cmd).value, Modules, name, l).Some?
  {
    hide SetSpeed, SetChannels, EditInterface;
    if !cmd.EditModule? {
      CommandModules(c, cmd);
    }
  }

  lemma {:induction false} CommandModules(c: Config, cmd: Command)
    requires Execute(c, cmd).Ok? && !cmd.EditModule?
    ensures Execute(c, cmd).value.modules == c.modules
  {
    hide EditInterface, AtSpeed, Channels, Made, PortIndex, SubInterface;
  }

  lemma {:induction false} SessionKeepsLeaf(c: Config, cmds: seq<Command>, name: string, l: Leaf)
    requires l in HANDLED && LeafAt(c, Modules, name, l).Some?
    ensures LeafAt(RunAll(c, cmds), Modules, name, l).Some?
    decreases |cmds|
  {
    if cmds != [] {
      hide LeafAt, Execute;
      var r := Execute(c, cmds[0]);
      if r.Ok? {
        CommandKeepsLeaf(c, cmds[0], name, l);
      }
      SessionKeepsLeaf(if r.Ok? then r.value else c, cmds[1..], name, l);
    }
  }

  /** Without rollbacks the incremental commit never fails: it converges exactly if a port or only safe things changed. */
  lemma {:induction false} SessionCommit(a: Config, cmds: seq<Command>)
    ensures NoModuleLoss(a, RunAll(a, cmds))
    ensures CommitSafe(a, RunAll(a, cmds), false) <==> PortsChanged(a, RunAll(a, cmds)) || forall k :: Safe(a, RunAll(a, cmds), k)
  {
    hide PortsChanged, Safe, RunAll, LeafAt;
    forall name, l | l in HANDLED ensures !Deleted(a, RunAll(a, cmds), Modules, name, l) {
      if LeafAt(a, Modules, name, l).Some? {
        SessionKeepsLeaf(a, cmds, name, l);
      }
    }
  }

  // ---- A commit that misses the rebuild ----

  function FirstInterface(): string {
    EthernetName(1)
  }

  /** The first interface gets its connection: id 100, channel A of the first module. */
  function ConnectFirst(): seq<Command> {
    [ConnectionId(FirstInterface(), 100), ConnectionModule(FirstInterface(), ModuleName(1)), ConnectionChannel(FirstInterface(), "A")]
  }

  const FIRST := Connection(Some(100), Some(Endpoint(Some(ModuleName(1)), Some("A"))))

  function WithConnection(x: Option<Connection>): Config {
    DefaultConfig().(interfaces := DefaultConfig().interfaces[FirstInterface() := NewInterface(Speed100GB).(connection := x)])
  }

  lemma {:induction false} FirstNames()
    ensures FirstInterface() in DefaultConfig().interfaces && ModuleName(1) in DefaultConfig().modules
    ensures DefaultConfig() == WithConnection(None)
  {
    hide EthernetName, ModuleName, EthernetNames, ModuleNames;
    EthernetNamesUpTo(PORTS, EthernetName(1));
    ModuleNamesUpTo(MODULES, ModuleName(1));
    assert DefaultConfig().interfaces == WithConnection(None).interfaces;
  }

  /** What a connection command makes of the first interface's connection. */
  function Edited(x: Option<Connection>, cmd: Command): Option<Connection> {
    var i := NewInterface(Speed100GB).(connection := x);
    match cmd
    case ConnectionId(_, id) => Emitted(Some(id), LineOf(i))
    case ConnectionModule(_, target) => Emitted(IdOf(i), LineOf(i).(name := Some(target)))
    case ConnectionChannel(_, ch) => Emitted(IdOf(i), LineOf(i).(channel := Some(ch)))
    case _ => None
  }

  lemma {:induction false} Connecting(x: Option<Connection>, cmd: Command)
    requires cmd.ConnectionId? || cmd.ConnectionModule? || cmd.ConnectionChannel? || cmd.ConnectionClear?
    requires cmd.name == FirstInterface()
    requires (cmd.ConnectionId? ==> cmd.id == 100) && (cmd.ConnectionChannel? ==> cmd.channel == "A")
    requires cmd.ConnectionModule? ==> cmd.target in DefaultConfig().modules
    ensures Execute(WithConnection(x), cmd) == Ok(WithConnection(Edited(x, cmd)))
  {
    hide FirstInterface, DefaultConfig, Emitted;
    var c, f := WithConnection(x), FirstInterface();
    assert c.interfaces[f] == NewInterface(Speed100GB).(connection := x);
    assert EditInterface(c, cmd) == Ok(NewInterface(Speed100GB).(connection := Edited(x, cmd)));
    assert c.interfaces[f := NewInterface(Speed100GB).(connection := Edited(x, cmd))] == WithConnection(Edited(x, cmd)).interfaces;
  }

  lemma {:induction false} OneCommand(c: Config, cmd: Command, cmds: seq<Command>)
    ensures RunAll(c, [cmd] + cmds) == RunAll(if Execute(c, cmd).Ok? then Execute(c, cmd).value else c, cmds)
    ensures RunAll(c, []) == c
  {
    assert ([cmd] + cmds)[1..] == cmds;
  }

  /** The session connects the interface, and clearing restores the default configuration. */
  lemma {:induction false} ConnectAndClear()
    ensures RunAll(DefaultConfig(), ConnectFirst()) == WithConnection(Some(FIRST))
    ensures RunAll(WithConnection(Some(FIRST)), [ConnectionClear(FirstInterface())]) == DefaultConfig()
  {
    FirstNames();
    hide RunAll, Execute, DefaultConfig, FirstInterface, WithConnection, ModuleName;
    var f := FirstInterface();
    var x := [ConnectionId(f, 100), ConnectionModule(f, ModuleName(1)), ConnectionChannel(f, "A")];
    assert x == [x[0]] + ([x[1]] + ([x[2]] + []));
    OneCommand(WithConnection(None), x[0], [x[1]] + ([x[2]] + []));
    Connecting(None, x[0]);
    var c1 := Edited(None, x[0]);
    OneCommand(WithConnection(c1), x[1], [x[2]] + []);
    Connecting(c1, x[1]);
    var c2 := Edited(c1, x[1]);
    OneCommand(WithConnection(c2), x[2], []);
    Connecting(c2, x[2]);
    var clear := ConnectionClear(f);
    Connecting(Some(FIRST), clear);
    OneCommand(WithConnection(Some(FIRST)), clear, []);
    assert [clear] == [clear] + [];
  }

  /** Only the first interface is connected; all run at 100 Gb/s. */
  lemma {:induction false} OnlyFirst(k: string)
    requires k in WithConnection(Some(FIRST)).interfaces
    ensures WithConnection(Some(FIRST)).interfaces[k].speed == Speed100GB
    ensures WithConnection(Some(FIRST)).interfaces[k].connection == if k == FirstInterface() then Some(FIRST) else None
  {
    hide EthernetNames, ModuleNames, PortNames, FirstInterface;
  }

  lemma {:induction false} LightLoad(name: string, ch: string)
    ensures SpeedsKnown(WithConnection(Some(FIRST)), name, ch) && Load(WithConnection(Some(FIRST)), name, ch) <= CHANNEL_CAPACITY
  {
    hide WithConnection, FirstInterface;
    var c := WithConnection(Some(FIRST));
    var f := FirstInterface();
    var w := LoadOf(c.interfaces, name, ch);
    forall k | k in c.interfaces ensures Mbps(c.interfaces[k].speed) == Some(CHANNEL_CAPACITY) && (k != f ==> w(k) == 0) {
      OnlyFirst(k);
    }
    if f in c.interfaces {
      SumTake(c.interfaces.Keys, w, f);
    }
    SumOfZero(c.interfaces.Keys - {f}, w);
    assert f !in c.interfaces ==> c.interfaces.Keys - {f} == c.interfaces.Keys;
  }

  lemma {:induction false} FirstRest()
    ensures ModesAllowed(WithConnection(Some(FIRST)))
    ensures forall k :: k in WithConnection(Some(FIRST)).modules ==> WithConnection(Some(FIRST)).modules[k] == NEW_MODULE
  {
    hide EthernetNames, ModuleNames, PortNames, FirstInterface;
  }

  /** The connected configuration is accepted. */
  lemma {:induction false} ConnectedIsSound()
    ensures Sound(WithConnection(Some(FIRST)))
  {
    ConnectAndClear();
    DefaultIsWired();
    RunsKeepWiring(DefaultConfig(), ConnectFirst());
    hide *;
    var c := WithConnection(Some(FIRST));
    FirstRest();
    forall k | k in c.interfaces ensures c.interfaces[k].connection == if k == FirstInterface() then Some(FIRST) else None {
      OnlyFirst(k);
    }
    OneConnection(c, FirstInterface());
    forall k | k in c.modules ensures ModuleAccepted(c, k, c.modules[k]) {
      LightLoad(k, "A");
      LightLoad(k, "B");
      NewModuleAccepted(c, k, c.modules[k]);
    }
    AcceptedParts(c);
  }

  lemma {:induction false} AcceptedParts(c: Config)
    requires Wired(c) && ConnectionsComplete(c) && IdsUnique(c) && ModesAllowed(c)
    requires forall k :: k in c.modules ==> ModuleAccepted(c, k, c.modules[k])
    ensures Sound(c)
  {
  }

  lemma {:induction false} OneConnection(c: Config, f: string)
    requires forall k :: k in c.interfaces ==> c.interfaces[k].connection == if k == f then Some(FIRST) else None
    ensures ConnectionsComplete(c) && IdsUnique(c)
  {
  }

  lemma {:induction false} NewModuleAccepted(c: Config, k: string, m: OpticalModule)
    requires m == NEW_MODULE && SpeedsKnown(c, k, "A") && SpeedsKnown(c, k, "B")
    requires Load(c, k, "A") <= CHANNEL_CAPACITY && Load(c, k, "B") <= CHANNEL_CAPACITY
    ensures ModuleAccepted(c, k, m)
  {
    hide Load, SpeedsKnown, FillDefault;
    AcceptedModule(c, k, m);
  }

  /** The ports and modules of these two are the same. */
  lemma {:induction false} OnlyConnected(x: Option<Connection>)
    ensures !PortsChanged(WithConnection(x), WithConnection(None))
  {
    hide PortNames, EthernetNames, ModuleNames, FirstInterface;
  }

  /**
   Two accepted configurations a session apart: the connection is cleared. From any database in sync with the first, in
   any order of handleDiff's walks, the commit of the second is done without an error and misses the rebuild.
   */
  lemma {:induction false} ClearingMisses(before: Db, after: Db, v: Verdict)
    ensures var a := RunAll(DefaultConfig(), ConnectFirst());
      var b := RunAll(a, [ConnectionClear(FirstInterface())]);
      && Sound(a) && Sound(b) && !CommitSafe(a, b, false)
      && (InSync(before, a) && DiffRan(before, a, b, after, v) ==> v == Done && !InSync(after, b))
  {
    ConnectAndClear();
    ConnectedIsSound();
    DefaultIsSound();
    FirstNames();
    OnlyConnected(Some(FIRST));
    var a, b := WithConnection(Some(FIRST)), WithConnection(None);
    SessionCommit(a, [ConnectionClear(FirstInterface())]);
    hide Sound, RunAll, FirstInterface, NoModuleLoss, EthernetNames, ModuleNames, PortNames, ModuleName, InSync, DiffRan, PortsChanged;
    assert !Safe(a, b, FirstInterface());
    if InSync(before, a) && DiffRan(before, a, b, after, v) {
      DiffSync(before, a, b, after, v);
    }
  }

  // ---- A rollback that fails ----

  /** The first module gets a leaf that the default configuration leaves unset. */
  function FirstPrbs(): Command {
    EditModule(ModuleName(1), SetPrbs(true))
  }

  function WithPrbs(): Config {
    DefaultConfig().(modules := DefaultConfig().modules[ModuleName(1) := NEW_MODULE.(prbs := Some(true))])
  }

  lemma {:induction false} PrbsCommand()
    ensures ModuleName(1) in DefaultConfig().modules
    ensures Execute(DefaultConfig(), FirstPrbs()) == Ok(WithPrbs())
  {
    hide ModuleName, ModuleNames, EthernetNames, PortNames;
    ModuleNamesUpTo(MODULES, ModuleName(1));
  }

  lemma {:induction false} PrbsModules(k: string)
    requires k in WithPrbs().modules
    ensures WithPrbs().modules[k] == if k == ModuleName(1) then NEW_MODULE.(prbs := Some(true)) else NEW_MODULE
  {
    hide EthernetNames, ModuleNames, PortNames, ModuleName;
  }

  lemma {:induction false} PrbsRest()
    ensures ConnectionsComplete(WithPrbs()) && IdsUnique(WithPrbs()) && ModesAllowed(WithPrbs())
    ensures forall k :: k in WithPrbs().interfaces ==> WithPrbs().interfaces[k].connection.None?
    ensures WithPrbs().interfaces == DefaultConfig().interfaces && WithPrbs().ports == DefaultConfig().ports
  {
    hide EthernetNames, ModuleNames, PortNames, ModuleName;
  }

  lemma {:induction false} PrbsIsSound()
    ensures Sound(WithPrbs())
  {
    PrbsCommand();
    DefaultIsWired();
    CommandKeepsWiring(DefaultConfig(), FirstPrbs());
    PrbsRest();
    hide *;
    var c := WithPrbs();
    forall k | k in c.modules ensures ModuleAccepted(c, k, c.modules[k]) {
      PrbsModules(k);
      NothingLoaded(c, k, "A");
      NothingLoaded(c, k, "B");
      UnloadedAccepted(c, k, c.modules[k]);
    }
    AcceptedParts(c);
  }

  lemma {:induction false} UnloadedAccepted(c: Config, k: string, m: OpticalModule)
    requires m.occupancy == map[] && SpeedsKnown(c, k, "A") && SpeedsKnown(c, k, "B")
    requires Load(c, k, "A") == 0 && Load(c, k, "B") == 0
    ensures ModuleAccepted(c, k, m)
  {
    hide Load, SpeedsKnown, FillDefault;
    AcceptedModule(c, k, m);
  }

  /** Setting the leaf loses nothing and changes no port or connection; going back unsets a leaf HandleOptDiff handles. */
  lemma {:induction false} PrbsChanges()
    ensures CommitSafe(DefaultConfig(), WithPrbs(), false)
    ensures !NoModuleLoss(WithPrbs(), DefaultConfig())
  {
    PrbsCommand();
    PrbsRest();
    OneCommand(DefaultConfig(), FirstPrbs(), []);
    assert [FirstPrbs()] == [FirstPrbs()] + [];
    SessionCommit(DefaultConfig(), [FirstPrbs()]);
    PrbsLost();
    hide DefaultConfig, WithPrbs, FirstPrbs, RunAll, Execute, LeafAt, NoModuleLoss, PortsChanged;
    assert WithPrbs().interfaces == DefaultConfig().interfaces;
    SameIsSafe(DefaultConfig(), WithPrbs());
    LostLeaf(WithPrbs(), DefaultConfig(), ModuleName(1), PrbsLeaf);
  }

  lemma {:induction false} LostLeaf(a: Config, b: Config, name: string, l: Leaf)
    requires l in HANDLED && Deleted(a, b, Modules, name, l)
    ensures !NoModuleLoss(a, b)
  {
    hide LeafAt, HANDLED;
  }

  lemma {:induction false} SameIsSafe(a: Config, b: Config)
    requires a.interfaces == b.interfaces
    ensures forall k :: Safe(a, b, k)
  {
  }

  lemma {:induction false} PrbsLost()
    ensures PrbsLeaf in HANDLED && Deleted(WithPrbs(), DefaultConfig(), Modules, ModuleName(1), PrbsLeaf)
  {
    hide EthernetNames, ModuleNames, PortNames, ModuleName;
    PrbsCommand();
  }

  /**
   The smallest run in which a rollback fails: a module leaf is set, committed, and the commit is rolled back. Both
   configurations are accepted, the commit is done, and the rollback fails whatever the maps' order.
   */
  lemma {:induction false} RollbackFails(states: seq<Machine>, verdicts: seq<Verdict>)
    requires Run(states, [Edit(FirstPrbs()), Commit(false, false), Rollback(0, false, false)], verdicts)
    ensures Sound(WithPrbs()) && Sound(DefaultConfig())
    ensures verdicts == [Done, Done, Failed] && states[3].log == [DefaultConfig(), WithPrbs(), DefaultConfig()]
  {
    PrbsCommand();
    PrbsIsSound();
    PrbsChanges();
    DefaultIsSound();
    hide DefaultConfig, WithPrbs, FirstPrbs, Accepts, Wired, InSync, DiffRan, NoModuleLoss, Execute, PortsChanged, Safe;
    var actions := [Edit(FirstPrbs()), Commit(false, false), Rollback(0, false, false)];
    assert StepRel(states[0], actions[0], states[1], verdicts[0]);
    assert StepRel(states[1], actions[1], states[2], verdicts[1]);
    DiffSync(states[1].db, DefaultConfig(), WithPrbs(), states[2].db, verdicts[1]);
    assert StepRel(states[2], actions[2], states[3], verdicts[2]);
    DiffSync(states[2].db, WithPrbs(), DefaultConfig(), states[3].db, verdicts[2]);
  }

  // ---- Breaking out a port ----

  /** A port is given a speed and broken out into four. */
  function BreakOut(n: nat, speed: Speed): seq<Command> {
    [ChannelSpeed(PortName(n), speed), NumChannels(PortName(n), 4)]
  }

  lemma {:induction false} DefaultPort(n: nat)
    requires 1 <= n <= 16
    ensures Wired(DefaultConfig()) && PortName(n) in DefaultConfig().ports && DefaultConfig().ports[PortName(n)] == Port(None, Speed100GB, 1)
  {
    DefaultIsWired();
    hide PortName, PortNames, EthernetNames, ModuleNames, Wired;
    PortNamesUpTo(PORTS, PortName(n));
  }

  /** After num-channels on the one port no interface that had no connection has one. */
  lemma {:induction false} StillUnconnected(c: Config, n: nat, num: nat)
    requires Wired(c) && 1 <= n <= 16 && Execute(c, NumChannels(PortName(n), num)).Ok?
    requires forall k :: k in c.interfaces ==> c.interfaces[k].connection == None
    ensures var d := Execute(c, NumChannels(PortName(n), num)).value;
      forall k :: k in d.interfaces ==> d.interfaces[k].connection == None
  {
    hide PortName, Wired, Execute, InterfaceName;
    NumChannelsDoes(c, n, num);
    CommandKeepsWiring(c, NumChannels(PortName(n), num));
    var d := Execute(c, NumChannels(PortName(n), num)).value;
    forall k | k in d.interfaces ensures d.interfaces[k].connection == None {
      NamesOf(d, k);
      var m: nat, s: nat :| 1 <= m <= 16 && k == InterfaceName(m, s);
      assert SwitchedAt(c, d, n, num, m, s);
    }
  }

  lemma {:induction false} SpeedUnconnected(c: Config, n: nat, speed: Speed)
    requires Wired(c) && 1 <= n <= 16 && Execute(c, ChannelSpeed(PortName(n), speed)).Ok?
    requires forall k :: k in c.interfaces ==> c.interfaces[k].connection == None
    ensures var d := Execute(c, ChannelSpeed(PortName(n), speed)).value;
      forall k :: k in d.interfaces ==> d.interfaces[k].connection == None
  {
    hide PortName, Wired, Execute, InterfaceName;
    ChannelSpeedDoes(c, n, speed);
    var d := Execute(c, ChannelSpeed(PortName(n), speed)).value;
    forall k | k in d.interfaces ensures d.interfaces[k].connection == None {
      NamesOf(c, k);
      var m: nat, s: nat :| 1 <= m <= 16 && k == InterfaceName(m, s);
    }
  }

  /** What the two commands make of an unbroken port, connections and modules. */
  lemma {:induction false} BothSucceed(d: Config, n: nat, speed: Speed)
    requires Wired(d) && 1 <= n <= 16 && speed != SpeedUnset && PortName(n) in d.ports && d.ports[PortName(n)].numChannels == 1
    requires forall k :: k in d.interfaces ==> d.interfaces[k].connection == None
    ensures Execute(d, ChannelSpeed(PortName(n), speed)).Ok?
    ensures Execute(Execute(d, ChannelSpeed(PortName(n), speed)).value, NumChannels(PortName(n), 4)).Ok?
    ensures var c := Execute(Execute(d, ChannelSpeed(PortName(n), speed)).value, NumChannels(PortName(n), 4)).value;
      && c.ports == d.ports[PortName(n) := Port(d.ports[PortName(n)].description, speed, 4)] && c.modules == d.modules
      && forall k :: k in c.interfaces ==> c.interfaces[k].connection == None
  {
    hide Wired, Execute, PortName, InterfaceName, SwitchedAt;
    ChannelSpeedDoes(d, n, speed);
    SpeedUnconnected(d, n, speed);
    CommandKeepsWiring(d, ChannelSpeed(PortName(n), speed));
    var c1 := Execute(d, ChannelSpeed(PortName(n), speed)).value;
    NumChannelsDoes(c1, n, 4);
    StillUnconnected(c1, n, 4);
  }

  lemma {:induction false} TwoCommands(c: Config, x: Command, y: Command)
    requires Execute(c, x).Ok? && Execute(Execute(c, x).value, y).Ok?
    ensures RunAll(c, [x, y]) == Execute(Execute(c, x).value, y).value
  {
    hide Execute;
    assert [x, y][1..] == [y];
    OneCommand(Execute(c, x).value, y, []);
    assert [y] == [y] + [];
  }

  /** The ports, connections and modules after the session. */
  lemma {:induction false} BrokenOut(n: nat, speed: Speed)
    requires 1 <= n <= 16 && speed != SpeedUnset
    ensures var c := RunAll(DefaultConfig(), BreakOut(n, speed));
      && Wired(c) && c.ports == DefaultConfig().ports[PortName(n) := Port(None, speed, 4)] && c.modules == DefaultConfig().modules
      && forall k :: k in c.interfaces ==> c.interfaces[k].connection == None
  {
    DefaultPort(n);
    DefaultUnconnected();
    RunsKeepWiring(DefaultConfig(), BreakOut(n, speed));
    hide DefaultConfig, Wired, Execute, RunAll, PortName;
    BothSucceed(DefaultConfig(), n, speed);
    TwoCommands(DefaultConfig(), ChannelSpeed(PortName(n), speed), NumChannels(PortName(n), 4));
  }

  lemma {:induction false} DefaultUnconnected()
    ensures forall k :: k in DefaultConfig().interfaces ==> DefaultConfig().interfaces[k].connection == None
  {
    hide PortNames, EthernetNames, ModuleNames;
  }

  /**
   Breaking a port of the default configuration out into four channels: both commands succeed, and the result is accepted
   exactly at 10 or 25 Gb/s a channel; in particular not at 40, and not at the 100 Gb/s the port has to begin with.
   */
  lemma {:induction false} BreakOutAccepted(n: nat, speed: Speed)
    requires 1 <= n <= 16 && speed != SpeedUnset
    ensures Accepts(RunAll(DefaultConfig(), BreakOut(n, speed))) <==> Mbps(speed) in {Some(10000), Some(25000)}
    ensures Accepts(RunAll(DefaultConfig(), BreakOut(n, Speed10GB))) && !Accepts(RunAll(DefaultConfig(), BreakOut(n, Speed40GB)))
  {
    hide Accepts, RunAll, BreakOut, DefaultConfig;
    BreakOutJudged(n, speed);
    BreakOutJudged(n, Speed10GB);
    BreakOutJudged(n, Speed40GB);
  }

  lemma {:induction false} BreakOutJudged(n: nat, speed: Speed)
    requires 1 <= n <= 16 && speed != SpeedUnset
    ensures Accepts(RunAll(DefaultConfig(), BreakOut(n, speed))) <==> Mbps(speed) in {Some(10000), Some(25000)}
  {
    BrokenOut(n, speed);
    DefaultPort(n);
    DefaultIsSound();
    AllowedModes(Port(None, speed, 4));
    var c := RunAll(DefaultConfig(), BreakOut(n, speed));
    hide RunAll, BreakOut, PortName, Wired, DefaultConfig;
    SoundHas(DefaultConfig());
    forall k | k in c.modules ensures ModuleAccepted(c, k, c.modules[k]) {
      NothingLoaded(c, k, "A");
      NothingLoaded(c, k, "B");
      NewModuleAt(k);
      UnloadedAccepted(c, k, c.modules[k]);
    }
    OnePortJudged(DefaultConfig(), c, PortName(n));
    NoneConnected(c);
    if ModesAllowed(c) {
      AcceptedParts(c);
    }
  }

  lemma {:induction false} SoundHas(c: Config)
    requires Sound(c)
    ensures ModesAllowed(c)
  {
  }

  lemma {:induction false} NewModuleAt(k: string)
    requires k in DefaultConfig().modules
    ensures DefaultConfig().modules[k].occupancy == map[]
  {
    hide PortNames, EthernetNames, ModuleNames;
  }

  lemma {:induction false} OnePortJudged(d: Config, c: Config, name: string)
    requires ModesAllowed(d) && name in c.ports && c.ports == d.ports[name := c.ports[name]]
    ensures ModesAllowed(c) <==> ModeAllowed(c.ports[name])
    ensures Accepts(c) ==> ModesAllowed(c)
  {
    hide ModeAllowed;
  }

  lemma {:induction false} NoneConnected(c: Config)
    requires forall k :: k in c.interfaces ==> c.interfaces[k].connection == None
    ensures ConnectionsComplete(c) && IdsUnique(c)
  {
  }
}
