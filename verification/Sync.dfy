/** handleDiff as a whole: when it fails, when it asks for a reboot, and when it leaves the database as a rebuild would. */
module Sync {
  import opened Wrappers
  import opened Names
  import T = Text
  import opened Transponder
  import opened Breakout
  import opened Validation
  import opened Redis
  import opened Rebuild
  import opened Database
  import opened Wiring
  import opened Changes
  import opened Handlers
  import opened Moves
  import opened Incremental
  import opened Convergence
  import opened Divergence
  import opened ModuleSync

  ghost predicate Sound(c: Config) {
    Wired(c) && Accepts(c)
  }

  /** No module leaf that HandleOptDiff handles is unset. */
  ghost predicate NoModuleLoss(a: Config, b: Config) {
    forall name, l :: l in HANDLED ==> !Deleted(a, b, Modules, name, l)
  }

  predicate PortChanged(a: Config, b: Config, name: string) {
    name in a.ports && name in b.ports
    && (a.ports[name].numChannels != b.ports[name].numChannels || a.ports[name].channelSpeed != b.ports[name].channelSpeed)
  }

  ghost predicate PortsChanged(a: Config, b: Config) {
    exists name :: PortChanged(a, b, name)
  }

  // ---- Modules ----

  ghost predicate ModulesNamed(c: Config) {
    forall name :: name in c.modules <==> IsModuleName(name)
  }

  lemma {:induction false} ModuleNamed(name: string)
    requires IsModuleName(name)
    ensures ModuleIndex(name).Some? && T.HasPrefix(name, "Opt")
  {
    hide ModuleName, ModuleNames;
    ModuleNamesUpTo(MODULES, name);
    var n: nat :| 1 <= n <= MODULES && name == ModuleName(n);
    ModuleIndexOf(n);
  }

  /** The tasks of a module say which of its leaves changed. */
  lemma {:induction false} ModuleTasks(a: Config, b: Config, d: Diff, name: string)
    requires IsDiff(a, b, d) && name in b.modules
    ensures TasksFor(TasksOf(d, Modules, name), name, b.modules[name])
    ensures LosesHandled(TasksOf(d, Modules, name)) <==> exists l :: l in HANDLED && Deleted(a, b, Modules, name, l)
    ensures forall l :: l in HANDLED ==>
      (Touched(TasksOf(d, Modules, name), l) <==> Updated(a, b, Modules, name, l) || Deleted(a, b, Modules, name, l))
  {
    hide IsDiff, TasksOf, ModuleLeaf;
    var tasks := TasksOf(d, Modules, name);
    forall i | 0 <= i < |tasks| ensures TaskFor(tasks[i], name, b.modules[name]) {
      TaskIsChange(a, b, d, Modules, name, tasks[i]);
    }
    forall l ensures (exists i :: 0 <= i < |tasks| && tasks[i].deleted && tasks[i].leaf == l) <==> Deleted(a, b, Modules, name, l) {
      DeletedTask(a, b, d, name, l);
    }
    forall l | l in HANDLED ensures Touched(tasks, l) <==> Updated(a, b, Modules, name, l) || Deleted(a, b, Modules, name, l) {
      TouchedLeaf(a, b, d, name, l);
    }
    if LosesHandled(tasks) {
      var i :| 0 <= i < |tasks| && tasks[i].deleted && tasks[i].leaf in HANDLED;
      assert Deleted(a, b, Modules, name, tasks[i].leaf);
    }
  }

  lemma {:induction false} DeletedTask(a: Config, b: Config, d: Diff, name: string, l: Leaf)
    requires IsDiff(a, b, d)
    ensures var tasks := TasksOf(d, Modules, name);
      (exists i :: 0 <= i < |tasks| && tasks[i].deleted && tasks[i].leaf == l) <==> Deleted(a, b, Modules, name, l)
  {
    hide IsDiff, TasksOf, LeafAt;
    var tasks := TasksOf(d, Modules, name);
    if i :| 0 <= i < |tasks| && tasks[i].deleted && tasks[i].leaf == l {
      TaskIsChange(a, b, d, Modules, name, tasks[i]);
    }
    if Deleted(a, b, Modules, name, l) {
      TaskIsChange(a, b, d, Modules, name, Task(true, l, None));
      var i :| 0 <= i < |tasks| && tasks[i] == Task(true, l, None);
    }
  }

  lemma {:induction false} TouchedLeaf(a: Config, b: Config, d: Diff, name: string, l: Leaf)
    requires IsDiff(a, b, d) && l in HANDLED
    ensures Touched(TasksOf(d, Modules, name), l) <==> Updated(a, b, Modules, name, l) || Deleted(a, b, Modules, name, l)
  {
    hide IsDiff, TasksOf, LeafAt;
    var tasks := TasksOf(d, Modules, name);
    if Touched(tasks, l) {
      var i :| 0 <= i < |tasks| && tasks[i].leaf == l;
      TaskIsChange(a, b, d, Modules, name, tasks[i]);
    }
    if Updated(a, b, Modules, name, l) || Deleted(a, b, Modules, name, l) {
      var x := if Updated(a, b, Modules, name, l) then Task(false, l, LeafAt(b, Modules, name, l)) else Task(true, l, None);
      TaskIsChange(a, b, d, Modules, name, x);
      var i :| 0 <= i < |tasks| && tasks[i] == x;
    }
  }

  /** Handling one module: it fails exactly if a handled leaf is lost; else the row becomes the new full row. */
  lemma {:induction false} OneModuleHandled(db: Db, a: Config, b: Config, d: Diff, name: string)
    requires IsDiff(a, b, d) && ModulesNamed(a) && ModulesNamed(b) && name in b.modules
    ensures HandleOpt(db, name, TasksOf(d, Modules, name)).error.Some? <==> exists l :: l in HANDLED && Deleted(a, b, Modules, name, l)
    ensures var o := HandleOpt(db, name, TasksOf(d, Modules, name));
      var key := ModuleKey(name);
      o.error.None? && Lookup(db, key) == RowOf(name, a.modules[name]) ==> Lookup(o.db, key) == RowOf(name, b.modules[name])
    ensures forall key :: key != ModuleKey(name) ==> Lookup(HandleOpt(db, name, TasksOf(d, Modules, name)).db, key) == Lookup(db, key)
  {
    hide IsDiff, TasksOf, Touched, LosesHandled, TasksFor, RowOf, ModuleLeaf, IsModuleName, OptEntry, HANDLED;
    ModuleNamed(name);
    ModuleTasks(a, b, d, name);
    var tasks := TasksOf(d, Modules, name);
    AllTasks(tasks, name, b.modules[name]);
    if !LosesHandled(tasks) {
      OverlayIsFull(name, a.modules[name], b.modules[name], tasks);
    }
  }

  lemma {:induction false} SameModule(a: Config, b: Config, d: Diff, name: string)
    requires IsDiff(a, b, d) && ModulesNamed(a) && ModulesNamed(b) && name in b.modules && !HasWork(d, Modules, name)
    ensures RowOf(name, a.modules[name]) == RowOf(name, b.modules[name])
  {
    hide IsDiff, TasksOf, Touched, LosesHandled, TasksFor, RowOf, ModuleLeaf, IsModuleName, HANDLED;
    ModuleNamed(name);
    ModuleTasks(a, b, d, name);
    HasTasks(a, b, d, Modules, name);
    var row := RowOf(name, a.modules[name]);
    NoTasks(d, name);
    OverlayIsFull(name, a.modules[name], b.modules[name], []);
    assert row + map[] == row;
  }

  lemma {:induction false} NoTasks(d: Diff, name: string)
    requires !HasWork(d, Modules, name)
    ensures TasksOf(d, Modules, name) == [] && OptEntry([]) == Ok(map[]) && !LosesHandled([])
  {
  }

  /** The walk over the modules when no handled leaf is lost. */
  lemma {:induction false} ModulesRun(db: Db, a: Config, b: Config, d: Diff, names: seq<string>)
    requires IsDiff(a, b, d) && ModulesNamed(a) && ModulesNamed(b) && NoModuleLoss(a, b) && Walk(d, Modules, names)
    requires forall name :: name in a.modules ==> Lookup(db, ModuleKey(name)) == RowOf(name, a.modules[name])
    ensures RunOpts(db, d, names).error.None?
    ensures forall name :: name in a.modules ==>
      Lookup(RunOpts(db, d, names).db, ModuleKey(name)) == RowOf(name, if name in names then b.modules[name] else a.modules[name])
    ensures forall key: Key :: (key.ModuleKey? ==> key.name !in a.modules) ==> Lookup(RunOpts(db, d, names).db, key) == Lookup(db, key)
    decreases |names|
  {
    if names != [] {
      var less, k := names[..|names| - 1], names[|names| - 1];
      assert names == less + [k];
      assert forall name :: name in names <==> name in less || name == k;
      hide *;
      WalkIsDistinct(d, Modules, names);
      ModulesRun(db, a, b, d, less);
      KnownModule(a, b, d, k);
      NothingLost(a, b, k);
      OneModuleHandled(RunOpts(db, d, less).db, a, b, d, k);
      OneMoreOpt(db, d, less, k);
    } else {
      RunsNothing(db, d);
    }
  }

  lemma {:induction false} RunsNothing(db: Db, d: Diff)
    ensures RunOpts(db, d, []) == Outcome(db, None)
  {
  }

  lemma {:induction false} NothingLost(a: Config, b: Config, name: string)
    requires NoModuleLoss(a, b)
    ensures !exists l :: l in HANDLED && Deleted(a, b, Modules, name, l)
  {
    hide Deleted, HANDLED;
  }

  lemma {:induction false} KnownModule(a: Config, b: Config, d: Diff, name: string)
    requires IsDiff(a, b, d) && ModulesNamed(a) && ModulesNamed(b) && HasWork(d, Modules, name)
    ensures name in a.modules && name in b.modules
  {
    hide IsDiff, TasksOf, IsModuleName;
    HasTasks(a, b, d, Modules, name);
  }

  /** A walk that met a module losing a handled leaf has failed. */
  lemma {:induction false} LossFails(db: Db, a: Config, b: Config, d: Diff, names: seq<string>, name: string, l: Leaf)
    requires IsDiff(a, b, d) && ModulesNamed(a) && ModulesNamed(b) && l in HANDLED && Deleted(a, b, Modules, name, l)
    requires name in names
    ensures RunOpts(db, d, names).error.Some?
    decreases |names|
  {
    hide IsDiff, HandleOpt, Deleted, HANDLED, IsModuleName, TasksOf;
    var less, k := names[..|names| - 1], names[|names| - 1];
    assert names == less + [k];
    if name == k {
      LostIsKnown(a, b, name, l);
      OneModuleHandled(RunOpts(db, d, less).db, a, b, d, k);
    } else {
      LossFails(db, a, b, d, less, name, l);
    }
  }

  lemma {:induction false} LostIsKnown(a: Config, b: Config, name: string, l: Leaf)
    requires ModulesNamed(a) && ModulesNamed(b) && Deleted(a, b, Modules, name, l)
    ensures name in b.modules
  {
    hide IsModuleName, ModuleLeaf;
  }

  // ---- Ports ----

  lemma {:induction false} PortPrefix(name: string)
    requires IsPortName(name)
    ensures T.HasPrefix(name, "Port")
  {
    hide PortNames, T.Print;
    PortNamesUpTo(PORTS, name);
  }

  lemma {:induction false} PortLeaves(a: Config, b: Config, name: string)
    requires Sound(a) && Sound(b)
    ensures (exists l :: l != DescriptionLeaf && (Updated(a, b, Ports, name, l) || Deleted(a, b, Ports, name, l))) <==> PortChanged(a, b, name)
  {
    hide Owned, IndicesOf, PortNames, ModuleNames, ModulesAccepted, IdsUnique, ConnectionsComplete, ModeAllowed;
    assert name in a.ports <==> name in b.ports;
    if name in a.ports {
      SpeedSet(a, name);
      SpeedSet(b, name);
      if PortChanged(a, b, name) {
        assert Updated(a, b, Ports, name, NumChannelsLeaf) || Updated(a, b, Ports, name, ChannelSpeedLeaf);
      }
    }
  }

  lemma {:induction false} SpeedSet(c: Config, name: string)
    requires ModesAllowed(c) && name in c.ports
    ensures c.ports[name].channelSpeed != SpeedUnset
  {
    assert ModeAllowed(c.ports[name]);
  }

  /** The port handler never fails, and asks for a reboot exactly if a port's channels or speed changed. */
  lemma {:induction false} PortsTell(a: Config, b: Config, d: Diff)
    requires Sound(a) && Sound(b) && IsDiff(a, b, d)
    ensures !exists name :: BadPort(d, name)
    ensures (exists name :: PortReboots(d, name)) <==> PortsChanged(a, b)
  {
    hide Sound, IsDiff, TasksOf, Updated, Deleted, HasWork, Reboots, PortChanged;
    forall name ensures !BadPort(d, name) && (PortReboots(d, name) <==> PortChanged(a, b, name)) {
      PortTells(a, b, d, name);
    }
  }

  lemma {:induction false} PortTells(a: Config, b: Config, d: Diff, name: string)
    requires Sound(a) && Sound(b) && IsDiff(a, b, d)
    ensures !BadPort(d, name) && (PortReboots(d, name) <==> PortChanged(a, b, name))
  {
    hide Sound, IsDiff, TasksOf, Updated, Deleted, PortChanged;
    var tasks := TasksOf(d, Ports, name);
    PortLeaves(a, b, name);
    HasTasks(a, b, d, Ports, name);
    if HasWork(d, Ports, name) {
      PortKnown(a, b, name);
    }
    if Reboots(tasks) {
      var i :| 0 <= i < |tasks| && tasks[i].leaf != DescriptionLeaf;
      TaskIsChange(a, b, d, Ports, name, tasks[i]);
    }
    if l :| l != DescriptionLeaf && (Updated(a, b, Ports, name, l) || Deleted(a, b, Ports, name, l)) {
      var x := if Updated(a, b, Ports, name, l) then Task(false, l, LeafAt(b, Ports, name, l)) else Task(true, l, None);
      TaskIsChange(a, b, d, Ports, name, x);
      var i :| 0 <= i < |tasks| && tasks[i] == x;
    }
  }

  lemma {:induction false} PortKnown(a: Config, b: Config, name: string)
    requires Sound(a) && Sound(b) && exists l :: Updated(a, b, Ports, name, l) || Deleted(a, b, Ports, name, l)
    ensures T.HasPrefix(name, "Port")
  {
    hide Owned, IndicesOf, PortNames, ModuleNames, Accepts;
    assert name in a.ports || name in b.ports;
    PortPrefix(name);
  }

  /** With the same ports there are the same interfaces. */
  lemma {:induction false} SamePortsSameInterfaces(a: Config, b: Config)
    requires Sound(a) && Sound(b) && !PortsChanged(a, b)
    ensures a.interfaces.Keys == b.interfaces.Keys && a.modules.Keys == b.modules.Keys
  {
    hide Owned, IndicesOf, PortNames, ModuleNames, Accepts;
    forall name | name in a.ports ensures name in b.ports && a.ports[name].numChannels == b.ports[name].numChannels {
      assert !PortChanged(a, b, name);
    }
    SameOwners(a, b);
    assert forall k :: k in a.interfaces <==> k in b.interfaces;
    assert forall k :: k in a.modules <==> k in b.modules;
  }

  // ---- The whole of handleDiff ----

  lemma {:induction false} LinesOfEnds(a: Config, b: Config)
    requires Sound(a) && Sound(b)
    ensures EndsTell(a, b)
  {
    hide Wired, ModulesAccepted, IdsUnique, ModesAllowed, OptEthernetName, EthernetName, LinePortNames, FarEndOf;
    forall k | ConnectionAt(a, k).Some? && ConnectionAt(b, k).Some? && FarEndOf(a, k) == FarEndOf(b, k)
      ensures ConnectionAt(a, k).value.line == ConnectionAt(b, k).value.line {
      var i := WiredEnd(a, k);
      var j := WiredEnd(b, k);
      UnbrokenNames(i, j);
      var n: nat, c :| c in {"A", "B"} && LinePort(n, c) == i && a.interfaces[k].connection.value.line == EndpointOf(n, c);
      var m: nat, e :| e in {"A", "B"} && LinePort(m, e) == j && b.interfaces[k].connection.value.line == EndpointOf(m, e);
      LinePortInjective(n, c, m, e);
    }
  }

  lemma {:induction false} SyncParts(db: Db, c: Config)
    requires InSync(db, c)
    ensures VlansInSync(db, c)
    ensures forall name :: name in c.modules ==> Lookup(db, ModuleKey(name)) == RowOf(name, c.modules[name])
  {
    hide RowOf;
    forall name | name in c.modules ensures Lookup(db, ModuleKey(name)) == RowOf(name, c.modules[name]) {
      assert Lookup(db, ModuleKey(name)) == RebuildAt(c, ModuleKey(name));
    }
  }

  lemma {:induction false} SoundParts(c: Config)
    requires Sound(c)
    ensures Plain(c) && ModulesNamed(c)
  {
    SoundIsPlain(c);
    hide Owned, IndicesOf, PortNames, ModuleNames, Accepts;
  }

  /** The rows outside the VLAN tables are in sync after the module walk, and the interface walk does not touch them. */
  lemma {:induction false} OtherTables(before: Db, a: Config, b: Config, d: Diff, opts: seq<string>, intfs: seq<string>, key: Key)
    requires Sound(a) && Sound(b) && IsDiff(a, b, d) && InSync(before, a) && NoModuleLoss(a, b) && !PortsChanged(a, b)
    requires FullWalk(d, Modules, opts) && !VlanTable(key)
    ensures Lookup(RunMoves(RunOpts(before, d, opts).db, a, b, intfs), key) == RebuildAt(b, key)
  {
    hide Sound, IsDiff, NoModuleLoss, PortsChanged, RunOpts, RunMoves, Lookup, RowOf, HasWork, HANDLED, InSync, LinePortNames, LaneOf, VlanTable;
    SoundParts(a);
    SoundParts(b);
    SyncParts(before, a);
    SamePortsSameInterfaces(a, b);
    ModulesRun(before, a, b, d, opts);
    MovesKeepOthers(RunOpts(before, d, opts).db, a, b, intfs, key);
    SyncAt(before, a, key);
    SyncKey(key);
    if key.ModuleKey? && key.name in b.modules && key.name !in opts {
      SameModule(a, b, d, key.name);
    }
  }

  lemma {:induction false} SyncKey(key: Key)
    requires !VlanTable(key)
    ensures key.DeviceKey? || key.PortKey? || key.ModuleKey?
  {
  }

  lemma {:induction false} SyncAt(db: Db, c: Config, key: Key)
    requires InSync(db, c)
    ensures Lookup(db, key) == RebuildAt(c, key)
  {
  }

  lemma {:induction false} MovesKeepOthers(db: Db, a: Config, b: Config, names: seq<string>, key: Key)
    requires !VlanTable(key)
    ensures Lookup(RunMoves(db, a, b, names), key) == Lookup(db, key)
    decreases |names|
  {
    if names != [] {
      hide Lookup, Apply, MoveOf;
      var less, k := names[..|names| - 1], names[|names| - 1];
      MovesKeepOthers(db, a, b, less, key);
      OtherRowsStay(RunMoves(db, a, b, less), k, MoveOf(a, b, k), key);
    }
  }

  /** The module walk does not touch the VLAN tables. */
  lemma {:induction false} ModulesKeepVlans(before: Db, a: Config, b: Config, d: Diff, opts: seq<string>)
    requires Sound(a) && Sound(b) && IsDiff(a, b, d) && InSync(before, a) && NoModuleLoss(a, b) && Walk(d, Modules, opts)
    ensures RunOpts(before, d, opts).error.None? && VlansInSync(RunOpts(before, d, opts).db, a)
  {
    hide Sound, IsDiff, NoModuleLoss, RunOpts, Lookup, RowOf, Walk, HANDLED, InSync;
    SoundParts(a);
    SoundParts(b);
    SyncParts(before, a);
    ModulesRun(before, a, b, d, opts);
  }

  /** A change that is not safe is work. */
  lemma {:induction false} UnsafeIsWork(a: Config, b: Config, d: Diff, k: string)
    requires Sound(a) && Sound(b) && IsDiff(a, b, d) && !Safe(a, b, k)
    ensures HasWork(d, Interfaces, k)
  {
    hide Sound, IsDiff, TasksOf;
    SoundParts(a);
    SoundParts(b);
    if !HasWork(d, Interfaces, k) {
      NoWorkNoMove(a, b, d, k);
      hide Plain, FarEndOf;
      if ConnectionAt(b, k).Some? {
        FarEnds(b, k);
      }
    }
  }

  /** handleDiff fails exactly if a handled module leaf is unset. */
  lemma {:induction false} HandleDiffFails(before: Db, a: Config, b: Config, d: Diff, opts: seq<string>, intfs: seq<string>,
                                           after: Db, reboot: bool, error: Option<DiffError>)
    requires Sound(a) && Sound(b) && IsDiff(a, b, d) && InSync(before, a)
    requires RanAs(before, b, a, d, opts, intfs, after, reboot, error)
    ensures error.None? <==> NoModuleLoss(a, b)
    ensures error.None? ==> (reboot <==> PortsChanged(a, b))
    ensures error.Some? ==> !reboot
    ensures error.None? ==> after == RunMoves(RunOpts(before, d, opts).db, a, b, intfs)
    ensures error.None? ==> VlansInSync(RunOpts(before, d, opts).db, a) && FullWalk(d, Modules, opts) && FullWalk(d, Interfaces, intfs)
  {
    hide Sound, IsDiff, RunOpts, RunInterfaces, RunMoves, HasWork, InSync, VlansInSync, Deleted, HANDLED, BadPort, PortReboots, PortsChanged, Walk;
    SoundParts(a);
    SoundParts(b);
    PortsTell(a, b, d);
    if NoModuleLoss(a, b) {
      ModulesKeepVlans(before, a, b, d, opts);
      InterfacesRunMoves(RunOpts(before, d, opts).db, a, b, d, intfs);
    } else if RunOpts(before, d, opts).error.None? {
      var name, l :| l in HANDLED && Deleted(a, b, Modules, name, l);
      LossIsWork(a, b, d, name, l);
      LossFails(before, a, b, d, opts, name, l);
    }
  }

  lemma {:induction false} LossIsWork(a: Config, b: Config, d: Diff, name: string, l: Leaf)
    requires IsDiff(a, b, d) && Deleted(a, b, Modules, name, l)
    ensures HasWork(d, Modules, name)
  {
    hide IsDiff, TasksOf, Deleted;
    HasTasks(a, b, d, Modules, name);
  }

  /**
   handleDiff on a database in sync with the old configuration, in any order of its walks: it fails exactly if a handled
   module leaf is unset; it asks for a reboot exactly if a port's channels or speed changed; and when it does neither,
   the database is in sync with the new configuration exactly if every interface changes safely.
   */
  lemma {:induction false} HandleDiffConverges(before: Db, a: Config, b: Config, d: Diff, opts: seq<string>, intfs: seq<string>,
                                               after: Db, reboot: bool, error: Option<DiffError>)
    requires Sound(a) && Sound(b) && IsDiff(a, b, d) && InSync(before, a)
    requires RanAs(before, b, a, d, opts, intfs, after, reboot, error)
    ensures error.None? <==> NoModuleLoss(a, b)
    ensures if error.None? then reboot <==> PortsChanged(a, b) else !reboot
    ensures error.None? && !reboot ==> (InSync(after, b) <==> forall k :: Safe(a, b, k))
  {
    hide Sound, IsDiff, RunOpts, RunMoves, RanAs, NoModuleLoss, PortsChanged, Lookup, RebuildAt, EndsTell, Plain, Safe, VlanTable, HasWork;
    HandleDiffFails(before, a, b, d, opts, intfs, after, reboot, error);
    if error.None? && !reboot {
      SoundParts(a);
      SoundParts(b);
      LinesOfEnds(a, b);
      SamePortsSameInterfaces(a, b);
      var db := RunOpts(before, d, opts).db;
      if k :| !Safe(a, b, k) {
        UnsafeIsWork(a, b, d, k);
        WalkDistinct(d, intfs);
        OneUnsafe(db, a, b, intfs, k);
      } else {
        AllSafe(db, a, b, d, intfs);
        forall key | !VlanTable(key) ensures Lookup(after, key) == RebuildAt(b, key) {
          OtherTables(before, a, b, d, opts, intfs, key);
        }
      }
    }
  }

  lemma {:induction false} WalkDistinct(d: Diff, names: seq<string>)
    requires Walk(d, Interfaces, names)
    ensures Distinct(names)
  {
    hide HasWork;
  }
}
