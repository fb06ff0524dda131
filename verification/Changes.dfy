/** The difference of two configurations, leaf by leaf, and how handleDiff groups it into tasks (cmd/oopt/main.go, pkg/sonic/diff.go). */
module Changes {
  import opened Wrappers
  import opened Transponder

  /** The list a path leads into, by its first element; other paths are skipped. */
  datatype Table = Ports | Interfaces | Modules | Elsewhere

  /** The leaf a path ends in, read without its "config" elements. */
  datatype Leaf =
    | NameLeaf | DescriptionLeaf | MtuLeaf | SpeedLeaf | IdLeaf | LineNameLeaf | LineChannelLeaf
    | GridLeaf | ChannelLeaf | LosiLeaf | PrbsLeaf | ModulationLeaf | BerLeaf | EnabledLeaf | OversubscriptionLeaf
    | NumChannelsLeaf | ChannelSpeedLeaf

  datatype Value = Text(text: string) | Number(n: nat) | Truth(b: bool) | GridOf(grid: Grid) | ModulationOf(m: Modulation) | SpeedOf(speed: Speed)

  function TextOf(t: Option<string>): Option<Value> {
    if t.Some? then Some(Text(t.value)) else None
  }

  function NumberOf(n: Option<nat>): Option<Value> {
    if n.Some? then Some(Number(n.value)) else None
  }

  function TruthOf(b: Option<bool>): Option<Value> {
    if b.Some? then Some(Truth(b.value)) else None
  }

  function SpeedValue(s: Speed): Option<Value> {
    if s.SpeedUnset? then None else Some(SpeedOf(s))
  }

  function PortLeaf(name: string, p: Port, l: Leaf): Option<Value> {
    match l
    case NameLeaf => Some(Text(name))
    case DescriptionLeaf => TextOf(p.description)
    case NumChannelsLeaf => Some(Number(p.numChannels))
    case ChannelSpeedLeaf => SpeedValue(p.channelSpeed)
    case _ => None
  }

  function InterfaceLeaf(name: string, i: Interface, l: Leaf): Option<Value> {
    match l
    case NameLeaf => Some(Text(name))
    case MtuLeaf => Some(Number(i.mtu))
    case DescriptionLeaf => TextOf(i.description)
    case SpeedLeaf => SpeedValue(i.speed)
    case IdLeaf => NumberOf(IdOf(i))
    case LineNameLeaf => TextOf(LineOf(i).name)
    case LineChannelLeaf => TextOf(LineOf(i).channel)
    case _ => None
  }

  function ModuleLeaf(name: string, m: OpticalModule, l: Leaf): Option<Value> {
    match l
    case NameLeaf => Some(Text(name))
    case DescriptionLeaf => TextOf(m.description)
    case GridLeaf => if m.grid == GridUnset then None else Some(GridOf(m.grid))
    case ChannelLeaf => NumberOf(m.channel)
    case LosiLeaf => TruthOf(m.losi)
    case PrbsLeaf => TruthOf(m.prbs)
    case ModulationLeaf => if m.modulation == ModulationUnset then None else Some(ModulationOf(m.modulation))
    case BerLeaf => NumberOf(m.berInterval)
    case EnabledLeaf => TruthOf(m.enabled)
    case OversubscriptionLeaf => TruthOf(m.oversubscription)
    case _ => None
  }

  /** The value of a leaf of the configuration; None if it is not set. */
  function LeafAt(c: Config, t: Table, name: string, l: Leaf): Option<Value> {
    match t
    case Ports => if name in c.ports then PortLeaf(name, c.ports[name], l) else None
    case Interfaces => if name in c.interfaces then InterfaceLeaf(name, c.interfaces[name], l) else None
    case Modules => if name in c.modules then ModuleLeaf(name, c.modules[name], l) else None
    case Elsewhere => if name == "" && l == OversubscriptionLeaf then TruthOf(c.oversubscription) else None
  }

  // ---- ygot.Diff ----

  datatype Update = Update(table: Table, name: string, leaf: Leaf, value: Value)
  datatype Delete = Delete(table: Table, name: string, leaf: Leaf)
  datatype Diff = Diff(updates: seq<Update>, deletes: seq<Delete>)

  predicate Updated(a: Config, b: Config, t: Table, name: string, l: Leaf) {
    LeafAt(b, t, name, l).Some? && LeafAt(a, t, name, l) != LeafAt(b, t, name, l)
  }

  predicate Deleted(a: Config, b: Config, t: Table, name: string, l: Leaf) {
    LeafAt(a, t, name, l).Some? && LeafAt(b, t, name, l).None?
  }

  /** The updates are the leaves that are set and differ, the deletes those no longer set; in any order. */
  ghost predicate IsDiff(a: Config, b: Config, d: Diff) {
    && (forall t, name, l, v :: Update(t, name, l, v) in d.updates <==> Updated(a, b, t, name, l) && LeafAt(b, t, name, l) == Some(v))
    && (forall t, name, l :: Delete(t, name, l) in d.deletes <==> Deleted(a, b, t, name, l))
  }

  const LEAVES: set<Leaf> := {
    NameLeaf, DescriptionLeaf, MtuLeaf, SpeedLeaf, IdLeaf, LineNameLeaf, LineChannelLeaf,
    GridLeaf, ChannelLeaf, LosiLeaf, PrbsLeaf, ModulationLeaf, BerLeaf, EnabledLeaf, OversubscriptionLeaf,
    NumChannelsLeaf, ChannelSpeedLeaf}

  function NamesIn(c: Config, t: Table): set<string> {
    match t
    case Ports => c.ports.Keys
    case Interfaces => c.interfaces.Keys
    case Modules => c.modules.Keys
    case Elsewhere => {""}
  }

  /** Where leaves of one of the configurations may be. */
  function Places(a: Config, b: Config): set<(Table, string, Leaf)> {
    set t, name, l | t in {Ports, Interfaces, Modules, Elsewhere} && name in NamesIn(a, t) + NamesIn(b, t) && l in LEAVES :: (t, name, l)
  }

  lemma {:induction false} LeavesAreInPlaces(a: Config, b: Config, t: Table, name: string, l: Leaf)
    requires LeafAt(a, t, name, l).Some? || LeafAt(b, t, name, l).Some?
    ensures (t, name, l) in Places(a, b)
  {
    hide PortLeaf, InterfaceLeaf, ModuleLeaf;
    assert t in {Ports, Interfaces, Modules, Elsewhere} && l in LEAVES;
    assert name in NamesIn(a, t) + NamesIn(b, t);
  }

  /** ygot.Diff: every leaf of the two configurations is compared, in any order. */
  method ComputeDiff(a: Config, b: Config) returns (d: Diff)
    ensures IsDiff(a, b, d)
  {
    hide LeafAt, Places;
    var updates: seq<Update>, deletes: seq<Delete> := [], [];
    var places := Places(a, b);
    var rest := places;
    while rest != {}
      invariant rest <= places
      invariant forall t, name, l, v :: Update(t, name, l, v) in updates <==>
        (t, name, l) in places - rest && Updated(a, b, t, name, l) && LeafAt(b, t, name, l) == Some(v)
      invariant forall t, name, l :: Delete(t, name, l) in deletes <==> (t, name, l) in places - rest && Deleted(a, b, t, name, l)
      decreases |rest|
    {
      var p :| p in rest;
      var (t, name, l) := p;
      if Updated(a, b, t, name, l) {
        updates := updates + [Update(t, name, l, LeafAt(b, t, name, l).value)];
      } else if Deleted(a, b, t, name, l) {
        deletes := deletes + [Delete(t, name, l)];
      }
      rest := rest - {p};
    }
    d := Diff(updates, deletes);
    forall t, name, l | LeafAt(a, t, name, l).Some? || LeafAt(b, t, name, l).Some? ensures (t, name, l) in places {
      LeavesAreInPlaces(a, b, t, name, l);
    }
  }

  // ---- Tasks ----

  datatype Task = Task(deleted: bool, leaf: Leaf, value: Option<Value>)

  type TaskMap = map<string, seq<Task>>

  function UpdateTasks(us: seq<Update>, t: Table, name: string): seq<Task> {
    if us == [] then []
    else
      var u := us[|us| - 1];
      UpdateTasks(us[..|us| - 1], t, name) + if u.table == t && u.name == name then [Task(false, u.leaf, Some(u.value))] else []
  }

  function DeleteTasks(ds: seq<Delete>, t: Table, name: string): seq<Task> {
    if ds == [] then []
    else
      var x := ds[|ds| - 1];
      DeleteTasks(ds[..|ds| - 1], t, name) + if x.table == t && x.name == name then [Task(true, x.leaf, None)] else []
  }

  /** The tasks for one name: its updates, then its deletes, each in the order of the difference. */
  function TasksOf(d: Diff, t: Table, name: string): seq<Task> {
    UpdateTasks(d.updates, t, name) + DeleteTasks(d.deletes, t, name)
  }

  /** A task map holds exactly the names that have tasks. */
  ghost predicate Grouped(m: TaskMap, t: Table, us: seq<Update>, ds: seq<Delete>) {
    forall name :: (name in m <==> TasksOf(Diff(us, ds), t, name) != []) && (name in m ==> m[name] == TasksOf(Diff(us, ds), t, name))
  }

  function AddTask(m: TaskMap, name: string, task: Task): TaskMap {
    m[name := (if name in m then m[name] else []) + [task]]
  }

  lemma {:induction false} OneUpdate(m: TaskMap, t: Table, us: seq<Update>, i: nat)
    requires i < |us| && Grouped(m, t, us[..i], [])
    ensures Grouped(if us[i].table == t then AddTask(m, us[i].name, Task(false, us[i].leaf, Some(us[i].value))) else m, t, us[..i + 1], [])
  {
    assert us[..i + 1][..i] == us[..i];
  }

  lemma {:induction false} OneDelete(m: TaskMap, t: Table, us: seq<Update>, ds: seq<Delete>, i: nat)
    requires i < |ds| && Grouped(m, t, us, ds[..i])
    ensures Grouped(if ds[i].table == t then AddTask(m, ds[i].name, Task(true, ds[i].leaf, None)) else m, t, us, ds[..i + 1])
  {
    hide UpdateTasks, DeleteTasks;
    forall name ensures DeleteTasks(ds[..i + 1], t, name) ==
      DeleteTasks(ds[..i], t, name) + if ds[i].table == t && ds[i].name == name then [Task(true, ds[i].leaf, None)] else [] {
      LastDelete(ds, i, t, name);
    }
  }

  lemma {:induction false} LastDelete(ds: seq<Delete>, i: nat, t: Table, name: string)
    requires i < |ds|
    ensures DeleteTasks(ds[..i + 1], t, name) ==
      DeleteTasks(ds[..i], t, name) + if ds[i].table == t && ds[i].name == name then [Task(true, ds[i].leaf, None)] else []
  {
    assert ds[..i + 1][..i] == ds[..i];
  }

  /** The two loops of handleDiff that group the difference. */
  method GroupTasks(d: Diff) returns (opt: TaskMap, intf: TaskMap, port: TaskMap)
    ensures Grouped(opt, Modules, d.updates, d.deletes)
    ensures Grouped(intf, Interfaces, d.updates, d.deletes)
    ensures Grouped(port, Ports, d.updates, d.deletes)
  {
    hide Grouped, AddTask;
    opt, intf, port := map[], map[], map[];
    NothingGrouped();
    for i: nat := 0 to |d.updates|
      invariant Grouped(opt, Modules, d.updates[..i], [])
      invariant Grouped(intf, Interfaces, d.updates[..i], [])
      invariant Grouped(port, Ports, d.updates[..i], [])
    {
      var u := d.updates[i];
      OneUpdate(opt, Modules, d.updates, i);
      OneUpdate(intf, Interfaces, d.updates, i);
      OneUpdate(port, Ports, d.updates, i);
      var task := Task(false, u.leaf, Some(u.value));
      match u.table {
        case Modules => opt := AddTask(opt, u.name, task);
        case Interfaces => intf := AddTask(intf, u.name, task);
        case Ports => port := AddTask(port, u.name, task);
        case Elsewhere =>
      }
    }
    assert d.updates[..|d.updates|] == d.updates && d.deletes[..0] == [];
    for i: nat := 0 to |d.deletes|
      invariant Grouped(opt, Modules, d.updates, d.deletes[..i])
      invariant Grouped(intf, Interfaces, d.updates, d.deletes[..i])
      invariant Grouped(port, Ports, d.updates, d.deletes[..i])
    {
      var x := d.deletes[i];
      OneDelete(opt, Modules, d.updates, d.deletes, i);
      OneDelete(intf, Interfaces, d.updates, d.deletes, i);
      OneDelete(port, Ports, d.updates, d.deletes, i);
      var task := Task(true, x.leaf, None);
      match x.table {
        case Modules => opt := AddTask(opt, x.name, task);
        case Interfaces => intf := AddTask(intf, x.name, task);
        case Ports => port := AddTask(port, x.name, task);
        case Elsewhere =>
      }
    }
    assert d.deletes[..|d.deletes|] == d.deletes;
  }

  lemma {:induction false} NothingGrouped()
    ensures forall t, us: seq<Update> :: us[..0] == [] && Grouped(map[], t, [], [])
  {
  }

  // ---- What tasks say ----

  lemma {:induction false} UpdateTask(us: seq<Update>, t: Table, name: string, x: Task)
    ensures x in UpdateTasks(us, t, name) <==> !x.deleted && x.value.Some? && Update(t, name, x.leaf, x.value.value) in us
  {
    if us != [] {
      UpdateTask(us[..|us| - 1], t, name, x);
      assert us == us[..|us| - 1] + [us[|us| - 1]];
    }
  }

  lemma {:induction false} DeleteTask(ds: seq<Delete>, t: Table, name: string, x: Task)
    ensures x in DeleteTasks(ds, t, name) <==> x.deleted && x.value.None? && Delete(t, name, x.leaf) in ds
  {
    if ds != [] {
      DeleteTask(ds[..|ds| - 1], t, name, x);
      assert ds == ds[..|ds| - 1] + [ds[|ds| - 1]];
    }
  }

  /** The tasks of a name are the changes of its leaves, and nothing else. */
  lemma {:induction false} TaskIsChange(a: Config, b: Config, d: Diff, t: Table, name: string, x: Task)
    requires IsDiff(a, b, d)
    ensures x in TasksOf(d, t, name) <==>
      if x.deleted then x.value.None? && Deleted(a, b, t, name, x.leaf)
      else Updated(a, b, t, name, x.leaf) && x.value == LeafAt(b, t, name, x.leaf)
  {
    hide LeafAt;
    UpdateTask(d.updates, t, name, x);
    DeleteTask(d.deletes, t, name, x);
    if x.value.Some? {
      assert Update(t, name, x.leaf, x.value.value) in d.updates <==> Updated(a, b, t, name, x.leaf) && LeafAt(b, t, name, x.leaf) == x.value;
    }
  }

  /** A name has tasks exactly if one of its leaves changed. */
  lemma {:induction false} HasTasks(a: Config, b: Config, d: Diff, t: Table, name: string)
    requires IsDiff(a, b, d)
    ensures TasksOf(d, t, name) != [] <==> exists l :: Updated(a, b, t, name, l) || Deleted(a, b, t, name, l)
  {
    hide LeafAt, IsDiff, TasksOf;
    if TasksOf(d, t, name) != [] {
      var x := TasksOf(d, t, name)[0];
      TaskIsChange(a, b, d, t, name, x);
    }
    if l :| Updated(a, b, t, name, l) || Deleted(a, b, t, name, l) {
      var x := if Updated(a, b, t, name, l) then Task(false, l, LeafAt(b, t, name, l)) else Task(true, l, None);
      TaskIsChange(a, b, d, t, name, x);
    }
  }
}
