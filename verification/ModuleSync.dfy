/** The incremental module configuration equals the full one, unless a leaf it handles is deleted. */
module ModuleSync {
  import opened Wrappers
  import T = Text
  import opened Transponder
  import opened Validation
  import opened RedisCodec
  import opened Database
  import opened Changes
  import opened Handlers

  /** The column a handled leaf is stored in. */
  function ColumnOf(l: Leaf): Column {
    match l
    case GridLeaf => GridColumn
    case ChannelLeaf => ChannelColumn
    case BerLeaf => BerColumn
    case PrbsLeaf => PrbsColumn
    case LosiLeaf => LosiColumn
    case EnabledLeaf => EnabledColumn
    case ModulationLeaf => ModulationColumn
    case _ => IndexColumn
  }

  /** The text of a leaf's value in the row. */
  function TextFor(v: Value): string {
    match v
    case Text(text) => text
    case Number(n) => T.Print(n)
    case Truth(b) => OnOff(b)
    case GridOf(g) => T.Print(GridTypeToInt(g))
    case ModulationOf(m) => ModulationText(m)
    case SpeedOf(_) => ""
  }

  function DefaultFor(l: Leaf): Value {
    match l
    case GridLeaf => GridOf(Grid50GHz)
    case ChannelLeaf => Number(1)
    case BerLeaf => Number(100)
    case PrbsLeaf => Truth(false)
    case LosiLeaf => Truth(false)
    case EnabledLeaf => Truth(true)
    case ModulationLeaf => ModulationOf(Dp16Qam)
    case _ => Text("")
  }

  /** The text a full configuration stores in a column of a module. */
  function FullText(name: string, m: OpticalModule, l: Leaf): string {
    TextFor(if ModuleLeaf(name, m, l).Some? then ModuleLeaf(name, m, l).value else DefaultFor(l))
  }

  lemma {:induction false} RowText(name: string, m: OpticalModule, l: Leaf)
    requires ModuleIndex(name).Some? && l in HANDLED
    ensures ColumnName(ColumnOf(l)) in RowOf(name, m) && RowOf(name, m)[ColumnName(ColumnOf(l))] == Scalar(FullText(name, m, l))
  {
    hide ColumnName, ModuleRow;
    DefaultsFill(m, None);
    RowColumns(ModuleIndex(name).value, WithDefaults(m, None), ColumnOf(l));
  }

  lemma {:induction false} IndexText(name: string, m: OpticalModule)
    requires ModuleIndex(name).Some?
    ensures ColumnName(IndexColumn) in RowOf(name, m)
    ensures RowOf(name, m)[ColumnName(IndexColumn)] == Scalar(T.PrintInt(ModuleIndex(name).value))
    ensures forall f :: f in RowOf(name, m) ==> exists d :: f == ColumnName(d)
  {
    hide ColumnName, ModuleRow;
    DefaultsFill(m, None);
    RowColumns(ModuleIndex(name).value, WithDefaults(m, None), IndexColumn);
  }

  lemma {:induction false} EveryColumn(d: Column) returns (l: Leaf)
    ensures d == IndexColumn || (l in HANDLED && ColumnOf(l) == d)
  {
    l := match d
      case GridColumn => GridLeaf
      case ChannelColumn => ChannelLeaf
      case BerColumn => BerLeaf
      case PrbsColumn => PrbsLeaf
      case LosiColumn => LosiLeaf
      case EnabledColumn => EnabledLeaf
      case ModulationColumn => ModulationLeaf
      case IndexColumn => NameLeaf;
  }

  lemma {:induction false} LeafColumns(l: Leaf, k: Leaf)
    requires l in HANDLED && k in HANDLED && ColumnName(ColumnOf(l)) == ColumnName(ColumnOf(k))
    ensures l == k
  {
    ColumnsApart(ColumnOf(l), ColumnOf(k));
  }

  // ---- The tasks of a module ----

  /** A delete, or an update with the new value of a leaf. */
  predicate TaskFor(x: Task, name: string, m: OpticalModule) {
    if x.deleted then x.value.None? else x.value.Some? && x.value == ModuleLeaf(name, m, x.leaf)
  }

  predicate TasksFor(tasks: seq<Task>, name: string, m: OpticalModule) {
    forall i :: 0 <= i < |tasks| ==> TaskFor(tasks[i], name, m)
  }

  /** One task: a deleted handled leaf has no value to read, an updated one is stored as the full configuration stores it. */
  lemma {:induction false} OneTask(e: Entry, x: Task, name: string, m: OpticalModule)
    requires TaskFor(x, name, m)
    ensures OptTask(e, x).Err? <==> x.leaf in HANDLED && x.deleted
    ensures !x.deleted && x.leaf in HANDLED ==>
      OptTask(e, x) == Ok(e[ColumnName(ColumnOf(x.leaf)) := Scalar(FullText(name, m, x.leaf))])
    ensures x.leaf !in HANDLED ==> OptTask(e, x) == Ok(e)
  {
    hide ColumnName;
  }

  predicate Touched(tasks: seq<Task>, l: Leaf) {
    l in HANDLED && exists i :: 0 <= i < |tasks| && tasks[i].leaf == l
  }

  predicate LosesHandled(tasks: seq<Task>) {
    exists i :: 0 <= i < |tasks| && tasks[i].deleted && tasks[i].leaf in HANDLED
  }

  /** The entry holds exactly the touched leaves, as the full configuration stores them. */
  ghost predicate EntryFor(e: Entry, tasks: seq<Task>, name: string, m: OpticalModule) {
    && (forall f :: f in e ==> exists l :: Touched(tasks, l) && f == ColumnName(ColumnOf(l)))
    && (forall l :: Touched(tasks, l) ==> ColumnName(ColumnOf(l)) in e && e[ColumnName(ColumnOf(l))] == Scalar(FullText(name, m, l)))
  }

  lemma {:induction false} AllTasks(tasks: seq<Task>, name: string, m: OpticalModule)
    requires TasksFor(tasks, name, m)
    ensures OptEntry(tasks).Err? <==> LosesHandled(tasks)
    ensures OptEntry(tasks).Ok? ==> EntryFor(OptEntry(tasks).value, tasks, name, m)
    decreases |tasks|
  {
    hide ColumnName, ColumnOf, FullText, OptTask, TaskFor;
    if tasks != [] {
      var less, x := tasks[..|tasks| - 1], tasks[|tasks| - 1];
      AllTasks(less, name, m);
      SplitTasks(tasks);
      if OptEntry(less).Ok? {
        var e := OptEntry(less).value;
        OneTask(e, x, name, m);
        if OptTask(e, x).Ok? {
          EntryGrows(e, less, x, tasks, name, m);
        }
      }
    }
  }

  lemma {:induction false} SplitTasks(tasks: seq<Task>)
    requires tasks != []
    ensures LosesHandled(tasks) <==> LosesHandled(tasks[..|tasks| - 1]) || (tasks[|tasks| - 1].deleted && tasks[|tasks| - 1].leaf in HANDLED)
    ensures forall l :: Touched(tasks, l) <==> Touched(tasks[..|tasks| - 1], l) || (l in HANDLED && tasks[|tasks| - 1].leaf == l)
  {
    var less := tasks[..|tasks| - 1];
    assert forall i :: 0 <= i < |less| ==> less[i] == tasks[i];
    forall l ensures Touched(tasks, l) <==> Touched(less, l) || (l in HANDLED && tasks[|tasks| - 1].leaf == l) {
      if Touched(less, l) {
        var i :| 0 <= i < |less| && less[i].leaf == l;
        assert tasks[i].leaf == l;
      }
    }
    if LosesHandled(less) {
      var i :| 0 <= i < |less| && less[i].deleted && less[i].leaf in HANDLED;
      assert tasks[i].deleted;
    }
  }

  lemma {:induction false} EntryGrows(e: Entry, less: seq<Task>, x: Task, tasks: seq<Task>, name: string, m: OpticalModule)
    requires EntryFor(e, less, name, m) && OptTask(e, x).Ok? && TaskFor(x, name, m)
    requires forall l :: Touched(tasks, l) <==> Touched(less, l) || (l in HANDLED && x.leaf == l)
    ensures EntryFor(OptTask(e, x).value, tasks, name, m)
  {
    hide ColumnName, ColumnOf, FullText, OptTask, TaskFor, Touched;
    OneTask(e, x, name, m);
    TouchedHandled(less);
    if x.leaf in HANDLED {
      var column := ColumnName(ColumnOf(x.leaf));
      var e' := e[column := Scalar(FullText(name, m, x.leaf))];
      assert OptTask(e, x) == Ok(e');
      forall f | f in e' ensures exists l :: Touched(tasks, l) && f == ColumnName(ColumnOf(l)) {
        if f == column {
          assert Touched(tasks, x.leaf);
        } else {
          var l :| Touched(less, l) && f == ColumnName(ColumnOf(l));
          assert Touched(tasks, l);
        }
      }
      forall l | Touched(tasks, l) ensures ColumnName(ColumnOf(l)) in e' && e'[ColumnName(ColumnOf(l))] == Scalar(FullText(name, m, l)) {
        if l != x.leaf && ColumnName(ColumnOf(l)) == column {
          LeafColumns(l, x.leaf);
        }
      }
    }
  }

  lemma {:induction false} TouchedHandled(tasks: seq<Task>)
    ensures forall l :: Touched(tasks, l) ==> l in HANDLED
  {
  }

  // ---- Overlay is the full row ----

  /**
   For a module whose tasks lose no handled leaf, laying the entry over the old full row gives the new full row: the
   columns it does not touch are those of leaves that did not change, defaults included.
   */
  lemma {:induction false} OverlayIsFull(name: string, m: OpticalModule, n: OpticalModule, tasks: seq<Task>)
    requires ModuleIndex(name).Some? && TasksFor(tasks, name, n) && !LosesHandled(tasks)
    requires forall l :: l in HANDLED && !Touched(tasks, l) ==> ModuleLeaf(name, m, l) == ModuleLeaf(name, n, l)
    ensures OptEntry(tasks).Ok? && RowOf(name, m) + OptEntry(tasks).value == RowOf(name, n)
  {
    hide ColumnName, ColumnOf, OptEntry, Touched, RowOf, ModuleIndex, TextFor, DefaultFor, ModuleLeaf, LosesHandled;
    AllTasks(tasks, name, n);
    var e := OptEntry(tasks).value;
    var row, full := RowOf(name, m), RowOf(name, n);
    IndexText(name, m);
    IndexText(name, n);
    TouchedHandled(tasks);
    forall d ensures ColumnName(d) in row + e && ColumnName(d) in full && (row + e)[ColumnName(d)] == full[ColumnName(d)] {
      var l := EveryColumn(d);
      if d == IndexColumn {
        NotIndex(e, tasks, name, n);
      } else {
        RowText(name, m, l);
        RowText(name, n, l);
        if !Touched(tasks, l) {
          NotTouched(e, tasks, name, n, l);
        }
      }
    }
    assert forall f :: f in row + e ==> exists d :: f == ColumnName(d);
    assert (row + e).Keys == full.Keys;
  }

  lemma {:induction false} NotIndex(e: Entry, tasks: seq<Task>, name: string, m: OpticalModule)
    requires EntryFor(e, tasks, name, m)
    ensures ColumnName(IndexColumn) !in e
  {
    hide ColumnName, FullText;
    if ColumnName(IndexColumn) in e {
      var l :| Touched(tasks, l) && ColumnName(IndexColumn) == ColumnName(ColumnOf(l));
      ColumnsApart(IndexColumn, ColumnOf(l));
    }
  }

  lemma {:induction false} NotTouched(e: Entry, tasks: seq<Task>, name: string, m: OpticalModule, l: Leaf)
    requires EntryFor(e, tasks, name, m) && l in HANDLED && !Touched(tasks, l)
    ensures ColumnName(ColumnOf(l)) !in e
  {
    hide ColumnName, FullText, ColumnOf;
    if ColumnName(ColumnOf(l)) in e {
      var k :| Touched(tasks, k) && ColumnName(ColumnOf(l)) == ColumnName(ColumnOf(k));
      LeafColumns(l, k);
    }
  }
}
