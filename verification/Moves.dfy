/** What handling one interface amounts to, told from the two configurations alone. */
module Moves {
  import opened Wrappers
  import opened Names
  import T = Text
  import opened Transponder
  import opened Validation
  import opened Redis
  import opened Rebuild
  import opened Wiring
  import opened Changes
  import opened Handlers

  // ---- What the incremental path relies on ----

  predicate PlainConnection(x: Connection) {
    && Complete(x) && x.id.value > 0
    && OptEthernetName(x.line).Ok? && OptEthernetName(x.line).value in LinePortNames(LAST_LINE_PORT)
  }

  predicate PlainInterface(k: string, i: Interface) {
    && T.HasPrefix(k, "Ethernet") && ',' !in k && k !in LinePortNames(LAST_LINE_PORT)
    && i.speed != SpeedUnset
    && (i.connection.Some? ==> PlainConnection(i.connection.value))
  }

  /** Ids are unique, far ends are ports 17 to 32, and no interface is one of these. */
  ghost predicate Plain(c: Config) {
    IdsUnique(c) && forall k :: k in c.interfaces ==> PlainInterface(k, c.interfaces[k])
  }

  lemma {:induction false} SoundIsPlain(c: Config)
    requires Wired(c) && Accepts(c)
    ensures Plain(c)
  {
    hide Wired, LinePortNames, ParseInterfaceName, OptEthernetName, InterfaceName;
    forall k | k in c.interfaces ensures PlainInterface(k, c.interfaces[k]) {
      var n, s := WiredName(c, k);
      ClientsApart(c, k);
      ParsedIsPlain(k);
      ParsedPrefix(k);
      SpeedIsSet(c, k);
      if c.interfaces[k].connection.Some? {
        var i := WiredEnd(c, k);
        IdInRange(c, k);
      }
    }
  }

  lemma {:induction false} ParsedPrefix(k: string)
    requires ParseInterfaceName(k).Ok?
    ensures T.HasPrefix(k, "Ethernet")
  {
  }

  lemma {:induction false} SpeedIsSet(c: Config, k: string)
    requires Wired(c) && ModesAllowed(c) && k in c.interfaces
    ensures c.interfaces[k].speed != SpeedUnset
  {
    hide PortNames, ModuleNames, PortName, IndicesOf;
    assert Owned(c, k);
    assert ModeAllowed(c.ports[PortName(IndicesOf(k).value.0)]);
  }

  lemma {:induction false} IdInRange(c: Config, k: string)
    requires Wired(c) && k in c.interfaces && c.interfaces[k].connection.Some? && c.interfaces[k].connection.value.id.Some?
    ensures c.interfaces[k].connection.value.id.value >= 100
  {
    hide PortNames, ModuleNames, PortName, IndicesOf;
  }

  // ---- The move of an interface ----

  function ConnectionAt(c: Config, k: string): Option<Connection> {
    if k in c.interfaces then c.interfaces[k].connection else None
  }

  function IdAt(c: Config, k: string): Option<nat> {
    if ConnectionAt(c, k).Some? then ConnectionAt(c, k).value.id else None
  }

  /** The interface loses its description: with a connection this is the only leaf it can lose. */
  predicate DescriptionGone(a: Config, b: Config, k: string) {
    k in a.interfaces && k in b.interfaces && a.interfaces[k].description.Some? && b.interfaces[k].description.None?
  }

  datatype Move = Stay | Drop(gone: Option<nat>) | Go(from: (Option<nat>, Option<string>), v: nat, end: Option<string>, ether: bool)

  function MoveOf(a: Config, b: Config, k: string): Move {
    if IdAt(b, k).None? then Stay
    else if DescriptionGone(a, b, k) then Drop(IdAt(a, k))
    else if ConnectionAt(a, k) == ConnectionAt(b, k) then Stay
    else Go((IdAt(a, k), FarEndOf(a, k)), IdAt(b, k).value, FarEndOf(b, k), IdAt(a, k) != IdAt(b, k))
  }

  function Apply(db: Db, k: string, m: Move): Outcome {
    match m
    case Stay => Outcome(db, None)
    case Drop(gone) => Outcome(DropVlan(db, gone), None)
    case Go(from, v, end, ether) => Moved(db, k, from, v, end, ether)
  }

  lemma {:induction false} DeleteTasksTell(a: Config, b: Config, d: Diff, k: string)
    requires IsDiff(a, b, d)
    ensures HasDelete(TasksOf(d, Interfaces, k)) <==> exists l :: Deleted(a, b, Interfaces, k, l)
  {
    hide LeafAt, IsDiff, TasksOf;
    var tasks := TasksOf(d, Interfaces, k);
    if HasDelete(tasks) {
      var i :| 0 <= i < |tasks| && tasks[i].deleted;
      TaskIsChange(a, b, d, Interfaces, k, tasks[i]);
    }
    if l :| Deleted(a, b, Interfaces, k, l) {
      TaskIsChange(a, b, d, Interfaces, k, Task(true, l, None));
      var i :| 0 <= i < |tasks| && tasks[i] == Task(true, l, None);
    }
  }

  lemma {:induction false} UpdateTasksTell(a: Config, b: Config, d: Diff, k: string, leaves: set<Leaf>)
    requires IsDiff(a, b, d) && !HasDelete(TasksOf(d, Interfaces, k))
    ensures Mentions(TasksOf(d, Interfaces, k), leaves) <==> exists l :: l in leaves && Updated(a, b, Interfaces, k, l)
  {
    hide LeafAt, IsDiff, TasksOf;
    var tasks := TasksOf(d, Interfaces, k);
    if Mentions(tasks, leaves) {
      var i :| 0 <= i < |tasks| && tasks[i].leaf in leaves;
      TaskIsChange(a, b, d, Interfaces, k, tasks[i]);
    }
    if l :| l in leaves && Updated(a, b, Interfaces, k, l) {
      var x := Task(false, l, LeafAt(b, Interfaces, k, l));
      TaskIsChange(a, b, d, Interfaces, k, x);
      var i :| 0 <= i < |tasks| && tasks[i] == x;
    }
  }

  lemma {:induction false} DeletedLeaves(a: Config, b: Config, k: string)
    requires Plain(a) && Plain(b) && ConnectionAt(b, k).Some?
    ensures (exists l :: Deleted(a, b, Interfaces, k, l)) <==> DescriptionGone(a, b, k)
  {
    hide IdsUnique, LinePortNames, OptEthernetName;
    assert PlainInterface(k, b.interfaces[k]);
    if DescriptionGone(a, b, k) {
      assert Deleted(a, b, Interfaces, k, DescriptionLeaf);
    }
    if l :| Deleted(a, b, Interfaces, k, l) {
      assert l == DescriptionLeaf;
    }
  }

  lemma {:induction false} UpdatedLeaves(a: Config, b: Config, k: string)
    requires Plain(a) && Plain(b) && ConnectionAt(b, k).Some?
    ensures (exists l :: l in {IdLeaf} && Updated(a, b, Interfaces, k, l)) <==> IdAt(a, k) != IdAt(b, k)
    ensures (exists l :: l in END_LEAVES && Updated(a, b, Interfaces, k, l)) <==> ConnectionAt(a, k) != ConnectionAt(b, k)
  {
    hide IdsUnique, LinePortNames, OptEthernetName, Updated;
    assert PlainInterface(k, b.interfaces[k]);
    if k in a.interfaces {
      assert PlainInterface(k, a.interfaces[k]);
    }
    LeafChanged(a, b, k);
    assert IdLeaf in {IdLeaf};
    assert IdLeaf in END_LEAVES && LineNameLeaf in END_LEAVES && LineChannelLeaf in END_LEAVES;
    if ConnectionAt(a, k) != ConnectionAt(b, k) {
      assert Updated(a, b, Interfaces, k, IdLeaf) || Updated(a, b, Interfaces, k, LineNameLeaf) || Updated(a, b, Interfaces, k, LineChannelLeaf);
    }
  }

  function LineAt(c: Config, k: string): Endpoint {
    if k in c.interfaces then LineOf(c.interfaces[k]) else Endpoint(None, None)
  }

  lemma {:induction false} LeafChanged(a: Config, b: Config, k: string)
    requires ConnectionAt(b, k).Some? && Complete(ConnectionAt(b, k).value)
    ensures Updated(a, b, Interfaces, k, IdLeaf) <==> IdAt(a, k) != IdAt(b, k)
    ensures Updated(a, b, Interfaces, k, LineNameLeaf) <==> LineAt(a, k).name != LineAt(b, k).name
    ensures Updated(a, b, Interfaces, k, LineChannelLeaf) <==> LineAt(a, k).channel != LineAt(b, k).channel
  {
  }

  /** Whatever the order of its tasks, handling an interface is its move. */
  lemma {:induction false} HandleIsMove(db: Db, a: Config, b: Config, d: Diff, k: string)
    requires IsDiff(a, b, d) && Plain(a) && Plain(b) && HasWork(d, Interfaces, k)
    ensures HandleInterface(db, b, a, k, TasksOf(d, Interfaces, k)) == Apply(db, k, MoveOf(a, b, k))
  {
    hide IsDiff, TasksOf, IdsUnique, LinePortNames, OptEthernetName, Moved, DropVlan, HasDelete, Mentions;
    KnownName(a, b, d, k);
    if ConnectionAt(b, k).Some? {
      assert PlainInterface(k, b.interfaces[k]);
      if k in a.interfaces {
        assert PlainInterface(k, a.interfaces[k]);
      }
      DeleteTasksTell(a, b, d, k);
      DeletedLeaves(a, b, k);
      if !HasDelete(TasksOf(d, Interfaces, k)) {
        UpdateTasksTell(a, b, d, k, {IdLeaf});
        UpdateTasksTell(a, b, d, k, END_LEAVES);
        UpdatedLeaves(a, b, k);
      }
      EndNames(a, k);
      EndNames(b, k);
    }
  }

  lemma {:induction false} KnownName(a: Config, b: Config, d: Diff, k: string)
    requires IsDiff(a, b, d) && Plain(a) && Plain(b) && HasWork(d, Interfaces, k)
    ensures T.HasPrefix(k, "Ethernet") && ',' !in k && (k in a.interfaces || k in b.interfaces)
  {
    hide IsDiff, TasksOf, IdsUnique, LinePortNames;
    HasTasks(a, b, d, Interfaces, k);
    assert k in a.interfaces ==> PlainInterface(k, a.interfaces[k]);
    assert k in b.interfaces ==> PlainInterface(k, b.interfaces[k]);
  }

  lemma {:induction false} EndNames(c: Config, k: string)
    requires Plain(c)
    ensures Former(c, k) == Ok((IdAt(c, k), FarEndOf(c, k)))
    ensures ConnectionAt(c, k).Some? ==> EndName(ConnectionAt(c, k).value.line) == Ok(FarEndOf(c, k)) && FarEndOf(c, k).Some? && IdAt(c, k).Some?
  {
    hide IdsUnique, LinePortNames, OptEthernetName;
    if k in c.interfaces {
      assert PlainInterface(k, c.interfaces[k]);
    }
  }

  /** An interface without work does not move. */
  lemma {:induction false} NoWorkNoMove(a: Config, b: Config, d: Diff, k: string)
    requires IsDiff(a, b, d) && Plain(a) && Plain(b) && !HasWork(d, Interfaces, k)
    ensures ConnectionAt(a, k) == ConnectionAt(b, k) && MoveOf(a, b, k) == Stay
  {
    hide IsDiff, TasksOf, IdsUnique, LinePortNames, OptEthernetName, Updated, Deleted, FarEndOf;
    HasTasks(a, b, d, Interfaces, k);
    if ConnectionAt(b, k).Some? {
      DeletedLeaves(a, b, k);
      UpdatedLeaves(a, b, k);
    } else if ConnectionAt(a, k).Some? {
      assert PlainInterface(k, a.interfaces[k]);
      IdDeleted(a, b, k);
    }
  }

  lemma {:induction false} IdDeleted(a: Config, b: Config, k: string)
    requires IdAt(a, k).Some? && IdAt(b, k).None?
    ensures Deleted(a, b, Interfaces, k, IdLeaf)
  {
  }
}
