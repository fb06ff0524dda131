/**
 A gNMI Set request as a transaction (sections 3.4.3 to 3.4.6 of the gNMI specification): deletes, then replaces, then
 updates on a working tree, a device that is told after every effective operation and may refuse, and one final swap.
 */
module Transaction {
  import opened Wrappers
  import opened PathTree
  import opened JsonTree
  import opened JsonEdit

  /** A pb.Path. */
  datatype GnmiPath = GnmiPath(origin: string, elems: Path)

  const ROOT_PATH := GnmiPath("", [])

  /** gnmiFullPath: the prefix is only put before a path that has elements of its own. */
  function FullPath(prefix: GnmiPath, path: GnmiPath): GnmiPath {
    GnmiPath(path.origin, if path.elems == [] then [] else prefix.elems + path.elems)
  }

  /** The full path is prefix and path together exactly when the path is not empty or there is no prefix to lose; its origin is the path's. */
  lemma FullPathJoins(prefix: GnmiPath, path: GnmiPath)
    ensures FullPath(prefix, path).origin == path.origin
    ensures FullPath(prefix, path).elems == prefix.elems + path.elems <==> path.elems != [] || prefix.elems == []
  {
    if path.elems == [] {
      assert prefix.elems + path.elems == prefix.elems;
    }
  }

  datatype Operation =
    | DeletePath(path: GnmiPath)
    | SetValue(op: Op, path: GnmiPath, raw: string)

  datatype Request = Request(
    prefix: GnmiPath,
    deletes: seq<GnmiPath>,
    replacements: seq<(GnmiPath, string)>,
    updates: seq<(GnmiPath, string)>)
  {
    /** The operations in the order the server takes them. */
    function Operations(): seq<Operation> {
      seq(|deletes|, i requires 0 <= i < |deletes| => DeletePath(deletes[i]))
      + seq(|replacements|, i requires 0 <= i < |replacements| => SetValue(Replace, replacements[i].0, replacements[i].1))
      + seq(|updates|, i requires 0 <= i < |updates| => SetValue(Update, updates[i].0, updates[i].1))
    }
  }

  /**
   What the server knows of the data model: how numbers print, the schema, which trees make a valid configuration
   (NewConfigStruct), and how a value sent for a path is decoded (NewNode, Unmarshal, Validate, ToScalar).
   */
  datatype Model = Model(
    fmt: NumberFormat,
    schema: Schema,
    valid: Members -> bool,
    decode: (Path, string) -> Result<Json, Code>)

  /** A device's answer to a configuration: it takes it, or fails and is left with something. */
  datatype Reply = Takes | Fails(left: Members)

  /** The device decides by all configurations it was sent before and the one it is sent now. */
  type Behaviour = (seq<Members>, Members) -> Reply

  /** The state of a Set in progress: the working tree, what the device holds, and all it was sent. */
  datatype World = World(tree: Members, held: Members, sent: seq<Members>)

  /** Why a Set fails: an operation is refused, or the device refused one and the old config was restored, or not even that. */
  datatype Failure = Refused(code: Code) | RolledBack | RollbackFailed

  function StatusOf(f: Failure): Code {
    match f
    case Refused(code) => code
    case RolledBack => Aborted
    case RollbackFailed => Internal
  }

  function Tell(device: Behaviour, w: World, c: Members): (World, bool) {
    match device(w.sent, c)
    case Takes => (w.(held := c, sent := w.sent + [c]), true)
    case Fails(left) => (w.(held := left, sent := w.sent + [c]), false)
  }

  /** Validates the working tree, sends it to the device if there is one, and sends the stored config again if that fails. */
  function Push(m: Model, device: Option<Behaviour>, config: Members, w: World): (World, Option<Failure>) {
    if !m.valid(w.tree) then (w, Some(Refused(Internal)))
    else if device.None? then (w, None)
    else
      var (w1, ok) := Tell(device.value, w, w.tree);
      if ok then (w1, None)
      else
        var (w2, restored) := Tell(device.value, w1, config);
        (w2, Some(if restored then RolledBack else RollbackFailed))
  }

  /** The tree edit of a delete, and whether it counts as done. */
  function DeleteFrom(m: Model, prefix: GnmiPath, path: GnmiPath, tree: Members): (Members, bool) {
    var full := FullPath(prefix, path);
    if full == ROOT_PATH then (map[], false)
    else if full.elems == [] then (tree, false)
    else DeleteAt(tree, m.schema, full.elems)
  }

  /** The tree edit of a replace or update with a decoded value. */
  function WriteInto(m: Model, op: Op, full: GnmiPath, val: Json, tree: Members): Result<Members, Code> {
    if full.elems != [] then SetAt(m.fmt, op, tree, m.schema, full.elems, val)
    else if full != ROOT_PATH then Ok(tree)
    else if op.Update? then Err(Unimplemented)
    else if !val.Object? then Err(InvalidArgument)
    else Ok(val.members)
  }

  /** The tree an operation makes of a tree; None if the operation is refused. */
  function EditTree(m: Model, prefix: GnmiPath, o: Operation, tree: Members): Result<Members, Code> {
    match o
    case DeletePath(path) => Ok(DeleteFrom(m, prefix, path, tree).0)
    case SetValue(op, path, raw) =>
      var full := FullPath(prefix, path);
      match m.decode(full.elems, raw)
      case Err(c) => Err(c)
      case Ok(val) => WriteInto(m, op, full, val, tree)
  }

  /** The device is told after every write and after every delete that counts as done. */
  function IsTold(m: Model, prefix: GnmiPath, o: Operation, tree: Members): bool {
    o.SetValue? || DeleteFrom(m, prefix, o.path, tree).1
  }

  /** doDelete and doReplaceOrUpdate. */
  function Perform(m: Model, device: Option<Behaviour>, config: Members, prefix: GnmiPath, o: Operation, w: World): (World, Option<Failure>) {
    match EditTree(m, prefix, o, w.tree)
    case Err(c) => (w, Some(Refused(c)))
    case Ok(tree) =>
      var w1 := w.(tree := tree);
      if IsTold(m, prefix, o, w.tree) then Push(m, device, config, w1) else (w1, None)
  }

  function PerformAll(m: Model, device: Option<Behaviour>, config: Members, prefix: GnmiPath, os: seq<Operation>, w: World): (World, Option<Failure>)
    decreases |os|
  {
    if os == [] then (w, None)
    else
      var (w1, f) := Perform(m, device, config, prefix, os[0], w);
      if f.Some? then (w1, f) else PerformAll(m, device, config, prefix, os[1..], w1)
  }

  /** The whole Set: the stored config afterwards, the device afterwards, and the failure if any. */
  function SetRequest(m: Model, device: Option<Behaviour>, config: Members, req: Request, held: Members, sent: seq<Members>): (Members, World, Option<Failure>) {
    var (w, f) := PerformAll(m, device, config, req.prefix, req.Operations(), World(config, held, sent));
    if f.Some? then (config, w, f)
    else if !m.valid(w.tree) then (config, w, Some(Refused(Internal)))
    else (w.tree, w, None)
  }

  // ---- The transaction ----

  /** The tree edits alone, one after the other. */
  function EditAll(m: Model, prefix: GnmiPath, os: seq<Operation>, tree: Members): Result<Members, Code>
    decreases |os|
  {
    if os == [] then Ok(tree)
    else match EditTree(m, prefix, os[0], tree)
      case Err(c) => Err(c)
      case Ok(t) => EditAll(m, prefix, os[1..], t)
  }

  lemma {:induction false} TreeIsEdited(m: Model, device: Option<Behaviour>, config: Members, prefix: GnmiPath, os: seq<Operation>, w: World)
    ensures var (w', f) := PerformAll(m, device, config, prefix, os, w);
      f == None ==> EditAll(m, prefix, os, w.tree) == Ok(w'.tree)
    decreases |os|
  {
    if os != [] {
      var (w1, f) := Perform(m, device, config, prefix, os[0], w);
      TreeIsEdited(m, device, config, prefix, os[1..], w1);
    }
  }

  /** On success the stored config is valid and is all deletes, then all replaces, then all updates made on the old one. */
  lemma {:induction false} SuccessStoresTheEdits(m: Model, device: Option<Behaviour>, config: Members, req: Request, held: Members, sent: seq<Members>)
    ensures var (config', _, f) := SetRequest(m, device, config, req, held, sent);
      f == None ==> m.valid(config') && EditAll(m, req.prefix, req.Operations(), config) == Ok(config')
    ensures var (config', _, f) := SetRequest(m, device, config, req, held, sent);
      f.Some? ==> config' == config
  {
    TreeIsEdited(m, device, config, req.prefix, req.Operations(), World(config, held, sent));
  }

  lemma {:induction false} EditAllConcat(m: Model, prefix: GnmiPath, a: seq<Operation>, b: seq<Operation>, tree: Members)
    ensures EditAll(m, prefix, a + b, tree) ==
      match EditAll(m, prefix, a, tree) case Err(c) => Err(c) case Ok(t) => EditAll(m, prefix, b, t)
    decreases |a|
  {
    if a == [] {
      assert a + b == b;
    } else {
      assert (a + b)[1..] == a[1..] + b;
      match EditTree(m, prefix, a[0], tree)
      case Err(_) =>
      case Ok(t) => EditAllConcat(m, prefix, a[1..], b, t);
    }
  }

  // ---- The device ----

  /** A delete that does not count as done has not changed the tree. */
  lemma {:induction false} UntoldDeleteChangesNothing(ms: Members, s: Schema, p: Path)
    requires p != [] && !DeleteAt(ms, s, p).1
    ensures DeleteAt(ms, s, p).0 == ms
    decreases |p|
  {
    var e := p[0];
    if |p| >= 2 && e.name in s.dir && e.name in ms {
      if e.keys == map[] {
        if ms[e.name].Object? {
          UntoldDeleteChangesNothing(ms[e.name].members, s.dir[e.name], p[1..]);
        }
      } else if ms[e.name].List? && Find(ms[e.name].entries, e.keys, 0).Found? {
        var es, i := ms[e.name].entries, Find(ms[e.name].entries, e.keys, 0).index;
        UntoldDeleteChangesNothing(es[i].members, s.dir[e.name], p[1..]);
        assert es[i := es[i]] == es;
        assert ms[e.name := List(es)] == ms;
      }
    }
  }

  /** Everything sent to the device is a valid config, if the stored one is. */
  ghost predicate OnlyValidSent(m: Model, from: seq<Members>, to: seq<Members>) {
    from <= to && forall i :: |from| <= i < |to| ==> m.valid(to[i])
  }

  lemma {:induction false} SendsValidConfigs(m: Model, device: Option<Behaviour>, config: Members, prefix: GnmiPath, os: seq<Operation>, w: World)
    requires m.valid(config)
    ensures OnlyValidSent(m, w.sent, PerformAll(m, device, config, prefix, os, w).0.sent)
    decreases |os|
  {
    if os != [] {
      var (w1, f) := Perform(m, device, config, prefix, os[0], w);
      if f == None {
        SendsValidConfigs(m, device, config, prefix, os[1..], w1);
      }
    }
  }

  /** The operation deletes the root of a tree that is not empty: the one edit the device does not hear of. */
  predicate DropsRoot(prefix: GnmiPath, o: Operation, tree: Members) {
    o.DeletePath? && FullPath(prefix, o.path) == ROOT_PATH && tree != map[]
  }

  /** A root delete the device has not heard of is still pending after these operations. */
  function RootDropPending(m: Model, prefix: GnmiPath, os: seq<Operation>, tree: Members, pending: bool): bool
    decreases |os|
  {
    if os == [] then pending
    else match EditTree(m, prefix, os[0], tree)
      case Err(_) => pending
      case Ok(t) =>
        RootDropPending(m, prefix, os[1..], t, !IsTold(m, prefix, os[0], tree) && (pending || DropsRoot(prefix, os[0], tree)))
  }

  /** What the device holds agrees with the working tree, or lacks a root delete. */
  predicate InStep(w: World, pending: bool) {
    if pending then w.tree == map[] && w.held != map[] else w.held == w.tree
  }

  lemma {:induction false} DeviceKeepsUp(m: Model, device: Behaviour, config: Members, prefix: GnmiPath, os: seq<Operation>, w: World, pending: bool)
    requires InStep(w, pending)
    ensures var (w', f) := PerformAll(m, Some(device), config, prefix, os, w);
      f == None ==> InStep(w', RootDropPending(m, prefix, os, w.tree, pending))
    decreases |os|
  {
    if os != [] {
      var (w1, f) := Perform(m, Some(device), config, prefix, os[0], w);
      if f == None {
        var told := IsTold(m, prefix, os[0], w.tree);
        if !told {
          var full := FullPath(prefix, os[0].path);
          if full.elems != [] {
            UntoldDeleteChangesNothing(w.tree, m.schema, full.elems);
          }
        }
        DeviceKeepsUp(m, device, config, prefix, os[1..], w1, !told && (pending || DropsRoot(prefix, os[0], w.tree)));
      }
    }
  }

  /** After a successful Set the device holds the stored config exactly when no root delete is left that it was not told of. */
  lemma {:induction false} DeviceAgreesOnSuccess(m: Model, device: Behaviour, config: Members, req: Request, sent: seq<Members>)
    ensures var (config', w, f) := SetRequest(m, Some(device), config, req, config, sent);
      f == None ==> (w.held == config' <==> !RootDropPending(m, req.prefix, req.Operations(), config, false))
  {
    DeviceKeepsUp(m, device, config, req.prefix, req.Operations(), World(config, config, sent), false);
  }

  /** Without a delete of the root nothing is ever pending. */
  lemma {:induction false} NoRootDeleteNoDrop(m: Model, prefix: GnmiPath, os: seq<Operation>, tree: Members)
    requires forall o :: o in os && o.DeletePath? ==> FullPath(prefix, o.path) != ROOT_PATH
    ensures !RootDropPending(m, prefix, os, tree, false)
    decreases |os|
  {
    if os != [] && EditTree(m, prefix, os[0], tree).Ok? {
      assert os[0] in os;
      NoRootDeleteNoDrop(m, prefix, os[1..], EditTree(m, prefix, os[0], tree).value);
    }
  }

  /** The config the device was last sent by these operations, before one of them failed. */
  function LastSent(w: World, w': World): Option<Members> {
    if |w'.sent| > |w.sent| then Some(w'.sent[|w'.sent| - 1]) else None
  }

  /** After a failure: a rolled back Set leaves the device with the old config; a refused one with whatever it was last sent. */
  lemma {:induction false} DeviceAfterFailure(m: Model, device: Behaviour, config: Members, prefix: GnmiPath, os: seq<Operation>, w: World)
    ensures var (w', f) := PerformAll(m, Some(device), config, prefix, os, w);
      && w.sent <= w'.sent
      && (f == Some(RolledBack) ==> w'.held == config)
      && ((f == None || (f.Some? && f.value.Refused?)) ==> w'.held == (if LastSent(w, w').Some? then LastSent(w, w').value else w.held))
    decreases |os|
  {
    if os != [] {
      var (w1, f) := Perform(m, Some(device), config, prefix, os[0], w);
      if f == None {
        DeviceAfterFailure(m, device, config, prefix, os[1..], w1);
      }
    }
  }

  /**
   The last tree the device is told of before the request is refused: before the first operation that is refused by itself,
   or whose tree is not valid. Known from the model, the tree and the request alone.
   */
  function LastTold(m: Model, prefix: GnmiPath, os: seq<Operation>, tree: Members, last: Option<Members>): (r: Option<Members>)
    ensures last.Some? ==> r.Some?
    decreases |os|
  {
    if os == [] then last
    else match EditTree(m, prefix, os[0], tree)
      case Err(_) => last
      case Ok(t) =>
        if !IsTold(m, prefix, os[0], tree) then LastTold(m, prefix, os[1..], t, last)
        else if !m.valid(t) then last
        else LastTold(m, prefix, os[1..], t, Some(t))
  }

  /** Unless the device itself refuses, it ends up with the last tree it is told of. */
  lemma {:induction false} HeldIsLastTold(m: Model, device: Behaviour, config: Members, prefix: GnmiPath, os: seq<Operation>, w: World, last: Option<Members>)
    requires last.Some? ==> w.held == last.value
    ensures var (w', f) := PerformAll(m, Some(device), config, prefix, os, w);
      var told := LastTold(m, prefix, os, w.tree, last);
      f == None || f.value.Refused? ==> w'.held == if told.Some? then told.value else w.held
    decreases |os|
  {
    if os != [] {
      var (w1, f) := Perform(m, Some(device), config, prefix, os[0], w);
      hide EditTree, IsTold;
      match EditTree(m, prefix, os[0], w.tree)
      case Err(_) =>
      case Ok(t) =>
        if f == None {
          var told := IsTold(m, prefix, os[0], w.tree);
          HeldIsLastTold(m, device, config, prefix, os[1..], w1, if told then Some(t) else last);
        }
    }
  }

  /**
   The failures of a Set, from agreement: an Aborted one leaves device and config in agreement; a refused one does so
   exactly when the device is told nothing before the refusal, or last of the old config. Otherwise it is ahead of it.
   */
  lemma {:induction false} DeviceAgreesOnFailure(m: Model, device: Behaviour, config: Members, req: Request, sent: seq<Members>)
    ensures var (config', w, f) := SetRequest(m, Some(device), config, req, config, sent);
      f.Some? ==>
        && config' == config
        && (f.value.RolledBack? ==> w.held == config)
        && (f.value.Refused? ==>
             (w.held == config <==> LastTold(m, req.prefix, req.Operations(), config, None) in {None, Some(config)}))
  {
    DeviceAfterFailure(m, device, config, req.prefix, req.Operations(), World(config, config, sent));
    HeldIsLastTold(m, device, config, req.prefix, req.Operations(), World(config, config, sent), None);
  }

  /**
   A request whose first operation deletes a leaf and whose second is refused: a device that takes the one tree it is sent
   keeps the result of the first, and the stored config is the old one.
   */
  lemma {:induction false} RefusedLateLeavesDeviceAhead(m: Model, device: Behaviour, leaf: GnmiPath, old': Json)
    requires leaf == GnmiPath("", [Elem("mtu", map[])])
    requires m.valid(map[]) && m.decode(leaf.elems, "9000").Err? && device([], map[]) == Takes
    ensures var config: Members := map["mtu" := old'];
      var req := Request(ROOT_PATH, [leaf], [(leaf, "9000")], []);
      var (config', w, f) := SetRequest(m, Some(device), config, req, config, []);
      f == Some(Refused(m.decode(leaf.elems, "9000").error)) && config' == config && w.held == map[] && w.held != config
  {
    var config: Members := map["mtu" := old'];
    var req := Request(ROOT_PATH, [leaf], [(leaf, "9000")], []);
    var first, second := DeletePath(leaf), SetValue(Replace, leaf, "9000");
    assert FullPath(ROOT_PATH, leaf) == leaf;
    assert config - {"mtu"} == map[];
    assert req.Operations() == [first, second];
    var w := World(config, config, []);
    var (w1, f1) := Perform(m, Some(device), config, ROOT_PATH, first, w);
    assert f1 == None && w1.held == map[] == w1.tree;
    assert [first, second][1..] == [second];
    var refused := Refused(m.decode(leaf.elems, "9000").error);
    assert Perform(m, Some(device), config, ROOT_PATH, second, w1) == (w1, Some(refused));
    assert PerformAll(m, Some(device), config, ROOT_PATH, [second], w1) == (w1, Some(refused));
  }

  /** The server answers Aborted exactly when it rolled back, if no operation itself is refused with that code. */
  lemma {:induction false} AbortedMeansRolledBack(m: Model, device: Option<Behaviour>, config: Members, prefix: GnmiPath, os: seq<Operation>, w: World)
    requires forall p, raw :: m.decode(p, raw) != Err(Aborted)
    ensures var (_, f) := PerformAll(m, device, config, prefix, os, w);
      f.Some? ==> (StatusOf(f.value) == Aborted <==> f.value.RolledBack?)
    decreases |os|
  {
    if os != [] {
      var (w1, f) := Perform(m, device, config, prefix, os[0], w);
      if os[0].SetValue? {
        var full := FullPath(prefix, os[0].path);
        var d := m.decode(full.elems, os[0].raw);
        if d.Ok? && full.elems != [] {
          SetNeverAborts(m.fmt, os[0].op, w.tree, m.schema, full.elems, d.value);
        }
      }
      AbortedMeansRolledBack(m, device, config, prefix, os[1..], w1);
    }
  }

  lemma {:induction false} SetNeverAborts(fmt: NumberFormat, op: Op, ms: Members, s: Schema, p: Path, val: Json)
    requires p != []
    ensures SetAt(fmt, op, ms, s, p, val) != Err(Aborted)
    decreases |p|
  {
    if |p| >= 2 && p[0].name in s.dir {
      var e := p[0];
      if e.keys == map[] {
        var child := if e.name in ms then ms[e.name] else Object(map[]);
        if child.Object? {
          SetNeverAborts(fmt, op, child.members, s.dir[e.name], p[1..], val);
        }
      } else if EntryFor(fmt, ms, e).Some? {
        var (es, i) := EntryFor(fmt, ms, e).value;
        SetNeverAborts(fmt, op, es[i].members, s.dir[e.name], p[1..], val);
      }
    }
  }
}
