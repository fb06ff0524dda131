/** What a whole Set request makes of the tree: the fold of its edits of the reference tree, and nothing elsewhere. */
module RequestTheorems {
  import opened Wrappers
  import opened PathTree
  import opened PathLaws
  import opened JsonTree
  import opened JsonEdit
  import opened EditMeaning
  import opened TreeTheorems
  import opened Transaction

  /** The path an operation addresses. */
  function Target(prefix: GnmiPath, o: Operation): GnmiPath {
    FullPath(prefix, o.path)
  }

  /** The decoded value of a write. */
  function Decoded(m: Model, prefix: GnmiPath, o: Operation): Result<Json, Code>
    requires o.SetValue?
  {
    m.decode(Target(prefix, o).elems, o.raw)
  }

  /** The operation is a tree edit below the root. */
  predicate Edits(m: Model, prefix: GnmiPath, o: Operation) {
    Target(prefix, o).elems != [] && (o.SetValue? ==> Decoded(m, prefix, o).Ok?)
  }

  /** The tree edit of an operation below the root. */
  function EditOf(m: Model, prefix: GnmiPath, o: Operation): (a: TreeEdit)
    requires Edits(m, prefix, o)
    ensures a.path == Target(prefix, o).elems
  {
    match o
    case DeletePath(_) => Remove(Target(prefix, o).elems)
    case SetValue(op, _, _) => Write(op, Target(prefix, o).elems, Decoded(m, prefix, o).value)
  }

  /** Below the root the edit follows the schema; at the root a value does. */
  predicate FitsSchema(m: Model, prefix: GnmiPath, o: Operation) {
    (o.SetValue? ==> Decoded(m, prefix, o).Ok?) ==>
      if Target(prefix, o).elems != [] then Acceptable(m.fmt, m.schema, EditOf(m, prefix, o))
      else
        Target(prefix, o) == ROOT_PATH && o.SetValue? && Decoded(m, prefix, o).value.Object?
        ==> MembersWellFormed(Decoded(m, prefix, o).value, m.schema)
  }

  /** The reference tree after an operation. */
  function StepResult(m: Model, prefix: GnmiPath, o: Operation, fs: Fields): Fields {
    if o.SetValue? && Decoded(m, prefix, o).Err? then fs
    else if Target(prefix, o).elems != [] then TreeTheorems.Result(m.fmt, m.schema, fs, EditOf(m, prefix, o))
    else if Target(prefix, o) != ROOT_PATH then fs
    else if o.DeletePath? then map[]
    else if Decoded(m, prefix, o).value.Object? then FieldsOf(Decoded(m, prefix, o).value.members, m.schema)
    else fs
  }

  /** The fold of the operations. */
  function AllResults(m: Model, prefix: GnmiPath, os: seq<Operation>, fs: Fields): Fields {
    if os == [] then fs else AllResults(m, prefix, os[1..], StepResult(m, prefix, os[0], fs))
  }

  /** Every operation keeps the keys of the tree it is made on. */
  predicate AllKeepKeys(m: Model, prefix: GnmiPath, os: seq<Operation>, fs: Fields) {
    os != [] ==>
      && (Edits(m, prefix, os[0]) ==> KeepsKeys(fs, EditOf(m, prefix, os[0])))
      && AllKeepKeys(m, prefix, os[1..], StepResult(m, prefix, os[0], fs))
  }

  lemma {:induction false} OneOperation(m: Model, prefix: GnmiPath, o: Operation, tree: Members)
    requires MembersWellFormed(Object(tree), m.schema) && FitsSchema(m, prefix, o)
    requires EditTree(m, prefix, o, tree).Ok?
    ensures o.SetValue? ==> Decoded(m, prefix, o).Ok?
    ensures Target(prefix, o).elems != [] && KeepsKeys(FieldsOf(tree, m.schema), EditOf(m, prefix, o)) ==>
      && MembersWellFormed(Object(EditTree(m, prefix, o, tree).value), m.schema)
      && FieldsOf(EditTree(m, prefix, o, tree).value, m.schema) == StepResult(m, prefix, o, FieldsOf(tree, m.schema))
    ensures Target(prefix, o).elems == [] ==>
      && MembersWellFormed(Object(EditTree(m, prefix, o, tree).value), m.schema)
      && FieldsOf(EditTree(m, prefix, o, tree).value, m.schema) == StepResult(m, prefix, o, FieldsOf(tree, m.schema))
  {
    hide MembersWellFormed, WellFormed, Meaning, FieldsOf, Acceptable, KeepsKeys, TreeTheorems.Result, SetAt, DeleteAt;
    EmptyMeans(m.fmt, m.schema);
    if Target(prefix, o).elems != [] {
      ApplyMeans(m.fmt, tree, m.schema, EditOf(m, prefix, o));
    }
  }

  /** A successful run of the operations leaves a well-formed tree that means their fold. */
  lemma {:induction false} RunMeans(m: Model, prefix: GnmiPath, os: seq<Operation>, tree: Members)
    requires MembersWellFormed(Object(tree), m.schema) && EditAll(m, prefix, os, tree).Ok?
    requires (forall o :: o in os ==> FitsSchema(m, prefix, o)) && AllKeepKeys(m, prefix, os, FieldsOf(tree, m.schema))
    ensures MembersWellFormed(Object(EditAll(m, prefix, os, tree).value), m.schema)
    ensures FieldsOf(EditAll(m, prefix, os, tree).value, m.schema) == AllResults(m, prefix, os, FieldsOf(tree, m.schema))
    decreases |os|
  {
    if os != [] {
      hide MembersWellFormed, WellFormed, Meaning, FieldsOf, FitsSchema, KeepsKeys, StepResult, EditTree;
      assert os[0] in os;
      OneOperation(m, prefix, os[0], tree);
      RunMeans(m, prefix, os[1..], EditTree(m, prefix, os[0], tree).value);
    }
  }

  /**
   After a successful Set the stored configuration is well-formed and means the fold of its operations over the old one, if
   the operations follow the schema and keep keys.
   */
  lemma {:induction false} SetMeansFold(m: Model, device: Option<Behaviour>, config: Members, req: Request, held: Members, sent: seq<Members>)
    requires MembersWellFormed(Object(config), m.schema) && forall o :: o in req.Operations() ==> FitsSchema(m, req.prefix, o)
    requires AllKeepKeys(m, req.prefix, req.Operations(), FieldsOf(config, m.schema))
    ensures var (config', _, f) := SetRequest(m, device, config, req, held, sent);
      f == None ==>
        && MembersWellFormed(Object(config'), m.schema)
        && FieldsOf(config', m.schema) == AllResults(m, req.prefix, req.Operations(), FieldsOf(config, m.schema))
  {
    hide *;
    SuccessStoresTheEdits(m, device, config, req, held, sent);
    if SetRequest(m, device, config, req, held, sent).2 == None {
      RunMeans(m, req.prefix, req.Operations(), config);
    }
  }

  // ---- Requests that succeed ----

  /**
   The operation's value decodes; below the root its edit is acceptable; a write of the root replaces it by an object that
   follows the schema.
   */
  predicate Performable(m: Model, prefix: GnmiPath, o: Operation) {
    && (o.SetValue? ==> Decoded(m, prefix, o).Ok?)
    && (if Target(prefix, o).elems != [] then Acceptable(m.fmt, m.schema, EditOf(m, prefix, o))
        else Target(prefix, o) == GnmiPath("", []) && o.SetValue? ==>
          && o.op.Replace? && Decoded(m, prefix, o).value.Object?
          && MembersWellFormed(Decoded(m, prefix, o).value, m.schema))
  }

  /** The trees the device is to be told of, and the last one, make valid configurations. */
  predicate ValidAlong(m: Model, prefix: GnmiPath, os: seq<Operation>, tree: Members)
    decreases |os|
  {
    if os == [] then m.valid(tree)
    else match EditTree(m, prefix, os[0], tree)
      case Err(_) => true
      case Ok(t) => (IsTold(m, prefix, os[0], tree) ==> m.valid(t)) && ValidAlong(m, prefix, os[1..], t)
  }

  lemma {:induction false} OnePerforms(m: Model, prefix: GnmiPath, o: Operation, tree: Members)
    requires MembersWellFormed(Object(tree), m.schema) && Performable(m, prefix, o)
    ensures EditTree(m, prefix, o, tree).Ok? && FitsSchema(m, prefix, o)
  {
    hide MembersWellFormed, WellFormed, Meaning, FieldsOf, Acceptable, KeepsKeys, TreeTheorems.Result, SetAt, DeleteAt;
    if Target(prefix, o).elems != [] {
      ApplyMeans(m.fmt, tree, m.schema, EditOf(m, prefix, o));
      match o
      case DeletePath(_) =>
      case SetValue(op, path, raw) =>
        assert EditTree(m, prefix, o, tree) == Apply(m.fmt, tree, m.schema, EditOf(m, prefix, o));
    } else if o.SetValue? && Target(prefix, o) != ROOT_PATH {
      assert EditTree(m, prefix, o, tree) == Ok(tree);
    }
  }

  lemma {:induction false} AllPerform(m: Model, device: Option<Behaviour>, config: Members, prefix: GnmiPath, os: seq<Operation>, w: World)
    requires MembersWellFormed(Object(w.tree), m.schema) && (forall o :: o in os ==> Performable(m, prefix, o))
    requires AllKeepKeys(m, prefix, os, FieldsOf(w.tree, m.schema)) && ValidAlong(m, prefix, os, w.tree)
    requires device.Some? ==> forall sent, c :: device.value(sent, c) == Takes
    ensures var (w', f) := PerformAll(m, device, config, prefix, os, w); f == None && m.valid(w'.tree)
    decreases |os|
  {
    if os != [] {
      hide MembersWellFormed, WellFormed, Meaning, FieldsOf, FitsSchema, Performable, KeepsKeys, StepResult, EditTree, IsTold, Edits;
      assert os[0] in os;
      OnePerforms(m, prefix, os[0], w.tree);
      OneOperation(m, prefix, os[0], w.tree);
      KeepsIfEdits(m, prefix, os[0]);
      AllPerform(m, device, config, prefix, os[1..], Perform(m, device, config, prefix, os[0], w).0);
    }
  }

  lemma {:induction false} KeepsIfEdits(m: Model, prefix: GnmiPath, o: Operation)
    requires o.SetValue? ==> Decoded(m, prefix, o).Ok?
    ensures Target(prefix, o).elems != [] ==> Edits(m, prefix, o)
  {
  }

  /**
   A request of acceptable operations that keep keys, whose values decode and whose told and last trees are valid, always
   succeeds with a device that takes all it is sent, or with none; and then it stores the fold.
   */
  lemma {:induction false} AcceptableSucceeds(m: Model, device: Option<Behaviour>, config: Members, req: Request, held: Members, sent: seq<Members>)
    requires MembersWellFormed(Object(config), m.schema) && (forall o :: o in req.Operations() ==> Performable(m, req.prefix, o))
    requires AllKeepKeys(m, req.prefix, req.Operations(), FieldsOf(config, m.schema)) && ValidAlong(m, req.prefix, req.Operations(), config)
    requires device.Some? ==> forall past, c :: device.value(past, c) == Takes
    ensures var (config', _, f) := SetRequest(m, device, config, req, held, sent);
      f == None && FieldsOf(config', m.schema) == AllResults(m, req.prefix, req.Operations(), FieldsOf(config, m.schema))
  {
    hide MembersWellFormed, WellFormed, FieldsOf, AllKeepKeys, AllResults, ValidAlong, Performable, FitsSchema, PerformAll;
    AllPerform(m, device, config, req.prefix, req.Operations(), World(config, held, sent));
    forall o | o in req.Operations() ensures FitsSchema(m, req.prefix, o) {
      OnePerforms(m, req.prefix, o, config);
    }
    SetMeansFold(m, device, config, req, held, sent);
  }

  /** The operation is not at the root, and none of the nodes it touches lies on the way to the reader. */
  predicate PartsFrom(m: Model, prefix: GnmiPath, o: Operation, q: Path) {
    Target(prefix, o).elems != [] && (Edits(m, prefix, o) ==> forall x :: x in Places(EditOf(m, prefix, o)) ==> Diverge(x, q))
  }

  lemma {:induction false} FoldUnseen(m: Model, prefix: GnmiPath, os: seq<Operation>, fs: Fields, q: Path)
    requires forall o :: o in os ==> FitsSchema(m, prefix, o) && PartsFrom(m, prefix, o, q)
    requires AvoidsKeyLeaves(q)
    ensures Read(AllResults(m, prefix, os, fs), q) == Read(fs, q)
    decreases |os|
  {
    if os != [] {
      hide Read, TreeTheorems.Result, Acceptable, Diverge, AvoidsKeyLeaves, Places, MembersWellFormed, FieldsOf;
      assert os[0] in os;
      var o := os[0];
      if Edits(m, prefix, o) {
        UnseenPath(m.fmt, m.schema, fs, EditOf(m, prefix, o), q);
      }
      FoldUnseen(m, prefix, os[1..], StepResult(m, prefix, o, fs), q);
    }
  }

  /** A whole Set leaves readers that part from all its operations alone. */
  lemma {:induction false} SetFrame(m: Model, device: Option<Behaviour>, config: Members, req: Request, held: Members, sent: seq<Members>, q: Path)
    requires MembersWellFormed(Object(config), m.schema)
    requires forall o :: o in req.Operations() ==> FitsSchema(m, req.prefix, o) && PartsFrom(m, req.prefix, o, q)
    requires AllKeepKeys(m, req.prefix, req.Operations(), FieldsOf(config, m.schema)) && AvoidsKeyLeaves(q)
    ensures Read(FieldsOf(SetRequest(m, device, config, req, held, sent).0, m.schema), q) == Read(FieldsOf(config, m.schema), q)
  {
    hide *;
    SetMeansFold(m, device, config, req, held, sent);
    SuccessStoresTheEdits(m, device, config, req, held, sent);
    FoldUnseen(m, req.prefix, req.Operations(), FieldsOf(config, m.schema), q);
  }
}
