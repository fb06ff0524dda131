/** What a client of the configuration tree may rely on, for every well-formed tree and every edit that follows the schema. */
module TreeTheorems {
  import opened Wrappers
  import opened PathTree
  import opened PathLaws
  import opened KeyMoves
  import opened JsonTree
  import opened JsonEdit
  import opened EditMeaning
  import opened KeyEdits

  /** One operation of a Set request. */
  datatype TreeEdit =
    | Write(op: Op, path: Path, val: Json)
    | Remove(path: Path)

  function Apply(fmt: NumberFormat, ms: Members, s: Schema, a: TreeEdit): Result<Members, Code>
    requires a.path != []
  {
    match a
    case Write(op, path, val) => SetAt(fmt, op, ms, s, path, val)
    case Remove(path) => Ok(DeleteAt(ms, s, path).0)
  }

  /** The edit follows the schema and does not contradict the keys in its path. */
  predicate Acceptable(fmt: NumberFormat, s: Schema, a: TreeEdit) {
    && a.path != [] && Follows(fmt, a.path, s)
    && (a.Write? ==> ValueFits(a.path, s, a.val) && !Conflicts(Last(a.path), a.val))
  }

  /** The edit gives a key attribute another text. */
  predicate Moves(a: TreeEdit) {
    a.Write? && Rekeys(a.path, a.val)
  }

  /**
   What a caller checks beforehand: a key attribute may be given another text only if no entry has the new key tuple, and
   may be deleted only from an entry that is not there.
   */
  predicate KeepsKeys(fs: Fields, a: TreeEdit) {
    match a
    case Write(_, path, val) => Rekeys(path, val) ==> Read(fs, Moved(path, Printed(val))) == None
    case Remove(path) => SpareKey(fs, path)
  }

  /** The meaning of the edit: what it makes of the addressed node. */
  function Effect(fmt: NumberFormat, s: Schema, a: TreeEdit): Edit
    requires a.path != []
  {
    match a
    case Write(op, path, val) => Putting(fmt, op, Last(path), Meaning(val, SchemaAt(path, s)))
    case Remove(path) => Deleting()
  }

  function LeafOf(val: Json): (t: Tree)
    ensures t.Leaf?
  {
    if val.Scalar? then Leaf(val.kind, val.text) else Leaf(Text, "")
  }

  /** The reference tree after the edit. */
  function Result(fmt: NumberFormat, s: Schema, fs: Fields, a: TreeEdit): Fields
    requires a.path != []
  {
    if Moves(a) then Rekey(fmt, fs, a.path, LeafOf(a.val))
    else if a.Remove? && EndsOnKey(a.path) then fs
    else Alter(fmt, fs, a.path, a.Write?, Effect(fmt, s, a))
  }

  /**
   An acceptable edit succeeds. It keeps the tree well-formed exactly if it keeps the keys, and then it is the edit of the
   reference tree.
   */
  lemma {:induction false} ApplyMeans(fmt: NumberFormat, ms: Members, s: Schema, a: TreeEdit)
    requires MembersWellFormed(Object(ms), s) && Acceptable(fmt, s, a)
    ensures var r := Apply(fmt, ms, s, a);
      && r.Ok?
      && (MembersWellFormed(Object(r.value), s) <==> KeepsKeys(FieldsOf(ms, s), a))
      && (KeepsKeys(FieldsOf(ms, s), a) ==> FieldsOf(r.value, s) == Result(fmt, s, FieldsOf(ms, s), a))
  {
    hide MembersWellFormed, WellFormed, Meaning, FieldsOf, Alter, Follows, SetAt, DeleteAt, Moved, Read, Rekey;
    match a
    case Write(op, path, val) =>
      if Rekeys(path, val) {
        KeyWriteMoves(fmt, op, ms, s, path, val);
      } else {
        SetMeans(fmt, op, ms, s, path, val);
      }
    case Remove(path) =>
      if SpareKey(FieldsOf(ms, s), path) {
        DeleteMeans(fmt, ms, s, path);
        if EndsOnKey(path) {
          NothingBelow(FieldsOf(ms, s), path);
        }
      } else {
        KeyDeleteBreaks(fmt, ms, s, path);
      }
  }

  /** Below nothing there is nothing. */
  lemma {:induction false} NothingBelow(fs: Fields, p: Path)
    requires |p| >= 2 && Read(fs, EntryPath(p)) == None
    ensures Read(fs, p) == None
  {
    ReadOn(fs, EntryPath(p), p[|p| - 1..]);
    assert EntryPath(p) + p[|p| - 1..] == p;
  }

  lemma {:induction false} EffectHarmless(fmt: NumberFormat, s: Schema, a: TreeEdit)
    requires a.path != []
    ensures Harmless(a.Write?, Effect(fmt, s, a))
  {
  }

  /** The edit of a key attribute does not depend on the attribute's old value. */
  lemma {:induction false} KeyEffectConstant(fmt: NumberFormat, s: Schema, a: TreeEdit)
    requires Acceptable(fmt, s, a) && EndsOnKey(a.path)
    ensures Constant(Effect(fmt, s, a))
  {
    if a.Write? {
      KeyValue(fmt, s, a.path, a.val);
    }
  }

  lemma {:induction false} KeyValue(fmt: NumberFormat, s: Schema, p: Path, val: Json)
    requires Follows(fmt, p, s) && EndsOnKey(p) && ValueFits(p, s, val)
    ensures val.Scalar? && Last(p).keys == map[] && Meaning(val, SchemaAt(p, s)) == LeafOf(val) && LeafOf(val).text == Printed(val)
    decreases |p|
  {
    InnerStep(fmt, p, s);
    if |p| >= 3 {
      KeyValue(fmt, s.dir[p[0].name], p[1..], val);
    } else {
      assert SchemaAt(p[1..], s.dir[p[0].name]) == SchemaAt(p[1..][1..], s.dir[p[0].name].dir[p[1].name]);
    }
  }

  lemma {:induction false} NewEntryFits(fmt: NumberFormat, s: Schema, p: Path)
    requires |p| >= 1 && Follows(fmt, p, s)
    ensures FitsPath(fmt, map[], p)
    decreases |p|
  {
    if |p| >= 2 {
      NewEntryFits(fmt, s.dir[p[0].name], p[1..]);
      FreshFits(fmt, s, p);
    }
  }

  /** What fits an empty node fits a new entry. */
  lemma {:induction false} FreshFits(fmt: NumberFormat, s: Schema, p: Path)
    requires |p| >= 2 && Follows(fmt, p, s) && FitsPath(fmt, map[], p[1..])
    ensures FitsPath(fmt, Fresh(fmt, p[0].keys), p[1..])
  {
    InnerStep(fmt, p, s);
    if p[1].name !in p[0].keys {
      FreshHolds(fmt, p[0].keys, p[1]);
      SameWhereAbsent(fmt, map[], Fresh(fmt, p[0].keys), p[1..]);
    }
  }

  lemma {:induction false} SameWhereAbsent(fmt: NumberFormat, a: Fields, b: Fields, p: Path)
    requires p != [] && p[0].name !in a && p[0].name !in b
    ensures FitsPath(fmt, a, p) <==> FitsPath(fmt, b, p)
  {
  }

  /** Paths that follow the schema fit every well-formed tree. */
  lemma {:induction false} WellFormedFits(fmt: NumberFormat, ms: Members, s: Schema, p: Path)
    requires MembersWellFormed(Object(ms), s) && Follows(fmt, p, s)
    ensures FitsPath(fmt, FieldsOf(ms, s), p)
    decreases |p|
  {
    var e, sub := p[0], s.dir[p[0].name];
    if KeyedStep(fmt, e, sub) {
      EntryForMeans(fmt, ms, s, e);
    } else if |p| >= 2 {
      ContainerStep(ms, s, e.name);
    }
    if |p| >= 2 {
      match Child(FieldsOf(ms, s), e)
      case None =>
        NewEntryFits(fmt, sub, p[1..]);
        FreshFits(fmt, s, p);
      case Some(t) =>
        var below := if e.keys == map[] then ms[e.name].members
                     else var (es, i) := EntryFor(fmt, ms, e).value; es[i].members;
        assert t == Node(FieldsOf(below, sub)) by {
          if e.keys != map[] {
            ObjectMeaning(below, sub);
          }
        }
        WellFormedFits(fmt, below, sub, p[1..]);
    }
  }

  /** What is read at a container's path is a node. */
  lemma {:induction false} ReadContainer(fmt: NumberFormat, ms: Members, s: Schema, p: Path)
    requires MembersWellFormed(Object(ms), s) && Follows(fmt, p, s)
    requires !SchemaAt(p, s).leaf && SchemaAt(p, s).keys == {}
    ensures Read(FieldsOf(ms, s), p).Some? ==> Read(FieldsOf(ms, s), p).value.Node?
    decreases |p|
  {
    var e, sub := p[0], s.dir[p[0].name];
    if |p| == 1 {
      assert SchemaAt(p, s) == sub;
      ContainerStep(ms, s, e.name);
    } else if KeyedStep(fmt, e, sub) {
      EntryForMeans(fmt, ms, s, e);
      if Child(FieldsOf(ms, s), e).Some? {
        var (es, i) := EntryFor(fmt, ms, e).value;
        ObjectMeaning(es[i].members, sub);
        ReadContainer(fmt, es[i].members, sub, p[1..]);
      }
    } else {
      ContainerStep(ms, s, e.name);
      if e.name in ms {
        ReadContainer(fmt, ms[e.name].members, sub, p[1..]);
      }
    }
  }

  /** What is read at a keyed path is an entry that holds its key attributes. */
  lemma {:induction false} EntryHoldsKeys(fmt: NumberFormat, ms: Members, s: Schema, p: Path)
    requires MembersWellFormed(Object(ms), s) && Follows(fmt, p, s) && EndsOnKey(p)
    ensures Read(FieldsOf(ms, s), p) == None ==> Read(FieldsOf(ms, s), EntryPath(p)) == None
    decreases |p|
  {
    hide MembersWellFormed, WellFormed, Meaning, FieldsOf, EntryFor, Carries, KeyedStep;
    InnerStep(fmt, p, s);
    var e, sub, fs := p[0], s.dir[p[0].name], FieldsOf(ms, s);
    if KeyedStep(fmt, e, sub) {
      EntryForMeans(fmt, ms, s, e);
      if Child(fs, e).Some? {
        var (es, i) := EntryFor(fmt, ms, e).value;
        ObjectOf(es[i], sub);
        ObjectMeaning(es[i].members, sub);
        if |p| == 2 {
          KeyIsThere(es[i], p, sub);
        } else {
          EntryHoldsKeys(fmt, es[i].members, sub, p[1..]);
        }
        HoldsBelow(fs, p, FieldsOf(es[i].members, sub));
      } else {
        assert EntryPath(p)[0] == e;
      }
    } else {
      ContainerStep(ms, s, e.name);
      assert e == Elem(e.name, map[]) && EntryPath(p)[0] == e;
      if e.name in ms {
        EntryHoldsKeys(fmt, ms[e.name].members, sub, p[1..]);
        HoldsBelow(fs, p, FieldsOf(ms[e.name].members, sub));
      }
    }
  }

  lemma {:induction false} KeyIsThere(entry: Json, p: Path, s: Schema)
    requires |p| == 2 && EndsOnKey(p) && Carries(entry, p[0])
    ensures entry.Object? && Read(FieldsOf(entry.members, s), p[1..]) != None
  {
    assert p[1..] == [p[1]];
    assert p[1].name in FieldsOf(entry.members, s);
  }

  lemma {:induction false} HoldsBelow(fs: Fields, p: Path, below: Fields)
    requires |p| >= 2 && Child(fs, p[0]) == Some(Node(below))
    requires Read(below, p[1..]) == None ==> |p| >= 3 && Read(below, EntryPath(p[1..])) == None
    ensures Read(fs, p) == None ==> Read(fs, EntryPath(p)) == None
  {
    ReadInner(fs, p, below);
    if |p| >= 3 {
      assert EntryPath(p)[1..] == EntryPath(p[1..]);
      ReadInner(fs, EntryPath(p), below);
    }
  }

  /** Where a move starts and ends, in a well-formed tree. */
  lemma {:induction false} MoveFits(fmt: NumberFormat, ms: Members, s: Schema, a: TreeEdit)
    requires MembersWellFormed(Object(ms), s) && Acceptable(fmt, s, a) && Moves(a)
    ensures KeyPath(a.path) && FitsPath(fmt, FieldsOf(ms, s), EntryPath(a.path))
    ensures LeafOf(a.val).text == Printed(a.val) != KeyText(a.path)
  {
    KeyAtEnd(fmt, a.path, s);
    KeyValue(fmt, s, a.path, a.val);
    EntryFollows(fmt, s, a.path);
    WellFormedFits(fmt, ms, s, EntryPath(a.path));
  }

  lemma {:induction false} EntryFollows(fmt: NumberFormat, s: Schema, p: Path)
    requires Follows(fmt, p, s) && EndsOnKey(p)
    ensures Follows(fmt, EntryPath(p), s)
    decreases |p|
  {
    InnerStep(fmt, p, s);
    assert EntryPath(p) == [p[0]] + p[1..][..|p| - 2];
    if |p| >= 3 {
      EntryFollows(fmt, s.dir[p[0].name], p[1..]);
      assert EntryPath(p)[1..] == EntryPath(p[1..]);
    } else {
      assert EntryPath(p) == [p[0]];
    }
  }

  /** The members the old node contributes: none for a replace or where there was nothing. */
  function Kept(op: Op, before: Option<Tree>): Fields {
    if op.Update? && before.Some? && before.value.Node? then before.value.fields else map[]
  }

  /** What the path reads as after an edit that moves no entry. */
  function Written(fmt: NumberFormat, s: Schema, a: TreeEdit, before: Option<Tree>): Option<Tree>
    requires a.path != []
  {
    match a
    case Remove(_) => None
    case Write(op, path, val) =>
      var v := Meaning(val, SchemaAt(path, s));
      if v.Node? then Some(Node(Kept(op, before) + Fresh(fmt, Last(path).keys) + v.fields)) else Some(v)
  }

  /**
   Reading back. After a replace the path reads as the value (in a list entry, with its key attributes); after an
   update as the old node with the value's members laid over it; after a delete as nothing. A key attribute given another
   text is read with its whole entry under the new key tuple, and nothing is read under the old one.
   */
  lemma {:induction false} ReadAfterEdit(fmt: NumberFormat, ms: Members, s: Schema, a: TreeEdit)
    requires MembersWellFormed(Object(ms), s) && Acceptable(fmt, s, a) && KeepsKeys(FieldsOf(ms, s), a)
    ensures var fs := FieldsOf(ms, s);
      var r := Apply(fmt, ms, s, a);
      r.Ok? &&
      var fs' := FieldsOf(r.value, s);
      if Moves(a) then
        && EndsOnKey(a.path) && Read(fs', EntryPath(a.path)) == None && Read(fs', a.path) == None
        && Read(fs', Moved(a.path, Printed(a.val))) == Some(Node(MovedFields(fmt, fs, a.path, LeafOf(a.val))))
      else Read(fs', a.path) == Written(fmt, s, a, Read(fs, a.path))
  {
    ApplyMeans(fmt, ms, s, a);
    if Moves(a) {
      MoveFits(fmt, ms, s, a);
      hide MembersWellFormed, WellFormed, Meaning, FieldsOf, Alter, Read, Follows, SetAt, DeleteAt, FitsPath, Moved, Rekey, MovedFields;
      ReadMoved(fmt, FieldsOf(ms, s), a.path, LeafOf(a.val));
      NothingBelow(Rekey(fmt, FieldsOf(ms, s), a.path, LeafOf(a.val)), a.path);
    } else {
      hide MembersWellFormed, WellFormed, Meaning, FieldsOf, Alter, Read, Follows, SetAt, DeleteAt, FitsPath, Moved, Rekey;
      if a.Remove? && EndsOnKey(a.path) {
        NothingBelow(FieldsOf(ms, s), a.path);
      } else {
        ReadWritten(fmt, ms, s, a);
      }
    }
  }

  lemma {:induction false} ReadWritten(fmt: NumberFormat, ms: Members, s: Schema, a: TreeEdit)
    requires MembersWellFormed(Object(ms), s) && Acceptable(fmt, s, a)
    ensures var fs := FieldsOf(ms, s);
      Read(Alter(fmt, fs, a.path, a.Write?, Effect(fmt, s, a)), a.path) == Written(fmt, s, a, Read(fs, a.path))
  {
    hide MembersWellFormed, WellFormed, Meaning, FieldsOf, Alter, Read, Follows, SetAt, DeleteAt, FitsPath;
    EffectHarmless(fmt, s, a);
    WellFormedFits(fmt, ms, s, a.path);
    KeyAtEnd(fmt, a.path, s);
    if EndsOnKey(a.path) {
      KeyEffectConstant(fmt, s, a);
    }
    ReadEdited(fmt, FieldsOf(ms, s), a.path, a.Write?, Effect(fmt, s, a));
    if a.Write? {
      KindOfMeaning(a.val, SchemaAt(a.path, s));
      if Last(a.path).keys != map[] {
        ObjectOf(a.val, SchemaAt(a.path, s));
      } else if a.val.Object? {
        ObjectShape(a.val, SchemaAt(a.path, s));
        ReadContainer(fmt, ms, s, a.path);
        PlainOverlay(fmt, a.op, Last(a.path), Meaning(a.val, SchemaAt(a.path, s)), Read(FieldsOf(ms, s), a.path));
      }
    }
  }

  lemma {:induction false} PlainOverlay(fmt: NumberFormat, op: Op, e: Elem, v: Tree, before: Option<Tree>)
    requires e.keys == map[] && v.Node? && (before.Some? ==> before.value.Node?)
    ensures Put(fmt, op, e, v, before) == Some(Node(Kept(op, before) + Fresh(fmt, e.keys) + v.fields))
  {
    assert Fresh(fmt, e.keys) == map[];
    assert Kept(op, before) + map[] == Kept(op, before);
    assert map[] + v.fields == v.fields;
  }

  /** What a reader at a diverging path notices of an edit. */
  predicate Sees(fmt: NumberFormat, fs: Fields, a: TreeEdit, q: Path)
    requires a.path != []
  {
    if Moves(a) then SeesMove(fmt, fs, a.path, LeafOf(a.val), q) else a.Write? && ShowsNewKey(fmt, fs, a.path, q)
  }

  /**
   Readers elsewhere see a change exactly when they read a key attribute of a list entry the edit has created, or, if the
   edit moves an entry, something of that entry under its old or its new key tuple.
   */
  lemma {:induction false} EditFrame(fmt: NumberFormat, ms: Members, s: Schema, a: TreeEdit, q: Path)
    requires MembersWellFormed(Object(ms), s) && Acceptable(fmt, s, a) && KeepsKeys(FieldsOf(ms, s), a) && Diverge(a.path, q)
    ensures var r := Apply(fmt, ms, s, a);
      r.Ok? && (Read(FieldsOf(r.value, s), q) != Read(FieldsOf(ms, s), q) <==> Sees(fmt, FieldsOf(ms, s), a, q))
    ensures AvoidsKeyLeaves(q) && !Moves(a) ==> Read(FieldsOf(Apply(fmt, ms, s, a).value, s), q) == Read(FieldsOf(ms, s), q)
  {
    ApplyMeans(fmt, ms, s, a);
    var fs := FieldsOf(ms, s);
    if Moves(a) {
      MoveFits(fmt, ms, s, a);
      hide MembersWellFormed, WellFormed, Meaning, FieldsOf, Alter, Read, Follows, SetAt, DeleteAt, Moved, Rekey, SeesMove;
      MoveFrame(fmt, fs, a.path, LeafOf(a.val), q);
    } else {
      hide MembersWellFormed, WellFormed, Meaning, FieldsOf, Alter, Read, Follows, SetAt, DeleteAt, ShowsNewKey, Moved, Rekey;
      Frame(fmt, fs, a.path, a.Write?, Effect(fmt, s, a), q);
      if AvoidsKeyLeaves(q) {
        FrameAvoidingKeys(fmt, fs, a.path, a.Write?, Effect(fmt, s, a), q);
      }
    }
  }

  // ---- Order of edits ----

  /** The nodes an edit touches: the addressed one, or those of an entry whose key attribute is at stake. */
  function Places(a: TreeEdit): set<Path> {
    if Moves(a) then {EntryPath(a.path), Moved(a.path, LeafOf(a.val).text)}
    else if a.Remove? && EndsOnKey(a.path) then {EntryPath(a.path)}
    else {a.path}
  }

  /** No node that one edit touches lies on the way to a node the other one touches. */
  predicate PlacesPart(a: TreeEdit, b: TreeEdit) {
    forall x, y :: x in Places(a) && y in Places(b) ==> Diverge(x, y)
  }

  lemma {:induction false} PlacesPartBack(a: TreeEdit, b: TreeEdit)
    requires PlacesPart(a, b)
    ensures PlacesPart(b, a)
  {
    forall x, y | x in Places(b) && y in Places(a) ensures Diverge(x, y) {
      DivergeBack(y, x);
    }
  }

  /** The paths and the leaf of an acceptable edit that moves an entry. */
  lemma {:induction false} MoveShape(fmt: NumberFormat, s: Schema, a: TreeEdit)
    requires Acceptable(fmt, s, a)
    ensures Moves(a) ==> KeyPath(a.path) && LeafOf(a.val).text == Printed(a.val) && AvoidsKeyLeaves(Moved(a.path, LeafOf(a.val).text))
    ensures EndsOnKey(a.path) ==> |a.path| >= 2 && AvoidsKeyLeaves(EntryPath(a.path))
    ensures !EndsOnKey(a.path) ==> AvoidsKeyLeaves(a.path)
  {
    KeyAtEnd(fmt, a.path, s);
    if Moves(a) {
      KeyValue(fmt, s, a.path, a.val);
      MovedShape(a.path, LeafOf(a.val).text);
    }
  }

  /** What an edit makes of a path that parts from its places. */
  lemma {:induction false} UnseenPath(fmt: NumberFormat, s: Schema, fs: Fields, a: TreeEdit, q: Path)
    requires Acceptable(fmt, s, a) && AvoidsKeyLeaves(q) && forall x :: x in Places(a) ==> Diverge(x, q)
    ensures Read(Result(fmt, s, fs, a), q) == Read(fs, q)
  {
    MoveShape(fmt, s, a);
    hide Follows, Alter, Read, Moved, EntryPath, Rekey, Diverge, AvoidsKeyLeaves, Meaning, ValueFits, Effect, KeyPath, EndsOnKey;
    if Moves(a) {
      EntryUnmoved(fmt, fs, a.path, LeafOf(a.val), q);
    } else if !(a.Remove? && EndsOnKey(a.path)) {
      FrameAvoidingKeys(fmt, fs, a.path, a.Write?, Effect(fmt, s, a), q);
    }
  }

  /** An edit elsewhere does not change whether an edit keeps the keys. */
  lemma {:induction false} StillKeepsKeys(fmt: NumberFormat, s: Schema, fs: Fields, a: TreeEdit, b: TreeEdit)
    requires Acceptable(fmt, s, a) && Acceptable(fmt, s, b) && PlacesPart(a, b)
    ensures KeepsKeys(Result(fmt, s, fs, a), b) <==> KeepsKeys(fs, b)
  {
    MoveShape(fmt, s, b);
    hide Follows, Alter, Read, Moved, EntryPath, Rekey, Diverge, AvoidsKeyLeaves, Meaning, ValueFits, Result, KeyPath, EndsOnKey, Acceptable;
    if Moves(b) {
      UnseenPath(fmt, s, fs, a, Moved(b.path, LeafOf(b.val).text));
    } else if b.Remove? && EndsOnKey(b.path) {
      UnseenPath(fmt, s, fs, a, EntryPath(b.path));
    }
  }

  lemma {:induction false} ResultsCommute(fmt: NumberFormat, s: Schema, fs: Fields, a: TreeEdit, b: TreeEdit)
    requires Acceptable(fmt, s, a) && Acceptable(fmt, s, b) && PlacesPart(a, b)
    ensures Result(fmt, s, Result(fmt, s, fs, a), b) == Result(fmt, s, Result(fmt, s, fs, b), a)
  {
    MoveShape(fmt, s, a);
    MoveShape(fmt, s, b);
    PlacesPartBack(a, b);
    EffectHarmless(fmt, s, a);
    EffectHarmless(fmt, s, b);
    hide Follows, Alter, Read, Moved, EntryPath, Rekey, Diverge, AvoidsKeyLeaves, Meaning, ValueFits, Effect, Harmless, KeyPath, EndsOnKey, Acceptable;
    if Moves(a) && Moves(b) {
      MoveAndMove(fmt, fs, a.path, LeafOf(a.val), b.path, LeafOf(b.val));
    } else if Moves(a) {
      if !(b.Remove? && EndsOnKey(b.path)) {
        MoveAndEdit(fmt, fs, a.path, LeafOf(a.val), b.path, b.Write?, Effect(fmt, s, b));
      }
    } else if Moves(b) {
      if !(a.Remove? && EndsOnKey(a.path)) {
        MoveAndEdit(fmt, fs, b.path, LeafOf(b.val), a.path, a.Write?, Effect(fmt, s, a));
      }
    } else if !(a.Remove? && EndsOnKey(a.path)) && !(b.Remove? && EndsOnKey(b.path)) {
      EditsCommute(fmt, fs, a.path, a.Write?, Effect(fmt, s, a), b.path, b.Write?, Effect(fmt, s, b));
    }
  }

  /** Two edits whose places part succeed in either order and mean the same tree: only list order can differ. */
  lemma {:induction false} EditsInEitherOrder(fmt: NumberFormat, ms: Members, s: Schema, a: TreeEdit, b: TreeEdit)
    requires MembersWellFormed(Object(ms), s) && Acceptable(fmt, s, a) && Acceptable(fmt, s, b) && PlacesPart(a, b)
    requires KeepsKeys(FieldsOf(ms, s), a) && KeepsKeys(FieldsOf(ms, s), b)
    ensures var ra, rb := Apply(fmt, ms, s, a), Apply(fmt, ms, s, b);
      ra.Ok? && rb.Ok? &&
      var rab, rba := Apply(fmt, ra.value, s, b), Apply(fmt, rb.value, s, a);
      && rab.Ok? && rba.Ok?
      && MembersWellFormed(Object(rab.value), s) && MembersWellFormed(Object(rba.value), s)
      && Meaning(Object(rab.value), s) == Meaning(Object(rba.value), s)
  {
    hide MembersWellFormed, WellFormed, Meaning, FieldsOf, Apply, Acceptable, KeepsKeys, Result, PlacesPart;
    AcceptableHasPath(fmt, s, a);
    AcceptableHasPath(fmt, s, b);
    var ra, rb := Apply(fmt, ms, s, a), Apply(fmt, ms, s, b);
    ApplyMeans(fmt, ms, s, a);
    ApplyMeans(fmt, ms, s, b);
    StillKeepsKeys(fmt, s, FieldsOf(ms, s), a, b);
    PlacesPartBack(a, b);
    StillKeepsKeys(fmt, s, FieldsOf(ms, s), b, a);
    ApplyMeans(fmt, ra.value, s, b);
    ApplyMeans(fmt, rb.value, s, a);
    ResultsCommute(fmt, s, FieldsOf(ms, s), a, b);
    ObjectMeaning(Apply(fmt, ra.value, s, b).value, s);
    ObjectMeaning(Apply(fmt, rb.value, s, a).value, s);
  }

  lemma {:induction false} AcceptableHasPath(fmt: NumberFormat, s: Schema, a: TreeEdit)
    requires Acceptable(fmt, s, a)
    ensures a.path != []
  {
  }

  // ---- Repeating an edit ----

  lemma {:induction false} PutTwice(fmt: NumberFormat, op: Op, e: Elem, v: Tree, before: Option<Tree>)
    ensures Put(fmt, op, e, v, Put(fmt, op, e, v, before)) == Put(fmt, op, e, v, before)
  {
    if v.Node? {
      var kept, keys := Kept(op, before), Fresh(fmt, e.keys);
      assert (kept + keys + v.fields) + keys + v.fields == kept + keys + v.fields;
      if op.Update? && before.Some? && before.value.Node? {
        assert (before.value.fields + v.fields) + v.fields == before.value.fields + v.fields;
      }
      assert v.fields + v.fields == v.fields;
    }
  }

  lemma {:induction false} ResultTwice(fmt: NumberFormat, s: Schema, fs: Fields, a: TreeEdit)
    requires a.path != [] && !Moves(a)
    ensures Result(fmt, s, Result(fmt, s, fs, a), a) == Result(fmt, s, fs, a)
  {
    hide Alter, Meaning;
    var f := Effect(fmt, s, a);
    forall x ensures f(f(x)) == f(x) {
      if a.Write? {
        PutTwice(fmt, a.op, Last(a.path), Meaning(a.val, SchemaAt(a.path, s)), x);
      }
    }
    EditTwice(fmt, fs, a.path, a.Write?, f);
  }

  /**
   Sending an edit again changes nothing exactly if it moves no entry: replace, update and delete are each idempotent. A
   move sent again makes a second entry and gives it the key tuple the first one now has.
   */
  lemma {:induction false} EditTwiceIsOnce(fmt: NumberFormat, ms: Members, s: Schema, a: TreeEdit)
    requires MembersWellFormed(Object(ms), s) && Acceptable(fmt, s, a) && KeepsKeys(FieldsOf(ms, s), a)
    ensures var r := Apply(fmt, ms, s, a);
      r.Ok? && var r' := Apply(fmt, r.value, s, a);
      r'.Ok? &&
      (MembersWellFormed(Object(r'.value), s) && Meaning(Object(r'.value), s) == Meaning(Object(r.value), s) <==> !Moves(a))
  {
    AcceptableHasPath(fmt, s, a);
    var r := Apply(fmt, ms, s, a);
    ApplyMeans(fmt, ms, s, a);
    ApplyMeans(fmt, r.value, s, a);
    if Moves(a) {
      ReadAfterEdit(fmt, ms, s, a);
    } else {
      StillSpare(fmt, ms, s, a);
      hide MembersWellFormed, WellFormed, Meaning, FieldsOf, Apply, Acceptable, KeepsKeys, Result;
      ResultTwice(fmt, s, FieldsOf(ms, s), a);
      ObjectMeaning(r.value, s);
      ObjectMeaning(Apply(fmt, r.value, s, a).value, s);
    }
  }

  lemma {:induction false} StillSpare(fmt: NumberFormat, ms: Members, s: Schema, a: TreeEdit)
    requires a.path != [] && !Moves(a) && KeepsKeys(FieldsOf(ms, s), a)
    ensures KeepsKeys(Result(fmt, s, FieldsOf(ms, s), a), a)
  {
    hide Alter, Meaning, FieldsOf, Read;
  }

  // ---- Deletes of nothing, and keys ----

  /** Deleting a path that leads nowhere, even through a missing list entry, leaves the JSON itself as it was. */
  lemma {:induction false} DeleteNothing(fmt: NumberFormat, ms: Members, s: Schema, p: Path)
    requires MembersWellFormed(Object(ms), s) && Follows(fmt, p, s) && Read(FieldsOf(ms, s), p) == None
    ensures DeleteAt(ms, s, p).0 == ms
  {
    if EndsOnKey(p) {
      EntryHoldsKeys(fmt, ms, s, p);
    }
    DeleteMeans(fmt, ms, s, p);
  }

  // ---- Which deletes count ----

  /** Every container the path leads through is there. */
  ghost predicate ContainersThere(fs: Fields, p: Path) {
    forall j :: 0 <= j < |p| - 1 && p[j].keys == map[] ==> Read(fs, p[..j + 1]).Some?
  }

  lemma {:induction false} NothingInNothing(p: Path)
    requires p != []
    ensures Read(map[], p) == None
  {
  }

  /** What lies below the first step; nothing if that is not there. */
  function Below(fs: Fields, e: Elem): Fields {
    match Child(fs, e)
    case Some(Node(fields)) => fields
    case _ => map[]
  }

  lemma {:induction false} ReadBelow(fs: Fields, p: Path)
    requires |p| >= 2
    ensures Read(fs, p) == Read(Below(fs, p[0]), p[1..])
  {
    NothingInNothing(p[1..]);
  }

  lemma {:induction false} ContainersBelow(fs: Fields, p: Path)
    requires |p| >= 2
    ensures ContainersThere(fs, p) <==> (p[0].keys == map[] ==> Child(fs, p[0]).Some?) && ContainersThere(Below(fs, p[0]), p[1..])
  {
    hide Child, Below;
    OneStepRead(fs, p[0]);
    assert p[..1] == [p[0]];
    var below, rest := Below(fs, p[0]), p[1..];
    if ContainersThere(fs, p) {
      forall j | 0 <= j < |rest| - 1 && rest[j].keys == map[] ensures Read(below, rest[..j + 1]).Some? {
        PrefixBelow(fs, p, j + 1);
        assert p[j + 1] == rest[j];
      }
    }
    if ContainersThere(below, rest) {
      forall j | 1 <= j < |p| - 1 && p[j].keys == map[] ensures Read(fs, p[..j + 1]).Some? {
        PrefixBelow(fs, p, j);
        assert p[j] == rest[j - 1];
      }
    }
  }

  lemma {:induction false} PrefixBelow(fs: Fields, p: Path, j: nat)
    requires 1 <= j < |p|
    ensures Read(fs, p[..j + 1]) == Read(Below(fs, p[0]), p[1..][..j])
  {
    hide Read, Below;
    ReadBelow(fs, p[..j + 1]);
    assert p[..j + 1][1..] == p[1..][..j];
  }

  /**
   The device is told of a delete exactly if, for a list entry, the entry is there, and, for anything else, all containers
   on the way are: whether the member itself is there, or the list entries on the way are, does not matter.
   */
  lemma {:induction false} DeleteIsTold(fmt: NumberFormat, ms: Members, s: Schema, p: Path)
    requires MembersWellFormed(Object(ms), s) && Follows(fmt, p, s)
    ensures DeleteAt(ms, s, p).1 <==> if Last(p).keys != map[] then Read(FieldsOf(ms, s), p).Some? else ContainersThere(FieldsOf(ms, s), p)
    decreases |p|
  {
    var e, fs := p[0], FieldsOf(ms, s);
    if |p| == 1 {
      hide *;
      LastStepTold(fmt, ms, s, p);
    } else {
      hide MembersWellFormed, WellFormed, Meaning, FieldsOf, Find, KeyedStep, Child, EntryFor, Carries, ContainersThere, Read, Below;
      InnerStep(fmt, p, s);
      var sub := s.dir[e.name];
      ContainersBelow(fs, p);
      ReadBelow(fs, p);
      if e.keys == map[] {
        ContainerStep(ms, s, e.name);
        if e.name in ms {
          BelowIs(fs, e, FieldsOf(ms[e.name].members, sub));
          DeleteIsTold(fmt, ms[e.name].members, sub, p[1..]);
        } else {
          BelowNothing(fs, e);
          NothingInNothing(p[1..]);
        }
      } else {
        FoundEntry(fmt, ms, s, e);
        EntryForMeans(fmt, ms, s, e);
        if Child(fs, e).Some? {
          var (es, i) := EntryFor(fmt, ms, e).value;
          ObjectOf(es[i], sub);
          ObjectMeaning(es[i].members, sub);
          BelowIs(fs, e, FieldsOf(es[i].members, sub));
          DeleteIsTold(fmt, es[i].members, sub, p[1..]);
        } else {
          BelowNothing(fs, e);
          EmptyWellFormed(sub);
          EmptyMeans(fmt, sub);
          DeleteIsTold(fmt, map[], sub, p[1..]);
        }
      }
    }
  }

  lemma {:induction false} LastStepTold(fmt: NumberFormat, ms: Members, s: Schema, p: Path)
    requires MembersWellFormed(Object(ms), s) && |p| == 1 && Follows(fmt, p, s)
    ensures DeleteAt(ms, s, p).1 <==> if Last(p).keys != map[] then Read(FieldsOf(ms, s), p).Some? else ContainersThere(FieldsOf(ms, s), p)
  {
    hide MembersWellFormed, WellFormed, Meaning, FieldsOf, Find, EntryFor;
    if p[0].keys != map[] {
      FoundEntry(fmt, ms, s, p[0]);
      OneStepRead(FieldsOf(ms, s), p[0]);
      assert p == [p[0]];
    }
  }

  lemma {:induction false} BelowIs(fs: Fields, e: Elem, fields: Fields)
    requires Child(fs, e) == Some(Node(fields))
    ensures Below(fs, e) == fields
  {
  }

  lemma {:induction false} BelowNothing(fs: Fields, e: Elem)
    requires Child(fs, e) == None
    ensures Below(fs, e) == map[]
  {
  }

  /** Every list entry on the path is read under the keys the path gives it. */
  ghost predicate EntriesKept(fs: Fields, p: Path) {
    forall q :: q <= p && q != [] && Last(q).keys != map[] ==> Read(fs, q).Some?
  }

  /** A write that is taken and moves no entry leaves the entries on its path where they are. */
  lemma {:induction false} WriteKeepsEntries(fmt: NumberFormat, op: Op, ms: Members, s: Schema, p: Path, val: Json)
    requires MembersWellFormed(Object(ms), s) && Follows(fmt, p, s) && ValueFits(p, s, val) && !Rekeys(p, val)
    requires SetAt(fmt, op, ms, s, p, val).Ok?
    ensures EntriesKept(FieldsOf(SetAt(fmt, op, ms, s, p, val).value, s), p)
  {
    SetMeans(fmt, op, ms, s, p, val);
    WellFormedFits(fmt, ms, s, p);
    PutsSomething(fmt, op, p, s, val);
    hide MembersWellFormed, WellFormed, Meaning, FieldsOf, Alter, Read, Follows, SetAt, FitsPath, Putting;
    var f := Putting(fmt, op, Last(p), Meaning(val, SchemaAt(p, s)));
    forall q | q <= p && q != [] && Last(q).keys != map[] ensures Read(FieldsOf(SetAt(fmt, op, ms, s, p, val).value, s), q).Some? {
      ReadAlong(fmt, FieldsOf(ms, s), p, f, q);
    }
  }

  /**
   A value is refused exactly if it gives a key attribute of its own entry another text. One that is taken leaves every
   entry on the path under its keys, exactly if it is not the value of such an attribute itself, with another text.
   */
  lemma {:induction false} KeysAreFixed(fmt: NumberFormat, op: Op, ms: Members, s: Schema, p: Path, val: Json)
    requires MembersWellFormed(Object(ms), s) && Follows(fmt, p, s) && ValueFits(p, s, val)
    ensures SetAt(fmt, op, ms, s, p, val) == Err(InvalidArgument)
       <==> val.Object? && exists k :: k in Last(p).keys && k in val.members && Printed(val.members[k]) != Last(p).keys[k]
    ensures SetAt(fmt, op, ms, s, p, val).Ok? ==>
      (EntriesKept(FieldsOf(SetAt(fmt, op, ms, s, p, val).value, s), p) <==> !Rekeys(p, val))
  {
    hide MembersWellFormed, WellFormed, Meaning, FieldsOf, Alter, Read, SetAt, Rekey, Moved;
    if Rekeys(p, val) {
      KeyWriteMoves(fmt, op, ms, s, p, val);
      KeyValue(fmt, s, p, val);
      var q := EntryPath(p);
      assert q <= p && Last(q) == p[|p| - 2] && Last(q).keys != map[];
    } else {
      SetMeans(fmt, op, ms, s, p, val);
      if SetAt(fmt, op, ms, s, p, val).Ok? {
        WriteKeepsEntries(fmt, op, ms, s, p, val);
      }
    }
  }

  lemma {:induction false} PutsSomething(fmt: NumberFormat, op: Op, p: Path, s: Schema, val: Json)
    requires p != [] && ValueFits(p, s, val)
    ensures forall x :: Putting(fmt, op, Last(p), Meaning(val, SchemaAt(p, s)))(x).Some?
  {
    KindOfMeaning(val, SchemaAt(p, s));
    if Last(p).keys != map[] {
      ObjectOf(val, SchemaAt(p, s));
    }
  }

  /**
   Why keys must be canonical: after a search has missed, the entry it appends is found at its place by the next search
   exactly when every key prints as it was given.
   */
  lemma {:induction false} CreatedEntryIsFound(fmt: NumberFormat, es: seq<Json>, e: Elem, i: nat)
    requires i <= |es| && Find(es, e.keys, i) == Missing
    ensures Find(es + [Object(NewMembers(fmt, e.keys))], e.keys, i) == Found(|es|)
       <==> forall k :: k in e.keys ==> Canonical(fmt, e.keys[k])
    decreases |es| - i
  {
    var entry := Object(NewMembers(fmt, e.keys));
    var all := es + [entry];
    if i < |es| {
      CreatedEntryIsFound(fmt, es, e, i + 1);
    } else {
      assert all[i] == entry && Comparable(entry, e.keys);
      assert Matches(entry, e.keys) <==> forall k :: k in e.keys ==> Canonical(fmt, e.keys[k]);
    }
  }
}
