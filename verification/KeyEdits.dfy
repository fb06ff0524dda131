/** Requests that end on a key attribute: the server takes them, and they are the ones that move entries and break lists. */
module KeyEdits {
  import opened Wrappers
  import opened PathTree
  import opened PathLaws
  import opened KeyMoves
  import opened JsonTree
  import opened JsonEdit
  import opened EditMeaning

  /** The entry whose key attribute is written, and the list it stands in. */
  lemma {:induction false} SetKeyStep(fmt: NumberFormat, op: Op, ms: Members, s: Schema, p: Path, val: Json, es: seq<Json>, i: nat)
    requires |p| == 2 && EndsOnKey(p) && Follows(fmt, p, s) && ValueFits(p, s, val)
    requires EntryFor(fmt, ms, p[0]) == Some((es, i)) && i < |es| && es[i].Object?
    ensures val.Scalar?
    ensures SetAt(fmt, op, ms, s, p, val) == Ok(ms[p[0].name := List(es[i := Object(es[i].members[KeyName(p) := val])])])
  {
    assert SchemaAt(p, s) == SchemaAt(p[1..], s.dir[p[0].name]);
  }

  /** Writing the key attribute gives the entry the moved tuple, and keeps it well-formed by itself. */
  lemma {:induction false} KeyWritten(fmt: NumberFormat, entry: Json, e: Elem, s: Schema, k: string, val: Json)
    requires KeyedStep(fmt, e, s) && MembersWellFormed(entry, s) && Carries(entry, e) && k in e.keys && val.Scalar?
    ensures var x := Object(entry.members[k := val]);
      && MembersWellFormed(x, s) && KeysOf(x, s.keys) == e.keys[k := Printed(val)]
      && (forall j :: j in s.keys ==> j in x.members && x.members[j].Scalar?)
      && Meaning(x, s) == Node(FieldsOf(entry.members, s)[k := Meaning(val, LEAF_SCHEMA)])
  {
    var x := Object(entry.members[k := val]);
    assert KeysOf(x, s.keys).Keys == s.keys;
    assert KeysOf(x, s.keys) == e.keys[k := Printed(val)];
    FieldsOfUpdate(entry.members, s, k, val);
  }

  /** In a list of distinct tuples, giving entry i another tuple keeps them distinct exactly if the tuple is free. */
  lemma {:induction false} TupleMoves(es: seq<Json>, s: Schema, i: nat, x: Json)
    requires i < |es| && DistinctKeys(es, s.keys) && KeysOf(x, s.keys) != KeysOf(es[i], s.keys)
    ensures DistinctKeys(es[i := x], s.keys) <==> KeysOf(x, s.keys) !in Tuples(es, s.keys)
    ensures KeysOf(es[i], s.keys) !in Tuples(es[i := x], s.keys)
    ensures DistinctKeys(es[i := x], s.keys) ==>
      EntriesOf(es[i := x], s) == (EntriesOf(es, s) - {KeysOf(es[i], s.keys)})[KeysOf(x, s.keys) := Meaning(x, s)]
  {
    hide Meaning, KeysOf;
    var all := es[i := x];
    if KeysOf(x, s.keys) in Tuples(es, s.keys) {
      var j :| 0 <= j < |es| && KeysOf(es[j], s.keys) == KeysOf(x, s.keys);
      assert all[j] == es[j] && all[i] == x;
    } else {
      assert forall j :: 0 <= j < |es| ==> KeysOf(es[j], s.keys) in Tuples(es, s.keys);
      assert DistinctKeys(all, s.keys);
      MovedEntries(es, s, i, x);
    }
  }

  lemma {:induction false} MovedEntries(es: seq<Json>, s: Schema, i: nat, x: Json)
    requires i < |es| && DistinctKeys(es, s.keys) && DistinctKeys(es[i := x], s.keys)
    requires KeysOf(x, s.keys) != KeysOf(es[i], s.keys) && KeysOf(x, s.keys) !in Tuples(es, s.keys)
    ensures EntriesOf(es[i := x], s) == (EntriesOf(es, s) - {KeysOf(es[i], s.keys)})[KeysOf(x, s.keys) := Meaning(x, s)]
  {
    hide Meaning, KeysOf;
    var all, t, t' := es[i := x], KeysOf(es[i], s.keys), KeysOf(x, s.keys);
    var m := (EntriesOf(es, s) - {t})[t' := Meaning(x, s)];
    forall j | 0 <= j < |all| ensures KeysOf(all[j], s.keys) in m && m[KeysOf(all[j], s.keys)] == Meaning(all[j], s) {
      if j != i {
        EntryMeaning(es, s, j);
        assert KeysOf(es[j], s.keys) != t;
      }
    }
    forall u | u in m ensures u in Tuples(all, s.keys) {
      if u == t' {
        assert all[i] == x;
      } else {
        var j := Position(es, s.keys, u);
        assert KeysOf(all[j], s.keys) == u;
      }
    }
    EntriesAre(all, s, m);
  }

  // ---- The move, in the list it happens in ----

  /** What writing a key attribute with another text does to well-formed members. */
  ghost predicate SetIsMove(fmt: NumberFormat, op: Op, ms: Members, s: Schema, p: Path, val: Json)
    requires |p| >= 2 && val.Scalar?
  {
    var r := SetAt(fmt, op, ms, s, p, val);
    var leaf := Leaf(val.kind, val.text);
    && r.Ok?
    && (MembersWellFormed(Object(r.value), s) <==> Read(FieldsOf(ms, s), Moved(p, val.text)) == None)
    && (MembersWellFormed(Object(r.value), s) ==> FieldsOf(r.value, s) == Rekey(fmt, FieldsOf(ms, s), p, leaf))
    && Read(FieldsOf(r.value, s), EntryPath(p)) == None
  }

  /** The entry that was found or made, and the list it stands in. */
  lemma {:induction false} EntryInList(fmt: NumberFormat, ms: Members, s: Schema, e: Elem, es: seq<Json>, i: nat)
    requires MembersWellFormed(Object(ms), s) && e.name in s.dir && KeyedStep(fmt, e, s.dir[e.name])
    requires EntryFor(fmt, ms, e) == Some((es, i))
    ensures i < |es| && MembersWellFormed(es[i], s.dir[e.name]) && Carries(es[i], e) && KeysOf(es[i], s.dir[e.name].keys) == e.keys
    ensures WellFormed(List(es), s.dir[e.name])
  {
    EntryForMeans(fmt, ms, s, e);
    CarriesKeys(es[i], e);
    assert e.keys.Keys == s.dir[e.name].keys;
    assert es[i := es[i]] == es;
    hide *;
    EntryUpserted(fmt, ms, s, e, es[i], es, i);
    EntryListWellFormed(fmt, ms, s, e, es[i], es, i);
  }

  /** The map the list stands for is the slot of the tree, with the entry in it. */
  lemma {:induction false} EntriesInList(fmt: NumberFormat, ms: Members, s: Schema, e: Elem, es: seq<Json>, i: nat)
    requires MembersWellFormed(Object(ms), s) && e.name in s.dir && KeyedStep(fmt, e, s.dir[e.name])
    requires EntryFor(fmt, ms, e) == Some((es, i)) && i < |es|
    ensures EntriesOf(es, s.dir[e.name]) == SlotEntries(Lookup(FieldsOf(ms, s), e.name))[e.keys := Meaning(es[i], s.dir[e.name])]
    ensures Fits(FieldsOf(ms, s), e)
  {
    KeyedStepIsKeyed(fmt, e, s.dir[e.name]);
    EntryInList(fmt, ms, s, e, es, i);
    assert es[i := es[i]] == es;
    hide *;
    EntryUpserted(fmt, ms, s, e, es[i], es, i);
    ListMeans(ms, s, e);
  }

  lemma {:induction false} EntryFieldsAre(fmt: NumberFormat, ms: Members, s: Schema, p: Path, es: seq<Json>, i: nat)
    requires |p| == 2 && MembersWellFormed(Object(ms), s) && p[0].name in s.dir && KeyedStep(fmt, p[0], s.dir[p[0].name])
    requires EntryFor(fmt, ms, p[0]) == Some((es, i)) && i < |es|
    ensures es[i].Object? && EntryFields(fmt, FieldsOf(ms, s), p) == FieldsOf(es[i].members, s.dir[p[0].name])
  {
    var e, sub := p[0], s.dir[p[0].name];
    EntryForMeans(fmt, ms, s, e);
    NewMembersMean(fmt, e, sub);
    ObjectOf(es[i], sub);
    ObjectMeaning(es[i].members, sub);
    assert EntryPath(p) == [e];
    hide MembersWellFormed, WellFormed, Meaning, FieldsOf, EntryFor, Carries, KeyedStep, NewMembers, Child;
    OneStepRead(FieldsOf(ms, s), e);
  }

  /** The tree after the entry was replaced by one with another tuple, and where that puts it. */
  lemma {:induction false} MovedInTree(ms: Members, s: Schema, e: Elem, to: Elem, es: seq<Json>, i: nat, x: Json)
    requires e.name in s.dir && i < |es| && to.name == e.name && e.keys != map[] && to.keys != map[] && to.keys != e.keys
    requires DistinctKeys(es, s.dir[e.name].keys) && Fits(FieldsOf(ms, s), e)
    requires KeysOf(es[i], s.dir[e.name].keys) == e.keys && KeysOf(x, s.dir[e.name].keys) == to.keys
    requires EntriesOf(es, s.dir[e.name]) == SlotEntries(Lookup(FieldsOf(ms, s), e.name))[e.keys := Meaning(es[i], s.dir[e.name])]
    ensures var fs, fs' := FieldsOf(ms, s), FieldsOf(ms[e.name := List(es[i := x])], s);
      && (DistinctKeys(es[i := x], s.dir[e.name].keys) <==> Read(fs, [to]) == None)
      && (DistinctKeys(es[i := x], s.dir[e.name].keys) ==>
            fs' == WithChild(WithChild(fs, e, None), to, Some(Meaning(x, s.dir[e.name]))))
      && Read(fs', [e]) == None
  {
    hide Meaning, FieldsOf, DistinctKeys, KeysOf, EntriesOf, WithChild, Child, Fits, Read, Tuples;
    var fs, sub := FieldsOf(ms, s), s.dir[e.name];
    var all := es[i := x];
    TupleMoves(es, sub, i, x);
    ListInTree(ms, s, e.name, all);
    TwoPlaces(fs, e, to, Meaning(x, sub));
    OneStepRead(fs, to);
    OneStepRead(FieldsOf(ms[e.name := List(all)], s), e);
    EntriesDomain(es, sub, to.keys);
    EntriesDomain(all, sub, e.keys);
    SameWithout(SlotEntries(Lookup(fs, e.name)), e.keys, Meaning(es[i], sub));
  }

  lemma {:induction false} ListInTree(ms: Members, s: Schema, name: string, es: seq<Json>)
    requires name in s.dir
    ensures FieldsOf(ms[name := List(es)], s) == FieldsOf(ms, s)[name := Many(EntriesOf(es, s.dir[name]))]
    ensures SlotEntries(Lookup(FieldsOf(ms[name := List(es)], s), name)) == EntriesOf(es, s.dir[name])
  {
    hide Meaning, EntriesOf;
    FieldsOfUpdate(ms, s, name, List(es));
    ListMeaning(es, s.dir[name]);
  }

  lemma {:induction false} EntriesDomain(es: seq<Json>, s: Schema, t: Keys)
    ensures t in EntriesOf(es, s) <==> t in Tuples(es, s.keys)
  {
  }

  lemma {:induction false} SameWithout(slot: map<Keys, Tree>, t: Keys, x: Tree)
    ensures slot[t := x] - {t} == slot - {t}
    ensures forall u :: u != t ==> Lookup(slot[t := x], u) == Lookup(slot, u)
  {
  }

  lemma {:induction false} SetKeyInList(fmt: NumberFormat, op: Op, ms: Members, s: Schema, p: Path, val: Json)
    requires MembersWellFormed(Object(ms), s) && |p| == 2 && Follows(fmt, p, s) && ValueFits(p, s, val) && Rekeys(p, val)
    ensures val.Scalar? && SetIsMove(fmt, op, ms, s, p, val)
  {
    InnerStep(fmt, p, s);
    var e, k, sub := p[0], KeyName(p), s.dir[p[0].name];
    EntryForMeans(fmt, ms, s, e);
    var (es, i) := EntryFor(fmt, ms, e).value;
    EntryInList(fmt, ms, s, e, es, i);
    ObjectOf(es[i], sub);
    SetKeyStep(fmt, op, ms, s, p, val, es, i);
    var x, to, leaf := Object(es[i].members[k := val]), MovedStep(p, val.text), Leaf(val.kind, val.text);
    assert e.keys[k := val.text][k] == val.text && e.keys[k] == KeyText(p);
    LeafMeaning(val);
    hide *;
    KeyStepIs(p, val.text);
    KeyWritten(fmt, es[i], e, sub, k, val);
    EntriesInList(fmt, ms, s, e, es, i);
    ListShape(es, sub);
    MovedInTree(ms, s, e, to, es, i, x);
    ListWithMoved(ms, s, e.name, es, i, x);
    EntryFieldsAre(fmt, ms, s, p, es, i);
    RekeyBase(fmt, FieldsOf(ms, s), p, leaf);
    MovedFieldsAre(fmt, FieldsOf(ms, s), p, leaf);
    SetMoves(fmt, op, ms, s, p, val, ms[e.name := List(es[i := x])]);
  }

  lemma {:induction false} KeyStepIs(p: Path, text: string)
    requires |p| == 2 && EndsOnKey(p) && text != KeyText(p)
    ensures MovedStep(p, text).name == p[0].name && MovedStep(p, text).keys == p[0].keys[KeyName(p) := text]
    ensures KeyName(p) in p[0].keys && p[0].keys != map[] && MovedStep(p, text).keys != map[] && MovedStep(p, text).keys != p[0].keys
  {
    assert MovedStep(p, text).keys[KeyName(p)] == text;
  }

  lemma {:induction false} MovedFieldsAre(fmt: NumberFormat, fs: Fields, p: Path, leaf: Tree)
    requires |p| >= 2
    ensures MovedFields(fmt, fs, p, leaf) == EntryFields(fmt, fs, p)[KeyName(p) := leaf]
  {
  }

  lemma {:induction false} SetMoves(fmt: NumberFormat, op: Op, ms: Members, s: Schema, p: Path, val: Json, ms': Members)
    requires |p| >= 2 && val.Scalar? && SetAt(fmt, op, ms, s, p, val) == Ok(ms')
    requires MembersWellFormed(Object(ms'), s) <==> Read(FieldsOf(ms, s), Moved(p, val.text)) == None
    requires MembersWellFormed(Object(ms'), s) ==> FieldsOf(ms', s) == Rekey(fmt, FieldsOf(ms, s), p, Leaf(val.kind, val.text))
    requires Read(FieldsOf(ms', s), EntryPath(p)) == None
    ensures SetIsMove(fmt, op, ms, s, p, val)
  {
  }

  lemma {:induction false} LeafMeaning(val: Json)
    requires val.Scalar?
    ensures Meaning(val, LEAF_SCHEMA) == Leaf(val.kind, val.text) && Printed(val) == val.text
  {
  }

  lemma {:induction false} OneStepRead(fs: Fields, e: Elem)
    ensures Read(fs, [e]) == Child(fs, e)
    ensures e.keys != map[] ==> Child(fs, e) == Lookup(SlotEntries(Lookup(fs, e.name)), e.keys)
  {
  }

  /** Taking one entry away and putting another in, in a list that may go and come back. */
  lemma {:induction false} TwoPlaces(fs: Fields, e: Elem, to: Elem, t: Tree)
    requires to.name == e.name && e.keys != map[] && to.keys != map[] && Fits(fs, e)
    ensures WithChild(WithChild(fs, e, None), to, Some(t)) == fs[e.name := Many((SlotEntries(Lookup(fs, e.name)) - {e.keys})[to.keys := t])]
  {
    var entries := SlotEntries(Lookup(fs, e.name)) - {e.keys};
    var slot := SetSlot(Lookup(fs, e.name), e.keys, None);
    BindLaws(fs, e.name, slot, None);
    assert SlotEntries(slot) == entries;
    assert entries[to.keys := t] != map[] by {
      assert to.keys in entries[to.keys := t];
    }
  }

  /** The tree with the list in which one entry was replaced is well-formed exactly if the tuples are distinct. */
  lemma {:induction false} ListWithMoved(ms: Members, s: Schema, name: string, es: seq<Json>, i: nat, x: Json)
    requires MembersWellFormed(Object(ms), s) && name in s.dir && WellFormed(List(es), s.dir[name]) && i < |es|
    requires MembersWellFormed(x, s.dir[name]) && forall j :: j in s.dir[name].keys ==> x.Object? && j in x.members && x.members[j].Scalar?
    ensures MembersWellFormed(Object(ms[name := List(es[i := x])]), s) <==> DistinctKeys(es[i := x], s.dir[name].keys)
  {
    var all, ms', sub := es[i := x], ms[name := List(es[i := x])], s.dir[name];
    ListShape(es, sub);
    ObjectOf(x, sub);
    if MembersWellFormed(Object(ms'), s) {
      MemberShape(ms', s, name);
      ListShape(all, sub);
    }
    if DistinctKeys(all, sub.keys) {
      hide MembersWellFormed, WellFormed;
      ListWellFormed(all, sub);
      WellFormedUpdate(ms, s, name, List(all));
    }
  }

  // ---- The move, at any depth ----

  lemma {:induction false} MoveThrough(fmt: NumberFormat, op: Op, ms: Members, s: Schema, p: Path, val: Json, below: Members, ms': Members)
    requires |p| >= 3 && KeyPath(p) && p[0].name in s.dir && val.Scalar? && SetIsMove(fmt, op, below, s.dir[p[0].name], p[1..], val)
    requires SetAt(fmt, op, ms, s, p, val) == Ok(ms')
    requires var inner := SetAt(fmt, op, below, s.dir[p[0].name], p[1..], val).value;
      && FieldsOf(ms', s) == WithChild(FieldsOf(ms, s), p[0], Some(Node(FieldsOf(inner, s.dir[p[0].name]))))
      && (MembersWellFormed(Object(ms'), s) <==> MembersWellFormed(Object(inner), s.dir[p[0].name]))
    requires Fits(FieldsOf(ms, s), p[0])
    requires var fields := FieldsOf(below, s.dir[p[0].name]);
      Child(FieldsOf(ms, s), p[0]) == Some(Node(fields)) || (Child(FieldsOf(ms, s), p[0]) == None && fields == Fresh(fmt, p[0].keys))
    ensures SetIsMove(fmt, op, ms, s, p, val)
  {
    var e, sub, fs := p[0], s.dir[p[0].name], FieldsOf(ms, s);
    var fields, leaf := FieldsOf(below, sub), Leaf(val.kind, val.text);
    var inner := SetAt(fmt, op, below, sub, p[1..], val).value;
    InnerPaths(p, val.text);
    RekeyInner(fmt, fs, p, leaf, fields);
    ChildOfWithChild(fs, e, Some(Node(FieldsOf(inner, sub))), None);
    ReadInner(FieldsOf(ms', s), EntryPath(p), FieldsOf(inner, sub));
    if Child(fs, e).Some? {
      ReadInner(fs, Moved(p, val.text), fields);
    } else {
      NothingInNew(fmt, p, val.text);
    }
    hide *;
    SetMoves(fmt, op, ms, s, p, val, ms');
  }

  lemma {:induction false} NothingInNew(fmt: NumberFormat, p: Path, text: string)
    requires KeyPath(p) && |p| >= 3
    ensures Read(Fresh(fmt, p[0].keys), Moved(p[1..], text)) == None
  {
    InnerPaths(p, text);
    FreshHolds(fmt, p[0].keys, Moved(p[1..], text)[0]);
  }

  lemma {:induction false} MoveThroughContainer(fmt: NumberFormat, op: Op, ms: Members, s: Schema, p: Path, val: Json, below: Members)
    requires MembersWellFormed(Object(ms), s) && |p| >= 3 && Follows(fmt, p, s) && EndsOnKey(p) && val.Scalar?
    requires p[0].keys == map[] && below == if p[0].name in ms && ms[p[0].name].Object? then ms[p[0].name].members else map[]
    requires p[0].name in s.dir && SetIsMove(fmt, op, below, s.dir[p[0].name], p[1..], val)
    ensures SetIsMove(fmt, op, ms, s, p, val)
  {
    InnerStep(fmt, p, s);
    KeyAtEnd(fmt, p, s);
    var e, sub := p[0], s.dir[p[0].name];
    ContainerStep(ms, s, e.name);
    EmptyMeans(fmt, sub);
    SetAtInner(fmt, op, ms, s, p, val, below);
    var r := SetAt(fmt, op, below, sub, p[1..], val);
    assert e == Elem(e.name, map[]);
    ContainerFieldsWritten(ms, s, e.name, r.value);
    ContainerBack(ms, s, e.name, r.value);
    assert SetAt(fmt, op, ms, s, p, val) == Ok(ms[e.name := Object(r.value)]);
    hide MembersWellFormed, WellFormed, Meaning, FieldsOf, WithChild, Child, Fits, Follows, SetAt;
    MoveThrough(fmt, op, ms, s, p, val, below, ms[e.name := Object(r.value)]);
  }

  lemma {:induction false} ContainerBack(ms: Members, s: Schema, name: string, below: Members)
    requires MembersWellFormed(Object(ms), s) && name in s.dir && !s.dir[name].leaf && s.dir[name].keys == {}
    ensures MembersWellFormed(Object(ms[name := Object(below)]), s) <==> MembersWellFormed(Object(below), s.dir[name])
  {
    var ms' := ms[name := Object(below)];
    if MembersWellFormed(Object(ms'), s) {
      MemberShape(ms', s, name);
      ObjectShape(Object(below), s.dir[name]);
    }
    if MembersWellFormed(Object(below), s.dir[name]) {
      ContainerWritten(ms, s, name, below);
    }
  }

  lemma {:induction false} EntryBack(fmt: NumberFormat, ms: Members, s: Schema, e: Elem, below: Members, es: seq<Json>, i: nat)
    requires MembersWellFormed(Object(ms), s) && e.name in s.dir && KeyedStep(fmt, e, s.dir[e.name])
    requires EntryFor(fmt, ms, e) == Some((es, i)) && Carries(Object(below), e)
    ensures i < |es| && (MembersWellFormed(Object(ms[e.name := List(es[i := Object(below)])]), s) <==> MembersWellFormed(Object(below), s.dir[e.name]))
  {
    var all := es[i := Object(below)];
    var ms' := ms[e.name := List(all)];
    EntryInList(fmt, ms, s, e, es, i);
    hide EntryFor, Carries, KeyedStep, Meaning;
    if MembersWellFormed(Object(ms'), s) {
      MemberShape(ms', s, e.name);
      ListShape(all, s.dir[e.name]);
      assert all[i] == Object(below);
    }
    if MembersWellFormed(Object(below), s.dir[e.name]) {
      EntryWritten(fmt, ms, s, e, Object(below), es, i);
    }
  }

  lemma {:induction false} MoveThroughEntry(fmt: NumberFormat, op: Op, ms: Members, s: Schema, p: Path, val: Json, es: seq<Json>, i: nat)
    requires MembersWellFormed(Object(ms), s) && |p| >= 3 && Follows(fmt, p, s) && EndsOnKey(p) && val.Scalar?
    requires p[0].keys != map[] && EntryFor(fmt, ms, p[0]) == Some((es, i)) && i < |es| && es[i].Object?
    requires p[0].name in s.dir && SetIsMove(fmt, op, es[i].members, s.dir[p[0].name], p[1..], val)
    ensures SetIsMove(fmt, op, ms, s, p, val)
  {
    InnerStep(fmt, p, s);
    KeyAtEnd(fmt, p, s);
    hide MembersWellFormed, WellFormed, Meaning, FieldsOf, WithChild, Child, Fits, Follows, SetAt, EntryFor, Carries, KeyedStep, KeyPath, EndsOnKey;
    var e, sub, below := p[0], s.dir[p[0].name], es[i].members;
    EntryForMeans(fmt, ms, s, e);
    SetAtInner(fmt, op, ms, s, p, val, below);
    var r := SetAt(fmt, op, below, sub, p[1..], val);
    NewMembersMean(fmt, e, sub);
    SetElsewhere(fmt, op, below, sub, p[1..], val);
    EditedEntryCarries(fmt, es[i], e, sub, r.value, p[1].name);
    EntryFieldsWritten(fmt, ms, s, e, Object(r.value), es, i);
    EntryBack(fmt, ms, s, e, r.value, es, i);
    ObjectMeaning(below, sub);
    ObjectMeaning(r.value, sub);
    MoveThrough(fmt, op, ms, s, p, val, below, ms[e.name := List(es[i := Object(r.value)])]);
  }

  /**
   Writing a key attribute with another text is never refused. The tree stays well-formed exactly if no entry of the list
   has the new key tuple, and then the entry has moved to it; in any case nothing is left under the old one.
   */
  lemma {:induction false} KeyWriteMoves(fmt: NumberFormat, op: Op, ms: Members, s: Schema, p: Path, val: Json)
    requires MembersWellFormed(Object(ms), s) && Follows(fmt, p, s) && ValueFits(p, s, val) && Rekeys(p, val)
    ensures val.Scalar? && SetIsMove(fmt, op, ms, s, p, val)
    decreases |p|
  {
    if |p| == 2 {
      SetKeyInList(fmt, op, ms, s, p, val);
    } else {
      InnerStep(fmt, p, s);
      var e, sub := p[0], s.dir[p[0].name];
      if e.keys == map[] {
        ContainerStep(ms, s, e.name);
        EmptyMeans(fmt, sub);
        var below := if e.name in ms then ms[e.name].members else map[];
        hide *;
        InnerRekeys(fmt, p, s, val);
        KeyWriteMoves(fmt, op, below, sub, p[1..], val);
        MoveThroughContainer(fmt, op, ms, s, p, val, below);
      } else {
        EntryForMeans(fmt, ms, s, e);
        var (es, i) := EntryFor(fmt, ms, e).value;
        ObjectOf(es[i], sub);
        hide *;
        InnerRekeys(fmt, p, s, val);
        KeyWriteMoves(fmt, op, es[i].members, sub, p[1..], val);
        MoveThroughEntry(fmt, op, ms, s, p, val, es, i);
      }
    }
  }

  lemma {:induction false} InnerRekeys(fmt: NumberFormat, p: Path, s: Schema, val: Json)
    requires Follows(fmt, p, s) && |p| >= 3 && Rekeys(p, val)
    ensures EndsOnKey(p) && EndsOnKey(p[1..]) && Rekeys(p[1..], val)
  {
    InnerStep(fmt, p, s);
  }

  // ---- Deleting a key attribute ----

  /** The entry whose key attribute the path ends on is there, and so is all that leads to it. */
  lemma {:induction false} KeyStepThere(fmt: NumberFormat, fs: Fields, p: Path, s: Schema)
    requires Follows(fmt, p, s) && !SpareKey(fs, p)
    ensures EndsOnKey(p) && Child(fs, p[0]).Some?
    ensures |p| == 2 ==> p[0].keys != map[]
    ensures |p| >= 3 ==> p[1].name !in p[0].keys
  {
    InnerStep(fmt, p, s);
    assert EntryPath(p)[0] == p[0];
  }

  lemma {:induction false} KeyBelow(fs: Fields, p: Path, below: Fields)
    requires |p| >= 3 && !SpareKey(fs, p) && Child(fs, p[0]) == Some(Node(below))
    ensures !SpareKey(below, p[1..])
  {
    assert EntryPath(p)[1..] == EntryPath(p[1..]) && EntryPath(p)[0] == p[0];
    hide Child;
    ReadInner(fs, EntryPath(p), below);
  }

  lemma {:induction false} DeleteAtContainer(ms: Members, s: Schema, p: Path)
    requires |p| >= 2 && p[0].keys == map[] && p[0].name in s.dir && p[0].name in ms && ms[p[0].name].Object?
    ensures DeleteAt(ms, s, p).0 == ms[p[0].name := Object(DeleteAt(ms[p[0].name].members, s.dir[p[0].name], p[1..]).0)]
  {
  }

  /** Deleting a key attribute of an entry that is there leaves a list that is no longer keyed. */
  lemma {:induction false} KeyDeleteBreaks(fmt: NumberFormat, ms: Members, s: Schema, p: Path)
    requires MembersWellFormed(Object(ms), s) && Follows(fmt, p, s) && !SpareKey(FieldsOf(ms, s), p)
    ensures !MembersWellFormed(Object(DeleteAt(ms, s, p).0), s)
    decreases |p|
  {
    KeyStepThere(fmt, FieldsOf(ms, s), p, s);
    InnerStep(fmt, p, s);
    var e, sub := p[0], s.dir[p[0].name];
    if e.keys == map[] {
      ContainerStep(ms, s, e.name);
      hide *;
      var below := ms[e.name].members;
      KeyBelow(FieldsOf(ms, s), p, FieldsOf(below, sub));
      KeyDeleteBreaks(fmt, below, sub, p[1..]);
      DeleteAtContainer(ms, s, p);
      ContainerBack(ms, s, e.name, DeleteAt(below, sub, p[1..]).0);
    } else {
      FoundEntry(fmt, ms, s, e);
      EntryForMeans(fmt, ms, s, e);
      var (es, i) := EntryFor(fmt, ms, e).value;
      ObjectOf(es[i], sub);
      ObjectMeaning(es[i].members, sub);
      DeleteAtEntry(ms, s, p, es, i);
      if |p| == 2 {
        StepOfKeys(fmt, e, sub);
        hide *;
        KeylessEntry(ms, s, p, es, i);
      } else {
        hide *;
        var below := es[i].members;
        KeyBelow(FieldsOf(ms, s), p, FieldsOf(below, sub));
        KeyDeleteBreaks(fmt, below, sub, p[1..]);
        DeleteElsewhere(below, sub, p[1..]);
        EditedEntryCarries(fmt, es[i], e, sub, DeleteAt(below, sub, p[1..]).0, p[1].name);
        EntryBack(fmt, ms, s, e, DeleteAt(below, sub, p[1..]).0, es, i);
      }
    }
  }

  lemma {:induction false} StepOfKeys(fmt: NumberFormat, e: Elem, s: Schema)
    requires KeyedStep(fmt, e, s)
    ensures e.keys.Keys == s.keys
  {
  }

  lemma {:induction false} KeylessEntry(ms: Members, s: Schema, p: Path, es: seq<Json>, i: nat)
    requires |p| == 2 && EndsOnKey(p) && p[0].name in s.dir && p[0].keys.Keys == s.dir[p[0].name].keys && i < |es| && es[i].Object?
    ensures !MembersWellFormed(Object(ms[p[0].name := List(es[i := Object(DeleteAt(es[i].members, s.dir[p[0].name], p[1..]).0)])]), s)
  {
    var sub := s.dir[p[0].name];
    var x := Object(DeleteAt(es[i].members, sub, p[1..]).0);
    assert KeyName(p) !in x.members && KeyName(p) in sub.keys;
    var ms' := ms[p[0].name := List(es[i := x])];
    assert es[i := x][i] == x;
    if MembersWellFormed(Object(ms'), s) {
      MemberShape(ms', s, p[0].name);
      ListShape(es[i := x], sub);
    }
  }

  // ---- The smallest requests that break a tree ----

  const PLAIN_FORMAT: NumberFormat := v => None

  const IF_SCHEMA := Schema(false, {"name"}, map["name" := LEAF_SCHEMA, "mtu" := LEAF_SCHEMA])
  const ROOT_SCHEMA := Schema(false, {}, map["if" := IF_SCHEMA])

  function Named(name: string): Json {
    Object(map["name" := Scalar(Text, name)])
  }

  const TWO_INTERFACES: Members := map["if" := List([Named("a"), Named("b")])]

  function InterfaceStep(name: string): Elem {
    Elem("if", map["name" := name])
  }

  const NAME_OF_A: Path := [InterfaceStep("a"), Elem("name", map[])]

  lemma {:induction false} TwoInterfaces()
    ensures MembersWellFormed(Object(TWO_INTERFACES), ROOT_SCHEMA)
    ensures Follows(PLAIN_FORMAT, NAME_OF_A, ROOT_SCHEMA) && EndsOnKey(NAME_OF_A)
    ensures Find([Named("a"), Named("b")], map["name" := "a"], 0) == Found(0)
  {
    var es := [Named("a"), Named("b")];
    assert KeysOf(es[0], {"name"}) == map["name" := "a"] && KeysOf(es[1], {"name"}) == map["name" := "b"];
    assert map["name" := "a"]["name"] != map["name" := "b"]["name"];
    assert forall i :: 0 <= i < |es| ==> MembersWellFormed(es[i], IF_SCHEMA);
    assert WellFormed(List(es), IF_SCHEMA);
    assert KeyedStep(PLAIN_FORMAT, InterfaceStep("a"), IF_SCHEMA);
    assert NAME_OF_A[1..] == [Elem("name", map[])];
  }

  /** Interfaces a and b: replacing the name of a by "b" is accepted, and the list holds two entries named b. */
  lemma {:induction false} KeyWrittenTwice()
    ensures ValueFits(NAME_OF_A, ROOT_SCHEMA, Scalar(Text, "b")) && !Conflicts(Last(NAME_OF_A), Scalar(Text, "b"))
    ensures SetAt(PLAIN_FORMAT, Replace, TWO_INTERFACES, ROOT_SCHEMA, NAME_OF_A, Scalar(Text, "b"))
         == Ok(map["if" := List([Named("b"), Named("b")])])
    ensures !MembersWellFormed(Object(map["if" := List([Named("b"), Named("b")])]), ROOT_SCHEMA)
  {
    TwoInterfaces();
    var p, es, val := NAME_OF_A, [Named("a"), Named("b")], Scalar(Text, "b");
    assert p[1..] == [Elem("name", map[])] && SchemaAt(p[1..][1..], LEAF_SCHEMA) == LEAF_SCHEMA;
    assert SchemaAt(p, ROOT_SCHEMA) == LEAF_SCHEMA by {
      assert SchemaAt(p[1..], IF_SCHEMA) == SchemaAt(p[1..][1..], LEAF_SCHEMA);
    }
    SetKeyStep(PLAIN_FORMAT, Replace, TWO_INTERFACES, ROOT_SCHEMA, p, val, es, 0);
    assert Named("a").members["name" := val] == Named("b").members;
    assert es[0 := Object(es[0].members["name" := val])] == [Named("b"), Named("b")];
    var ms' := map["if" := List([Named("b"), Named("b")])];
    assert TWO_INTERFACES["if" := List([Named("b"), Named("b")])] == ms';
    var twice := [Named("b"), Named("b")];
    assert KeysOf(twice[0], {"name"}) == KeysOf(twice[1], {"name"});
    assert !DistinctKeys(twice, {"name"});
    assert !WellFormed(List(twice), IF_SCHEMA);
  }

  /** After the name of a is deleted, a write below interface b walks into the nil map and panics. */
  lemma {:induction false} KeyDeletedCrashes(val: Json)
    ensures var ms' := DeleteAt(TWO_INTERFACES, ROOT_SCHEMA, NAME_OF_A).0;
      SetAt(PLAIN_FORMAT, Replace, ms', ROOT_SCHEMA, [InterfaceStep("b"), Elem("mtu", map[])], val) == Err(Crash)
  {
    TwoInterfaces();
    var p, es, q := NAME_OF_A, [Named("a"), Named("b")], [InterfaceStep("b"), Elem("mtu", map[])];
    assert p[1..] == [Elem("name", map[])] && q[1..] == [Elem("mtu", map[])];
    DeleteAtEntry(TWO_INTERFACES, ROOT_SCHEMA, p, es, 0);
    var es' := es[0 := Object(map[])];
    assert Named("a").members - {"name"} == map[];
    assert DeleteAt(TWO_INTERFACES, ROOT_SCHEMA, p).0 == TWO_INTERFACES["if" := List(es')];
    assert !Comparable(es'[0], InterfaceStep("b").keys) by {
      assert "name" in InterfaceStep("b").keys;
    }
    assert Find(es', InterfaceStep("b").keys, 0) == Malformed;
  }
}
