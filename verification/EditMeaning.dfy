/** On well-formed trees the server's edits keep the tree well-formed and mean exactly the PathTree edits. */
module EditMeaning {
  import opened Wrappers
  import opened PathTree
  import opened PathLaws
  import opened KeyMoves
  import opened JsonTree
  import opened JsonEdit

  // ---- Setting ----

  lemma {:induction false} KindOfMeaning(j: Json, s: Schema)
    ensures Meaning(j, s).Node? <==> j.Object?
    ensures j.Object? ==> Meaning(j, s) == Node(FieldsOf(j.members, s))
  {
  }

  lemma {:induction false} SetMemberMeans(fmt: NumberFormat, op: Op, ms: Members, s: Schema, e: Elem, val: Json)
    requires MembersWellFormed(Object(ms), s) && e.name in s.dir && e.keys == map[] && WellFormed(val, s.dir[e.name])
    ensures var r := SetMember(op, ms, e.name, val);
      && r.Ok? && MembersWellFormed(Object(r.value), s)
      && FieldsOf(r.value, s) == WithChild(FieldsOf(ms, s), e, Put(fmt, op, e, Meaning(val, s.dir[e.name]), Child(FieldsOf(ms, s), e)))
  {
    hide WellFormed, MembersWellFormed, Meaning;
    var sub := s.dir[e.name];
    KindOfMeaning(val, sub);
    var x := val;
    if op.Update? && e.name in ms && val.Object? {
      MemberShape(ms, s, e.name);
      ObjectShape(val, sub);
      ObjectShape(ms[e.name], sub);
      KindOfMeaning(ms[e.name], sub);
      x := Object(ms[e.name].members + val.members);
      KindOfMeaning(x, sub);
      OverlayMeaning(ms[e.name].members, val.members, sub);
      ContainerWellFormed(x.members, sub);
    }
    assert SetMember(op, ms, e.name, val) == Ok(ms[e.name := x]);
    WellFormedUpdate(ms, s, e.name, x);
    FieldsOfUpdate(ms, s, e.name, x);
    assert Put(fmt, op, e, Meaning(val, sub), Child(FieldsOf(ms, s), e)) == Some(Meaning(x, sub));
  }

  /** The entry that replace or update writes still carries the keys of its step. */
  lemma {:induction false} WrittenEntry(fmt: NumberFormat, kept: Members, s: Schema, e: Elem, val: Json)
    requires KeyedStep(fmt, e, s) && MembersWellFormed(Object(kept), s) && MembersWellFormed(val, s) && !Conflicts(e, val)
    ensures var x := Object(kept + NewMembers(fmt, e.keys) + val.members);
      && MembersWellFormed(x, s) && Carries(x, e)
      && Meaning(x, s) == Node(FieldsOf(kept, s) + Fresh(fmt, e.keys) + FieldsOf(val.members, s))
  {
    var fresh' := NewMembers(fmt, e.keys);
    NewMembersMean(fmt, e, s);
    OverlayMeaning(kept, fresh', s);
    OverlayMeaning(kept + fresh', val.members, s);
    var x := Object(kept + fresh' + val.members);
    forall k | k in e.keys ensures k in x.members && x.members[k].Scalar? && Printed(x.members[k]) == e.keys[k] {
      if k in val.members {
        assert WellFormed(val.members[k], s.dir[k]);
      }
    }
    assert Meaning(x, s) == Node(FieldsOf(x.members, s));
  }

  /** Replace and update at an entry, in terms of the entry that was found or made. */
  lemma {:induction false} PutEntry(fmt: NumberFormat, op: Op, s: Schema, e: Elem, entry: Json, val: Json, before: Option<Tree>)
    requires e.keys != map[] && entry.Object? && val.Object?
    requires before == Some(Meaning(entry, s)) || (before == None && entry == Object(NewMembers(fmt, e.keys)))
    ensures var kept := if op.Update? then entry.members else map[];
      Put(fmt, op, e, Meaning(val, s), before) == Some(Node(FieldsOf(kept, s) + Fresh(fmt, e.keys) + FieldsOf(val.members, s)))
  {
    hide Meaning;
    KindOfMeaning(val, s);
    KindOfMeaning(entry, s);
    NewMembersMean(fmt, e, s);
    var new' := Fresh(fmt, e.keys);
    assert new' + new' == new' == map[] + new';
    assert FieldsOf(map[], s) == map[];
  }

  lemma {:induction false} SetEntryMeans(fmt: NumberFormat, op: Op, ms: Members, s: Schema, e: Elem, val: Json)
    requires MembersWellFormed(Object(ms), s) && e.name in s.dir && KeyedStep(fmt, e, s.dir[e.name])
    requires MembersWellFormed(val, s.dir[e.name])
    ensures var r := SetEntry(fmt, op, ms, e, val);
      && (r.Err? <==> Conflicts(e, val)) && (r.Err? ==> r.error == InvalidArgument)
      && (r.Ok? ==>
          && MembersWellFormed(Object(r.value), s)
          && FieldsOf(r.value, s) == WithChild(FieldsOf(ms, s), e, Put(fmt, op, e, Meaning(val, s.dir[e.name]), Child(FieldsOf(ms, s), e))))
  {
    var sub := s.dir[e.name];
    EntryForMeans(fmt, ms, s, e);
    ObjectOf(val, sub);
    KeysNotEmpty(fmt, e, sub);
    hide WellFormed, MembersWellFormed, Meaning, EntryFor, WithChild, Child, Fits, KeyedStep, Carries, Put, FieldsOf, NewMembers, Fresh;
    var (es, i) := EntryFor(fmt, ms, e).value;
    ObjectOf(es[i], sub);
    var kept := if op.Update? then es[i].members else map[];
    var x := Object(kept + NewMembers(fmt, e.keys) + val.members);
    assert SetEntry(fmt, op, ms, e, val)
        == if Conflicts(e, val) then Err(InvalidArgument) else Ok(ms[e.name := List(es[i := x])]);
    if !Conflicts(e, val) {
      EmptyWellFormed(sub);
      WrittenEntry(fmt, kept, sub, e, val);
      EntryWritten(fmt, ms, s, e, x, es, i);
      PutEntry(fmt, op, sub, e, es[i], val, Child(FieldsOf(ms, s), e));
    }
  }

  lemma {:induction false} ObjectOf(j: Json, s: Schema)
    requires MembersWellFormed(j, s)
    ensures j.Object? && MembersWellFormed(Object(j.members), s)
  {
  }

  lemma {:induction false} EmptyWellFormed(s: Schema)
    ensures MembersWellFormed(Object(map[]), s)
  {
  }

  lemma {:induction false} KeysNotEmpty(fmt: NumberFormat, e: Elem, s: Schema)
    requires KeyedStep(fmt, e, s)
    ensures e.keys != map[]
  {
  }

  /** An edit below an entry leaves the entry's other members, its key attributes among them, alone. */
  lemma {:induction false} SetElsewhere(fmt: NumberFormat, op: Op, ms: Members, s: Schema, p: Path, val: Json)
    requires p != [] && SetAt(fmt, op, ms, s, p, val).Ok?
    ensures var ms' := SetAt(fmt, op, ms, s, p, val).value;
      forall f :: f != p[0].name ==> (f in ms' <==> f in ms) && (f in ms ==> ms'[f] == ms[f])
  {
  }

  /** One step of a path with more steps to come. Only the last step can be onto a key attribute of the entry before it. */
  lemma {:induction false} InnerStep(fmt: NumberFormat, p: Path, s: Schema)
    requires |p| >= 2 && Follows(fmt, p, s)
    ensures p[0].name in s.dir
    ensures var sub := s.dir[p[0].name];
      && !sub.leaf
      && (if p[0].keys == map[] then sub.keys == {} else sub.keys != {} && KeyedStep(fmt, p[0], sub))
      && Follows(fmt, p[1..], sub)
      && Last(p[1..]) == Last(p) && SchemaAt(p[1..], sub) == SchemaAt(p, s)
      && (forall val :: ValueFits(p, s, val) ==> ValueFits(p[1..], sub, val))
    ensures p[1].name in p[0].keys <==> |p| == 2 && EndsOnKey(p)
    ensures |p| >= 3 ==> (EndsOnKey(p[1..]) <==> EndsOnKey(p)) && (EndsOnKey(p) ==> KeyText(p[1..]) == KeyText(p))
  {
  }

  /** A path that follows the schema avoids key attributes, or ends on one and avoids them before. */
  lemma {:induction false} KeyAtEnd(fmt: NumberFormat, p: Path, s: Schema)
    requires Follows(fmt, p, s)
    ensures if EndsOnKey(p) then KeyPath(p) else AvoidsKeyLeaves(p)
    decreases |p|
  {
    if |p| >= 2 {
      InnerStep(fmt, p, s);
      KeyAtEnd(fmt, p[1..], s.dir[p[0].name]);
      if EndsOnKey(p) && |p| >= 3 {
        assert EntryPath(p)[1..] == EntryPath(p[1..]) && EntryPath(p)[1] == p[1];
      }
    }
  }

  /** The value gives the key attribute the path ends on another text: the entry moves to another key tuple. */
  predicate Rekeys(p: Path, val: Json) {
    EndsOnKey(p) && Printed(val) != KeyText(p)
  }

  /** A key attribute written with the text it has keeps its entry's keys. */
  lemma {:induction false} KeyRewritten(fmt: NumberFormat, op: Op, entry: Json, e: Elem, s: Schema, p: Path, val: Json)
    requires KeyedStep(fmt, e, s) && Carries(entry, e) && |p| == 1 && p[0].keys == map[] && p[0].name in e.keys
    requires ValueFits(p, s, val) && Printed(val) == e.keys[p[0].name]
    requires SetAt(fmt, op, entry.members, s, p, val).Ok?
    ensures Carries(Object(SetAt(fmt, op, entry.members, s, p, val).value), e)
  {
    assert SchemaAt(p, s) == s.dir[p[0].name];
    assert val.Scalar?;
  }

  lemma {:induction false} AlterInner(fmt: NumberFormat, fs: Fields, p: Path, create: bool, f: Edit, below: Fields)
    requires |p| >= 2
    requires Child(fs, p[0]) == Some(Node(below))
          || (create && Child(fs, p[0]) == None && Fits(fs, p[0]) && below == Fresh(fmt, p[0].keys))
    ensures Alter(fmt, fs, p, create, f) == WithChild(fs, p[0], Some(Node(Alter(fmt, below, p[1..], create, f))))
  {
  }

  /** A plain inner step goes into an existing or empty container. */
  lemma {:induction false} ContainerStep(ms: Members, s: Schema, name: string)
    requires MembersWellFormed(Object(ms), s) && name in s.dir && !s.dir[name].leaf && s.dir[name].keys == {}
    ensures name in ms ==> ms[name].Object? && MembersWellFormed(Object(ms[name].members), s.dir[name])
    ensures Child(FieldsOf(ms, s), Elem(name, map[]))
         == if name in ms then Some(Node(FieldsOf(ms[name].members, s.dir[name]))) else None
    ensures Fits(FieldsOf(ms, s), Elem(name, map[]))
  {
    if name in ms {
      MemberShape(ms, s, name);
      ObjectMeaning(ms[name].members, s.dir[name]);
    }
  }

  lemma {:induction false} ContainerFieldsWritten(ms: Members, s: Schema, name: string, below: Members)
    requires name in s.dir && !s.dir[name].leaf && s.dir[name].keys == {}
    ensures FieldsOf(ms[name := Object(below)], s)
         == WithChild(FieldsOf(ms, s), Elem(name, map[]), Some(Node(FieldsOf(below, s.dir[name]))))
  {
    hide Meaning;
    FieldsOfUpdate(ms, s, name, Object(below));
    ObjectMeaning(below, s.dir[name]);
  }

  /** Writing a container back under its name. */
  lemma {:induction false} ContainerWritten(ms: Members, s: Schema, name: string, below: Members)
    requires MembersWellFormed(Object(ms), s) && name in s.dir && !s.dir[name].leaf && s.dir[name].keys == {}
    requires MembersWellFormed(Object(below), s.dir[name])
    ensures MembersWellFormed(Object(ms[name := Object(below)]), s)
    ensures FieldsOf(ms[name := Object(below)], s)
         == WithChild(FieldsOf(ms, s), Elem(name, map[]), Some(Node(FieldsOf(below, s.dir[name]))))
  {
    hide MembersWellFormed, WellFormed, Meaning, FieldsOf, WithChild;
    ContainerWellFormed(below, s.dir[name]);
    WellFormedUpdate(ms, s, name, Object(below));
    ContainerFieldsWritten(ms, s, name, below);
  }

  lemma {:induction false} EditedEntryCarries(fmt: NumberFormat, entry: Json, e: Elem, s: Schema, below: Members, name: string)
    requires Carries(entry, e) && name !in e.keys
    requires forall f :: f != name ==> (f in below <==> f in entry.members) && (f in below ==> below[f] == entry.members[f])
    ensures Carries(Object(below), e)
  {
  }

  /** What a set at path p does to well-formed members: it fails only on a key conflict, else it makes the PathTree edit. */
  ghost predicate SetIsPut(fmt: NumberFormat, op: Op, ms: Members, s: Schema, p: Path, val: Json)
    requires p != []
  {
    var r := SetAt(fmt, op, ms, s, p, val);
    && (r.Err? <==> Conflicts(Last(p), val)) && (r.Err? ==> r.error == InvalidArgument)
    && (r.Ok? ==>
        && MembersWellFormed(Object(r.value), s)
        && FieldsOf(r.value, s)
           == Alter(fmt, FieldsOf(ms, s), p, true, Putting(fmt, op, Last(p), Meaning(val, SchemaAt(p, s)))))
  }

  /** What SetAt does at an inner step, once the container or entry it goes into is known. */
  lemma {:induction false} SetAtInner(fmt: NumberFormat, op: Op, ms: Members, s: Schema, p: Path, val: Json, below: Members)
    requires |p| >= 2 && p[0].name in s.dir
    requires p[0].keys == map[] ==>
      if p[0].name in ms then ms[p[0].name] == Object(below) else below == map[]
    requires p[0].keys != map[] ==>
      var r := EntryFor(fmt, ms, p[0]); r.Some? && r.value.1 < |r.value.0| && r.value.0[r.value.1] == Object(below)
    ensures var r, inner := SetAt(fmt, op, ms, s, p, val), SetAt(fmt, op, below, s.dir[p[0].name], p[1..], val);
      && (inner.Err? ==> r == inner)
      && (inner.Ok? ==> r == Ok(
          if p[0].keys == map[] then ms[p[0].name := Object(inner.value)]
          else var (es, i) := EntryFor(fmt, ms, p[0]).value; ms[p[0].name := List(es[i := Object(inner.value)])]))
  {
  }

  lemma {:induction false} SetThroughContainer(fmt: NumberFormat, op: Op, ms: Members, s: Schema, p: Path, val: Json, below: Members)
    requires MembersWellFormed(Object(ms), s) && |p| >= 2 && Follows(fmt, p, s)
    requires p[0].keys == map[] && below == if p[0].name in ms && ms[p[0].name].Object? then ms[p[0].name].members else map[]
    requires SetIsPut(fmt, op, below, s.dir[p[0].name], p[1..], val)
    ensures SetIsPut(fmt, op, ms, s, p, val)
  {
    hide MembersWellFormed, WellFormed, Meaning, FieldsOf, WithChild, Child, Fits, Alter, Follows, SetAt, Conflicts, Putting, KeyedStep;
    InnerStep(fmt, p, s);
    var e, sub := p[0], s.dir[p[0].name];
    ContainerStep(ms, s, e.name);
    EmptyMeans(fmt, sub);
    SetAtInner(fmt, op, ms, s, p, val, below);
    var r := SetAt(fmt, op, below, sub, p[1..], val);
    if r.Ok? {
      ContainerWritten(ms, s, e.name, r.value);
      AlterInner(fmt, FieldsOf(ms, s), p, true, Putting(fmt, op, Last(p), Meaning(val, SchemaAt(p, s))), FieldsOf(below, sub));
    }
  }

  lemma {:induction false} SetThroughEntry(fmt: NumberFormat, op: Op, ms: Members, s: Schema, p: Path, val: Json, es: seq<Json>, i: nat)
    requires MembersWellFormed(Object(ms), s) && |p| >= 2 && Follows(fmt, p, s) && ValueFits(p, s, val) && !Rekeys(p, val)
    requires p[0].keys != map[] && EntryFor(fmt, ms, p[0]) == Some((es, i)) && i < |es| && es[i].Object?
    requires SetIsPut(fmt, op, es[i].members, s.dir[p[0].name], p[1..], val)
    ensures SetIsPut(fmt, op, ms, s, p, val)
  {
    hide MembersWellFormed, WellFormed, Meaning, FieldsOf, WithChild, Child, Fits, Alter, Follows, SetAt, EntryFor, Carries, KeyedStep;
    InnerStep(fmt, p, s);
    var e, sub, below := p[0], s.dir[p[0].name], es[i].members;
    EntryForMeans(fmt, ms, s, e);
    SetAtInner(fmt, op, ms, s, p, val, below);
    var r := SetAt(fmt, op, below, sub, p[1..], val);
    NewMembersMean(fmt, e, sub);
    if r.Ok? {
      if p[1].name in e.keys {
        KeyRewritten(fmt, op, es[i], e, sub, p[1..], val);
      } else {
        SetElsewhere(fmt, op, below, sub, p[1..], val);
        EditedEntryCarries(fmt, es[i], e, sub, r.value, p[1].name);
      }
      EntryWritten(fmt, ms, s, e, Object(r.value), es, i);
      ObjectMeaning(below, sub);
      ObjectMeaning(r.value, sub);
      AlterInner(fmt, FieldsOf(ms, s), p, true, Putting(fmt, op, Last(p), Meaning(val, SchemaAt(p, s))), FieldsOf(below, sub));
    }
  }

  /**
   A set that does not move an entry succeeds exactly when no key conflicts; then the tree stays well-formed and the
   PathTree edit has been made.
   */
  lemma {:induction false} SetMeans(fmt: NumberFormat, op: Op, ms: Members, s: Schema, p: Path, val: Json)
    requires MembersWellFormed(Object(ms), s) && Follows(fmt, p, s) && ValueFits(p, s, val) && !Rekeys(p, val)
    ensures SetIsPut(fmt, op, ms, s, p, val)
    decreases |p|
  {
    var e := p[0];
    if |p| == 1 {
      assert SchemaAt(p, s) == s.dir[e.name];
      hide MembersWellFormed, WellFormed, Meaning, FieldsOf, WithChild, Child, SetEntry, SetMember, Put;
      if e.keys == map[] {
        SetMemberMeans(fmt, op, ms, s, e, val);
      } else {
        SetEntryMeans(fmt, op, ms, s, e, val);
      }
    } else {
      InnerStep(fmt, p, s);
      var sub := s.dir[e.name];
      if e.keys == map[] {
        ContainerStep(ms, s, e.name);
        EmptyMeans(fmt, sub);
        var below := if e.name in ms then ms[e.name].members else map[];
        hide *;
        SetMeans(fmt, op, below, sub, p[1..], val);
        SetThroughContainer(fmt, op, ms, s, p, val, below);
      } else {
        EntryForMeans(fmt, ms, s, e);
        var (es, i) := EntryFor(fmt, ms, e).value;
        ObjectOf(es[i], sub);
        hide *;
        SetMeans(fmt, op, es[i].members, sub, p[1..], val);
        SetThroughEntry(fmt, op, ms, s, p, val, es, i);
      }
    }
  }

  lemma {:induction false} EmptyMeans(fmt: NumberFormat, s: Schema)
    ensures MembersWellFormed(Object(map[]), s) && FieldsOf(map[], s) == map[] == Fresh(fmt, map[])
  {
  }

  // ---- Deleting ----

  lemma {:induction false} RestWellFormed(es: seq<Json>, s: Schema, i: nat)
    requires WellFormed(List(es), s) && i < |es| && |es| > 1
    ensures WellFormed(List(es[i := es[|es| - 1]][..|es| - 1]), s)
  {
    hide WellFormed, MembersWellFormed;
    ListShape(es, s);
    var rest := es[i := es[|es| - 1]][..|es| - 1];
    SwapDeleteRemoves(es, s, i);
    forall j | 0 <= j < |rest| ensures rest[j] == es[if j == i then |es| - 1 else j] {
    }
    ListWellFormed(rest, s);
  }

  /** Removing the found entry from the list is removing its key tuple from the map. */
  lemma {:induction false} DeleteFound(ms: Members, s: Schema, e: Elem, i: nat)
    requires MembersWellFormed(Object(ms), s) && e.name in s.dir && e.name in ms && WellFormed(ms[e.name], s.dir[e.name])
    requires ms[e.name].List? && i < |ms[e.name].entries| && e.keys != map[]
    requires KeysOf(ms[e.name].entries[i], s.dir[e.name].keys) == e.keys
    ensures var es := ms[e.name].entries;
      var ms' := if |es| == 1 then ms - {e.name} else ms[e.name := List(es[i := es[|es| - 1]][..|es| - 1])];
      MembersWellFormed(Object(ms'), s) && FieldsOf(ms', s) == WithChild(FieldsOf(ms, s), e, None)
  {
    hide WellFormed, MembersWellFormed, Meaning;
    var sub, es := s.dir[e.name], ms[e.name].entries;
    var rest := es[i := es[|es| - 1]][..|es| - 1];
    ListShape(es, sub);
    ListMeaning(es, sub);
    SwapDeleteRemoves(es, sub, i);
    WellFormedUpdate(ms, s, e.name, ms[e.name]);
    FieldsOfUpdate(ms, s, e.name, ms[e.name]);
    assert Lookup(FieldsOf(ms, s), e.name) == Some(Many(EntriesOf(es, sub)));
    if |es| == 1 {
      assert rest == [];
      assert EntriesOf(rest, sub) == map[];
    } else {
      EntryMeaning(rest, sub, 0);
      RestWellFormed(es, sub, i);
      ListMeaning(rest, sub);
      WellFormedUpdate(ms, s, e.name, List(rest));
      FieldsOfUpdate(ms, s, e.name, List(rest));
    }
  }

  lemma {:induction false} DeleteEntryMeans(fmt: NumberFormat, ms: Members, s: Schema, e: Elem)
    requires MembersWellFormed(Object(ms), s) && e.name in s.dir && KeyedStep(fmt, e, s.dir[e.name])
    ensures var ms' := DeleteEntry(ms, e).0;
      && MembersWellFormed(Object(ms'), s)
      && FieldsOf(ms', s) == WithChild(FieldsOf(ms, s), e, None)
      && (Child(FieldsOf(ms, s), e) == None ==> ms' == ms)
      && (DeleteEntry(ms, e).1 <==> Child(FieldsOf(ms, s), e).Some?)
  {
    KeysNotEmpty(fmt, e, s.dir[e.name]);
    FoundEntry(fmt, ms, s, e);
    EntryForMeans(fmt, ms, s, e);
    if Child(FieldsOf(ms, s), e).Some? {
      MemberShape(ms, s, e.name);
      var (es, i) := EntryFor(fmt, ms, e).value;
      CarriesKeys(es[i], e);
      hide WellFormed, MembersWellFormed, Meaning, WithChild, Child, FieldsOf, EntryFor;
      DeleteFound(ms, s, e, i);
    } else {
      RegularFields(ms, s);
      hide WellFormed, MembersWellFormed, Meaning, EntryFor, FieldsOf, WithChild;
      WithSameChild(FieldsOf(ms, s), e);
    }
  }

  lemma {:induction false} RegularFields(ms: Members, s: Schema)
    requires MembersWellFormed(Object(ms), s)
    ensures NoEmptyList(FieldsOf(ms, s))
  {
    forall f | f in ms && ms[f].List? ensures FieldsOf(ms, s)[f].Many? && FieldsOf(ms, s)[f].entries != map[] {
      ListShape(ms[f].entries, s.dir[f]);
      EntryMeaning(ms[f].entries, s.dir[f], 0);
    }
  }

  lemma {:induction false} DeleteElsewhere(ms: Members, s: Schema, p: Path)
    requires p != []
    ensures var ms' := DeleteAt(ms, s, p).0;
      forall f :: f != p[0].name ==> (f in ms' <==> f in ms) && (f in ms ==> ms'[f] == ms[f])
  {
  }

  /** What a delete at path p does to well-formed members; a path that leads nowhere changes nothing at all. */
  ghost predicate DeleteIsRemoval(fmt: NumberFormat, ms: Members, s: Schema, p: Path)
    requires p != []
  {
    var ms' := DeleteAt(ms, s, p).0;
    && MembersWellFormed(Object(ms'), s)
    && FieldsOf(ms', s) == Alter(fmt, FieldsOf(ms, s), p, false, Deleting())
    && (Read(FieldsOf(ms, s), p) == None ==> ms' == ms)
  }

  lemma {:induction false} ReadInner(fs: Fields, p: Path, below: Fields)
    requires |p| >= 2 && Child(fs, p[0]) == Some(Node(below))
    ensures Read(fs, p) == Read(below, p[1..])
  {
  }

  lemma {:induction false} DeleteThroughContainer(fmt: NumberFormat, ms: Members, s: Schema, p: Path)
    requires MembersWellFormed(Object(ms), s) && |p| >= 2 && Follows(fmt, p, s)
    requires p[0].keys == map[] && p[0].name in ms && ms[p[0].name].Object?
    requires DeleteIsRemoval(fmt, ms[p[0].name].members, s.dir[p[0].name], p[1..])
    ensures DeleteIsRemoval(fmt, ms, s, p)
  {
    InnerStep(fmt, p, s);
    var e, sub, below := p[0], s.dir[p[0].name], ms[p[0].name].members;
    ContainerStep(ms, s, e.name);
    var below' := DeleteAt(below, sub, p[1..]).0;
    assert DeleteAt(ms, s, p).0 == ms[e.name := Object(below')];
    hide MembersWellFormed, WellFormed, Meaning, FieldsOf, WithChild, Child, Fits, Alter, Read, Follows, DeleteAt;
    ContainerWritten(ms, s, e.name, below');
    AlterInner(fmt, FieldsOf(ms, s), p, false, Deleting(), FieldsOf(below, sub));
    ReadInner(FieldsOf(ms, s), p, FieldsOf(below, sub));
  }

  /** What DeleteAt does below an entry the search finds. */
  lemma {:induction false} DeleteAtEntry(ms: Members, s: Schema, p: Path, es: seq<Json>, i: nat)
    requires |p| >= 2 && p[0].keys != map[] && p[0].name in s.dir
    requires p[0].name in ms && ms[p[0].name] == List(es) && i < |es| && es[i].Object? && Find(es, p[0].keys, 0) == Found(i)
    ensures DeleteAt(ms, s, p).0
         == ms[p[0].name := List(es[i := Object(DeleteAt(es[i].members, s.dir[p[0].name], p[1..]).0)])]
  {
  }

  lemma {:induction false} DeleteThroughEntry(fmt: NumberFormat, ms: Members, s: Schema, p: Path, es: seq<Json>, i: nat)
    requires MembersWellFormed(Object(ms), s) && |p| >= 2 && Follows(fmt, p, s) && p[1].name !in p[0].keys
    requires p[0].keys != map[] && Child(FieldsOf(ms, s), p[0]).Some?
    requires EntryFor(fmt, ms, p[0]) == Some((es, i)) && i < |es| && es[i].Object?
    requires DeleteIsRemoval(fmt, es[i].members, s.dir[p[0].name], p[1..])
    ensures DeleteIsRemoval(fmt, ms, s, p)
  {
    hide EntryFor, Carries, KeyedStep, MembersWellFormed, WellFormed, Meaning, FieldsOf, Child, WithChild, Fits, Alter, Read, Follows, DeleteAt;
    InnerStep(fmt, p, s);
    var e, sub, below := p[0], s.dir[p[0].name], es[i].members;
    var below' := DeleteAt(below, sub, p[1..]).0;
    FoundEntry(fmt, ms, s, e);
    DeleteAtEntry(ms, s, p, es, i);
    ObjectMeaning(below, sub);
    EntryForMeans(fmt, ms, s, e);
    ReadInner(FieldsOf(ms, s), p, FieldsOf(below, sub));
    AlterInner(fmt, FieldsOf(ms, s), p, false, Deleting(), FieldsOf(below, sub));
    assert Carries(Object(below'), e) by {
      DeleteElsewhere(below, sub, p[1..]);
      EditedEntryCarries(fmt, es[i], e, sub, below', p[1].name);
    }
    EntryWritten(fmt, ms, s, e, Object(below'), es, i);
    ObjectMeaning(below', sub);
    WrittenBack(ms, e.name, es, i);
  }

  lemma {:induction false} WrittenBack(ms: Members, name: string, es: seq<Json>, i: nat)
    requires name in ms && ms[name] == List(es) && i < |es|
    ensures ms[name := List(es[i := es[i]])] == ms
  {
    assert es[i := es[i]] == es;
  }

  /** A key attribute may only be deleted from an entry that is not there. */
  predicate SpareKey(fs: Fields, p: Path) {
    EndsOnKey(p) ==> Read(fs, EntryPath(p)) == None
  }

  lemma {:induction false} SpareInner(fmt: NumberFormat, fs: Fields, p: Path, s: Schema, below: Fields)
    requires |p| >= 2 && Follows(fmt, p, s) && SpareKey(fs, p) && Child(fs, p[0]) == Some(Node(below))
    ensures SpareKey(below, p[1..]) && p[1].name !in p[0].keys
  {
    InnerStep(fmt, p, s);
    assert EntryPath(p) == [p[0]] + p[1..][..|p| - 2];
    assert |p| >= 3 ==> EntryPath(p)[1..] == EntryPath(p[1..]);
  }

  /** A path whose first step leads nowhere. */
  lemma {:induction false} DeleteNowhere(fmt: NumberFormat, ms: Members, s: Schema, p: Path)
    requires MembersWellFormed(Object(ms), s) && |p| >= 2 && Follows(fmt, p, s) && Child(FieldsOf(ms, s), p[0]).None?
    ensures DeleteIsRemoval(fmt, ms, s, p)
  {
    InnerStep(fmt, p, s);
    if p[0].keys == map[] {
      ContainerStep(ms, s, p[0].name);
    } else {
      FoundEntry(fmt, ms, s, p[0]);
    }
    hide MembersWellFormed, WellFormed, Meaning, FieldsOf, KeyedStep, Child, Find;
  }

  /**
   A delete that spares key attributes keeps the tree well-formed and means the PathTree edit; a path that leads nowhere
   changes nothing at all.
   */
  lemma {:induction false} DeleteMeans(fmt: NumberFormat, ms: Members, s: Schema, p: Path)
    requires MembersWellFormed(Object(ms), s) && Follows(fmt, p, s) && SpareKey(FieldsOf(ms, s), p)
    ensures DeleteIsRemoval(fmt, ms, s, p)
    decreases |p|
  {
    var e := p[0];
    if |p| == 1 {
      hide MembersWellFormed, WellFormed, Meaning, DeleteEntry;
      if e.keys == map[] {
        PlainDelete(ms, s, e.name);
      } else {
        DeleteEntryMeans(fmt, ms, s, e);
      }
    } else {
      hide MembersWellFormed, WellFormed, Meaning, FieldsOf, KeyedStep, Carries, Child, EntryFor, Find, DeleteIsRemoval, SpareKey, Fits;
      InnerStep(fmt, p, s);
      var sub := s.dir[e.name];
      if e.keys == map[] {
        ContainerStep(ms, s, e.name);
        if Child(FieldsOf(ms, s), e).None? {
          DeleteNowhere(fmt, ms, s, p);
        } else {
          var below := ms[e.name].members;
          SpareInner(fmt, FieldsOf(ms, s), p, s, FieldsOf(below, sub));
          hide *;
          DeleteMeans(fmt, below, sub, p[1..]);
          DeleteThroughContainer(fmt, ms, s, p);
        }
      } else {
        EntryForMeans(fmt, ms, s, e);
        FoundEntry(fmt, ms, s, e);
        if Child(FieldsOf(ms, s), e).None? {
          DeleteNowhere(fmt, ms, s, p);
        } else {
          var (es, i) := EntryFor(fmt, ms, e).value;
          ObjectOf(es[i], sub);
          ObjectMeaning(es[i].members, sub);
          SpareInner(fmt, FieldsOf(ms, s), p, s, FieldsOf(es[i].members, sub));
          hide *;
          DeleteMeans(fmt, es[i].members, sub, p[1..]);
          DeleteThroughEntry(fmt, ms, s, p, es, i);
        }
      }
    }
  }

  lemma {:induction false} PlainDelete(ms: Members, s: Schema, name: string)
    requires MembersWellFormed(Object(ms), s)
    ensures MembersWellFormed(Object(ms - {name}), s)
    ensures FieldsOf(ms - {name}, s) == WithChild(FieldsOf(ms, s), Elem(name, map[]), None)
    ensures Child(FieldsOf(ms, s), Elem(name, map[])) == None ==> ms - {name} == ms
  {
  }

  /** The search in doDelete finds the entry getKeyedListEntry would find, or nothing. */
  lemma {:induction false} FoundEntry(fmt: NumberFormat, ms: Members, s: Schema, e: Elem)
    requires MembersWellFormed(Object(ms), s) && e.name in s.dir && KeyedStep(fmt, e, s.dir[e.name])
    ensures Child(FieldsOf(ms, s), e).Some? ==>
      && e.name in ms && ms[e.name].List?
      && EntryFor(fmt, ms, e).Some?
      && Find(ms[e.name].entries, e.keys, 0) == Found(EntryFor(fmt, ms, e).value.1)
      && ms[e.name].entries == EntryFor(fmt, ms, e).value.0
    ensures Child(FieldsOf(ms, s), e).None? ==>
      e.name !in ms || !ms[e.name].List? || !Find(ms[e.name].entries, e.keys, 0).Found?
  {
    ListMeans(ms, s, e);
    if e.name in ms {
      FindIsLookup(ms[e.name].entries, s.dir[e.name], e.keys, 0);
    }
  }
}
