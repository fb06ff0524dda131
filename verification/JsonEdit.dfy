/**
 The server's edits of the JSON tree, step by step as the code takes them (pkg/gnmi/server.go, pkg/gnmi/util.go),
 and the proof that on well-formed trees they mean the PathTree edits.
 */
module JsonEdit {
  import opened Wrappers
  import opened PathTree
  import opened JsonTree

  datatype Op = Replace | Update

  /** Status codes of the server; Crash is a Go panic. */
  datatype Code = NotFound | InvalidArgument | Internal | Unimplemented | Aborted | Crash

  type Members = map<string, Json>

  // ---- getChildNode and getKeyedListEntry ----

  /** The list and the position of the entry for e, made if missing; None is the nil entry. */
  function EntryFor(fmt: NumberFormat, ms: Members, e: Elem): (r: Option<(seq<Json>, nat)>)
    ensures r.Some? ==> r.value.1 < |r.value.0| && r.value.0[r.value.1].Object?
  {
    if e.name !in ms then Some(([Object(NewMembers(fmt, e.keys))], 0))
    else if !ms[e.name].List? then None
    else
      var es := ms[e.name].entries;
      match Find(es, e.keys, 0)
      case Found(i) => Some((es, i))
      case Missing => Some((es + [Object(NewMembers(fmt, e.keys))], |es|))
      case Malformed => None
  }

  // ---- setPathWithAttribute and setPathWithoutAttribute ----

  /** The value names a key attribute of the path element but gives it another text. */
  predicate Conflicts(e: Elem, val: Json) {
    val.Object? && exists k :: k in e.keys && k in val.members && Printed(val.members[k]) != e.keys[k]
  }

  function SetEntry(fmt: NumberFormat, op: Op, ms: Members, e: Elem, val: Json): Result<Members, Code> {
    if !val.Object? then Err(InvalidArgument)
    else match EntryFor(fmt, ms, e)
      case None => Err(NotFound)
      case Some((es, i)) =>
        var kept := if op.Update? then es[i].members else map[];
        if Conflicts(e, val) then Err(InvalidArgument)
        else Ok(ms[e.name := List(es[i := Object(kept + NewMembers(fmt, e.keys) + val.members)])])
  }

  function SetMember(op: Op, ms: Members, name: string, val: Json): Result<Members, Code> {
    if op.Replace? || name !in ms || !val.Object? then Ok(ms[name := val])
    else if ms[name].Object? then Ok(ms[name := Object(ms[name].members + val.members)])
    else Err(Internal)
  }

  /** The walk went on with the nil map of an entry that cannot be had: writing into it panics. */
  function IntoNil(s: Schema, p: Path, val: Json): Code
    requires p != []
  {
    if |p| == 1 then (if p[0].keys != map[] && !val.Object? then InvalidArgument else Crash)
    else if p[0].name !in s.dir then NotFound
    else Crash
  }

  /** The walk of doReplaceOrUpdate along a non-empty path. */
  function SetAt(fmt: NumberFormat, op: Op, ms: Members, s: Schema, p: Path, val: Json): Result<Members, Code>
    requires p != []
    decreases |p|
  {
    var e := p[0];
    if |p| == 1 then
      if e.keys == map[] then SetMember(op, ms, e.name, val) else SetEntry(fmt, op, ms, e, val)
    else if e.name !in s.dir then Err(NotFound)
    else if e.keys == map[] then
      var child := if e.name in ms then ms[e.name] else Object(map[]);
      match child
      case Scalar(_, _) => Err(Internal)
      case List(_) => Err(NotFound)
      case Object(sub) =>
        match SetAt(fmt, op, sub, s.dir[e.name], p[1..], val)
        case Err(c) => Err(c)
        case Ok(sub') => Ok(ms[e.name := Object(sub')])
    else match EntryFor(fmt, ms, e)
      case None => Err(IntoNil(s.dir[e.name], p[1..], val))
      case Some((es, i)) =>
        match SetAt(fmt, op, es[i].members, s.dir[e.name], p[1..], val)
        case Err(c) => Err(c)
        case Ok(sub') => Ok(ms[e.name := List(es[i := Object(sub')])])
  }

  // ---- doDelete and deleteKeyedListEntry ----

  function DeleteEntry(ms: Members, e: Elem): (Members, bool) {
    if e.name !in ms || !ms[e.name].List? then (ms, false)
    else
      var es := ms[e.name].entries;
      match Find(es, e.keys, 0)
      case Found(i) =>
        if |es| == 1 then (ms - {e.name}, true)
        else (ms[e.name := List(es[i := es[|es| - 1]][..|es| - 1])], true)
      case _ => (ms, false)
  }

  /**
   The walk of doDelete along a non-empty path, with the flag that decides whether the device is told. A missing list
   entry on the way does not end the walk: it goes on through a nil map, and a final step without keys still sets the flag.
   */
  function DeleteAt(ms: Members, s: Schema, p: Path): (Members, bool)
    requires p != []
    decreases |p|
  {
    var e := p[0];
    if |p| == 1 then
      if e.keys == map[] then (ms - {e.name}, true) else DeleteEntry(ms, e)
    else if e.name !in s.dir then (ms, false)
    else if e.keys == map[] then
      if e.name in ms && ms[e.name].Object? then
        var (sub', told) := DeleteAt(ms[e.name].members, s.dir[e.name], p[1..]);
        (ms[e.name := Object(sub')], told)
      else (ms, false)
    else
      var found := if e.name in ms && ms[e.name].List? then Find(ms[e.name].entries, e.keys, 0) else Missing;
      if found.Found? then
        var es := ms[e.name].entries;
        var (sub', told) := DeleteAt(es[found.index].members, s.dir[e.name], p[1..]);
        (ms[e.name := List(es[found.index := Object(sub')])], told)
      else (ms, DeleteAt(map[], s.dir[e.name], p[1..]).1)
  }

  // ---- Paths that follow the schema ----

  /** The step names a list entry by all its keys, in the form they are stored in. */
  predicate KeyedStep(fmt: NumberFormat, e: Elem, sub: Schema) {
    && !sub.leaf && sub.keys != {} && e.keys.Keys == sub.keys
    && forall k :: k in sub.keys ==> k in sub.dir && sub.dir[k].leaf && Canonical(fmt, e.keys[k])
  }

  predicate PlainStep(e: Elem, sub: Schema) {
    !sub.leaf && sub.keys == {} && e.keys == map[]
  }

  predicate Follows(fmt: NumberFormat, p: Path, s: Schema)
    decreases |p|
  {
    && p != [] && p[0].name in s.dir
    && var sub := s.dir[p[0].name];
    && (KeyedStep(fmt, p[0], sub) || PlainStep(p[0], sub) || (|p| == 1 && p[0].keys == map[]))
    && (|p| == 1 || Follows(fmt, p[1..], sub))
  }

  /** The schema of the node the path leads to. */
  function SchemaAt(p: Path, s: Schema): Schema
    decreases |p|
  {
    if p == [] then s else SchemaAt(p[1..], Sub(s, p[0].name))
  }

  function Last(p: Path): Elem
    requires p != []
  {
    p[|p| - 1]
  }

  /** The value may stand at the end of the path. */
  predicate ValueFits(p: Path, s: Schema, val: Json)
    requires p != []
  {
    if Last(p).keys == map[] then WellFormed(val, SchemaAt(p, s)) else MembersWellFormed(val, SchemaAt(p, s))
  }

  // ---- What an edit does to the addressed node ----

  /** Replace puts the value; update lays its members over the old ones. A list entry always keeps its key attributes. */
  function Put(fmt: NumberFormat, op: Op, e: Elem, val: Tree, before: Option<Tree>): Option<Tree> {
    if e.keys == map[] then
      if op.Replace? || before.None? || !val.Node? then Some(val)
      else if before.value.Node? then Some(Node(before.value.fields + val.fields))
      else before
    else if !val.Node? then before
    else
      var kept := if op.Update? && before.Some? && before.value.Node? then before.value.fields else map[];
      Some(Node(kept + Fresh(fmt, e.keys) + val.fields))
  }

  function Putting(fmt: NumberFormat, op: Op, e: Elem, val: Tree): Edit {
    before => Put(fmt, op, e, val, before)
  }

  // ---- One level of a well-formed tree ----

  lemma {:induction false} MemberShape(ms: Members, s: Schema, name: string)
    requires MembersWellFormed(Object(ms), s) && name in ms
    ensures name in s.dir && WellFormed(ms[name], s.dir[name])
    ensures FieldsOf(ms, s)[name] == Meaning(ms[name], s.dir[name])
    ensures s.dir[name].leaf ==> ms[name].Scalar?
    ensures !s.dir[name].leaf && s.dir[name].keys == {} ==> ms[name].Object?
    ensures !s.dir[name].leaf && s.dir[name].keys != {} ==> ms[name].List?
  {
  }

  lemma {:induction false} ObjectShape(j: Json, s: Schema)
    requires WellFormed(j, s) && j.Object?
    ensures !s.leaf && s.keys == {} && MembersWellFormed(j, s)
  {
  }

  lemma {:induction false} ObjectMeaning(ms: Members, s: Schema)
    ensures Meaning(Object(ms), s) == Node(FieldsOf(ms, s))
  {
  }

  lemma {:induction false} ContainerWellFormed(ms: Members, s: Schema)
    requires !s.leaf && s.keys == {} && MembersWellFormed(Object(ms), s)
    ensures WellFormed(Object(ms), s)
  {
  }

  lemma {:induction false} ListShape(es: seq<Json>, s: Schema)
    requires WellFormed(List(es), s)
    ensures !s.leaf && s.keys != {} && es != [] && Keyed(es, s.keys) && DistinctKeys(es, s.keys)
    ensures forall i :: 0 <= i < |es| ==> MembersWellFormed(es[i], s)
  {
  }

  lemma {:induction false} ListWellFormed(es: seq<Json>, s: Schema)
    requires !s.leaf && s.keys != {} && es != [] && Keyed(es, s.keys) && DistinctKeys(es, s.keys)
    requires forall i :: 0 <= i < |es| ==> MembersWellFormed(es[i], s)
    ensures WellFormed(List(es), s)
  {
  }

  lemma {:induction false} ListMeaning(es: seq<Json>, s: Schema)
    ensures Meaning(List(es), s) == Many(EntriesOf(es, s))
  {
  }

  // ---- One step ----

  lemma {:induction false} FieldsOfUpdate(ms: Members, s: Schema, name: string, x: Json)
    ensures FieldsOf(ms[name := x], s) == FieldsOf(ms, s)[name := Meaning(x, Sub(s, name))]
    ensures FieldsOf(ms - {name}, s) == FieldsOf(ms, s) - {name}
  {
  }

  lemma {:induction false} WellFormedUpdate(ms: Members, s: Schema, name: string, x: Json)
    requires MembersWellFormed(Object(ms), s) && name in s.dir && WellFormed(x, s.dir[name])
    ensures MembersWellFormed(Object(ms[name := x]), s)
    ensures MembersWellFormed(Object(ms - {name}), s)
  {
  }

  lemma {:induction false} OverlayMeaning(a: Members, b: Members, s: Schema)
    ensures FieldsOf(a + b, s) == FieldsOf(a, s) + FieldsOf(b, s)
    ensures MembersWellFormed(Object(a), s) && MembersWellFormed(Object(b), s) ==> MembersWellFormed(Object(a + b), s)
  {
  }

  lemma {:induction false} NewMembersMean(fmt: NumberFormat, e: Elem, s: Schema)
    ensures FieldsOf(NewMembers(fmt, e.keys), s) == Fresh(fmt, e.keys)
    ensures KeyedStep(fmt, e, s) ==> MembersWellFormed(Object(NewMembers(fmt, e.keys)), s)
  {
    forall k | k in e.keys ensures Meaning(StoredKey(fmt, e.keys[k]), Sub(s, k)) == KeyLeaf(fmt, e.keys[k]) {
    }
  }

  /** An entry carries the keys of the step: all of them, as scalars that print as the step's key texts. */
  predicate Carries(entry: Json, e: Elem) {
    entry.Object? && forall k :: k in e.keys ==>
      k in entry.members && entry.members[k].Scalar? && Printed(entry.members[k]) == e.keys[k]
  }

  lemma {:induction false} CarriesKeys(entry: Json, e: Elem)
    requires Carries(entry, e)
    ensures KeysOf(entry, e.keys.Keys) == e.keys
  {
    assert KeysOf(entry, e.keys.Keys).Keys == e.keys.Keys;
  }

  lemma {:induction false} NewEntryCarries(fmt: NumberFormat, e: Elem, s: Schema)
    requires KeyedStep(fmt, e, s)
    ensures MembersWellFormed(Object(NewMembers(fmt, e.keys)), s) && Carries(Object(NewMembers(fmt, e.keys)), e)
  {
    NewMembersMean(fmt, e, s);
  }

  /** An entry that matches a full key tuple carries its keys. */
  lemma {:induction false} MatchCarries(entry: Json, e: Elem)
    requires Matches(entry, e.keys)
    ensures Carries(entry, e)
  {
  }

  /** What the search in a well-formed list ends with, in terms of the map the list stands for. */
  lemma {:induction false} FoundInList(fmt: NumberFormat, es: seq<Json>, sub: Schema, e: Elem)
    requires WellFormed(List(es), sub) && KeyedStep(fmt, e, sub)
    ensures match Find(es, e.keys, 0)
      case Found(i) => Lookup(EntriesOf(es, sub), e.keys) == Some(Meaning(es[i], sub)) && MembersWellFormed(es[i], sub) && Carries(es[i], e)
      case Missing => Lookup(EntriesOf(es, sub), e.keys) == None
      case Malformed => false
  {
    assert DistinctKeys(es, sub.keys) && Keyed(es, sub.keys);
    assert forall i :: 0 <= i < |es| ==> MembersWellFormed(es[i], sub);
    FindIsLookup(es, sub, e.keys, 0);
    hide MembersWellFormed, WellFormed, Meaning, KeyedStep, Carries, Matches, Comparable;
    if e.keys in Tuples(es, sub.keys) {
      var i := Position(es, sub.keys, e.keys);
      EntryMeaning(es, sub, i);
      MatchCarries(es[i], e);
    }
  }

  /** What getKeyedListEntry finds or makes, in terms of the map the list stands for. */
  lemma {:induction false} EntryForMeans(fmt: NumberFormat, ms: Members, s: Schema, e: Elem)
    requires MembersWellFormed(Object(ms), s) && e.name in s.dir && KeyedStep(fmt, e, s.dir[e.name])
    ensures Fits(FieldsOf(ms, s), e)
    ensures var sub := s.dir[e.name]; var r := EntryFor(fmt, ms, e);
      && r.Some? && r.value.1 < |r.value.0|
      && var (es, i) := r.value;
      && MembersWellFormed(es[i], sub) && Carries(es[i], e)
      && match Child(FieldsOf(ms, s), e)
         case None => es[i] == Object(NewMembers(fmt, e.keys))
         case Some(t) => t == Meaning(es[i], sub) && e.name in ms && ms[e.name] == List(es)
  {
    hide MembersWellFormed, WellFormed, Meaning, KeyedStep, Carries, FieldsOf, NewMembers, EntriesOf, Find;
    var sub := s.dir[e.name];
    NewEntryCarries(fmt, e, sub);
    KeyedStepIsKeyed(fmt, e, sub);
    SlotInTree(ms, s, e.name);
    if e.name in ms {
      FoundInList(fmt, ms[e.name].entries, sub, e);
    }
  }

  lemma {:induction false} KeyedStepIsKeyed(fmt: NumberFormat, e: Elem, s: Schema)
    requires KeyedStep(fmt, e, s)
    ensures e.keys != map[] && !s.leaf && s.keys != {}
  {
  }

  /** What a well-formed tree holds under the name of a keyed list. */
  lemma {:induction false} SlotInTree(ms: Members, s: Schema, name: string)
    requires MembersWellFormed(Object(ms), s) && name in s.dir && !s.dir[name].leaf && s.dir[name].keys != {}
    ensures name in ms ==> ms[name].List? && WellFormed(List(ms[name].entries), s.dir[name])
    ensures Lookup(FieldsOf(ms, s), name) == if name in ms then Some(Many(EntriesOf(ms[name].entries, s.dir[name]))) else None
  {
    if name in ms {
      hide WellFormed, MembersWellFormed, Meaning;
      MemberShape(ms, s, name);
      ListMeaning(ms[name].entries, s.dir[name]);
    }
  }

  /** The entries of a list that may not exist yet. */
  function Prior(ms: Members, name: string): seq<Json> {
    if name in ms && ms[name].List? then ms[name].entries else []
  }

  /** In the list the entry for e was found or made in, writing the entry is one map update. */
  lemma {:induction false} EntryUpserted(fmt: NumberFormat, ms: Members, s: Schema, e: Elem, x: Json, es: seq<Json>, i: nat)
    requires MembersWellFormed(Object(ms), s) && e.name in s.dir && KeyedStep(fmt, e, s.dir[e.name])
    requires Carries(x, e) && EntryFor(fmt, ms, e) == Some((es, i))
    ensures i < |es| && DistinctKeys(es[i := x], s.dir[e.name].keys)
    ensures EntriesOf(es[i := x], s.dir[e.name]) == EntriesOf(Prior(ms, e.name), s.dir[e.name])[e.keys := Meaning(x, s.dir[e.name])]
  {
    var sub := s.dir[e.name];
    EntryForMeans(fmt, ms, s, e);
    CarriesKeys(x, e);
    CarriesKeys(es[i], e);
    var prior := Prior(ms, e.name);
    if e.name in ms {
      FindIsLookup(prior, sub, e.keys, 0);
    }
    if e.keys in Tuples(prior, sub.keys) {
      ReplaceUpdates(prior, sub, i, x);
    } else {
      assert es[i := x] == prior + [x];
      AppendInserts(prior, sub, x);
    }
  }

  lemma {:induction false} EntryListWellFormed(fmt: NumberFormat, ms: Members, s: Schema, e: Elem, x: Json, es: seq<Json>, i: nat)
    requires MembersWellFormed(Object(ms), s) && e.name in s.dir && KeyedStep(fmt, e, s.dir[e.name])
    requires MembersWellFormed(x, s.dir[e.name]) && Carries(x, e)
    requires EntryFor(fmt, ms, e) == Some((es, i)) && i < |es|
    requires DistinctKeys(es[i := x], s.dir[e.name].keys)
    ensures WellFormed(List(es[i := x]), s.dir[e.name])
  {
    var es' := es[i := x];
    hide DistinctKeys, KeyedStep;
    forall j | 0 <= j < |es'| && j != i ensures es'[j] in Prior(ms, e.name) {
    }
  }

  lemma {:induction false} ListMeans(ms: Members, s: Schema, e: Elem)
    requires MembersWellFormed(Object(ms), s) && e.name in s.dir && !s.dir[e.name].leaf && s.dir[e.name].keys != {}
    ensures Fits(FieldsOf(ms, s), e)
    ensures SlotEntries(Lookup(FieldsOf(ms, s), e.name)) == EntriesOf(Prior(ms, e.name), s.dir[e.name])
  {
    if e.name in ms {
      assert WellFormed(ms[e.name], s.dir[e.name]);
    }
  }

  lemma {:induction false} WithEntry(fs: Fields, e: Elem, t: Tree)
    requires e.keys != map[] && Fits(fs, e)
    ensures WithChild(fs, e, Some(t)) == fs[e.name := Many(SlotEntries(Lookup(fs, e.name))[e.keys := t])]
  {
    assert e.keys in SlotEntries(Lookup(fs, e.name))[e.keys := t];
  }

  /** Writing back the entry for e, with its keys, sets that child. */
  lemma {:induction false} EntryFieldsWritten(fmt: NumberFormat, ms: Members, s: Schema, e: Elem, x: Json, es: seq<Json>, i: nat)
    requires MembersWellFormed(Object(ms), s) && e.name in s.dir && KeyedStep(fmt, e, s.dir[e.name])
    requires Carries(x, e) && EntryFor(fmt, ms, e) == Some((es, i))
    ensures i < |es| && FieldsOf(ms[e.name := List(es[i := x])], s) == WithChild(FieldsOf(ms, s), e, Some(Meaning(x, s.dir[e.name])))
  {
    var sub := s.dir[e.name];
    EntryUpserted(fmt, ms, s, e, x, es, i);
    KeyedStepIsKeyed(fmt, e, sub);
    hide WellFormed, MembersWellFormed, FieldsOf, WithChild, KeyedStep;
    ListMeans(ms, s, e);
    calc {
      FieldsOf(ms[e.name := List(es[i := x])], s);
      { FieldsOfUpdate(ms, s, e.name, List(es[i := x])); }
      FieldsOf(ms, s)[e.name := Many(EntriesOf(es[i := x], sub))];
      { WithEntry(FieldsOf(ms, s), e, Meaning(x, sub)); }
      WithChild(FieldsOf(ms, s), e, Some(Meaning(x, sub)));
    }
  }

  /** If the entry is well-formed the tree stays so. */
  lemma {:induction false} EntryWritten(fmt: NumberFormat, ms: Members, s: Schema, e: Elem, x: Json, es: seq<Json>, i: nat)
    requires MembersWellFormed(Object(ms), s) && e.name in s.dir && KeyedStep(fmt, e, s.dir[e.name])
    requires MembersWellFormed(x, s.dir[e.name]) && Carries(x, e)
    requires EntryFor(fmt, ms, e) == Some((es, i))
    ensures i < |es| && MembersWellFormed(Object(ms[e.name := List(es[i := x])]), s)
    ensures FieldsOf(ms[e.name := List(es[i := x])], s) == WithChild(FieldsOf(ms, s), e, Some(Meaning(x, s.dir[e.name])))
  {
    hide WellFormed, MembersWellFormed, FieldsOf, Meaning;
    EntryFieldsWritten(fmt, ms, s, e, x, es, i);
    EntryUpserted(fmt, ms, s, e, x, es, i);
    EntryListWellFormed(fmt, ms, s, e, x, es, i);
    WellFormedUpdate(ms, s, e.name, List(es[i := x]));
  }
}
