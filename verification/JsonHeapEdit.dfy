/**
 The server's in-place edits of the heap tree: getKeyedListEntry, getChildNode, setPathWithAttribute,
 setPathWithoutAttribute, deleteKeyedListEntry and the two walks. Each leaves the heap laid out as the tree that the
 JSON-level function in JsonEdit computes.
 */
module JsonHeapEdit {
  import opened Wrappers
  import opened PathTree
  import opened JsonTree
  import opened JsonEdit
  import opened JsonHeap

  /** The contents are those of the present heap. */
  ghost predicate Current(h: Contents)
    reads h.Keys
  {
    forall o :: o in h ==> o.members == h[o]
  }

  /** The node is laid out as sub in the present heap, and no object occurs twice. */
  ghost predicate At(node: JsonObject, sub: Shape, h: Contents)
    reads h.Keys
  {
    Current(h) && sub.SObject? && sub.object' == node && Laid(sub, h) && Separate(sub)
  }

  /** h' is h after a change of the objects in os, with some objects added. */
  ghost predicate Grown(h: Contents, h': Contents, os: set<JsonObject>) {
    h.Keys <= h'.Keys && Agree(h.Keys - os, h, h')
  }

  lemma {:induction false} ObjectsInHeap(sh: Shape, h: Contents)
    requires Laid(sh, h)
    ensures Objects(sh) <= h.Keys
    decreases sh
  {
    match sh
    case SScalar(_, _) =>
    case SObject(_, ms) =>
      forall f | f in ms ensures Objects(ms[f]) <= h.Keys {
        ObjectsInHeap(ms[f], h);
      }
    case SList(es) =>
      forall i | 0 <= i < |es| ensures Objects(es[i]) <= h.Keys {
        ObjectsInHeap(es[i], h);
      }
  }

  function PrintedValue(v: Value): string {
    match v
    case VScalar(_, text) => text
    case VObject(_) => "map[]"
    case VList(_) => "[]"
  }

  lemma {:induction false} SameView(sh: Shape)
    ensures PrintedValue(ValueOf(sh)) == Printed(JsonOf(sh))
    ensures ValueOf(sh).VObject? <==> JsonOf(sh).Object?
    ensures ValueOf(sh).VList? <==> JsonOf(sh).List?
    ensures (ValueOf(sh).VObject? <==> sh.SObject?) && (ValueOf(sh).VList? <==> sh.SList?)
    ensures sh.SObject? ==> ValueOf(sh) == VObject(sh.object') && JsonOf(sh) == Object(JsonsOf(sh.members))
    ensures sh.SList? ==> |ValueOf(sh).entries| == |sh.entries| && JsonOf(sh) == List(EntryJsons(sh.entries))
    ensures sh.SList? ==> forall i :: 0 <= i < |sh.entries| ==> ValueOf(sh).entries[i] == ValueOf(sh.entries[i])
  {
  }

  function StoredValue(fmt: NumberFormat, v: string): Value {
    match fmt(v)
    case None => VScalar(Text, v)
    case Some(t) => VScalar(Number, t)
  }

  function NewValues(fmt: NumberFormat, keys: Keys): map<string, Value> {
    map k | k in keys :: StoredValue(fmt, keys[k])
  }

  ghost function NewShapes(fmt: NumberFormat, keys: Keys): Shapes {
    map k | k in keys :: match fmt(keys[k]) case None => SScalar(Text, keys[k]) case Some(t) => SScalar(Number, t)
  }

  lemma {:induction false} NewShapesAre(fmt: NumberFormat, keys: Keys)
    ensures ValuesOf(NewShapes(fmt, keys)) == NewValues(fmt, keys)
    ensures JsonsOf(NewShapes(fmt, keys)) == NewMembers(fmt, keys)
    ensures forall k :: k in keys ==> NewShapes(fmt, keys)[k].SScalar?
  {
  }

  // ---- The loops over attributes and members ----

  /** for k, v := range source { target[k] = v } */
  method Overlay(target: JsonObject, source: map<string, Value>)
    modifies target
    ensures target.members == old(target.members) + source
  {
    var rest := source.Keys;
    while rest != {}
      invariant rest <= source.Keys
      invariant target.members == old(target.members) + map k | k in source && k !in rest :: source[k]
      decreases |rest|
    {
      var k :| k in rest;
      target.members := target.members[k := source[k]];
      rest := rest - {k};
    }
  }

  /** The value gives a key attribute another text. */
  predicate Contradicts(keys: Keys, source: map<string, Value>) {
    exists k :: k in keys && k in source && PrintedValue(source[k]) != keys[k]
  }

  lemma {:induction false} StoredOneMore(fmt: NumberFormat, base: map<string, Value>, stored: Keys, k: string, v: string)
    ensures (base + NewValues(fmt, stored))[k := StoredValue(fmt, v)] == base + NewValues(fmt, stored[k := v])
  {
  }

  lemma {:induction false} NothingStored(fmt: NumberFormat, base: map<string, Value>)
    ensures base + NewValues(fmt, map[]) == base
  {
  }

  /** Stores the key attributes, until one contradicts the value's member of the same name. */
  method StoreKeys(fmt: NumberFormat, target: JsonObject, keys: Keys, source: map<string, Value>) returns (conflict: bool, ghost stored: Keys)
    modifies target
    ensures target.members == old(target.members) + NewValues(fmt, stored)
    ensures conflict <==> Contradicts(keys, source)
    ensures !conflict ==> stored == keys
  {
    hide NewValues, StoredValue, PrintedValue;
    var rest := keys.Keys;
    stored := map[];
    NothingStored(fmt, target.members);
    while rest != {}
      invariant rest <= keys.Keys
      invariant stored == map k | k in keys && k !in rest :: keys[k]
      invariant target.members == old(target.members) + NewValues(fmt, stored)
      invariant forall k :: k in keys && k !in rest && k in source ==> PrintedValue(source[k]) == keys[k]
      decreases |rest|
    {
      var k :| k in rest;
      StoredOneMore(fmt, old(target.members), stored, k, keys[k]);
      target.members := target.members[k := StoredValue(fmt, keys[k])];
      stored := stored[k := keys[k]];
      rest := rest - {k};
      if k in source && PrintedValue(source[k]) != keys[k] {
        return true, stored;
      }
    }
    conflict := false;
  }

  // ---- getKeyedListEntry ----

  datatype Comparison = Incomplete | Different | Same

  /** Compares an entry with the key attributes; a missing attribute is noticed before a different one. */
  method CompareEntry(entry: JsonObject, keys: Keys, ghost sh: Shape, ghost h: Contents) returns (r: Comparison)
    requires At(entry, sh, h)
    ensures r.Incomplete? <==> !Comparable(JsonOf(sh), keys)
    ensures r.Same? <==> Matches(JsonOf(sh), keys)
  {
    var rest := keys.Keys;
    assert entry.members == ValuesOf(sh.members);
    while rest != {}
      invariant rest <= keys.Keys
      invariant forall k :: k in keys && k !in rest ==>
        k in sh.members && JsonOf(sh.members[k]).Scalar? && JsonOf(sh.members[k]).text == keys[k]
      decreases |rest|
    {
      assert exists k :: k in rest && (k !in entry.members || rest <= entry.members.Keys);
      var k :| k in rest && (k !in entry.members || rest <= entry.members.Keys);
      if k !in entry.members {
        return Incomplete;
      }
      SameView(sh.members[k]);
      assert JsonOf(sh).members[k] == JsonOf(sh.members[k]);
      if !(entry.members[k].VScalar? && entry.members[k].text == keys[k]) {
        return Different;
      }
      rest := rest - {k};
    }
    r := Same;
  }

  /** Compares a slot of a list; anything but an object lacks the key attributes. */
  method CompareSlot(v: Value, keys: Keys, ghost sh: Shape, ghost h: Contents) returns (r: Comparison)
    requires v == ValueOf(sh) && (v.VObject? ==> At(v.object', sh, h))
    ensures r.Incomplete? <==> !Comparable(JsonOf(sh), keys)
    ensures r.Same? <==> Matches(JsonOf(sh), keys)
  {
    SameView(sh);
    match v
    case VScalar(_, _) => r := Incomplete;
    case VList(_) => r := Incomplete;
    case VObject(entry) => r := CompareEntry(entry, keys, sh, h);
  }

  /** The linear search of a keyed list. */
  method FindEntry(es: seq<Value>, keys: Keys, ghost shs: seq<Shape>, ghost h: Contents) returns (r: Search)
    requires Current(h) && Laid(SList(shs), h) && Separate(SList(shs)) && VList(es) == ValueOf(SList(shs))
    ensures r == Find(EntryJsons(shs), keys, 0)
  {
    hide *;
    SlotsView(es, shs);
    FindNext(EntryJsons(shs), keys, |es|);
    for i := 0 to |es|
      invariant Find(EntryJsons(shs), keys, 0) == Find(EntryJsons(shs), keys, i)
    {
      SlotView(es, shs, i, h);
      FindNext(EntryJsons(shs), keys, i);
      var c := CompareSlot(es[i], keys, shs[i], h);
      if c.Incomplete? {
        return Malformed;
      }
      if c.Same? {
        return Found(i);
      }
    }
    r := Missing;
  }

  /** One step of the search. */
  lemma {:induction false} FindNext(es: seq<Json>, keys: Keys, i: nat)
    requires i <= |es|
    ensures i == |es| ==> Find(es, keys, i) == Missing
    ensures i < |es| && !Comparable(es[i], keys) ==> Find(es, keys, i) == Malformed
    ensures i < |es| && Comparable(es[i], keys) ==> Find(es, keys, i) == if Matches(es[i], keys) then Found(i) else Find(es, keys, i + 1)
  {
    hide Comparable, Matches;
  }

  /** The slots of a list that is laid out in the heap. */
  lemma {:induction false} SlotsView(es: seq<Value>, shs: seq<Shape>)
    requires VList(es) == ValueOf(SList(shs))
    ensures |es| == |shs| == |EntryJsons(shs)|
  {
    SameView(SList(shs));
  }

  lemma {:induction false} SlotView(es: seq<Value>, shs: seq<Shape>, i: nat, h: Contents)
    requires i < |es| == |shs| && Current(h) && Laid(SList(shs), h) && Separate(SList(shs)) && VList(es) == ValueOf(SList(shs))
    ensures es[i] == ValueOf(shs[i]) && i < |EntryJsons(shs)| && EntryJsons(shs)[i] == JsonOf(shs[i])
    ensures es[i].VObject? ==> At(es[i].object', shs[i], h)
  {
    hide Current;
    SameView(SList(shs));
    SameView(shs[i]);
  }

  /** A node whose member `name` was written, everything else in the node being untouched. */
  lemma {:induction false} MemberWritten(sub: Shape, name: string, y: Shape, h: Contents, h': Contents)
    requires sub.SObject? && Separate(sub) && Laid(sub, h)
    requires forall f :: f in sub.members && f != name ==> Agree(Objects(sub.members[f]), h, h')
    requires sub.object' in h' && h'[sub.object'] == ValuesOf(sub.members)[name := ValueOf(y)]
    requires Laid(y, h')
    ensures Laid(SObject(sub.object', sub.members[name := y]), h')
    ensures JsonsOf(sub.members[name := y]) == JsonsOf(sub.members)[name := JsonOf(y)]
  {
    forall f | f in sub.members && f != name ensures Laid(sub.members[f], h') {
      LaidElsewhere(sub.members[f], h, h');
    }
    assert ValuesOf(sub.members[name := y]) == ValuesOf(sub.members)[name := ValueOf(y)];
  }

  /** A new entry with the key attributes of a path element. */
  method NewEntry(fmt: NumberFormat, keys: Keys, ghost h: Contents) returns (m: JsonObject, ghost sh: Shape, ghost h': Contents)
    requires Current(h)
    ensures fresh(m) && m !in h && h' == h[m := NewValues(fmt, keys)]
    ensures sh == SObject(m, NewShapes(fmt, keys))
    ensures At(m, sh, h') && Objects(sh) == {m} && JsonOf(sh) == Object(NewMembers(fmt, keys))
  {
    m := new JsonObject();
    var conflict, stored := StoreKeys(fmt, m, keys, map[]);
    assert m.members == NewValues(fmt, keys);
    sh := SObject(m, NewShapes(fmt, keys));
    h' := h[m := m.members];
    NewShapesAre(fmt, keys);
  }

  /** What getKeyedListEntry hands back: the entry that EntryFor or the search speaks of, at its place in the new layout. */
  ghost predicate EntryAt(entry: JsonObject, x: Shape, name: string, i: nat) {
    x.SObject? && name in x.members && x.members[name].SList? && i < |x.members[name].entries|
    && x.members[name].entries[i].SObject? && x.members[name].entries[i].object' == entry
  }

  /** A new entry at the end of a list that exists. */
  method AppendEntry(fmt: NumberFormat, node: JsonObject, e: Elem, keyedList: seq<Value>, ghost sub: Shape, ghost h: Contents)
    returns (entry: JsonObject, ghost x: Shape, ghost h': Contents)
    requires At(node, sub, h) && e.name in sub.members && sub.members[e.name].SList?
    requires e.name in node.members && node.members[e.name] == VList(keyedList)
    modifies node
    ensures At(node, x, h') && Grown(h, h', {node}) && fresh(h'.Keys - h.Keys) && Objects(x) <= Objects(sub) + (h'.Keys - h.Keys)
    ensures EntryAt(entry, x, e.name, |keyedList|) && |keyedList| == |sub.members[e.name].entries|
    ensures EntryJsons(x.members[e.name].entries) == EntryJsons(sub.members[e.name].entries) + [Object(NewMembers(fmt, e.keys))]
    ensures JsonsOf(x.members) == JsonsOf(sub.members)[e.name := List(EntryJsons(x.members[e.name].entries))]
  {
    hide Laid, Separate, Objects, JsonOf, ValueOf, NewMembers, NewValues;
    NodeView(node, sub, h);
    SameView(sub.members[e.name]);
    var m, sh, h1 := NewEntry(fmt, e.keys, h);
    node.members := node.members[e.name := VList(keyedList + [VObject(m)])];
    h' := h1[node := node.members];
    LaidElsewhere(sh, h1, h');
    x := AppendedEntry(sub, e.name, sh, h, h');
    entry := m;
  }

  method GetKeyedListEntry(fmt: NumberFormat, node: JsonObject, e: Elem, create: bool, ghost sub: Shape, ghost h: Contents)
    returns (entry: JsonObject?, ghost i: nat, ghost x: Shape, ghost h': Contents)
    requires At(node, sub, h)
    modifies node
    ensures At(node, x, h') && Grown(h, h', {node}) && fresh(h'.Keys - h.Keys) && Objects(x) <= Objects(sub) + (h'.Keys - h.Keys)
    ensures entry == null || !create ==> x == sub && h' == h
    ensures entry != null ==> EntryAt(entry, x, e.name, i)
    ensures create ==>
      var r := EntryFor(fmt, JsonsOf(sub.members), e);
      (entry == null <==> r == None) &&
      (entry != null ==>
        && r == Some((EntryJsons(x.members[e.name].entries), i))
        && JsonsOf(x.members) == JsonsOf(sub.members)[e.name := List(EntryJsons(x.members[e.name].entries))])
    ensures !create ==>
      (entry != null <==>
        e.name in sub.members && sub.members[e.name].SList? && Find(EntryJsons(sub.members[e.name].entries), e.keys, 0).Found?)
      && (entry != null ==> Find(EntryJsons(sub.members[e.name].entries), e.keys, 0) == Found(i))
  {
    hide Laid, Separate, Objects, JsonOf, ValueOf, Find, NewValues, NewMembers, KeysOf;
    x, h', i := sub, h, 0;
    entry := null;
    NodeView(node, sub, h);
    if e.name !in node.members {
      if create {
        var m, sh, h1 := NewEntry(fmt, e.keys, h);
        node.members := node.members[e.name := VList([VObject(m)])];
        h' := h1[node := node.members];
        LaidElsewhere(sh, h1, h');
        x := AddedList(sub, e.name, sh, h, h');
        entry := m;
      }
      return;
    }
    SameView(sub.members[e.name]);
    MemberSeparate(sub, e.name, h);
    match node.members[e.name]
    case VScalar(_, _) =>
    case VObject(_) =>
    case VList(keyedList) =>
      ghost var shs := sub.members[e.name].entries;
      var found := FindEntry(keyedList, e.keys, shs, h);
      match found
      case Malformed =>
      case Found(k) =>
        SameView(shs[k]);
        assert EntryJsons(shs)[k].Object?;
        match keyedList[k] {
          case VObject(m) => entry := m;
        }
        i := k;
        assert JsonsOf(sub.members)[e.name := List(EntryJsons(shs))] == JsonsOf(sub.members);
      case Missing =>
        if create {
          entry, x, h' := AppendEntry(fmt, node, e, keyedList, sub, h);
          i := |keyedList|;
        }
  }

  lemma {:induction false} NodeView(node: JsonObject, sub: Shape, h: Contents)
    requires At(node, sub, h)
    ensures node in h && node in Objects(sub) && node.members == ValuesOf(sub.members) && JsonOf(sub) == Object(JsonsOf(sub.members))
  {
  }

  lemma {:induction false} MemberSeparate(sub: Shape, name: string, h: Contents)
    requires sub.SObject? && name in sub.members && Separate(sub) && Laid(sub, h)
    ensures Laid(sub.members[name], h) && Separate(sub.members[name])
  {
  }

  lemma {:induction false} AddedList(sub: Shape, name: string, sh: Shape, h: Contents, h': Contents) returns (x: Shape)
    requires sub.SObject? && Separate(sub) && Laid(sub, h) && name !in sub.members
    requires sh.SObject? && Objects(sh) == {sh.object'} && Laid(sh, h') && Separate(sh) && sh.object' !in h
    requires Grown(h, h', {sub.object'}) && h'[sub.object'] == ValuesOf(sub.members)[name := VList([VObject(sh.object')])]
    ensures x == SObject(sub.object', sub.members[name := SList([sh])])
    ensures Laid(x, h') && Separate(x) && Objects(x) <= Objects(sub) + {sh.object'}
    ensures JsonsOf(x.members) == JsonsOf(sub.members)[name := List([JsonOf(sh)])]
    ensures EntryJsons([sh]) == [JsonOf(sh)]
  {
    var y := SList([sh]);
    x := SObject(sub.object', sub.members[name := y]);
    ObjectsInHeap(sub, h);
    assert Objects(y) == {sh.object'} by { assert [sh][0] == sh; }
    MemberReplaced(sub, name, y);
    forall f | f in sub.members && f != name ensures Agree(Objects(sub.members[f]), h, h') {
      MemberTree(sub, f);
    }
    assert ValueOf(y) == VList([VObject(sh.object')]);
    MemberWritten(sub, name, y, h, h');
    assert EntryJsons([sh]) == [JsonOf(sh)];
  }

  lemma {:induction false} AppendedEntry(sub: Shape, name: string, sh: Shape, h: Contents, h': Contents) returns (x: Shape)
    requires sub.SObject? && Separate(sub) && Laid(sub, h) && name in sub.members && sub.members[name].SList?
    requires sh.SObject? && Objects(sh) == {sh.object'} && Laid(sh, h') && Separate(sh) && sh.object' !in h
    requires Grown(h, h', {sub.object'})
    requires h'[sub.object'] == ValuesOf(sub.members)[name := VList(ValueOf(sub.members[name]).entries + [VObject(sh.object')])]
    ensures x == SObject(sub.object', sub.members[name := SList(sub.members[name].entries + [sh])])
    ensures Laid(x, h') && Separate(x) && Objects(x) <= Objects(sub) + {sh.object'}
    ensures EntryJsons(sub.members[name].entries + [sh]) == EntryJsons(sub.members[name].entries) + [JsonOf(sh)]
    ensures JsonsOf(x.members) == JsonsOf(sub.members)[name := List(EntryJsons(sub.members[name].entries) + [JsonOf(sh)])]
  {
    var es := sub.members[name].entries;
    var y := SList(es + [sh]);
    x := SObject(sub.object', sub.members[name := y]);
    ObjectsInHeap(sub, h);
    MemberTree(sub, name);
    MemberSeparate(sub, name, h);
    AppendedSeparate(es, sh, h);
    AppendedLaid(es, sh, h, h');
    OthersAgree(sub, name, h, h');
    hide Laid, Separate, Objects, JsonOf, ValueOf;
    MemberReplaced(sub, name, y);
    MemberWritten(sub, name, y, h, h');
    SameView(y);
  }

  lemma {:induction false} AppendedLaid(es: seq<Shape>, sh: Shape, h: Contents, h': Contents)
    requires Laid(SList(es), h) && Laid(sh, h') && Agree(Objects(SList(es)), h, h')
    requires sh.SObject?
    ensures Laid(SList(es + [sh]), h')
    ensures ValueOf(SList(es + [sh])) == VList(ValueOf(SList(es)).entries + [VObject(sh.object')])
    ensures EntryJsons(es + [sh]) == EntryJsons(es) + [JsonOf(sh)]
  {
    LaidElsewhere(SList(es), h, h');
  }

  /** A change of the node alone leaves all its other members as they were. */
  lemma {:induction false} OthersAgree(sub: Shape, name: string, h: Contents, h': Contents)
    requires sub.SObject? && Separate(sub) && Laid(sub, h) && Grown(h, h', {sub.object'})
    ensures forall f :: f in sub.members ==> Agree(Objects(sub.members[f]), h, h')
  {
    ObjectsInHeap(sub, h);
    forall f | f in sub.members ensures Agree(Objects(sub.members[f]), h, h') {
      MemberTree(sub, f);
    }
  }

  lemma {:induction false} AppendedSeparate(es: seq<Shape>, sh: Shape, h: Contents)
    requires Separate(SList(es)) && Laid(SList(es), h)
    requires Separate(sh) && Objects(sh) !! h.Keys
    ensures Separate(SList(es + [sh])) && Objects(SList(es + [sh])) == Objects(SList(es)) + Objects(sh)
  {
    ObjectsInHeap(SList(es), h);
    var all := es + [sh];
    forall j | 0 <= j < |all| ensures Separate(all[j]) && (j < |es| ==> all[j] == es[j] && Objects(all[j]) <= Objects(SList(es))) {
    }
    assert all[|es|] == sh;
    forall o | o in Objects(SList(es)) ensures o in Objects(SList(all)) {
      var j :| 0 <= j < |es| && o in Objects(es[j]);
      assert all[j] == es[j];
    }
  }

  // ---- setPathWithAttribute and setPathWithoutAttribute ----

  /** The value may be put into the tree: it is laid out in the heap, and shares no object with it. */
  ghost predicate Insertable(val: Value, vs: Shape, sub: Shape, h: Contents) {
    val == ValueOf(vs) && Laid(vs, h) && Separate(vs) && Objects(vs) !! Objects(sub)
  }

  /** Members b laid over members a of one node. */
  lemma {:induction false} Merged(o: JsonObject, a: Shapes, b: Shapes)
    requires Separate(SObject(o, a))
    requires forall g :: g in b ==> Separate(b[g]) && Objects(b[g]) !! Objects(SObject(o, a))
    requires forall f, g :: f in b && g in b && f != g ==> Objects(b[f]) !! Objects(b[g])
    ensures Separate(SObject(o, a + b))
    ensures Objects(SObject(o, a + b)) <= Objects(SObject(o, a)) + MemberObjects(b)
    ensures ValuesOf(a + b) == ValuesOf(a) + ValuesOf(b) && JsonsOf(a + b) == JsonsOf(a) + JsonsOf(b)
  {
    hide Objects, Separate, ValueOf, JsonOf;
    var ab := a + b;
    assert forall f :: f in ab && f !in b ==> ab[f] == a[f];
    assert forall f :: f in b ==> ab[f] == b[f];
    NodeObject(o, a);
    forall f | f in a ensures Separate(a[f]) && o !in Objects(a[f]) && Objects(a[f]) <= Objects(SObject(o, a))
      && forall g :: g in a && g != f ==> Objects(a[g]) !! Objects(a[f]) {
      MemberTree(SObject(o, a), f);
    }
    MergedSeparate(o, ab);
    MergedObjects(o, ab, Objects(SObject(o, a)) + MemberObjects(b));
    MergedViews(a, b);
  }

  lemma {:induction false} MergedViews(a: Shapes, b: Shapes)
    ensures ValuesOf(a + b) == ValuesOf(a) + ValuesOf(b) && JsonsOf(a + b) == JsonsOf(a) + JsonsOf(b)
  {
    var ab := a + b;
    assert ValuesOf(ab) == ValuesOf(a) + ValuesOf(b) && JsonsOf(ab) == JsonsOf(a) + JsonsOf(b);
  }

  lemma {:induction false} NodeObject(o: JsonObject, ms: Shapes)
    ensures o in Objects(SObject(o, ms))
  {
  }

  lemma {:induction false} MergedSeparate(o: JsonObject, ms: Shapes)
    requires forall f :: f in ms ==> Separate(ms[f]) && o !in Objects(ms[f])
    requires forall f, g :: f in ms && g in ms && f != g ==> Objects(ms[f]) !! Objects(ms[g])
    ensures Separate(SObject(o, ms))
  {
  }

  lemma {:induction false} MergedObjects(o: JsonObject, ms: Shapes, os: set<JsonObject>)
    requires o in os && forall f :: f in ms ==> Objects(ms[f]) <= os
    ensures Objects(SObject(o, ms)) <= os
  {
  }

  lemma {:induction false} MembersApart(vs: Shape)
    requires vs.SObject? && Separate(vs)
    ensures forall g :: g in vs.members ==> Separate(vs.members[g]) && Objects(vs.members[g]) <= Objects(vs)
    ensures forall f, g :: f in vs.members && g in vs.members && f != g ==> Objects(vs.members[f]) !! Objects(vs.members[g])
    ensures MemberObjects(vs.members) <= Objects(vs)
  {
  }

  lemma {:induction false} MergedLaid(o: JsonObject, a: Shapes, b: Shapes, h: Contents, h': Contents)
    requires Laid(SObject(o, a), h) && (forall g :: g in b ==> Laid(b[g], h))
    requires forall f :: f in a ==> Agree(Objects(a[f]), h, h')
    requires forall g :: g in b ==> Agree(Objects(b[g]), h, h')
    requires o in h' && h'[o] == ValuesOf(a) + ValuesOf(b)
    ensures Laid(SObject(o, a + b), h')
  {
    var ab := a + b;
    assert ValuesOf(ab) == ValuesOf(a) + ValuesOf(b);
    forall f | f in ab ensures Laid(ab[f], h') {
      if f in b {
        LaidElsewhere(b[f], h, h');
      } else {
        LaidElsewhere(a[f], h, h');
      }
    }
  }

  /** One object laid out afresh with the value's members over some of its own. */
  lemma {:induction false} ObjectOverlaid(o: JsonObject, a: Shapes, vs: Shape, h: Contents, h': Contents)
    requires Laid(SObject(o, a), h) && Separate(SObject(o, a)) && vs.SObject? && Laid(vs, h) && Separate(vs)
    requires Objects(vs) !! Objects(SObject(o, a))
    requires Grown(h, h', {o}) && h'[o] == ValuesOf(a) + ValuesOf(vs.members)
    ensures Laid(SObject(o, a + vs.members), h') && Separate(SObject(o, a + vs.members))
    ensures Objects(SObject(o, a + vs.members)) <= Objects(SObject(o, a)) + Objects(vs)
    ensures JsonsOf(a + vs.members) == JsonsOf(a) + JsonsOf(vs.members)
  {
    MembersApart(vs);
    ObjectsInHeap(vs, h);
    ObjectsInHeap(SObject(o, a), h);
    forall f | f in a ensures Agree(Objects(a[f]), h, h') {
      MemberTree(SObject(o, a), f);
    }
    MergedLaid(o, a, vs.members, h, h');
    Merged(o, a, vs.members);
  }

  /** One object laid out afresh with key attributes over some of its own members. */
  lemma {:induction false} KeysOverlaid(fmt: NumberFormat, o: JsonObject, a: Shapes, keys: Keys, h: Contents, h': Contents)
    requires Laid(SObject(o, a), h) && Separate(SObject(o, a))
    requires Grown(h, h', {o}) && h'[o] == ValuesOf(a) + NewValues(fmt, keys)
    ensures var ms := a + NewShapes(fmt, keys);
      Laid(SObject(o, ms), h') && Separate(SObject(o, ms))
      && Objects(SObject(o, ms)) <= Objects(SObject(o, a)) && JsonsOf(ms) == JsonsOf(a) + NewMembers(fmt, keys)
  {
    var b := NewShapes(fmt, keys);
    NewShapesAre(fmt, keys);
    ObjectsInHeap(SObject(o, a), h);
    forall f | f in a ensures Agree(Objects(a[f]), h, h') {
      MemberTree(SObject(o, a), f);
    }
    forall g | g in b ensures Objects(b[g]) == {} && Separate(b[g]) && Laid(b[g], h) {
    }
    MergedLaid(o, a, b, h, h');
    Merged(o, a, b);
  }

  /** An object some of whose members were taken away. */
  lemma {:induction false} FewerMembers(o: JsonObject, a: Shapes, gone: set<string>, h: Contents, h': Contents)
    requires Laid(SObject(o, a), h) && Separate(SObject(o, a))
    requires Grown(h, h', {o}) && h'[o] == ValuesOf(a) - gone
    ensures Laid(SObject(o, a - gone), h') && Separate(SObject(o, a - gone))
    ensures Objects(SObject(o, a - gone)) <= Objects(SObject(o, a)) && JsonsOf(a - gone) == JsonsOf(a) - gone
  {
    ObjectsInHeap(SObject(o, a), h);
    forall f | f in a ensures Agree(Objects(a[f]), h, h') {
      MemberTree(SObject(o, a), f);
    }
    forall f | f in a && f !in gone ensures Laid(a[f], h') {
      LaidElsewhere(a[f], h, h');
    }
    assert ValuesOf(a - gone) == ValuesOf(a) - gone;
  }

  method SetPathWithoutAttribute(op: Op, node: JsonObject, name: string, val: Value, ghost sub: Shape, ghost vs: Shape, ghost h: Contents)
    returns (r: Option<Code>, ghost x: Shape, ghost h': Contents)
    requires At(node, sub, h) && Insertable(val, vs, sub, h)
    modifies Objects(sub)
    ensures At(node, x, h') && Grown(h, h', Objects(sub)) && h'.Keys == h.Keys && Objects(x) <= Objects(sub) + Objects(vs)
    ensures match r
      case None => SetMember(op, JsonsOf(sub.members), name, JsonOf(vs)) == Ok(JsonsOf(x.members))
      case Some(c) => SetMember(op, JsonsOf(sub.members), name, JsonOf(vs)) == Err(c)
  {
    hide Laid, Separate, Objects, JsonOf, ValueOf;
    NodeView(node, sub, h);
    SameView(vs);
    if op.Replace? || name !in node.members || !val.VObject? {
      node.members := node.members[name := val];
      h' := h[node := node.members];
      x := SObject(node, sub.members[name := vs]);
      Placed(sub, name, vs, h, h');
      return None, x, h';
    }
    SameView(sub.members[name]);
    match node.members[name]
    case VScalar(_, _) => return Some(Internal), sub, h;
    case VList(_) => return Some(Internal), sub, h;
    case VObject(target) =>
      ghost var t := sub.members[name];
      MemberSeparate(sub, name, h);
      MemberTree(sub, name);
      ObjectView(t, h);
      match val {
        case VObject(source) =>
          ObjectView(vs, h);
          Overlay(target, source.members);
      }
      h' := h[target := target.members];
      ghost var t' := SObject(target, t.members + vs.members);
      ObjectOverlaid(target, t.members, vs, h, h');
      x := Graft(sub, [Hop(name, None)], t');
      SameView(t');
      GraftedMember(sub, name, t', h, h');
      r := None;
  }

  lemma {:induction false} ObjectView(sh: Shape, h: Contents)
    requires sh.SObject? && Laid(sh, h)
    ensures sh.object' in h && h[sh.object'] == ValuesOf(sh.members) && sh.object' in Objects(sh)
    ensures sh == SObject(sh.object', sh.members)
  {
  }

  /** A value put under a name of the node. */
  lemma {:induction false} Placed(sub: Shape, name: string, vs: Shape, h: Contents, h': Contents)
    requires sub.SObject? && Separate(sub) && Laid(sub, h) && Separate(vs) && Laid(vs, h) && Objects(vs) !! Objects(sub)
    requires Grown(h, h', {sub.object'}) && h'[sub.object'] == ValuesOf(sub.members)[name := ValueOf(vs)]
    ensures var x := SObject(sub.object', sub.members[name := vs]);
      Laid(x, h') && Separate(x) && Objects(x) <= Objects(sub) + Objects(vs) && JsonsOf(x.members) == JsonsOf(sub.members)[name := JsonOf(vs)]
  {
    ObjectsInHeap(vs, h);
    ObjectView(sub, h);
    LaidElsewhere(vs, h, h');
    forall f | f in sub.members && f != name ensures Objects(sub.members[f]) !! Objects(vs) {
      MemberTree(sub, f);
    }
    OthersAgree(sub, name, h, h');
    MemberReplaced(sub, name, vs);
    MemberWritten(sub, name, vs, h, h');
  }

  /** An object below the node, by name, laid out afresh. */
  lemma {:induction false} GraftedMember(sub: Shape, name: string, t: Shape, h: Contents, h': Contents)
    requires sub.SObject? && Separate(sub) && Laid(sub, h) && name in sub.members && sub.members[name].SObject?
    requires t.SObject? && t.object' == sub.members[name].object' && Laid(t, h') && Separate(t)
    requires Grown(h, h', Objects(sub.members[name])) && Objects(t) * Objects(sub) <= Objects(sub.members[name])
    ensures Reaches(sub, [Hop(name, None)]) && SubShape(sub, [Hop(name, None)]) == sub.members[name]
    ensures var x := Graft(sub, [Hop(name, None)], t);
      && x == SObject(sub.object', sub.members[name := t])
      && Laid(x, h') && Separate(x) && Objects(x) <= Objects(sub) + Objects(t)
      && JsonsOf(x.members) == JsonsOf(sub.members)[name := JsonOf(t)]
  {
    hide Laid, Separate, Objects, ValueOf;
    var hops := [Hop(name, None)];
    assert hops[1..] == [];
    SameView(t);
    SameView(sub.members[name]);
    ObjectsInHeap(sub, h);
    GraftLaid(sub, hops, t, h, h');
    GraftTree(sub, hops, t);
    GraftObjects(sub, hops, t);
  }

  /** An entry of a list below the node laid out afresh. */
  lemma {:induction false} GraftedEntry(sub: Shape, name: string, i: nat, t: Shape, h: Contents, h': Contents)
    requires Separate(sub) && Laid(sub, h) && t.SObject? && EntryAt(t.object', sub, name, i)
    requires Laid(t, h') && Separate(t)
    requires Grown(h, h', Objects(sub.members[name].entries[i])) && Objects(t) * Objects(sub) <= Objects(sub.members[name].entries[i])
    ensures Reaches(sub, [Hop(name, Some(i))]) && SubShape(sub, [Hop(name, Some(i))]) == sub.members[name].entries[i]
    ensures var x, es := Graft(sub, [Hop(name, Some(i))], t), sub.members[name].entries;
      && x == SObject(sub.object', sub.members[name := SList(es[i := t])])
      && Laid(x, h') && Separate(x) && Objects(x) <= Objects(sub) + Objects(t)
      && JsonsOf(x.members) == JsonsOf(sub.members)[name := List(EntryJsons(es)[i := JsonOf(t)])]
  {
    var hops, es := [Hop(name, Some(i))], sub.members[name].entries;
    assert hops[1..] == [];
    ObjectsInHeap(sub, h);
    SameView(t);
    SameView(es[i]);
    hide Laid, Separate, Objects, JsonOf, ValueOf;
    GraftLaid(sub, hops, t, h, h');
    GraftTree(sub, hops, t);
    GraftObjects(sub, hops, t);
    EntryJsonWritten(sub.members, name, es, i, t);
  }

  lemma {:induction false} EntryJsonWritten(ms: Shapes, name: string, es: seq<Shape>, i: nat, t: Shape)
    requires i < |es|
    ensures JsonsOf(ms[name := SList(es[i := t])]) == JsonsOf(ms)[name := List(EntryJsons(es)[i := JsonOf(t)])]
  {
    assert EntryJsons(es[i := t]) == EntryJsons(es)[i := JsonOf(t)];
    SameView(SList(es[i := t]));
  }

  lemma {:induction false} EntryFacts(entry: JsonObject, x: Shape, name: string, i: nat, h: Contents)
    requires x.SObject? && EntryAt(entry, x, name, i) && Laid(x, h) && Separate(x)
    ensures var t := x.members[name].entries[i];
      t == SObject(entry, t.members) && Laid(t, h) && Separate(t) && Objects(t) <= Objects(x) && entry in h && entry in Objects(t)
      && entry != x.object' && h[entry] == ValuesOf(t.members)
      && EntryJsons(x.members[name].entries)[i] == Object(JsonsOf(t.members))
  {
    MemberTree(x, name);
    MemberSeparate(x, name, h);
    EntryApart(x.members[name].entries, i);
    EntryLaid(x.members[name].entries, i, h);
    hide Laid, Separate, Objects, JsonOf, ValueOf;
    ObjectView(x.members[name].entries[i], h);
    EntryJson(x.members[name].entries, i);
  }

  lemma {:induction false} EntryLaid(es: seq<Shape>, i: nat, h: Contents)
    requires i < |es| && Laid(SList(es), h)
    ensures Laid(es[i], h)
  {
  }

  lemma {:induction false} EntryJson(es: seq<Shape>, i: nat)
    requires i < |es| && es[i].SObject?
    ensures EntryJsons(es)[i] == Object(JsonsOf(es[i].members))
  {
  }

  method SetPathWithAttribute(fmt: NumberFormat, op: Op, node: JsonObject, e: Elem, val: Value, ghost sub: Shape, ghost vs: Shape, ghost h: Contents)
    returns (r: Option<Code>, ghost x: Shape, ghost h': Contents)
    requires At(node, sub, h) && Insertable(val, vs, sub, h)
    modifies Objects(sub)
    ensures At(node, x, h') && Grown(h, h', Objects(sub)) && fresh(h'.Keys - h.Keys)
    ensures Objects(x) <= Objects(sub) + Objects(vs) + (h'.Keys - h.Keys)
    ensures match r
      case None => SetEntry(fmt, op, JsonsOf(sub.members), e, JsonOf(vs)) == Ok(JsonsOf(x.members))
      case Some(c) => SetEntry(fmt, op, JsonsOf(sub.members), e, JsonOf(vs)) == Err(c)
  {
    hide Laid, Separate, Objects, JsonOf, ValueOf, ValuesOf, JsonsOf, EntryJsons, Graft;
    NodeView(node, sub, h);
    SameView(vs);
    match val
    case VScalar(_, _) => return Some(InvalidArgument), sub, h;
    case VList(_) => return Some(InvalidArgument), sub, h;
    case VObject(source) =>
      ObjectView(vs, h);
      ObjectsInHeap(vs, h);
      var entry, i, x1, h1 := GetKeyedListEntry(fmt, node, e, true, sub, h);
      if entry == null {
        return Some(NotFound), x1, h1;
      }
      EntryFacts(entry, x1, e.name, i, h1);
      ghost var t := x1.members[e.name].entries[i];
      LaidElsewhere(vs, h, h1);
      var conflict, t1, h2 := WriteEntry(fmt, op, entry, e, source, t, vs, h1);
      h' := h2;
      GraftedEntry(x1, e.name, i, t1, h1, h2);
      x := Graft(x1, [Hop(e.name, Some(i))], t1);
      if conflict {
        return Some(InvalidArgument), x, h';
      }
      SameView(t1);
      WrittenTwice(JsonsOf(sub.members), e.name, EntryJsons(x1.members[e.name].entries), i, JsonOf(t1));
      r := None;
  }

  /** Clears the entry for a replace and stores the key attributes. */
  method PrepareEntry(fmt: NumberFormat, op: Op, entry: JsonObject, e: Elem, source: map<string, Value>, ghost t: Shape, ghost h: Contents)
    returns (conflict: bool, ghost t': Shape, ghost h': Contents)
    requires At(entry, t, h)
    modifies entry
    ensures At(entry, t', h') && Grown(h, h', {entry}) && h'.Keys == h.Keys && Objects(t') <= Objects(t)
    ensures conflict <==> Contradicts(e.keys, source)
    ensures !conflict ==> JsonsOf(t'.members) == (if op.Update? then JsonsOf(t.members) else map[]) + NewMembers(fmt, e.keys)
  {
    hide Laid, Separate, Objects, JsonOf, ValueOf;
    NodeView(entry, t, h);
    if op.Replace? {
      entry.members := map[];
    }
    ghost var kept := if op.Replace? then map[] else t.members;
    ghost var h1 := h[entry := entry.members];
    KeptLaid(t, kept, h, h1);
    ghost var stored;
    conflict, stored := StoreKeys(fmt, entry, e.keys, source);
    h' := h1[entry := entry.members];
    KeysOverlaid(fmt, entry, kept, stored, h1, h');
    t' := SObject(entry, kept + NewShapes(fmt, stored));
  }

  /** Writes the entry; a contradicting value leaves it prepared but without the value's members. */
  method WriteEntry(fmt: NumberFormat, op: Op, entry: JsonObject, e: Elem, source: JsonObject, ghost t: Shape, ghost vs: Shape, ghost h: Contents)
    returns (conflict: bool, ghost t': Shape, ghost h': Contents)
    requires At(entry, t, h) && At(source, vs, h) && Objects(vs) !! Objects(t)
    modifies entry
    ensures At(entry, t', h') && Grown(h, h', {entry}) && h'.Keys == h.Keys && Objects(t') <= Objects(t) + Objects(vs)
    ensures conflict <==> Conflicts(e, JsonOf(vs))
    ensures !conflict ==>
      JsonsOf(t'.members) == (if op.Update? then JsonsOf(t.members) else map[]) + NewMembers(fmt, e.keys) + JsonsOf(vs.members)
  {
    hide Laid, Separate, Objects, JsonOf, ValueOf;
    NodeView(entry, t, h);
    NodeView(source, vs, h);
    ObjectsInHeap(vs, h);
    conflict, t', h' := PrepareEntry(fmt, op, entry, e, source.members, t, h);
    ConflictSeen(e, vs);
    if !conflict {
      NodeView(entry, t', h');
      LaidElsewhere(vs, h, h');
      Overlay(entry, source.members);
      ghost var h1, ms := h', t'.members;
      h' := h1[entry := entry.members];
      ObjectOverlaid(entry, ms, vs, h1, h');
      t' := SObject(entry, ms + vs.members);
    }
  }

  lemma {:induction false} WrittenTwice(ms: Members, name: string, es: seq<Json>, i: nat, y: Json)
    requires i < |es|
    ensures ms[name := List(es)][name := List(es[i := y])] == ms[name := List(es[i := y])]
  {
  }

  lemma {:induction false} KeptLaid(t: Shape, kept: Shapes, h: Contents, h': Contents)
    requires t.SObject? && Laid(t, h) && Separate(t) && (kept == t.members || kept == map[])
    requires Grown(h, h', {t.object'}) && h'[t.object'] == ValuesOf(kept)
    ensures var x := SObject(t.object', kept); Laid(x, h') && Separate(x) && Objects(x) <= Objects(t)
    ensures kept == map[] ==> JsonsOf(kept) == map[]
  {
    if kept == t.members {
      FewerMembers(t.object', t.members, {}, h, h');
      assert t.members - {} == t.members;
      assert ValuesOf(kept) - {} == ValuesOf(kept);
    }
  }

  lemma {:induction false} ConflictSeen(e: Elem, vs: Shape)
    requires vs.SObject?
    ensures Contradicts(e.keys, ValuesOf(vs.members)) <==> Conflicts(e, JsonOf(vs))
  {
    forall k | k in vs.members ensures PrintedValue(ValuesOf(vs.members)[k]) == Printed(JsonOf(vs).members[k]) {
      SameView(vs.members[k]);
    }
  }

  // ---- deleteKeyedListEntry ----

  lemma {:induction false} SwapDeletedShape(es: seq<Shape>, i: nat, h: Contents)
    requires i < |es| && Separate(SList(es)) && Laid(SList(es), h)
    ensures var rest := es[i := es[|es| - 1]][..|es| - 1];
      && Separate(SList(rest)) && Laid(SList(rest), h) && Objects(SList(rest)) <= Objects(SList(es))
      && EntryJsons(rest) == EntryJsons(es)[i := EntryJsons(es)[|es| - 1]][..|es| - 1]
      && ValueOf(SList(rest)) == VList(ValueOf(SList(es)).entries[i := ValueOf(SList(es)).entries[|es| - 1]][..|es| - 1])
  {
    var n := |es| - 1;
    var rest := es[i := es[n]][..n];
    forall j | 0 <= j < |rest| ensures rest[j] == es[if j == i then n else j] && Objects(rest[j]) <= Objects(SList(es)) {
    }
    forall j, k | 0 <= j < k < |rest| ensures Objects(rest[j]) !! Objects(rest[k]) {
      EntryApart(es, if j == i then n else j);
    }
  }

  /** Deletes the matching entry by moving the last one into its place; a list that loses its last entry is removed. */
  method DeleteKeyedListEntry(node: JsonObject, e: Elem, ghost sub: Shape, ghost h: Contents)
    returns (deleted: bool, ghost x: Shape, ghost h': Contents)
    requires At(node, sub, h)
    modifies node
    ensures At(node, x, h') && Grown(h, h', {node}) && h'.Keys == h.Keys && Objects(x) <= Objects(sub)
    ensures (JsonsOf(x.members), deleted) == DeleteEntry(JsonsOf(sub.members), e)
  {
    hide Laid, Separate, Objects, JsonOf, ValueOf, Find;
    x, h', deleted := sub, h, false;
    NodeView(node, sub, h);
    if e.name !in node.members {
      return;
    }
    SameView(sub.members[e.name]);
    MemberSeparate(sub, e.name, h);
    match node.members[e.name]
    case VScalar(_, _) =>
    case VObject(_) =>
    case VList(keyedList) =>
      ghost var shs := sub.members[e.name].entries;
      var found := FindEntry(keyedList, e.keys, shs, h);
      match found
      case Malformed =>
      case Missing =>
      case Found(i) =>
        var n := |keyedList|;
        deleted := true;
        if n == 1 {
          node.members := node.members - {e.name};
          h' := h[node := node.members];
          FewerMembers(node, sub.members, {e.name}, h, h');
          x := SObject(node, sub.members - {e.name});
        } else {
          node.members := node.members[e.name := VList(keyedList[i := keyedList[n - 1]][..n - 1])];
          h' := h[node := node.members];
          ghost var rest := shs[i := shs[n - 1]][..n - 1];
          SwapDeletedShape(shs, i, h);
          x := SObject(node, sub.members[e.name := SList(rest)]);
          ListRewritten(sub, e.name, SList(rest), h, h');
          SameView(SList(rest));
        }
  }

  /** A member of the node replaced by a list of some of its own entries. */
  lemma {:induction false} ListRewritten(sub: Shape, name: string, y: Shape, h: Contents, h': Contents)
    requires sub.SObject? && Separate(sub) && Laid(sub, h) && name in sub.members
    requires Separate(y) && Laid(y, h) && Objects(y) <= Objects(sub.members[name])
    requires Grown(h, h', {sub.object'}) && h'[sub.object'] == ValuesOf(sub.members)[name := ValueOf(y)]
    ensures var x := SObject(sub.object', sub.members[name := y]);
      Laid(x, h') && Separate(x) && Objects(x) <= Objects(sub) && JsonsOf(x.members) == JsonsOf(sub.members)[name := JsonOf(y)]
  {
    MemberTree(sub, name);
    ObjectsInHeap(y, h);
    ObjectView(sub, h);
    LaidElsewhere(y, h, h');
    OthersAgree(sub, name, h, h');
    MemberReplaced(sub, name, y);
    MemberWritten(sub, name, y, h, h');
  }

  // ---- getChildNode ----

  /** Where a walk stands: at a value, or at the nil map of an entry that was not found. */
  datatype Cursor = AtValue(value: Value) | NilMap

  /** The child of the node that the hop leads to. */
  ghost predicate ChildAt(c: Cursor, x: Shape, hop: Hop) {
    c.AtValue? && Reaches(x, [hop]) && c.value == ValueOf(Next(x, hop))
  }

  method GetChildNode(fmt: NumberFormat, node: JsonObject, s: Schema, e: Elem, create: bool, ghost sub: Shape, ghost h: Contents)
    returns (c: Option<Cursor>, ghost hop: Hop, ghost x: Shape, ghost h': Contents)
    requires At(node, sub, h)
    modifies node
    ensures At(node, x, h') && Grown(h, h', {node}) && fresh(h'.Keys - h.Keys) && Objects(x) <= Objects(sub) + (h'.Keys - h.Keys)
    ensures !create ==> x == sub && h' == h
    ensures c.Some? && c.value.AtValue? ==> ChildAt(c.value, x, hop) && hop.name == e.name && e.name in s.dir
    ensures c.None? <==> e.name !in s.dir || (e.keys == map[] && !create && e.name !in sub.members)
    ensures e.name in s.dir && e.keys == map[] && c.Some? ==>
      && c.value.AtValue? && hop.index == None
      && JsonsOf(x.members) == JsonsOf(sub.members)[e.name := if e.name in sub.members then JsonOf(sub.members[e.name]) else Object(map[])]
    ensures e.name in s.dir && e.keys != map[] && create ==>
      var r := EntryFor(fmt, JsonsOf(sub.members), e);
      && c.Some? && (c.value.AtValue? <==> r.Some?)
      && (c.value.AtValue? ==>
        && hop.index.Some? && EntryInList(x, hop)
        && r == Some((EntryJsons(x.members[e.name].entries), hop.index.value))
        && JsonsOf(x.members) == JsonsOf(sub.members)[e.name := List(EntryJsons(x.members[e.name].entries))])
    ensures e.name in s.dir && e.keys != map[] && !create ==>
      && c.Some?
      && (c.value.AtValue? <==>
            e.name in sub.members && sub.members[e.name].SList? && Find(EntryJsons(sub.members[e.name].entries), e.keys, 0).Found?)
      && (c.value.AtValue? ==> hop.index.Some? && EntryInList(x, hop) && Find(EntryJsons(sub.members[e.name].entries), e.keys, 0) == Found(hop.index.value))
  {
    hide Laid, Separate, Objects, JsonOf, ValueOf, Find, EntryFor, ChildAt;
    x, h', hop := sub, h, Hop(e.name, None);
    c := None;
    if e.name !in s.dir {
      return;
    }
    if e.keys == map[] {
      var v, x1, h1 := GetMember(fmt, node, e.name, create, sub, h);
      x, h' := x1, h1;
      c := match v case None => None case Some(w) => Some(AtValue(w));
      return;
    }
    var entry, i, x1, h1 := GetKeyedListEntry(fmt, node, e, create, sub, h);
    x, h' := x1, h1;
    if entry == null {
      c := Some(NilMap);
      return;
    }
    hop := Hop(e.name, Some(i));
    EntryHop(entry, x, hop);
    c := Some(AtValue(VObject(entry)));
  }

  /** The part of getChildNode for steps without keys: an existing member, or a new empty object. */
  method GetMember(fmt: NumberFormat, node: JsonObject, name: string, create: bool, ghost sub: Shape, ghost h: Contents)
    returns (v: Option<Value>, ghost x: Shape, ghost h': Contents)
    requires At(node, sub, h)
    modifies node
    ensures At(node, x, h') && Grown(h, h', {node}) && fresh(h'.Keys - h.Keys) && Objects(x) <= Objects(sub) + (h'.Keys - h.Keys)
    ensures !create ==> x == sub && h' == h
    ensures v.Some? <==> create || name in sub.members
    ensures v.Some? ==> ChildAt(AtValue(v.value), x, Hop(name, None))
    ensures v.Some? ==>
      JsonsOf(x.members) == JsonsOf(sub.members)[name := if name in sub.members then JsonOf(sub.members[name]) else Object(map[])]
  {
    hide Laid, Separate, Objects, JsonOf, ValueOf;
    x, h', v := sub, h, None;
    NodeView(node, sub, h);
    if name in node.members {
      v := Some(node.members[name]);
      MemberHop(x, Hop(name, None));
      assert JsonsOf(sub.members)[name := JsonOf(sub.members[name])] == JsonsOf(sub.members);
    } else if create {
      var m, sh, h1 := NewEntry(fmt, map[], h);
      node.members := node.members[name := VObject(m)];
      h' := h1[node := node.members];
      LaidElsewhere(sh, h1, h');
      AddedMember(sub, name, sh, h, h');
      x := SObject(node, sub.members[name := sh]);
      SameView(sh);
      MemberHop(x, Hop(name, None));
      v := Some(VObject(m));
    }
  }

  lemma {:induction false} EntryHop(entry: JsonObject, x: Shape, hop: Hop)
    requires hop.index.Some? && x.SObject? && EntryAt(entry, x, hop.name, hop.index.value)
    ensures EntryInList(x, hop) && ChildAt(AtValue(VObject(entry)), x, hop)
  {
    assert [hop][1..] == [];
    SameView(x.members[hop.name].entries[hop.index.value]);
  }

  lemma {:induction false} MemberHop(x: Shape, hop: Hop)
    requires x.SObject? && hop.name in x.members && hop.index == None
    ensures Reaches(x, [hop]) && Next(x, hop) == x.members[hop.name]
  {
    assert [hop][1..] == [];
  }

  ghost predicate EntryInList(x: Shape, hop: Hop) {
    x.SObject? && hop.index.Some? && hop.name in x.members && x.members[hop.name].SList?
    && hop.index.value < |x.members[hop.name].entries| && x.members[hop.name].entries[hop.index.value].SObject?
  }

  /** A new object put under a name of the node. */
  lemma {:induction false} AddedMember(sub: Shape, name: string, sh: Shape, h: Contents, h': Contents)
    requires sub.SObject? && Separate(sub) && Laid(sub, h) && name !in sub.members
    requires sh.SObject? && Objects(sh) == {sh.object'} && Laid(sh, h') && Separate(sh) && sh.object' !in h
    requires Grown(h, h', {sub.object'}) && h'[sub.object'] == ValuesOf(sub.members)[name := VObject(sh.object')]
    ensures var x := SObject(sub.object', sub.members[name := sh]);
      Laid(x, h') && Separate(x) && Objects(x) <= Objects(sub) + {sh.object'} && JsonsOf(x.members) == JsonsOf(sub.members)[name := JsonOf(sh)]
  {
    ObjectsInHeap(sub, h);
    ObjectView(sub, h);
    OthersAgree(sub, name, h, h');
    forall f | f in sub.members && f != name ensures Objects(sub.members[f]) !! Objects(sh) {
      MemberTree(sub, f);
    }
    MemberReplaced(sub, name, sh);
    MemberWritten(sub, name, sh, h, h');
  }
}
