/**
 The JSON tree as the server holds it: objects are mutable maps that other objects and lists point to.
 A ghost shape records which object sits where, so that one update in place is one change of the JSON value.
 */
module JsonHeap {
  import opened Wrappers
  import opened PathTree
  import opened JsonTree
  import opened JsonEdit

  /** A map[string]interface{}. */
  class JsonObject {
    var members: map<string, Value>

    constructor ()
      ensures members == map[]
    {
      members := map[];
    }
  }

  /** An interface{} holding a scalar, a map or a slice. */
  datatype Value =
    | VScalar(kind: Kind, text: string)
    | VObject(object': JsonObject)
    | VList(entries: seq<Value>)

  /** The layout of a tree in the heap. */
  datatype Shape =
    | SScalar(kind: Kind, text: string)
    | SObject(object': JsonObject, members: map<string, Shape>)
    | SList(entries: seq<Shape>)

  type Shapes = map<string, Shape>

  ghost function Objects(sh: Shape): set<JsonObject>
    decreases sh
  {
    match sh
    case SScalar(_, _) => {}
    case SObject(o, ms) => {o} + set f, x | f in ms && x in Objects(ms[f]) :: x
    case SList(es) => set i, x | 0 <= i < |es| && x in Objects(es[i]) :: x
  }

  ghost function MemberObjects(ms: Shapes): set<JsonObject> {
    set f, x | f in ms && x in Objects(ms[f]) :: x
  }

  /** What a pointer to the shape looks like from outside. */
  ghost function ValueOf(sh: Shape): Value
    decreases sh
  {
    match sh
    case SScalar(kind, text) => VScalar(kind, text)
    case SObject(o, _) => VObject(o)
    case SList(es) => VList(seq(|es|, i requires 0 <= i < |es| => ValueOf(es[i])))
  }

  ghost function ValuesOf(ms: Shapes): map<string, Value> {
    map f | f in ms :: ValueOf(ms[f])
  }

  /** The JSON the shape stands for. */
  ghost function JsonOf(sh: Shape): Json
    decreases sh
  {
    match sh
    case SScalar(kind, text) => Scalar(kind, text)
    case SObject(_, ms) => Object(map f | f in ms :: JsonOf(ms[f]))
    case SList(es) => List(seq(|es|, i requires 0 <= i < |es| => JsonOf(es[i])))
  }

  ghost function JsonsOf(ms: Shapes): Members {
    map f | f in ms :: JsonOf(ms[f])
  }

  ghost function EntryJsons(es: seq<Shape>): seq<Json> {
    seq(|es|, i requires 0 <= i < |es| => JsonOf(es[i]))
  }

  /** What the objects of a heap hold. */
  type Contents = map<JsonObject, map<string, Value>>

  ghost function ContentsOf(os: set<JsonObject>): Contents
    reads os
  {
    map o | o in os :: o.members
  }

  /** In this heap the objects have this layout. */
  ghost predicate Laid(sh: Shape, h: Contents)
    decreases sh
  {
    match sh
    case SScalar(_, _) => true
    case SObject(o, ms) => o in h && h[o] == ValuesOf(ms) && forall f :: f in ms ==> Laid(ms[f], h)
    case SList(es) => forall i :: 0 <= i < |es| ==> Laid(es[i], h)
  }

  /** The present heap has this layout. */
  ghost predicate Holds(sh: Shape)
    reads Objects(sh)
  {
    Laid(sh, ContentsOf(Objects(sh)))
  }

  /** No object occurs twice in the layout. */
  ghost predicate Separate(sh: Shape)
    decreases sh
  {
    match sh
    case SScalar(_, _) => true
    case SObject(o, ms) =>
      && (forall f :: f in ms ==> o !in Objects(ms[f]))
      && (forall f :: f in ms ==> Separate(ms[f]))
      && (forall f, g :: f in ms && g in ms && f != g ==> Objects(ms[f]) !! Objects(ms[g]))
    case SList(es) =>
      && (forall i :: 0 <= i < |es| ==> Separate(es[i]))
      && (forall i, j :: 0 <= i < j < |es| ==> Objects(es[i]) !! Objects(es[j]))
  }

  // ---- A place in the tree ----

  /** One step down: a member, or entry i of the list that the member is. */
  datatype Hop = Hop(name: string, index: Option<nat>)

  ghost predicate Reaches(sh: Shape, hops: seq<Hop>)
    decreases |hops|
  {
    hops == [] ||
    (&& sh.SObject? && hops[0].name in sh.members
     && var m := sh.members[hops[0].name];
        match hops[0].index
        case None => Reaches(m, hops[1..])
        case Some(i) => m.SList? && i < |m.entries| && Reaches(m.entries[i], hops[1..]))
  }

  ghost function SubShape(sh: Shape, hops: seq<Hop>): Shape
    requires Reaches(sh, hops)
    decreases |hops|
  {
    if hops == [] then sh
    else
      var m := sh.members[hops[0].name];
      match hops[0].index
      case None => SubShape(m, hops[1..])
      case Some(i) => SubShape(m.entries[i], hops[1..])
  }

  /** The shape with x in place of the sub-shape at hops. */
  ghost function Graft(sh: Shape, hops: seq<Hop>, x: Shape): Shape
    requires Reaches(sh, hops)
    decreases |hops|
  {
    if hops == [] then x
    else
      var m := sh.members[hops[0].name];
      match hops[0].index
      case None => sh.(members := sh.members[hops[0].name := Graft(m, hops[1..], x)])
      case Some(i) =>
        sh.(members := sh.members[hops[0].name := SList(m.entries[i := Graft(m.entries[i], hops[1..], x)])])
  }

  /** The sub-shape the first hop leads to. */
  ghost function Next(sh: Shape, hop: Hop): Shape
    requires Reaches(sh, [hop])
  {
    match hop.index
    case None => sh.members[hop.name]
    case Some(i) => sh.members[hop.name].entries[i]
  }

  lemma {:induction false} FirstHop(sh: Shape, hops: seq<Hop>)
    requires Reaches(sh, hops) && hops != []
    ensures Reaches(sh, [hops[0]]) && Reaches(Next(sh, hops[0]), hops[1..])
    ensures SubShape(sh, hops) == SubShape(Next(sh, hops[0]), hops[1..])
    ensures Objects(Next(sh, hops[0])) <= Objects(sh.members[hops[0].name]) <= Objects(sh)
    ensures Separate(sh) ==> Separate(Next(sh, hops[0])) && sh.object' !in Objects(Next(sh, hops[0]))
  {
    assert [hops[0]][1..] == [];
    if Separate(sh) {
      MemberTree(sh, hops[0].name);
    }
  }

  lemma {:induction false} MemberTree(sh: Shape, name: string)
    requires Separate(sh) && sh.SObject? && name in sh.members
    ensures Separate(sh.members[name]) && sh.object' !in Objects(sh.members[name])
    ensures Objects(sh.members[name]) <= Objects(sh)
    ensures forall f :: f in sh.members && f != name ==> Objects(sh.members[f]) !! Objects(sh.members[name])
  {
  }

  /** Replacing one member by a tree of objects that are new to the others. */
  lemma {:induction false} MemberReplaced(sh: Shape, name: string, m: Shape)
    requires Separate(sh) && sh.SObject? && Separate(m)
    requires sh.object' !in Objects(m)
    requires forall f :: f in sh.members && f != name ==> Objects(sh.members[f]) !! Objects(m)
    ensures Separate(SObject(sh.object', sh.members[name := m]))
    ensures Objects(SObject(sh.object', sh.members[name := m])) <= Objects(sh) + Objects(m)
  {
  }

  lemma {:induction false} EntryReplaced(es: seq<Shape>, i: nat, x: Shape)
    requires i < |es| && Separate(SList(es)) && Separate(x)
    requires forall j :: 0 <= j < |es| && j != i ==> Objects(es[j]) !! Objects(x)
    ensures Separate(SList(es[i := x]))
    ensures Objects(SList(es[i := x])) <= Objects(SList(es)) + Objects(x)
  {
  }

  lemma {:induction false} EntryApart(es: seq<Shape>, i: nat)
    requires i < |es| && Separate(SList(es))
    ensures Separate(es[i]) && Objects(es[i]) <= Objects(SList(es))
    ensures forall j :: 0 <= j < |es| && j != i ==> Objects(es[j]) !! Objects(es[i]) && Objects(es[j]) <= Objects(SList(es))
  {
  }

  lemma {:induction false} SubShapeObjects(sh: Shape, hops: seq<Hop>)
    requires Reaches(sh, hops)
    ensures Objects(SubShape(sh, hops)) <= Objects(sh)
    ensures Separate(sh) ==> Separate(SubShape(sh, hops))
    decreases |hops|
  {
    if hops != [] {
      FirstHop(sh, hops);
      SubShapeObjects(Next(sh, hops[0]), hops[1..]);
    }
  }

  lemma {:induction false} SubShapeLaid(sh: Shape, hops: seq<Hop>, h: Contents)
    requires Reaches(sh, hops) && Laid(sh, h)
    ensures Laid(SubShape(sh, hops), h)
    decreases |hops|
  {
    if hops != [] {
      FirstHop(sh, hops);
      assert Laid(sh.members[hops[0].name], h);
      SubShapeLaid(Next(sh, hops[0]), hops[1..], h);
    }
  }

  /** Grafting changes the objects of the tree only by the objects of the graft. */
  lemma {:induction false} GraftObjects(sh: Shape, hops: seq<Hop>, x: Shape)
    requires Reaches(sh, hops)
    ensures Objects(Graft(sh, hops, x)) <= Objects(sh) + Objects(x)
    ensures Reaches(Graft(sh, hops, x), hops) && SubShape(Graft(sh, hops, x), hops) == x
    decreases |hops|
  {
    if hops != [] {
      FirstHop(sh, hops);
      GraftObjects(Next(sh, hops[0]), hops[1..], x);
    }
  }

  /** A graft whose own objects are new to the rest of the tree leaves it a tree. */
  lemma {:induction false} GraftTree(sh: Shape, hops: seq<Hop>, x: Shape)
    requires Reaches(sh, hops) && Separate(sh) && Separate(x)
    requires Objects(x) * Objects(sh) <= Objects(SubShape(sh, hops))
    ensures Separate(Graft(sh, hops, x))
    decreases |hops|
  {
    if hops != [] {
      FirstHop(sh, hops);
      var next := Next(sh, hops[0]);
      SubShapeObjects(next, hops[1..]);
      GraftTree(next, hops[1..], x);
      GraftObjects(next, hops[1..], x);
      var name := hops[0].name;
      var m := sh.members[name];
      var next' := Graft(next, hops[1..], x);
      hide Separate, Objects;
      MemberTree(sh, name);
      match hops[0].index
      case None =>
        MemberReplaced(sh, name, next');
      case Some(i) =>
        EntryApart(m.entries, i);
        EntryReplaced(m.entries, i, next');
        MemberReplaced(sh, name, SList(m.entries[i := next']));
    }
  }

  /** The two heaps agree on these objects. */
  ghost predicate Agree(os: set<JsonObject>, h: Contents, h': Contents) {
    forall o :: o in os && o in h ==> o in h' && h'[o] == h[o]
  }

  lemma {:induction false} LaidElsewhere(sh: Shape, h: Contents, h': Contents)
    requires Laid(sh, h) && Agree(Objects(sh), h, h')
    ensures Laid(sh, h')
    decreases sh
  {
    match sh
    case SScalar(_, _) =>
    case SObject(_, ms) =>
      forall f | f in ms ensures Laid(ms[f], h') {
        LaidElsewhere(ms[f], h, h');
      }
    case SList(es) =>
      forall i | 0 <= i < |es| ensures Laid(es[i], h') {
        LaidElsewhere(es[i], h, h');
      }
  }

  lemma {:induction false} MemberLaid(sh: Shape, name: string, x: Shape, h: Contents, h': Contents)
    requires sh.SObject? && name in sh.members && Separate(sh) && Laid(sh, h)
    requires Agree(Objects(sh) - Objects(sh.members[name]), h, h')
    requires Laid(x, h') && ValueOf(x) == ValueOf(sh.members[name])
    ensures Laid(SObject(sh.object', sh.members[name := x]), h')
    ensures ValueOf(SObject(sh.object', sh.members[name := x])) == ValueOf(sh)
  {
    MemberTree(sh, name);
    forall f | f in sh.members && f != name ensures Laid(sh.members[f], h') {
      MemberTree(sh, f);
      LaidElsewhere(sh.members[f], h, h');
    }
    assert ValuesOf(sh.members[name := x]) == ValuesOf(sh.members);
  }

  lemma {:induction false} EntryLaid(es: seq<Shape>, i: nat, x: Shape, h: Contents, h': Contents)
    requires i < |es| && Separate(SList(es)) && Laid(SList(es), h)
    requires Agree(Objects(SList(es)) - Objects(es[i]), h, h')
    requires Laid(x, h') && ValueOf(x) == ValueOf(es[i])
    ensures Laid(SList(es[i := x]), h') && ValueOf(SList(es[i := x])) == ValueOf(SList(es))
  {
    EntryApart(es, i);
    forall j | 0 <= j < |es| && j != i ensures Laid(es[j], h') {
      LaidElsewhere(es[j], h, h');
    }
  }

  /** What is laid out as a whole is laid out at its first hop. */
  lemma {:induction false} HopLaid(sh: Shape, hop: Hop, h: Contents)
    requires Reaches(sh, [hop]) && Laid(sh, h)
    ensures hop.name in sh.members && Laid(sh.members[hop.name], h) && Laid(Next(sh, hop), h)
  {
    SubShapeLaid(sh, [hop], h);
  }

  lemma {:induction false} AgreeOnLess(os: set<JsonObject>, less: set<JsonObject>, h: Contents, h': Contents)
    requires Agree(os, h, h') && less <= os
    ensures Agree(less, h, h')
  {
  }

  /** Grafting at the first hop, once what lies behind it is grafted. */
  lemma {:induction false} GraftFirst(sh: Shape, hops: seq<Hop>, x: Shape)
    requires Reaches(sh, hops) && hops != []
    ensures var name, next' := hops[0].name, Graft(Next(sh, hops[0]), hops[1..], x);
      && sh.SObject? && name in sh.members
      && Graft(sh, hops, x) == SObject(sh.object', sh.members[name :=
           if hops[0].index.None? then next' else SList(sh.members[name].entries[hops[0].index.value := next'])])
      && (hops[0].index.None? ==> Next(sh, hops[0]) == sh.members[name])
      && (hops[0].index.Some? ==>
            && sh.members[name].SList? && hops[0].index.value < |sh.members[name].entries|
            && Next(sh, hops[0]) == sh.members[name].entries[hops[0].index.value])
  {
    assert [hops[0]][1..] == [];
  }

  /** After an update inside the sub-shape, the heap has the grafted layout, if everything outside is untouched. */
  lemma {:induction false} GraftLaid(sh: Shape, hops: seq<Hop>, x: Shape, h: Contents, h': Contents)
    requires Reaches(sh, hops) && Separate(sh) && Laid(sh, h)
    requires Agree(Objects(sh) - Objects(SubShape(sh, hops)), h, h')
    requires Laid(x, h') && ValueOf(x) == ValueOf(SubShape(sh, hops))
    ensures Laid(Graft(sh, hops, x), h') && ValueOf(Graft(sh, hops, x)) == ValueOf(sh)
    decreases |hops|
  {
    if hops != [] {
      FirstHop(sh, hops);
      hide *;
      GraftFirst(sh, hops, x);
      HopLaid(sh, hops[0], h);
      var name, next := hops[0].name, Next(sh, hops[0]);
      var m := sh.members[name];
      SubShapeObjects(next, hops[1..]);
      MemberTree(sh, name);
      var outside := Objects(sh) - Objects(SubShape(sh, hops));
      AgreeOnLess(outside, Objects(next) - Objects(SubShape(sh, hops)), h, h');
      AgreeOnLess(outside, Objects(m) - Objects(next), h, h');
      AgreeOnLess(outside, Objects(sh) - Objects(m), h, h');
      GraftLaid(next, hops[1..], x, h, h');
      var next' := Graft(next, hops[1..], x);
      if hops[0].index.Some? {
        EntryLaid(m.entries, hops[0].index.value, next', h, h');
        MemberLaid(sh, name, SList(m.entries[hops[0].index.value := next']), h, h');
      } else {
        MemberLaid(sh, name, next', h, h');
      }
    }
  }

  // ---- The same places in the JSON value ----

  ghost predicate Leads(j: Json, hops: seq<Hop>)
    decreases |hops|
  {
    hops == [] ||
    (&& j.Object? && hops[0].name in j.members
     && var m := j.members[hops[0].name];
        match hops[0].index
        case None => Leads(m, hops[1..])
        case Some(i) => m.List? && i < |m.entries| && Leads(m.entries[i], hops[1..]))
  }

  /** The JSON value with x in place of the value at hops. */
  ghost function Plant(j: Json, hops: seq<Hop>, x: Json): (r: Json)
    requires Leads(j, hops)
    ensures x.Object? || hops != [] ==> r.Object?
    decreases |hops|
  {
    if hops == [] then x
    else
      var m := j.members[hops[0].name];
      match hops[0].index
      case None => Object(j.members[hops[0].name := Plant(m, hops[1..], x)])
      case Some(i) => Object(j.members[hops[0].name := List(m.entries[i := Plant(m.entries[i], hops[1..], x)])])
  }

  lemma {:induction false} JsonOfGraft(sh: Shape, hops: seq<Hop>, x: Shape)
    requires Reaches(sh, hops)
    ensures Leads(JsonOf(sh), hops)
    ensures JsonOf(Graft(sh, hops, x)) == Plant(JsonOf(sh), hops, JsonOf(x))
    decreases |hops|
  {
    if hops != [] {
      FirstHop(sh, hops);
      var name, next := hops[0].name, Next(sh, hops[0]);
      JsonOfGraft(next, hops[1..], x);
      var next' := Graft(next, hops[1..], x);
      match hops[0].index
      case None =>
        assert JsonsOf(sh.members[name := next']) == JsonsOf(sh.members)[name := JsonOf(next')];
      case Some(i) =>
        var es := sh.members[name].entries;
        assert EntryJsons(es[i := next']) == EntryJsons(es)[i := JsonOf(next')];
        assert JsonsOf(sh.members[name := SList(es[i := next'])]) == JsonsOf(sh.members)[name := List(EntryJsons(es[i := next']))];
    }
  }

  /** Planting below a planted value is planting a changed value. */
  lemma {:induction false} PlantDeeper(j: Json, hops: seq<Hop>, x: Json, hop: Hop, y: Json)
    requires Leads(j, hops) && Leads(x, [hop])
    ensures Leads(Plant(j, hops, x), hops + [hop])
    ensures Plant(Plant(j, hops, x), hops + [hop], y) == Plant(j, hops, Plant(x, [hop], y))
    decreases |hops|
  {
    if hops == [] {
      assert hops + [hop] == [hop];
    } else {
      var name := hops[0].name;
      var m := j.members[name];
      assert (hops + [hop])[1..] == hops[1..] + [hop];
      match hops[0].index
      case None =>
        PlantDeeper(m, hops[1..], x, hop, y);
        assert j.members[name := Plant(m, hops[1..], x)][name := Plant(m, hops[1..], Plant(x, [hop], y))]
            == j.members[name := Plant(m, hops[1..], Plant(x, [hop], y))];
      case Some(i) =>
        PlantDeeper(m.entries[i], hops[1..], x, hop, y);
        var a, b := Plant(m.entries[i], hops[1..], x), Plant(m.entries[i], hops[1..], Plant(x, [hop], y));
        assert m.entries[i := a][i := b] == m.entries[i := b];
        assert j.members[name := List(m.entries[i := a])][name := List(m.entries[i := b])]
            == j.members[name := List(m.entries[i := b])];
    }
  }
}
