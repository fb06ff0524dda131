/** The walks of doReplaceOrUpdate and doDelete: loops that go down the heap tree and edit it in place at the end. */
module JsonWalk {
  import opened Wrappers
  import opened PathTree
  import opened JsonTree
  import opened JsonEdit
  import opened JsonHeap
  import opened JsonHeapEdit

  // ---- A place one hop further down ----

  lemma {:induction false} OneHopDeeper(sh: Shape, hops: seq<Hop>, x: Shape, hop: Hop)
    requires Reaches(sh, hops) && Reaches(x, [hop])
    ensures var sh' := Graft(sh, hops, x);
      Reaches(sh', hops + [hop]) && SubShape(sh', hops + [hop]) == Next(x, hop)
    decreases |hops|
  {
    if hops == [] {
      assert hops + [hop] == [hop];
      FirstHop(x, [hop]);
      assert [hop][1..] == [];
    } else {
      FirstHop(sh, hops);
      assert (hops + [hop])[1..] == hops[1..] + [hop];
      OneHopDeeper(Next(sh, hops[0]), hops[1..], x, hop);
    }
  }

  /** The result for the whole tree, from the result r for the members of the object at hops. */
  ghost function Whole(j: Json, hops: seq<Hop>, r: Result<Members, Code>): Result<Members, Code>
    requires Leads(j, hops)
  {
    match r
    case Err(c) => Err(c)
    case Ok(m) => Ok(Plant(j, hops, Object(m)).members)
  }

  lemma {:induction false} WholeDeeper(j: Json, hops: seq<Hop>, x: Json, hop: Hop, inner: Result<Members, Code>)
    requires Leads(j, hops) && Leads(x, [hop]) && x.Object?
    ensures Leads(Plant(j, hops, x), hops + [hop])
    ensures Whole(Plant(j, hops, x), hops + [hop], inner) == Whole(j, hops, Whole(x, [hop], inner))
  {
    PlantDeeper(j, hops, x, hop, Object(map[]));
    if inner.Ok? {
      PlantDeeper(j, hops, x, hop, Object(inner.value));
    }
  }

  /** The walk stands at the place the hops lead to. */
  ghost predicate Standing(c: Cursor, sh: Shape, hops: seq<Hop>) {
    c.AtValue? ==> Reaches(sh, hops) && c.value == ValueOf(SubShape(sh, hops))
  }

  /** What a set that has come this far will make of the whole tree. */
  ghost function Outcome(fmt: NumberFormat, op: Op, c: Cursor, sh: Shape, hops: seq<Hop>, s: Schema, p: Path, val: Json): Result<Members, Code>
    requires p != [] && Standing(c, sh, hops)
  {
    if c.NilMap? then Err(IntoNil(s, p, val))
    else match SubShape(sh, hops)
      case SScalar(_, _) => Err(Internal)
      case SList(_) => Err(NotFound)
      case SObject(_, ms) =>
        JsonOfGraft(sh, hops, sh);
        Whole(JsonOf(sh), hops, SetAt(fmt, op, JsonsOf(ms), s, p, val))
  }

  /** One inner step of a set, at the members of the node it starts from. */
  lemma {:induction false} InnerSet(fmt: NumberFormat, op: Op, ms: Members, s: Schema, p: Path, val: Json, x: Json, hop: Hop, child: Json)
    requires |p| >= 2 && p[0].name in s.dir && x.Object? && Leads(x, [hop]) && hop.name == p[0].name
    requires p[0].keys == map[] ==>
      hop.index == None && x.members == ms[hop.name := child]
      && child == if hop.name in ms then ms[hop.name] else Object(map[])
    requires p[0].keys != map[] ==>
      hop.index.Some? && child.Object? && x.members.Keys == ms.Keys + {hop.name} && x.members[hop.name].List?
      && x.members == ms[hop.name := x.members[hop.name]]
      && EntryFor(fmt, ms, p[0]) == Some((x.members[hop.name].entries, hop.index.value))
      && x.members[hop.name].entries[hop.index.value] == child
    ensures SetAt(fmt, op, ms, s, p, val) ==
      match child
      case Scalar(_, _) => Err(Internal)
      case List(_) => Err(NotFound)
      case Object(below) => Whole(x, [hop], SetAt(fmt, op, below, s.dir[p[0].name], p[1..], val))
  {
    assert [hop][1..] == [];
    var name := hop.name;
    if child.Object? {
      var inner := SetAt(fmt, op, child.members, s.dir[name], p[1..], val);
      if inner.Ok? {
        var y := Object(inner.value);
        if p[0].keys == map[] {
          assert ms[name := child][name := y] == ms[name := y];
          assert Plant(x, [hop], y).members == x.members[name := y];
          assert SetAt(fmt, op, ms, s, p, val) == Ok(ms[name := y]);
        } else {
          var es, i := x.members[name].entries, hop.index.value;
          assert x.members == ms[name := List(es)];
          assert ms[name := List(es)][name := List(es[i := y])] == ms[name := List(es[i := y])];
          assert Plant(x, [hop], y).members == x.members[name := List(es[i := y])];
          assert SetAt(fmt, op, ms, s, p, val) == Ok(ms[name := List(es[i := y])]);
        }
      }
    }
  }

  lemma {:induction false} NextJson(x: Shape, hop: Hop)
    requires Reaches(x, [hop])
    ensures x.SObject? && hop.name in x.members && Leads(JsonOf(x), [hop])
    ensures hop.index == None ==> JsonOf(Next(x, hop)) == JsonOf(x.members[hop.name])
    ensures hop.index.Some? ==>
      && x.members[hop.name].SList? && hop.index.value < |x.members[hop.name].entries|
      && JsonOf(Next(x, hop)) == EntryJsons(x.members[hop.name].entries)[hop.index.value]
  {
    assert [hop][1..] == [];
    JsonOfGraft(x, [hop], x);
  }

  /** Going one step down, creating what is missing, does not change what the set will make of the tree. */
  lemma {:induction false} StepDown(fmt: NumberFormat, op: Op, c: Cursor, sh: Shape, hops: seq<Hop>, s: Schema, p: Path, val: Json,
                                    sub: Shape, c': Cursor, hop: Hop, x: Shape)
    requires |p| >= 2 && c.AtValue? && Standing(c, sh, hops) && SubShape(sh, hops) == sub && sub.SObject? && x.SObject?
    requires p[0].name in s.dir
    requires c'.AtValue? ==> ChildAt(c', x, hop) && hop.name == p[0].name
    requires p[0].keys == map[] ==>
      c'.AtValue? && hop.index == None
      && JsonsOf(x.members) == JsonsOf(sub.members)[hop.name := if hop.name in sub.members then JsonOf(sub.members[hop.name]) else Object(map[])]
    requires p[0].keys != map[] ==>
      var r := EntryFor(fmt, JsonsOf(sub.members), p[0]);
      && (c'.AtValue? <==> r.Some?)
      && (c'.AtValue? ==>
        && hop.index.Some? && EntryInList(x, hop)
        && r == Some((EntryJsons(x.members[hop.name].entries), hop.index.value))
        && JsonsOf(x.members) == JsonsOf(sub.members)[hop.name := List(EntryJsons(x.members[hop.name].entries))])
    ensures Standing(c', Graft(sh, hops, x), hops + [hop])
    ensures Outcome(fmt, op, c', Graft(sh, hops, x), hops + [hop], s.dir[p[0].name], p[1..], val) == Outcome(fmt, op, c, sh, hops, s, p, val)
  {
    hide SetAt, EntryFor;
    var ms := JsonsOf(sub.members);
    JsonOfGraft(sh, hops, sh);
    if c'.AtValue? {
      OneHopDeeper(sh, hops, x, hop);
      NextJson(x, hop);
      SameView(x);
      var child := Next(x, hop);
      SameView(child);
      if hop.index.Some? {
        SameView(x.members[hop.name]);
      }
      InnerSet(fmt, op, ms, s, p, val, JsonOf(x), hop, JsonOf(child));
      JsonOfGraft(sh, hops, x);
      WholeDeeper(JsonOf(sh), hops, JsonOf(x), hop, Err(Internal));
      if child.SObject? {
        WholeDeeper(JsonOf(sh), hops, JsonOf(x), hop, SetAt(fmt, op, JsonsOf(child.members), s.dir[p[0].name], p[1..], val));
      }
    } else {
      NilOutcome(fmt, op, ms, s, p, val);
    }
  }

  lemma {:induction false} NilOutcome(fmt: NumberFormat, op: Op, ms: Members, s: Schema, p: Path, val: Json)
    requires |p| >= 2 && p[0].keys != map[] && p[0].name in s.dir && EntryFor(fmt, ms, p[0]) == None
    ensures SetAt(fmt, op, ms, s, p, val) == Err(IntoNil(s.dir[p[0].name], p[1..], val))
  {
  }

  // ---- doReplaceOrUpdate ----

  lemma {:induction false} StandsAtObject(c: Cursor, sh: Shape, hops: seq<Hop>, h: Contents)
    requires c.AtValue? && Standing(c, sh, hops) && Laid(sh, h) && Separate(sh)
    ensures var sub := SubShape(sh, hops);
      && Laid(sub, h) && Separate(sub) && Objects(sub) <= Objects(sh)
      && (c.value.VObject? <==> sub.SObject?) && (c.value.VList? <==> sub.SList?)
      && (sub.SObject? ==> c.value.object' == sub.object' && sub.object' in h && sub.object' in Objects(sub))
  {
    SubShapeLaid(sh, hops, h);
    SubShapeObjects(sh, hops);
    SameView(SubShape(sh, hops));
    if SubShape(sh, hops).SObject? {
      ObjectView(SubShape(sh, hops), h);
    }
  }

  /** After an update of the object at hops, the whole tree is laid out with the graft. */
  lemma {:induction false} Regrown(root: JsonObject, sh: Shape, hops: seq<Hop>, x: Shape, extra: set<JsonObject>, h: Contents, h': Contents)
    requires sh.SObject? && sh.object' == root && Laid(sh, h) && Separate(sh) && Reaches(sh, hops) && SubShape(sh, hops).SObject?
    requires x.SObject? && x.object' == SubShape(sh, hops).object' && Laid(x, h') && Separate(x)
    requires Grown(h, h', Objects(SubShape(sh, hops)))
    requires Objects(x) <= Objects(SubShape(sh, hops)) + extra && extra !! Objects(sh)
    ensures var sh' := Graft(sh, hops, x);
      && sh'.SObject? && sh'.object' == root && Laid(sh', h') && Separate(sh') && Objects(sh') <= Objects(sh) + extra
      && Reaches(sh', hops) && SubShape(sh', hops) == x
      && Leads(JsonOf(sh), hops) && JsonOf(sh') == Plant(JsonOf(sh), hops, JsonOf(x))
  {
    ObjectsInHeap(sh, h);
    SubShapeObjects(sh, hops);
    SameView(x);
    SameView(SubShape(sh, hops));
    hide Laid, Separate, Objects, JsonOf, ValueOf;
    GraftLaid(sh, hops, x, h, h');
    GraftTree(sh, hops, x);
    GraftObjects(sh, hops, x);
    JsonOfGraft(sh, hops, x);
    SameView(Graft(sh, hops, x));
    SameView(sh);
  }

  lemma {:induction false} RootOutcome(fmt: NumberFormat, op: Op, root: JsonObject, sh: Shape, s: Schema, p: Path, val: Json)
    requires p != [] && sh.SObject? && sh.object' == root
    ensures Standing(AtValue(VObject(root)), sh, [])
    ensures Outcome(fmt, op, AtValue(VObject(root)), sh, [], s, p, val) == SetAt(fmt, op, JsonsOf(sh.members), s, p, val)
  {
  }

  /** The last step of a set, at the object the walk stands at. */
  method SetLast(fmt: NumberFormat, op: Op, node: JsonObject, e: Elem, s: Schema, val: Value,
                 ghost root: JsonObject, ghost sh: Shape, ghost hops: seq<Hop>, ghost vs: Shape, ghost h: Contents)
    returns (r: Option<Code>, ghost sh': Shape, ghost h': Contents)
    requires At(root, sh, h) && Insertable(val, vs, sh, h) && Standing(AtValue(VObject(node)), sh, hops)
    modifies Objects(sh)
    ensures At(root, sh', h') && Grown(h, h', Objects(sh)) && fresh(h'.Keys - h.Keys)
    ensures Objects(sh') <= Objects(sh) + Objects(vs) + (h'.Keys - h.Keys)
    ensures Outcome(fmt, op, AtValue(VObject(node)), sh, hops, s, [e], JsonOf(vs)) ==
      match r
      case None => Ok(JsonsOf(sh'.members))
      case Some(c) => Err(c)
  {
    hide Laid, Separate, Objects, JsonOf, ValueOf, Graft, Reaches, SubShape, EntryFor;
    ghost var sub := SubShape(sh, hops);
    StandsAtObject(AtValue(VObject(node)), sh, hops, h);
    ObjectsInHeap(sh, h);
    ghost var x;
    if e.keys == map[] {
      r, x, h' := SetPathWithoutAttribute(op, node, e.name, val, sub, vs, h);
    } else {
      r, x, h' := SetPathWithAttribute(fmt, op, node, e, val, sub, vs, h);
    }
    ObjectsInHeap(vs, h);
    Regrown(root, sh, hops, x, Objects(vs) + (h'.Keys - h.Keys), h, h');
    sh' := Graft(sh, hops, x);
    SameView(sh');
    SameView(x);
    JsonOfGraft(sh, hops, sh);
  }

  /** An inner step of a set: one hop further down, creating what is missing. */
  method Descend(fmt: NumberFormat, op: Op, node: JsonObject, e: Elem, s: Schema, val: Value, ghost p: Path,
                 ghost root: JsonObject, ghost sh: Shape, ghost hops: seq<Hop>, ghost vs: Shape, ghost h: Contents)
    returns (c: Option<Cursor>, ghost hop: Hop, ghost sh': Shape, ghost h': Contents)
    requires |p| >= 2 && p[0] == e && At(root, sh, h) && Standing(AtValue(VObject(node)), sh, hops)
    modifies Objects(sh)
    ensures At(root, sh', h') && Grown(h, h', Objects(sh)) && fresh(h'.Keys - h.Keys) && Objects(sh') <= Objects(sh) + (h'.Keys - h.Keys)
    ensures c.None? ==> Outcome(fmt, op, AtValue(VObject(node)), sh, hops, s, p, JsonOf(vs)) == Err(NotFound)
    ensures c.Some? ==>
      && e.name in s.dir && Standing(c.value, sh', hops + [hop])
      && Outcome(fmt, op, c.value, sh', hops + [hop], s.dir[e.name], p[1..], JsonOf(vs))
         == Outcome(fmt, op, AtValue(VObject(node)), sh, hops, s, p, JsonOf(vs))
  {
    hide Laid, Separate, Objects, JsonOf, ValueOf, Graft, Reaches, SubShape, EntryFor, SetAt;
    ghost var sub := SubShape(sh, hops);
    StandsAtObject(AtValue(VObject(node)), sh, hops, h);
    ObjectsInHeap(sh, h);
    ghost var x;
    c, hop, x, h' := GetChildNode(fmt, node, s, e, true, sub, h);
    Regrown(root, sh, hops, x, h'.Keys - h.Keys, h, h');
    sh' := Graft(sh, hops, x);
    if c.Some? {
      StepDown(fmt, op, AtValue(VObject(node)), sh, hops, s, p, JsonOf(vs), sub, c.value, hop, x);
    } else {
      UnknownName(fmt, op, JsonsOf(sub.members), s, p, JsonOf(vs));
    }
  }

  lemma {:induction false} UnknownName(fmt: NumberFormat, op: Op, ms: Members, s: Schema, p: Path, val: Json)
    requires |p| >= 2 && p[0].name !in s.dir
    ensures SetAt(fmt, op, ms, s, p, val) == Err(NotFound)
  {
  }

  /** The walk of doReplaceOrUpdate along a non-empty path: it changes the heap tree into the one SetAt computes, or fails as it does. */
  method SetPath(fmt: NumberFormat, op: Op, root: JsonObject, s: Schema, path: Path, val: Value, ghost sh: Shape, ghost vs: Shape, ghost h: Contents)
    returns (r: Option<Code>, ghost sh': Shape, ghost h': Contents)
    requires path != [] && At(root, sh, h) && Insertable(val, vs, sh, h)
    modifies Objects(sh)
    ensures At(root, sh', h') && Grown(h, h', Objects(sh)) && fresh(h'.Keys - h.Keys)
    ensures Objects(sh') <= Objects(sh) + Objects(vs) + (h'.Keys - h.Keys)
    ensures match r
      case None => SetAt(fmt, op, JsonsOf(sh.members), s, path, JsonOf(vs)) == Ok(JsonsOf(sh'.members))
      case Some(c) => SetAt(fmt, op, JsonsOf(sh.members), s, path, JsonOf(vs)) == Err(c)
  {
    hide Laid, Separate, Objects, JsonOf, ValueOf, SetAt, Graft, Reaches, SubShape, EntryFor;
    sh', h' := sh, h;
    ghost var hops: seq<Hop> := [];
    var curNode, schema, i := AtValue(VObject(root)), s, 0;
    RootOutcome(fmt, op, root, sh, s, path, JsonOf(vs));
    ObjectsInHeap(vs, h);
    SameView(vs);
    while true
      invariant i < |path|
      invariant At(root, sh', h') && Grown(h, h', Objects(sh)) && fresh(h'.Keys - h.Keys)
      invariant Objects(sh') <= Objects(sh) + (h'.Keys - h.Keys)
      invariant Standing(curNode, sh', hops)
      invariant Outcome(fmt, op, curNode, sh', hops, schema, path[i..], JsonOf(vs))
             == SetAt(fmt, op, JsonsOf(sh.members), s, path, JsonOf(vs))
      decreases |path| - i
    {
      var elem, last := path[i], i == |path| - 1;
      if curNode.NilMap? {
        if last && elem.keys != map[] && !val.VObject? {
          return Some(InvalidArgument), sh', h';
        }
        return Some(if !last && elem.name !in schema.dir then NotFound else Crash), sh', h';
      }
      StandsAtObject(curNode, sh', hops, h');
      match curNode.value
      case VList(_) => return Some(NotFound), sh', h';
      case VScalar(_, _) => return Some(Internal), sh', h';
      case VObject(node) =>
        LaidElsewhere(vs, h, h');
        if last {
          assert path[i..] == [elem];
          ghost var h1, sh1 := h', sh';
          r, sh', h' := SetLast(fmt, op, node, elem, schema, val, root, sh1, hops, vs, h1);
          GrownTwice(h, h1, h', Objects(sh), Objects(sh1));
          assert fresh(h'.Keys - h1.Keys) && fresh(h1.Keys - h.Keys);
          return;
        }
        ghost var h1, sh1 := h', sh';
        var c, hop, sh2, h2 := Descend(fmt, op, node, elem, schema, val, path[i..], root, sh1, hops, vs, h1);
        sh', h' := sh2, h2;
        GrownTwice(h, h1, h2, Objects(sh), Objects(sh1));
        if c.None? {
          return Some(NotFound), sh', h';
        }
        assert path[i..][1..] == path[i + 1..];
        hops := hops + [hop];
        curNode, schema, i := c.value, schema.dir[elem.name], i + 1;
    }
  }

  lemma {:induction false} GrownTwice(h: Contents, h1: Contents, h2: Contents, os: set<JsonObject>, os1: set<JsonObject>)
    requires Grown(h, h1, os) && Grown(h1, h2, os1) && os1 <= os + (h1.Keys - h.Keys)
    ensures Grown(h, h2, os)
    ensures h2.Keys - h.Keys == (h2.Keys - h1.Keys) + (h1.Keys - h.Keys)
  {
  }

  // ---- doDelete ----

  /** What a delete that has come this far will make of the whole tree, and whether it counts as done. */
  ghost function DeleteOutcome(c: Option<Cursor>, sh: Shape, hops: seq<Hop>, s: Schema, p: Path): (Members, bool)
    requires p != [] && sh.SObject? && (c.Some? ==> Standing(c.value, sh, hops))
  {
    var all := JsonsOf(sh.members);
    if c.None? then (all, false)
    else if c.value.NilMap? then (all, DeleteAt(map[], s, p).1)
    else match SubShape(sh, hops)
      case SScalar(_, _) => (all, false)
      case SList(_) => (all, false)
      case SObject(_, ms) =>
        JsonOfGraft(sh, hops, sh);
        var (m, told) := DeleteAt(JsonsOf(ms), s, p);
        (Plant(JsonOf(sh), hops, Object(m)).members, told)
  }

  lemma {:induction false} PlantSame(sh: Shape, hops: seq<Hop>)
    requires Reaches(sh, hops)
    ensures Leads(JsonOf(sh), hops) && Plant(JsonOf(sh), hops, JsonOf(SubShape(sh, hops))) == JsonOf(sh)
    decreases |hops|
  {
    if hops != [] {
      FirstHop(sh, hops);
      NextJson(sh, hops[0]);
      PlantSame(Next(sh, hops[0]), hops[1..]);
      SameView(sh);
      SameView(sh.members[hops[0].name]);
      match hops[0].index
      case None =>
      case Some(i) =>
        assert EntryJsons(sh.members[hops[0].name].entries)[i := JsonOf(Next(sh, hops[0]))] == EntryJsons(sh.members[hops[0].name].entries);
    }
  }

  /** One inner step of a delete, at the members of the node it starts from. */
  lemma {:induction false} InnerDelete(x: Shape, s: Schema, p: Path, c: Option<Cursor>, hop: Hop)
    requires |p| >= 2 && x.SObject?
    requires c.Some? && c.value.AtValue? ==> ChildAt(c.value, x, hop) && hop.name == p[0].name && p[0].name in s.dir
    requires c.None? <==> p[0].name !in s.dir || (p[0].keys == map[] && p[0].name !in x.members)
    requires c.Some? && p[0].keys == map[] ==> c.value.AtValue? && hop.index == None
    requires c.Some? && p[0].keys != map[] ==>
      && (c.value.AtValue? <==>
            p[0].name in x.members && x.members[p[0].name].SList? && Find(EntryJsons(x.members[p[0].name].entries), p[0].keys, 0).Found?)
      && (c.value.AtValue? ==>
            hop.index.Some? && EntryInList(x, hop) && Find(EntryJsons(x.members[p[0].name].entries), p[0].keys, 0) == Found(hop.index.value))
    ensures c.Some? && c.value.AtValue? ==> Leads(JsonOf(x), [hop])
    ensures DeleteAt(JsonsOf(x.members), s, p) ==
      if c.None? then (JsonsOf(x.members), false)
      else if c.value.NilMap? then (JsonsOf(x.members), DeleteAt(map[], s.dir[p[0].name], p[1..]).1)
      else
        var child := Next(x, hop);
        if !child.SObject? then (JsonsOf(x.members), false)
        else
          var (m, told) := DeleteAt(JsonsOf(child.members), s.dir[p[0].name], p[1..]);
          (Plant(JsonOf(x), [hop], Object(m)).members, told)
  {
    SameView(x);
    if p[0].name in x.members {
      SameView(x.members[p[0].name]);
    }
    if c.Some? && c.value.AtValue? {
      NextJson(x, hop);
      SameView(Next(x, hop));
      assert [hop][1..] == [];
    }
  }

  /** Going one step down does not change what the delete will make of the tree. */
  lemma {:induction false} DeleteStepDown(sh: Shape, hops: seq<Hop>, s: Schema, p: Path, sub: Shape, at: Cursor, c: Option<Cursor>, hop: Hop)
    requires |p| >= 2 && sh.SObject? && at.AtValue? && Standing(at, sh, hops) && SubShape(sh, hops) == sub && sub.SObject?
    requires c.Some? && c.value.AtValue? ==> ChildAt(c.value, sub, hop) && hop.name == p[0].name && p[0].name in s.dir
    requires c.None? <==> p[0].name !in s.dir || (p[0].keys == map[] && p[0].name !in sub.members)
    requires c.Some? && p[0].keys == map[] ==> c.value.AtValue? && hop.index == None
    requires c.Some? && p[0].keys != map[] ==>
      && (c.value.AtValue? <==>
            p[0].name in sub.members && sub.members[p[0].name].SList? && Find(EntryJsons(sub.members[p[0].name].entries), p[0].keys, 0).Found?)
      && (c.value.AtValue? ==>
            hop.index.Some? && EntryInList(sub, hop) && Find(EntryJsons(sub.members[p[0].name].entries), p[0].keys, 0) == Found(hop.index.value))
    ensures c.Some? ==> p[0].name in s.dir && Standing(c.value, sh, hops + [hop])
    ensures DeleteOutcome(Some(at), sh, hops, s, p)
         == if c.None? then (JsonsOf(sh.members), false) else DeleteOutcome(c, sh, hops + [hop], s.dir[p[0].name], p[1..])
  {
    hide DeleteAt, Find;
    InnerDelete(sub, s, p, c, hop);
    PlantSame(sh, hops);
    SameView(sh);
    SameView(sub);
    if c.Some? && c.value.AtValue? {
      GraftSame(sh, hops);
      OneHopDeeper(sh, hops, sub, hop);
      var child := Next(sub, hop);
      if child.SObject? {
        NextJson(sub, hop);
        PlantDeeper(JsonOf(sh), hops, JsonOf(sub), hop, Object(DeleteAt(JsonsOf(child.members), s.dir[p[0].name], p[1..]).0));
      }
    }
  }

  lemma {:induction false} GraftSame(sh: Shape, hops: seq<Hop>)
    requires Reaches(sh, hops)
    ensures Graft(sh, hops, SubShape(sh, hops)) == sh
    decreases |hops|
  {
    if hops != [] {
      FirstHop(sh, hops);
      GraftSame(Next(sh, hops[0]), hops[1..]);
      if hops[0].index.Some? {
        var es, i := sh.members[hops[0].name].entries, hops[0].index.value;
        assert es[i := es[i]] == es;
      }
    }
  }

  /** The last step of a delete, at the object the walk stands at. */
  method DeleteLast(node: JsonObject, e: Elem, s: Schema, ghost root: JsonObject, ghost sh: Shape, ghost hops: seq<Hop>, ghost h: Contents)
    returns (deleted: bool, ghost sh': Shape, ghost h': Contents)
    requires At(root, sh, h) && Standing(AtValue(VObject(node)), sh, hops)
    modifies Objects(sh)
    ensures At(root, sh', h') && Grown(h, h', Objects(sh)) && h'.Keys == h.Keys && Objects(sh') <= Objects(sh)
    ensures DeleteOutcome(Some(AtValue(VObject(node))), sh, hops, s, [e]) == (JsonsOf(sh'.members), deleted)
  {
    hide Laid, Separate, Objects, JsonOf, ValueOf, Graft, Reaches, SubShape, DeleteEntry;
    ghost var sub := SubShape(sh, hops);
    StandsAtObject(AtValue(VObject(node)), sh, hops, h);
    ObjectsInHeap(sh, h);
    NodeView(node, sub, h);
    ghost var x;
    if e.keys == map[] {
      node.members := node.members - {e.name};
      h' := h[node := node.members];
      FewerMembers(node, sub.members, {e.name}, h, h');
      x := SObject(node, sub.members - {e.name});
      deleted := true;
    } else {
      deleted, x, h' := DeleteKeyedListEntry(node, e, sub, h);
    }
    Regrown(root, sh, hops, x, {}, h, h');
    sh' := Graft(sh, hops, x);
    SameView(sh');
    SameView(x);
    JsonOfGraft(sh, hops, sh);
  }

  /** The walk of doDelete along a non-empty path. */
  method DeletePath(fmt: NumberFormat, root: JsonObject, s: Schema, path: Path, ghost sh: Shape, ghost h: Contents)
    returns (deleted: bool, ghost sh': Shape, ghost h': Contents)
    requires path != [] && At(root, sh, h)
    modifies Objects(sh)
    ensures At(root, sh', h') && Grown(h, h', Objects(sh)) && h'.Keys == h.Keys && Objects(sh') <= Objects(sh)
    ensures (JsonsOf(sh'.members), deleted) == DeleteAt(JsonsOf(sh.members), s, path)
  {
    hide Laid, Separate, Objects, JsonOf, ValueOf, DeleteAt, Graft, Reaches, SubShape, Find;
    sh', h' := sh, h;
    ghost var hops: seq<Hop> := [];
    var curNode, schema, i := AtValue(VObject(root)), s, 0;
    RootDelete(root, sh, s, path);
    while true
      invariant i < |path|
      invariant At(root, sh, h)
      invariant Standing(curNode, sh, hops)
      invariant DeleteOutcome(Some(curNode), sh, hops, schema, path[i..]) == DeleteAt(JsonsOf(sh.members), s, path)
      decreases |path| - i
    {
      var elem, last := path[i], i == |path| - 1;
      if curNode.NilMap? {
        NilDelete(schema, path[i..]);
        if last {
          return elem.keys == map[], sh, h;
        }
        if elem.name !in schema.dir || elem.keys == map[] {
          return false, sh, h;
        }
        schema, i := schema.dir[elem.name], i + 1;
        assert path[i - 1..][1..] == path[i..];
      } else {
        StandsAtObject(curNode, sh, hops, h);
        match curNode.value
        case VList(_) => return false, sh, h;
        case VScalar(_, _) => return false, sh, h;
        case VObject(node) =>
          if last {
            assert path[i..] == [elem];
            deleted, sh', h' := DeleteLast(node, elem, schema, root, sh, hops, h);
            return;
          }
          ghost var sub := SubShape(sh, hops);
          var c, hop, x, h1 := GetChildNode(fmt, node, schema, elem, false, sub, h);
          DeleteStepDown(sh, hops, schema, path[i..], sub, curNode, c, hop);
          if c.None? {
            return false, sh, h;
          }
          assert path[i..][1..] == path[i + 1..];
          hops := hops + [hop];
          curNode, schema, i := c.value, schema.dir[elem.name], i + 1;
      }
    }
  }

  lemma {:induction false} RootDelete(root: JsonObject, sh: Shape, s: Schema, p: Path)
    requires p != [] && sh.SObject? && sh.object' == root
    ensures Standing(AtValue(VObject(root)), sh, [])
    ensures DeleteOutcome(Some(AtValue(VObject(root))), sh, [], s, p) == DeleteAt(JsonsOf(sh.members), s, p)
  {
  }

  lemma {:induction false} NilDelete(s: Schema, p: Path)
    requires p != []
    ensures DeleteAt(map[], s, p).1 ==
      if |p| == 1 then p[0].keys == map[]
      else p[0].name in s.dir && p[0].keys != map[] && DeleteAt(map[], s.dir[p[0].name], p[1..]).1
  {
  }
}
