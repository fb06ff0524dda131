/** The gNMI server object: Set builds a private heap tree of the stored config, edits it in place, and swaps in the result. */
module Server {
  import opened Wrappers
  import opened PathTree
  import opened JsonTree
  import opened JsonEdit
  import opened JsonHeap
  import opened JsonHeapEdit
  import opened JsonWalk
  import opened Transaction

  // ---- Between JSON values and heap trees ----

  /** Shapes of separate members, each laid out and new to the heap h0. */
  ghost predicate FreshMembers(ms: Shapes, h0: Contents, h: Contents) {
    && (forall f :: f in ms ==> Laid(ms[f], h) && Separate(ms[f]) && Objects(ms[f]) <= h.Keys - h0.Keys)
    && (forall f, g :: f in ms && g in ms && f != g ==> Objects(ms[f]) !! Objects(ms[g]))
  }

  ghost predicate FreshEntries(es: seq<Shape>, h0: Contents, h: Contents) {
    && (forall i :: 0 <= i < |es| ==> Laid(es[i], h) && Separate(es[i]) && Objects(es[i]) <= h.Keys - h0.Keys)
    && (forall i, j :: 0 <= i < j < |es| ==> Objects(es[i]) !! Objects(es[j]))
  }

  lemma {:induction false} NoMembers(h: Contents)
    ensures FreshMembers(map[], h, h) && Grown(h, h, {}) && ValuesOf(map[]) == map[] && JsonsOf(map[]) == map[]
  {
  }

  lemma {:induction false} OneMoreMember(ms: Shapes, f: string, x: Shape, h0: Contents, h1: Contents, h2: Contents)
    requires FreshMembers(ms, h0, h1) && f !in ms && Grown(h0, h1, {}) && Grown(h1, h2, {})
    requires Laid(x, h2) && Separate(x) && Objects(x) <= h2.Keys - h1.Keys
    ensures FreshMembers(ms[f := x], h0, h2)
    ensures ValuesOf(ms[f := x]) == ValuesOf(ms)[f := ValueOf(x)] && JsonsOf(ms[f := x]) == JsonsOf(ms)[f := JsonOf(x)]
  {
    forall g | g in ms ensures Laid(ms[g], h2) {
      LaidElsewhere(ms[g], h1, h2);
    }
  }

  lemma {:induction false} OneMoreEntry(es: seq<Shape>, x: Shape, h0: Contents, h1: Contents, h2: Contents)
    requires FreshEntries(es, h0, h1) && Grown(h0, h1, {}) && Grown(h1, h2, {})
    requires Laid(x, h2) && Separate(x) && Objects(x) <= h2.Keys - h1.Keys
    ensures FreshEntries(es + [x], h0, h2)
  {
    forall i | 0 <= i < |es| ensures Laid(es[i], h2) {
      LaidElsewhere(es[i], h1, h2);
    }
  }

  lemma {:induction false} BuiltObject(o: JsonObject, ms: Shapes, h0: Contents, h: Contents, h': Contents)
    requires FreshMembers(ms, h0, h) && o !in h && h' == h[o := ValuesOf(ms)] && h0.Keys <= h.Keys
    ensures Laid(SObject(o, ms), h') && Separate(SObject(o, ms)) && Objects(SObject(o, ms)) <= h'.Keys - h0.Keys
  {
    forall f | f in ms ensures Laid(ms[f], h') && o !in Objects(ms[f]) {
      ObjectsInHeap(ms[f], h);
      LaidElsewhere(ms[f], h, h');
    }
    MergedSeparate(o, ms);
    MergedObjects(o, ms, h'.Keys - h0.Keys);
  }

  lemma {:induction false} BuiltList(es: seq<Shape>, h0: Contents, h: Contents)
    requires FreshEntries(es, h0, h)
    ensures Laid(SList(es), h) && Separate(SList(es)) && Objects(SList(es)) <= h.Keys - h0.Keys
  {
  }

  /** A fresh heap tree of a JSON value (ConstructIETFJSON; the decoded value of an update). */
  method Build(j: Json, ghost h: Contents) returns (v: Value, ghost sh: Shape, ghost h': Contents)
    requires Current(h)
    ensures v == ValueOf(sh) && JsonOf(sh) == j && Laid(sh, h') && Separate(sh)
    ensures Current(h') && Grown(h, h', {}) && fresh(h'.Keys - h.Keys) && Objects(sh) <= h'.Keys - h.Keys
    decreases j
  {
    hide Laid, Separate, Objects;
    match j
    case Scalar(kind, text) =>
      v, sh, h' := VScalar(kind, text), SScalar(kind, text), h;
      ScalarShape(kind, text, h);
    case Object(members) =>
      v, sh, h' := BuildObject(members, j, h);
    case List(entries) =>
      v, sh, h' := BuildList(entries, j, h);
  }

  lemma {:induction false} ScalarShape(kind: Kind, text: string, h: Contents)
    ensures Laid(SScalar(kind, text), h) && Separate(SScalar(kind, text)) && Objects(SScalar(kind, text)) == {}
  {
  }

  method BuildObject(members: Members, ghost j: Json, ghost h: Contents) returns (v: Value, ghost sh: Shape, ghost h': Contents)
    requires Current(h) && j == Object(members)
    ensures v == ValueOf(sh) && JsonOf(sh) == j && Laid(sh, h') && Separate(sh)
    ensures Current(h') && Grown(h, h', {}) && fresh(h'.Keys - h.Keys) && Objects(sh) <= h'.Keys - h.Keys
    ensures v.VObject? && sh.SObject? && sh.object' == v.object'
    decreases j, 2
  {
    hide Laid, Separate, Objects, ValueOf, JsonOf, FreshMembers;
    var values, ms, h1 := BuildMembers(members, j, h);
    var o := new JsonObject();
    o.members := values;
    h' := h1[o := o.members];
    BuiltObject(o, ms, h, h1, h');
    v, sh := VObject(o), SObject(o, ms);
    SameView(sh);
  }

  /** One more member. */
  method BuildMember(members: Members, f: string, ghost j: Json, ghost ms: Shapes, ghost h: Contents, ghost h1: Contents)
    returns (w: Value, ghost x: Shape, ghost h2: Contents)
    requires j == Object(members) && f in members && f !in ms && Current(h1) && Grown(h, h1, {}) && FreshMembers(ms, h, h1)
    ensures FreshMembers(ms[f := x], h, h2) && Current(h2) && Grown(h, h2, {})
    ensures ValuesOf(ms[f := x]) == ValuesOf(ms)[f := w] && JsonsOf(ms[f := x]) == JsonsOf(ms)[f := members[f]]
    ensures h2.Keys - h.Keys == (h2.Keys - h1.Keys) + (h1.Keys - h.Keys) && fresh(h2.Keys - h1.Keys)
    decreases j, 0
  {
    hide *;
    w, x, h2 := Build(members[f], h1);
    OneMoreMember(ms, f, x, h, h1, h2);
    GrownTwice(h, h1, h2, {}, {});
  }

  method BuildMembers(members: Members, ghost j: Json, ghost h: Contents) returns (values: map<string, Value>, ghost ms: Shapes, ghost h': Contents)
    requires Current(h) && j == Object(members)
    ensures values == ValuesOf(ms) && JsonsOf(ms) == members && FreshMembers(ms, h, h')
    ensures Current(h') && Grown(h, h', {}) && fresh(h'.Keys - h.Keys)
    decreases j, 1
  {
    hide *;
    var rest := members.Keys;
    values, ms, h' := map[], map[], h;
    NoMembers(h);
    assert members - rest == map[];
    while rest != {}
      invariant rest <= members.Keys && ms.Keys == members.Keys - rest
      invariant values == ValuesOf(ms) && JsonsOf(ms) == members - rest
      invariant FreshMembers(ms, h, h')
      invariant Current(h') && Grown(h, h', {}) && fresh(h'.Keys - h.Keys)
      decreases |rest|
    {
      var f :| f in rest;
      var w, x, h2 := BuildMember(members, f, j, ms, h, h');
      assert members - (rest - {f}) == (members - rest)[f := members[f]];
      values, ms, h', rest := values[f := w], ms[f := x], h2, rest - {f};
    }
    assert members - rest == members;
  }

  method BuildList(entries: seq<Json>, ghost j: Json, ghost h: Contents) returns (v: Value, ghost sh: Shape, ghost h': Contents)
    requires Current(h) && j == List(entries)
    ensures v == ValueOf(sh) && JsonOf(sh) == j && Laid(sh, h') && Separate(sh)
    ensures Current(h') && Grown(h, h', {}) && fresh(h'.Keys - h.Keys) && Objects(sh) <= h'.Keys - h.Keys
    decreases j, 0
  {
    hide Laid, Separate, Objects, ValueOf, JsonOf;
    var values: seq<Value> := [];
    ghost var es: seq<Shape> := [];
    h' := h;
    for i := 0 to |entries|
      invariant |values| == |es| == i
      invariant forall k :: 0 <= k < i ==> values[k] == ValueOf(es[k]) && JsonOf(es[k]) == entries[k]
      invariant FreshEntries(es, h, h')
      invariant Current(h') && Grown(h, h', {}) && fresh(h'.Keys - h.Keys)
    {
      ghost var h1 := h';
      var w, x, h2 := Build(entries[i], h1);
      OneMoreEntry(es, x, h, h1, h2);
      values, es, h' := values + [w], es + [x], h2;
    }
    BuiltList(es, h, h');
    v, sh := VList(values), SList(es);
    SameView(sh);
    assert EntryJsons(es) == entries;
    assert ValueOf(sh).entries == values;
  }

  /** Reads a heap tree back into a JSON value (json.Marshal). */
  method Marshal(v: Value, ghost sh: Shape, ghost h: Contents) returns (j: Json)
    requires Current(h) && v == ValueOf(sh) && Laid(sh, h)
    ensures j == JsonOf(sh)
    decreases sh
  {
    match v
    case VScalar(kind, text) =>
      j := Scalar(kind, text);
    case VObject(o) =>
      var rest, members: Members := o.members.Keys, map[];
      SameView(sh);
      while rest != {}
        invariant rest <= o.members.Keys
        invariant members == map f | f in sh.members && f !in rest :: JsonOf(sh.members[f])
        decreases |rest|
      {
        var f :| f in rest;
        var x := Marshal(o.members[f], sh.members[f], h);
        members, rest := members[f := x], rest - {f};
      }
      assert members == JsonsOf(sh.members);
      j := Object(members);
    case VList(es) =>
      var entries: seq<Json> := [];
      SameView(sh);
      for i := 0 to |es|
        invariant entries == EntryJsons(sh.entries)[..i]
      {
        var x := Marshal(es[i], sh.entries[i], h);
        entries := entries + [x];
      }
      j := List(entries);
  }

  // ---- The device and the server ----

  /** The physical device behind the callback. */
  class Device {
    const behaviour: Behaviour
    var held: Members
    var sent: seq<Members>

    constructor (behaviour: Behaviour, config: Members)
      ensures this.behaviour == behaviour && held == config && sent == []
    {
      this.behaviour := behaviour;
      held, sent := config, [];
    }

    method Callback(c: Members, ghost tree: Members) returns (ok: bool)
      modifies this
      ensures (World(tree, held, sent), ok) == Tell(behaviour, World(tree, old(held), old(sent)), c)
    {
      match behaviour(sent, c)
      case Takes => held, sent, ok := c, sent + [c], true;
      case Fails(left) => held, sent, ok := left, sent + [c], false;
    }
  }

  /** The operations of a request are its deletes, its replacements and its updates, in this order. */
  lemma {:induction false} OperationParts(req: Request)
    ensures |req.Operations()| == |req.deletes| + |req.replacements| + |req.updates|
    ensures forall i :: 0 <= i < |req.replacements| ==>
      req.Operations()[|req.deletes| + i] == SetValue(Replace, req.replacements[i].0, req.replacements[i].1)
    ensures forall i :: 0 <= i < |req.updates| ==>
      req.Operations()[|req.deletes| + |req.replacements| + i] == SetValue(Update, req.updates[i].0, req.updates[i].1)
  {
  }

  class Server {
    const model: Model
    const device: Device?
    var config: Members

    constructor (model: Model, config: Members, device: Device?)
      ensures this.model == model && this.config == config && this.device == device
    {
      this.model, this.config, this.device := model, config, device;
    }

    ghost function Behaves(): Option<Behaviour> {
      if device == null then None else Some(device.behaviour)
    }

    /** The Set in progress, with this working tree; without a device nothing is held or sent. */
    ghost function Working(tree: Members): World
      reads device
    {
      if device == null then World(tree, map[], []) else World(tree, device.held, device.sent)
    }

    /** Sends the working tree to the device, and the stored config again if the device fails. */
    method Apply(newConfig: Members) returns (f: Option<Failure>)
      requires model.valid(newConfig)
      modifies device
      ensures (Working(newConfig), f) == Push(model, Behaves(), config, old(Working(newConfig)))
    {
      f := None;
      if device != null {
        var ok := device.Callback(newConfig, newConfig);
        if !ok {
          var restored := device.Callback(config, newConfig);
          f := Some(if restored then RolledBack else RollbackFailed);
        }
      }
    }

    /** toGoStruct and the calls of the callback, shared by doDelete and doReplaceOrUpdate. */
    method PushTree(root: JsonObject, ghost sh: Shape, ghost h: Contents) returns (f: Option<Failure>)
      requires At(root, sh, h)
      modifies device
      ensures (Working(JsonsOf(sh.members)), f) == Push(model, Behaves(), config, old(Working(JsonsOf(sh.members))))
      ensures At(root, sh, h)
    {
      hide Laid, Separate, Push;
      SameView(sh);
      var newConfig := Marshal(VObject(root), sh, h);
      if !model.valid(newConfig.members) {
        InvalidPush(old(Working(JsonsOf(sh.members))));
        return Some(Refused(Internal));
      }
      f := Apply(newConfig.members);
    }

    lemma InvalidPush(w: World)
      requires !model.valid(w.tree)
      ensures Push(model, Behaves(), config, w) == (w, Some(Refused(Internal)))
    {
    }

    method DoDelete(root: JsonObject, prefix: GnmiPath, path: GnmiPath, ghost sh: Shape, ghost h: Contents)
      returns (f: Option<Failure>, ghost sh': Shape, ghost h': Contents)
      requires At(root, sh, h)
      modifies Objects(sh), device
      ensures At(root, sh', h') && Grown(h, h', Objects(sh)) && fresh(h'.Keys - h.Keys) && Objects(sh') <= Objects(sh) + (h'.Keys - h.Keys)
      ensures var (w', f') := Perform(model, Behaves(), config, prefix, DeletePath(path), old(Working(JsonsOf(sh.members))));
        f == f' && Working(w'.tree) == w' && (f == None ==> w'.tree == JsonsOf(sh'.members))
    {
      hide Laid, Separate, Objects, JsonOf, ValueOf, DeleteAt, Push;
      var fullPath := FullPath(prefix, path);
      var pathDeleted := false;
      sh', h' := sh, h;
      if fullPath.elems != [] {
        pathDeleted, sh', h' := JsonWalk.DeletePath(model.fmt, root, model.schema, fullPath.elems, sh, h);
      }
      if fullPath == ROOT_PATH {
        NodeView(root, sh, h);
        ObjectsInHeap(sh, h);
        root.members := map[];
        h' := h[root := map[]];
        sh' := SObject(root, map[]);
        Emptied(root, sh, h, h');
      }
      f := None;
      if pathDeleted {
        f := PushTree(root, sh', h');
      }
    }

    method DoReplaceOrUpdate(root: JsonObject, op: Op, prefix: GnmiPath, path: GnmiPath, raw: string, ghost sh: Shape, ghost h: Contents)
      returns (f: Option<Failure>, ghost sh': Shape, ghost h': Contents)
      requires At(root, sh, h)
      modifies Objects(sh), device
      ensures At(root, sh', h') && Grown(h, h', Objects(sh)) && fresh(h'.Keys - h.Keys) && Objects(sh') <= Objects(sh) + (h'.Keys - h.Keys)
      ensures var (w', f') := Perform(model, Behaves(), config, prefix, SetValue(op, path, raw), old(Working(JsonsOf(sh.members))));
        f == f' && Working(w'.tree) == w' && (f == None ==> w'.tree == JsonsOf(sh'.members))
    {
      hide Laid, Separate, Objects, JsonOf, ValueOf, SetAt, Push;
      sh', h' := sh, h;
      var fullPath := FullPath(prefix, path);
      match model.decode(fullPath.elems, raw)
      case Err(c) =>
        f := Some(Refused(c));
      case Ok(val) =>
        var refused;
        refused, sh', h' := WriteTree(root, op, fullPath, val, sh, h);
        if refused.Some? {
          f := Some(Refused(refused.value));
        } else {
          f := PushTree(root, sh', h');
        }
    }

    /** The tree edit of doReplaceOrUpdate: the walk along the path, or the replacement of the whole tree. */
    method WriteTree(root: JsonObject, op: Op, full: GnmiPath, val: Json, ghost sh: Shape, ghost h: Contents)
      returns (refused: Option<Code>, ghost sh': Shape, ghost h': Contents)
      requires At(root, sh, h)
      modifies Objects(sh)
      ensures At(root, sh', h') && Grown(h, h', Objects(sh)) && fresh(h'.Keys - h.Keys) && Objects(sh') <= Objects(sh) + (h'.Keys - h.Keys)
      ensures WriteInto(model, op, full, val, JsonsOf(sh.members)) ==
        match refused case None => Ok(JsonsOf(sh'.members)) case Some(c) => Err(c)
    {
      hide Laid, Separate, Objects, JsonOf, ValueOf, SetAt;
      sh', h' := sh, h;
      refused := None;
      ObjectsInHeap(sh, h);
      NodeView(root, sh, h);
      if full.elems != [] {
        var v, vs, h1 := Build(val, h);
        LaidElsewhere(sh, h, h1);
        refused, sh', h' := SetPath(model.fmt, op, root, model.schema, full.elems, v, sh, vs, h1);
        GrownTwice(h, h1, h', Objects(sh), Objects(sh));
        assert fresh(h'.Keys - h1.Keys) && fresh(h1.Keys - h.Keys);
      } else if full == ROOT_PATH {
        if op.Update? {
          refused := Some(Unimplemented);
          return;
        }
        match val
        case Scalar(_, _) => refused := Some(InvalidArgument);
        case List(_) => refused := Some(InvalidArgument);
        case Object(members) =>
          sh', h' := ReplaceRoot(root, members, sh, h);
      }
    }

    /** Empties the root and copies the members of the value into it. */
    method ReplaceRoot(root: JsonObject, members: Members, ghost sh: Shape, ghost h: Contents) returns (ghost sh': Shape, ghost h': Contents)
      requires At(root, sh, h)
      modifies root
      ensures At(root, sh', h') && Grown(h, h', {root}) && fresh(h'.Keys - h.Keys) && Objects(sh') <= Objects(sh) + (h'.Keys - h.Keys)
      ensures JsonsOf(sh'.members) == members
    {
      hide Laid, Separate, Objects, JsonOf, ValueOf;
      NodeView(root, sh, h);
      ObjectsInHeap(sh, h);
      var source, ms, h1 := BuildMembers(members, Object(members), h);
      root.members := map[];
      Overlay(root, source);
      assert root.members == source;
      h' := h1[root := root.members];
      sh' := SObject(root, ms);
      RootReplaced(root, ms, h, h1, h');
    }

    /** One operation done, the rest of the request to go. */
    lemma Progress(prefix: GnmiPath, os: seq<Operation>, i: nat, w: World)
      requires i < |os|
      ensures var (w1, f) := Perform(model, Behaves(), config, prefix, os[i], w);
        PerformAll(model, Behaves(), config, prefix, os[i..], w)
        == if f.Some? then (w1, f) else PerformAll(model, Behaves(), config, prefix, os[i + 1..], w1)
    {
      assert os[i..][1..] == os[i + 1..];
    }

    /** Either the request has failed as it must, or it has come to operation i with this working tree. */
    ghost predicate Reached(prefix: GnmiPath, os: seq<Operation>, i: nat, tree: Members, f: Option<Failure>, all: (World, Option<Failure>))
      requires i <= |os|
      reads this, device
    {
      if f.Some? then f == all.1 && Working(all.0.tree) == all.0
      else PerformAll(model, Behaves(), config, prefix, os[i..], Working(tree)) == all
    }

    method DoDeletes(root: JsonObject, req: Request, ghost all: (World, Option<Failure>), ghost sh0: Shape, ghost h0: Contents)
      returns (f: Option<Failure>, ghost sh: Shape, ghost h: Contents)
      requires At(root, sh0, h0) && Reached(req.prefix, req.Operations(), 0, JsonsOf(sh0.members), None, all)
      modifies Objects(sh0), device
      ensures At(root, sh, h) && Grown(h0, h, Objects(sh0)) && fresh(h.Keys - h0.Keys) && Objects(sh) <= Objects(sh0) + (h.Keys - h0.Keys)
      ensures Reached(req.prefix, req.Operations(), |req.deletes|, JsonsOf(sh.members), f, all)
    {
      hide Laid, Separate, Objects, JsonOf, ValueOf, Perform, PerformAll;
      ghost var os := req.Operations();
      sh, h, f := sh0, h0, None;
      for i := 0 to |req.deletes|
        invariant At(root, sh, h) && Grown(h0, h, Objects(sh0)) && fresh(h.Keys - h0.Keys) && Objects(sh) <= Objects(sh0) + (h.Keys - h0.Keys)
        invariant f == None && Reached(req.prefix, os, i, JsonsOf(sh.members), None, all)
      {
        Progress(req.prefix, os, i, Working(JsonsOf(sh.members)));
        ghost var sh1, h1 := sh, h;
        f, sh, h := DoDelete(root, req.prefix, req.deletes[i], sh1, h1);
        GrownTwice(h0, h1, h, Objects(sh0), Objects(sh1));
        assert fresh(h.Keys - h1.Keys) && fresh(h1.Keys - h0.Keys);
        if f.Some? {
          return;
        }
      }
    }

    /** The loop over the replaces, and the loop over the updates. */
    method DoWrites(root: JsonObject, op: Op, req: Request, values: seq<(GnmiPath, string)>, ghost from: nat,
                    ghost all: (World, Option<Failure>), ghost sh0: Shape, ghost h0: Contents)
      returns (f: Option<Failure>, ghost sh: Shape, ghost h: Contents)
      requires from + |values| <= |req.Operations()|
      requires forall i :: 0 <= i < |values| ==> req.Operations()[from + i] == SetValue(op, values[i].0, values[i].1)
      requires At(root, sh0, h0) && Reached(req.prefix, req.Operations(), from, JsonsOf(sh0.members), None, all)
      modifies Objects(sh0), device
      ensures At(root, sh, h) && Grown(h0, h, Objects(sh0)) && fresh(h.Keys - h0.Keys) && Objects(sh) <= Objects(sh0) + (h.Keys - h0.Keys)
      ensures Reached(req.prefix, req.Operations(), from + |values|, JsonsOf(sh.members), f, all)
    {
      hide Laid, Separate, Objects, JsonOf, ValueOf, Perform, PerformAll;
      ghost var os := req.Operations();
      sh, h, f := sh0, h0, None;
      for i := 0 to |values|
        invariant At(root, sh, h) && Grown(h0, h, Objects(sh0)) && fresh(h.Keys - h0.Keys) && Objects(sh) <= Objects(sh0) + (h.Keys - h0.Keys)
        invariant f == None && Reached(req.prefix, os, from + i, JsonsOf(sh.members), None, all)
      {
        Progress(req.prefix, os, from + i, Working(JsonsOf(sh.members)));
        ghost var sh1, h1 := sh, h;
        f, sh, h := DoReplaceOrUpdate(root, op, req.prefix, values[i].0, values[i].1, sh1, h1);
        GrownTwice(h0, h1, h, Objects(sh0), Objects(sh1));
        assert fresh(h.Keys - h1.Keys) && fresh(h1.Keys - h0.Keys);
        if f.Some? {
          return;
        }
      }
    }

    /** Set: on any failure the stored config is not touched, whatever has been done to the working tree. */
    method Set(req: Request) returns (f: Option<Failure>)
      modifies this`config, device
      ensures var before := old(Working(config));
        var (config', w, f') := SetRequest(model, Behaves(), old(config), req, before.held, before.sent);
        config == config' && f == f' && Working(w.tree) == w
    {
      OperationParts(req);
      hide Laid, Separate, Objects, JsonOf, ValueOf, Perform, PerformAll, Grown, ValuesOf, JsonsOf, Request.Operations;
      ghost var all := PerformAll(model, Behaves(), config, req.prefix, req.Operations(), Working(config));
      var jsonTree, sh, h := BuildObject(config, Object(config), map[]);
      SameView(sh);
      var root := jsonTree.object';
      assert req.Operations()[0..] == req.Operations();
      f, sh, h := DoDeletes(root, req, all, sh, h);
      if f.Some? {
        return;
      }
      f, sh, h := DoWrites(root, Replace, req, req.replacements, |req.deletes|, all, sh, h);
      if f.Some? {
        return;
      }
      f, sh, h := DoWrites(root, Update, req, req.updates, |req.deletes| + |req.replacements|, all, sh, h);
      if f.Some? {
        return;
      }
      NothingLeft(req.prefix, req.Operations(), Working(JsonsOf(sh.members)));
      SameView(sh);
      var rootStruct := Marshal(VObject(root), sh, h);
      if !model.valid(rootStruct.members) {
        return Some(Refused(Internal));
      }
      config := rootStruct.members;
    }

    lemma NothingLeft(prefix: GnmiPath, os: seq<Operation>, w: World)
      ensures PerformAll(model, Behaves(), config, prefix, os[|os|..], w) == (w, None)
    {
    }
  }

  lemma {:induction false} Emptied(root: JsonObject, sh: Shape, h: Contents, h': Contents)
    requires sh.SObject? && sh.object' == root && root in h && h' == h[root := map[]]
    ensures var x := SObject(root, map[]); Laid(x, h') && Separate(x) && Objects(x) <= Objects(sh) && JsonsOf(x.members) == map[]
  {
    assert ValuesOf(map[]) == map[];
  }

  lemma {:induction false} RootReplaced(root: JsonObject, ms: Shapes, h: Contents, h1: Contents, h': Contents)
    requires FreshMembers(ms, h, h1) && root in h && h.Keys <= h1.Keys && h' == h1[root := ValuesOf(ms)]
    ensures Laid(SObject(root, ms), h') && Separate(SObject(root, ms)) && Objects(SObject(root, ms)) <= {root} + (h'.Keys - h.Keys)
  {
    forall f | f in ms ensures Laid(ms[f], h') {
      LaidElsewhere(ms[f], h1, h');
    }
    MergedSeparate(root, ms);
    MergedObjects(root, ms, {root} + (h'.Keys - h.Keys));
  }
}
