/** What edits along paths do to each other and to readers, for every tree and every pair of paths. */
module PathLaws {
  import opened Wrappers
  import opened PathTree

  /** Neither path leads into the other: they part at some step, by name or by key. */
  predicate Diverge(p: Path, q: Path) {
    p != [] && q != [] &&
    (Apart(p[0], q[0]) || (p[0] == q[0] && Diverge(p[1..], q[1..])))
  }

  /** The path never steps onto a key attribute of the list entry it has just entered. */
  predicate AvoidsKeyLeaves(p: Path) {
    |p| < 2 || (p[1].name !in p[0].keys && AvoidsKeyLeaves(p[1..]))
  }

  /** Every step of the path fits the tree: keyed steps meet lists, and inner steps meet nodes. */
  predicate FitsPath(fmt: NumberFormat, fs: Fields, p: Path)
    decreases |p|
  {
    p == [] ||
    (Fits(fs, p[0]) &&
     match Child(fs, p[0])
     case None => FitsPath(fmt, Fresh(fmt, p[0].keys), p[1..])
     case Some(t) => |p| == 1 || (t.Node? && FitsPath(fmt, t.fields, p[1..])))
  }

  /** An edit that has nothing to do where there is nothing to edit, unless it may create. */
  ghost predicate Harmless(create: bool, f: Edit) {
    create || f(None) == None
  }

  // ---- Reading back ----

  lemma FreshHolds(fmt: NumberFormat, keys: Keys, e: Elem)
    requires e.name !in keys
    ensures Child(Fresh(fmt, keys), e) == None && Fits(Fresh(fmt, keys), e)
  {
  }

  lemma ReadFreshMisses(fmt: NumberFormat, p: Path)
    requires |p| >= 2 && AvoidsKeyLeaves(p)
    ensures Read(Fresh(fmt, p[0].keys), p[1..]) == None
  {
    FreshHolds(fmt, p[0].keys, p[1]);
  }

  /** The edit does not depend on what it finds. */
  ghost predicate Constant(f: Edit) {
    forall x, y :: f(x) == f(y)
  }

  /**
   After an edit, its own path reads as what the edit makes of what was read before. Where an entry is created its key
   attributes come first, so an edit of such an attribute must not depend on what it finds.
   */
  lemma {:induction false} ReadEdited(fmt: NumberFormat, fs: Fields, p: Path, create: bool, f: Edit)
    requires p != [] && FitsPath(fmt, fs, p) && (AvoidsKeyLeaves(p) || Constant(f)) && Harmless(create, f)
    ensures Read(Alter(fmt, fs, p, create, f), p) == f(Read(fs, p))
    decreases |p|
  {
    var e := p[0];
    if |p| == 1 {
      ChildOfWithChild(fs, e, f(Child(fs, e)), None);
    } else {
      match Child(fs, e)
      case None =>
        if create {
          var start := Fresh(fmt, e.keys);
          if AvoidsKeyLeaves(p) {
            ReadFreshMisses(fmt, p);
          }
          ReadEdited(fmt, start, p[1..], create, f);
          ChildOfWithChild(fs, e, Some(Node(Alter(fmt, start, p[1..], create, f))), None);
        }
      case Some(t) =>
        ReadEdited(fmt, t.fields, p[1..], create, f);
        ChildOfWithChild(fs, e, Some(Node(Alter(fmt, t.fields, p[1..], create, f))), None);
    }
  }

  /** An edit that creates and never removes leaves something to read at every step of its path. */
  lemma {:induction false} ReadAlong(fmt: NumberFormat, fs: Fields, p: Path, f: Edit, q: Path)
    requires p != [] && q != [] && q <= p && FitsPath(fmt, fs, p) && forall x :: f(x).Some?
    ensures Read(Alter(fmt, fs, p, true, f), q).Some?
    decreases |p|
  {
    var e := p[0];
    assert q[0] == e;
    if |p| == 1 {
      ChildOfWithChild(fs, e, f(Child(fs, e)), None);
    } else {
      assert q[1..] <= p[1..];
      var start := if Child(fs, e).Some? then Child(fs, e).value.fields else Fresh(fmt, e.keys);
      ChildOfWithChild(fs, e, Some(Node(Alter(fmt, start, p[1..], true, f))), None);
      if |q| >= 2 {
        ReadAlong(fmt, start, p[1..], f, q[1..]);
      }
    }
  }

  // ---- The frame ----

  /** The edit makes a list entry, and q reads one of the key attributes the new entry starts with. */
  predicate ShowsNewKey(fmt: NumberFormat, fs: Fields, p: Path, q: Path)
    decreases |p|
  {
    |p| >= 2 && |q| >= 2 && p[0] == q[0] &&
    match Child(fs, p[0])
    case Some(t) => t.Node? && ShowsNewKey(fmt, t.fields, p[1..], q[1..])
    case None =>
      Fits(fs, p[0]) &&
      ((|q| == 2 && q[1].keys == map[] && q[1].name in p[0].keys) ||
       ShowsNewKey(fmt, Fresh(fmt, p[0].keys), p[1..], q[1..]))
  }

  lemma ReadThroughOther(fmt: NumberFormat, fs: Fields, p: Path, create: bool, f: Edit, q: Path)
    requires p != [] && q != [] && Apart(p[0], q[0])
    ensures Child(Alter(fmt, fs, p, create, f), q[0]) == Child(fs, q[0])
    ensures Read(Alter(fmt, fs, p, create, f), q) == Read(fs, q)
  {
    var x := StepOf(fmt, fs, p, create, f);
    if x.Some? {
      ChildApart(fs, p[0], x.value, q[0], None);
    }
  }

  /** The child an edit puts under its first step, or None when it leaves the tree as it is. */
  function StepOf(fmt: NumberFormat, fs: Fields, p: Path, create: bool, f: Edit): (x: Option<Option<Tree>>)
    requires p != []
    ensures Alter(fmt, fs, p, create, f) == if x.Some? then WithChild(fs, p[0], x.value) else fs
  {
    if |p| == 1 then Some(f(Child(fs, p[0])))
    else match Child(fs, p[0])
      case None =>
        if create && Fits(fs, p[0]) then Some(Some(Node(Alter(fmt, Fresh(fmt, p[0].keys), p[1..], create, f)))) else None
      case Some(Node(sub)) => Some(Some(Node(Alter(fmt, sub, p[1..], create, f))))
      case Some(_) => None
  }

  /** A reader at a diverging path sees a change exactly when it reads a key attribute of an entry the edit created. */
  lemma {:induction false} Frame(fmt: NumberFormat, fs: Fields, p: Path, create: bool, f: Edit, q: Path)
    requires Diverge(p, q)
    ensures Read(Alter(fmt, fs, p, create, f), q) != Read(fs, q) <==> create && ShowsNewKey(fmt, fs, p, q)
    decreases |p|
  {
    var e := p[0];
    if Apart(e, q[0]) {
      ReadThroughOther(fmt, fs, p, create, f, q);
    } else {
      match Child(fs, e)
      case None =>
        if create && Fits(fs, e) {
          var start := Fresh(fmt, e.keys);
          ChildOfWithChild(fs, e, Some(Node(Alter(fmt, start, p[1..], create, f))), None);
          Frame(fmt, start, p[1..], create, f, q[1..]);
          FreshReads(fmt, fs, p, q);
        }
      case Some(t) =>
        if t.Node? {
          Frame(fmt, t.fields, p[1..], create, f, q[1..]);
          ChildOfWithChild(fs, e, Some(Node(Alter(fmt, t.fields, p[1..], create, f))), None);
        }
    }
  }

  /** Inside a new entry the only thing to read is a key attribute, and deeper paths create nothing a reader of it sees. */
  lemma FreshReads(fmt: NumberFormat, fs: Fields, p: Path, q: Path)
    requires |p| >= 2 && |q| >= 2 && p[0] == q[0] && Diverge(p[1..], q[1..])
    ensures Read(Fresh(fmt, p[0].keys), q[1..]) != None <==> |q| == 2 && q[1].keys == map[] && q[1].name in p[0].keys
    ensures |q| == 2 ==> !ShowsNewKey(fmt, Fresh(fmt, p[0].keys), p[1..], q[1..])
  {
  }

  /** So a reader that avoids key attributes sees no change at all. */
  lemma {:induction false} FrameAvoidingKeys(fmt: NumberFormat, fs: Fields, p: Path, create: bool, f: Edit, q: Path)
    requires Diverge(p, q) && AvoidsKeyLeaves(q)
    ensures Read(Alter(fmt, fs, p, create, f), q) == Read(fs, q)
  {
    Frame(fmt, fs, p, create, f, q);
    NoNewKeyShown(fmt, fs, p, q);
  }

  lemma {:induction false} NoNewKeyShown(fmt: NumberFormat, fs: Fields, p: Path, q: Path)
    requires AvoidsKeyLeaves(q)
    ensures !ShowsNewKey(fmt, fs, p, q)
    decreases |p|
  {
    if |p| >= 2 && |q| >= 2 && p[0] == q[0] {
      match Child(fs, p[0])
      case Some(t) => if t.Node? { NoNewKeyShown(fmt, t.fields, p[1..], q[1..]); }
      case None => NoNewKeyShown(fmt, Fresh(fmt, p[0].keys), p[1..], q[1..]);
    }
  }

  // ---- Order of edits ----

  /** An edit that may not create leaves a new entry alone when its path avoids key attributes. */
  lemma AlterFresh(fmt: NumberFormat, keys: Keys, p: Path, f: Edit)
    requires p != [] && p[0].name !in keys && f(None) == None
    ensures Alter(fmt, Fresh(fmt, keys), p, false, f) == Fresh(fmt, keys)
  {
    FreshHolds(fmt, keys, p[0]);
    WithSameChild(Fresh(fmt, keys), p[0]);
  }

  /** Edits at diverging paths may be made in either order; one that may not create has to avoid key attributes. */
  lemma {:induction false} EditsCommute(fmt: NumberFormat, fs: Fields, p: Path, c: bool, f: Edit, q: Path, d: bool, g: Edit)
    requires Diverge(p, q) && (c || AvoidsKeyLeaves(p)) && (d || AvoidsKeyLeaves(q))
    requires Harmless(c, f) && Harmless(d, g)
    ensures Alter(fmt, Alter(fmt, fs, p, c, f), q, d, g) == Alter(fmt, Alter(fmt, fs, q, d, g), p, c, f)
    decreases |p|
  {
    if Apart(p[0], q[0]) {
      StepsCommute(fmt, fs, p, c, f, q, d, g);
    } else {
      match Child(fs, p[0])
      case None =>
        if Fits(fs, p[0]) {
          CommuteInNewNode(fmt, fs, p, c, f, q, d, g);
        }
      case Some(t) =>
        if t.Node? {
          EditsCommute(fmt, t.fields, p[1..], c, f, q[1..], d, g);
          InnerTwice(fmt, fs, t.fields, p, c, f, q, d, g);
          InnerTwice(fmt, fs, t.fields, q, d, g, p, c, f);
        }
    }
  }

  /** Two edits under the same first step are one step around the two inner edits. */
  lemma InnerTwice(fmt: NumberFormat, fs: Fields, sub: Fields, p: Path, c: bool, f: Edit, q: Path, d: bool, g: Edit)
    requires |p| >= 2 && |q| >= 2 && p[0] == q[0] && Child(fs, p[0]) == Some(Node(sub))
    ensures Alter(fmt, Alter(fmt, fs, p, c, f), q, d, g)
         == WithChild(fs, p[0], Some(Node(Alter(fmt, Alter(fmt, sub, p[1..], c, f), q[1..], d, g))))
  {
    var inner := Alter(fmt, sub, p[1..], c, f);
    FitsWhereChild(fs, p[0]);
    ChildOfWithChild(fs, p[0], Some(Node(inner)), Some(Node(Alter(fmt, inner, q[1..], d, g))));
  }

  lemma FitsWhereChild(fs: Fields, e: Elem)
    requires Child(fs, e).Some?
    ensures Fits(fs, e)
  {
  }

  lemma StepsCommute(fmt: NumberFormat, fs: Fields, p: Path, c: bool, f: Edit, q: Path, d: bool, g: Edit)
    requires p != [] && q != [] && Apart(p[0], q[0])
    ensures Alter(fmt, Alter(fmt, fs, p, c, f), q, d, g) == Alter(fmt, Alter(fmt, fs, q, d, g), p, c, f)
  {
    StepUnchanged(fmt, fs, p, c, f, q, d, g);
    StepUnchanged(fmt, fs, q, d, g, p, c, f);
    var x, y := StepOf(fmt, fs, p, c, f), StepOf(fmt, fs, q, d, g);
    if x.Some? && y.Some? {
      ChildApart(fs, p[0], x.value, q[0], y.value);
    }
  }

  lemma StepUnchanged(fmt: NumberFormat, fs: Fields, p: Path, c: bool, f: Edit, q: Path, d: bool, g: Edit)
    requires p != [] && q != [] && Apart(p[0], q[0])
    ensures StepOf(fmt, Alter(fmt, fs, p, c, f), q, d, g) == StepOf(fmt, fs, q, d, g)
  {
    var x := StepOf(fmt, fs, p, c, f);
    if x.Some? {
      ChildApart(fs, p[0], x.value, q[0], None);
    }
  }

  lemma {:induction false} CommuteInNewNode(fmt: NumberFormat, fs: Fields, p: Path, c: bool, f: Edit, q: Path, d: bool, g: Edit)
    requires |p| >= 2 && |q| >= 2 && p[0] == q[0] && Diverge(p[1..], q[1..])
    requires (c || AvoidsKeyLeaves(p)) && (d || AvoidsKeyLeaves(q)) && Harmless(c, f) && Harmless(d, g)
    requires Child(fs, p[0]) == None && Fits(fs, p[0])
    ensures Alter(fmt, Alter(fmt, fs, p, c, f), q, d, g) == Alter(fmt, Alter(fmt, fs, q, d, g), p, c, f)
    decreases |p|, 0
  {
    var e, start := p[0], Fresh(fmt, p[0].keys);
    var inP, inQ := Alter(fmt, start, p[1..], c, f), Alter(fmt, start, q[1..], d, g);
    EditsCommute(fmt, start, p[1..], c, f, q[1..], d, g);
    if !c {
      AlterFresh(fmt, e.keys, p[1..], f);
    }
    if !d {
      AlterFresh(fmt, e.keys, q[1..], g);
    }
    ChildOfWithChild(fs, e, Some(Node(inP)), Some(Node(Alter(fmt, inP, q[1..], d, g))));
    ChildOfWithChild(fs, e, Some(Node(inQ)), Some(Node(Alter(fmt, inQ, p[1..], c, f))));
  }

  // ---- Repeating an edit ----

  /** Repeating an edit changes nothing more, when its effect on the addressed node is itself repeatable. */
  lemma {:induction false} EditTwice(fmt: NumberFormat, fs: Fields, p: Path, create: bool, f: Edit)
    requires p != [] && forall x :: f(f(x)) == f(x)
    ensures Alter(fmt, Alter(fmt, fs, p, create, f), p, create, f) == Alter(fmt, fs, p, create, f)
    decreases |p|
  {
    var e := p[0];
    if |p| == 1 {
      var once := f(Child(fs, e));
      ChildOfWithChild(fs, e, once, f(once));
      if !Fits(fs, e) {
        BindLaws(fs, e.name, Lookup(fs, e.name), None);
      }
    } else {
      match Child(fs, e)
      case None =>
        if create && Fits(fs, e) {
          EditTwice(fmt, Fresh(fmt, e.keys), p[1..], create, f);
          var inner := Alter(fmt, Fresh(fmt, e.keys), p[1..], create, f);
          ChildOfWithChild(fs, e, Some(Node(inner)), Some(Node(inner)));
        }
      case Some(t) =>
        if t.Node? {
          EditTwice(fmt, t.fields, p[1..], create, f);
          InnerTwice(fmt, fs, t.fields, p, create, f, p, create, f);
        }
    }
  }
}
