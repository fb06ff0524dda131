/**
 Giving a key attribute of a list entry another text moves the entry to another key tuple. In the reference tree that is
 a removal and a placement, so what readers see and what it commutes with follow from the laws of these two edits.
 */
module KeyMoves {
  import opened Wrappers
  import opened PathTree
  import opened PathLaws

  /** The path ends on a key attribute of the list entry before it. */
  predicate EndsOnKey(p: Path) {
    |p| >= 2 && p[|p| - 1].keys == map[] && p[|p| - 1].name in p[|p| - 2].keys
  }

  /** It does so at its end only. */
  predicate KeyPath(p: Path) {
    EndsOnKey(p) && AvoidsKeyLeaves(EntryPath(p))
  }

  /** The path of the entry. */
  function EntryPath(p: Path): Path
    requires |p| >= 2
  {
    p[..|p| - 1]
  }

  function KeyName(p: Path): string
    requires |p| >= 2
  {
    p[|p| - 1].name
  }

  /** The text the path gives the key attribute it ends on. */
  function KeyText(p: Path): string
    requires EndsOnKey(p)
  {
    p[|p| - 2].keys[KeyName(p)]
  }

  /** The step to the entry, with the key attribute at another text. */
  function MovedStep(p: Path, text: string): Elem
    requires |p| >= 2
  {
    Elem(p[|p| - 2].name, p[|p| - 2].keys[KeyName(p) := text])
  }

  /** Where the entry is found once its key attribute has this text. */
  function Moved(p: Path, text: string): Path
    requires |p| >= 2
  {
    p[..|p| - 2] + [MovedStep(p, text)]
  }

  /** The members of the entry, or those a new one starts with. */
  function EntryFields(fmt: NumberFormat, fs: Fields, p: Path): Fields
    requires |p| >= 2
  {
    match Read(fs, EntryPath(p))
    case Some(Node(fields)) => fields
    case _ => Fresh(fmt, p[|p| - 2].keys)
  }

  function Placing(fields: Fields): Edit {
    before => Some(Node(fields))
  }

  /** The members of the moved entry. */
  function MovedFields(fmt: NumberFormat, fs: Fields, p: Path, leaf: Tree): Fields
    requires |p| >= 2
  {
    EntryFields(fmt, fs, p)[KeyName(p) := leaf]
  }

  /** The entry is taken from its key tuple and put under the one with the leaf's text. */
  function Rekey(fmt: NumberFormat, fs: Fields, p: Path, leaf: Tree): Fields
    requires |p| >= 2 && leaf.Leaf?
  {
    var without := Alter(fmt, fs, EntryPath(p), false, Deleting());
    Alter(fmt, without, Moved(p, leaf.text), true, Placing(MovedFields(fmt, fs, p, leaf)))
  }

  // ---- The shape of a move ----

  lemma {:induction false} MovedShape(p: Path, text: string)
    requires KeyPath(p)
    ensures |Moved(p, text)| == |EntryPath(p)| == |p| - 1 >= 1
    ensures AvoidsKeyLeaves(Moved(p, text))
    ensures text != KeyText(p) ==> Diverge(Moved(p, text), EntryPath(p)) && Diverge(EntryPath(p), Moved(p, text))
    decreases |p|
  {
    if |p| == 2 {
      assert EntryPath(p) == [p[0]] && Moved(p, text) == [MovedStep(p, text)];
      assert MovedStep(p, text).keys[KeyName(p)] == text;
    } else {
      InnerPaths(p, text);
      MovedShape(p[1..], text);
      if |p| == 3 {
        assert Moved(p, text)[1].name == EntryPath(p)[1].name;
      } else {
        assert Moved(p, text)[1] == EntryPath(p)[1];
      }
    }
  }

  /** The paths of a move, one step further down. */
  lemma {:induction false} InnerPaths(p: Path, text: string)
    requires KeyPath(p) && |p| >= 3
    ensures KeyPath(p[1..]) && KeyName(p[1..]) == KeyName(p) && KeyText(p[1..]) == KeyText(p) && p[1].name !in p[0].keys
    ensures EntryPath(p)[0] == p[0] && EntryPath(p)[1..] == EntryPath(p[1..])
    ensures Moved(p, text)[0] == p[0] && Moved(p, text)[1..] == Moved(p[1..], text)
    ensures MovedStep(p[1..], text) == MovedStep(p, text) && p[1..][|p[1..]| - 2] == p[|p| - 2]
  {
    assert p[1..][..|p| - 2] == p[..|p| - 1][1..];
    assert EntryPath(p)[1] == p[1];
    assert (p[..|p| - 2] + [MovedStep(p, text)])[1..] == p[1..][..|p| - 3] + [MovedStep(p, text)];
  }

  lemma {:induction false} RekeyBase(fmt: NumberFormat, fs: Fields, p: Path, leaf: Tree)
    requires |p| == 2 && leaf.Leaf?
    ensures EntryPath(p) == [p[0]] && Moved(p, leaf.text) == [MovedStep(p, leaf.text)]
    ensures Rekey(fmt, fs, p, leaf)
         == WithChild(WithChild(fs, p[0], None), MovedStep(p, leaf.text), Some(Node(MovedFields(fmt, fs, p, leaf))))
  {
  }

  /** Below an inner step a move is a move inside the node the step leads to, made if it is missing. */
  lemma {:induction false} RekeyInner(fmt: NumberFormat, fs: Fields, p: Path, leaf: Tree, below: Fields)
    requires KeyPath(p) && |p| >= 3 && leaf.Leaf?
    requires Child(fs, p[0]) == Some(Node(below)) || (Child(fs, p[0]) == None && Fits(fs, p[0]) && below == Fresh(fmt, p[0].keys))
    ensures Rekey(fmt, fs, p, leaf) == WithChild(fs, p[0], Some(Node(Rekey(fmt, below, p[1..], leaf))))
    ensures MovedFields(fmt, fs, p, leaf) == MovedFields(fmt, below, p[1..], leaf)
  {
    hide KeyPath, MovedStep;
    InnerPaths(p, leaf.text);
    var e, from, to := p[0], EntryPath(p), Moved(p, leaf.text);
    assert |from| >= 2 && |to| >= 2;
    if Child(fs, e).Some? {
      var below' := Alter(fmt, below, from[1..], false, Deleting());
      FitsWhereChild(fs, e);
      ChildOfWithChild(fs, e, Some(Node(below')), Some(Node(Rekey(fmt, below, p[1..], leaf))));
    } else {
      InnerStepIsNew(fmt, p);
    }
  }

  lemma {:induction false} InnerStepIsNew(fmt: NumberFormat, p: Path)
    requires KeyPath(p) && |p| >= 3
    ensures Alter(fmt, Fresh(fmt, p[0].keys), EntryPath(p[1..]), false, Deleting()) == Fresh(fmt, p[0].keys)
    ensures Read(Fresh(fmt, p[0].keys), EntryPath(p[1..])) == None
  {
    InnerPaths(p, "");
    var q := EntryPath(p[1..]);
    assert q[0] == p[1];
    AlterFresh(fmt, p[0].keys, q, Deleting());
    FreshHolds(fmt, p[0].keys, q[0]);
  }

  // ---- Reading after a move ----

  /** After the removal the new key tuple still fits. */
  lemma {:induction false} FitsAfterRemoval(fmt: NumberFormat, fs: Fields, p: Path, text: string)
    requires KeyPath(p) && FitsPath(fmt, fs, EntryPath(p))
    ensures FitsPath(fmt, Alter(fmt, fs, EntryPath(p), false, Deleting()), Moved(p, text))
    decreases |p|
  {
    var e, from, to := p[0], EntryPath(p), Moved(p, text);
    if |p| == 2 {
      assert from == [e] && to == [MovedStep(p, text)];
      ChildOfWithChild(fs, e, None, None);
    } else {
      hide KeyPath, MovedStep;
      InnerPaths(p, text);
      match Child(fs, e) {
        case Some(t) =>
          FitsAfterRemoval(fmt, t.fields, p[1..], text);
          ChildOfWithChild(fs, e, Some(Node(Alter(fmt, t.fields, from[1..], false, Deleting()))), None);
        case None =>
          InnerStepIsNew(fmt, p);
          FitsAfterRemoval(fmt, Fresh(fmt, e.keys), p[1..], text);
      }
    }
  }

  /** After a move the old tuple reads as nothing and the new one as the entry with the new leaf. */
  lemma {:induction false} ReadMoved(fmt: NumberFormat, fs: Fields, p: Path, leaf: Tree)
    requires KeyPath(p) && leaf.Leaf? && leaf.text != KeyText(p) && FitsPath(fmt, fs, EntryPath(p))
    ensures Read(Rekey(fmt, fs, p, leaf), EntryPath(p)) == None
    ensures Read(Rekey(fmt, fs, p, leaf), Moved(p, leaf.text)) == Some(Node(MovedFields(fmt, fs, p, leaf)))
  {
    var from, to := EntryPath(p), Moved(p, leaf.text);
    MovedShape(p, leaf.text);
    FitsAfterRemoval(fmt, fs, p, leaf.text);
    hide KeyPath, EntryPath, Moved, Read, Alter, FitsPath, AvoidsKeyLeaves, MovedFields, KeyText;
    var without := Alter(fmt, fs, from, false, Deleting());
    var placing := Placing(MovedFields(fmt, fs, p, leaf));
    ReadEdited(fmt, fs, from, false, Deleting());
    ReadEdited(fmt, without, to, true, placing);
    Frame(fmt, without, to, true, placing, from);
    NoNewKeyShown(fmt, without, to, from);
  }

  /** Reading on from what a path reads as. */
  lemma {:induction false} ReadOn(fs: Fields, a: Path, b: Path)
    requires a != []
    ensures Read(fs, a + b) ==
      match Read(fs, a)
      case None => None
      case Some(t) => if b == [] then Some(t) else if t.Node? then Read(t.fields, b) else None
    decreases |a|
  {
    assert (a + b)[0] == a[0] && (a + b)[1..] == a[1..] + b;
    if |a| == 1 {
      assert a + b == a[..1] + b && a[1..] + b == b;
    } else if Child(fs, a[0]).Some? && Child(fs, a[0]).value.Node? {
      ReadOn(Child(fs, a[0]).value.fields, a[1..], b);
    }
  }

  /** A reader that parts from the path of the leaf reads below the entry, at or below its new place, or elsewhere. */
  lemma {:induction false} WhereReaders(p: Path, text: string, q: Path)
    requires KeyPath(p) && text != KeyText(p) && Diverge(p, q)
    ensures EntryPath(p) <= q || Moved(p, text) <= q || (Diverge(EntryPath(p), q) && Diverge(Moved(p, text), q))
    ensures EntryPath(p) <= q ==> |q| >= |p| && Diverge(Moved(p, text), q)
    ensures Moved(p, text) <= q ==> Diverge(EntryPath(p), q)
    decreases |p|
  {
    var from, to := EntryPath(p), Moved(p, text);
    if |p| == 2 {
      assert from == [p[0]] && to == [MovedStep(p, text)];
      assert MovedStep(p, text).keys[KeyName(p)] == text;
      if q[0] == p[0] || q[0] == MovedStep(p, text) {
        assert q == [q[0]] + q[1..];
      }
    } else {
      InnerPaths(p, text);
      if q[0] == p[0] {
        WhereReaders(p[1..], text, q[1..]);
        assert from == [p[0]] + from[1..] && to == [p[0]] + to[1..] && q == [p[0]] + q[1..];
      }
    }
  }

  /** Which created entries show depends on the steps before the last only, and a removal does not change it. */
  lemma {:induction false} SameNewKeys(fmt: NumberFormat, fs: Fields, p: Path, text: string, q: Path)
    requires KeyPath(p)
    ensures ShowsNewKey(fmt, Alter(fmt, fs, EntryPath(p), false, Deleting()), Moved(p, text), q) <==> ShowsNewKey(fmt, fs, EntryPath(p), q)
    decreases |p|
  {
    var e, from, to := p[0], EntryPath(p), Moved(p, text);
    if |p| >= 3 {
      hide KeyPath, MovedStep;
      InnerPaths(p, text);
      if |q| >= 2 && q[0] == e {
        match Child(fs, e)
        case Some(t) =>
          if t.Node? {
            SameNewKeys(fmt, t.fields, p[1..], text, q[1..]);
            FitsWhereChild(fs, e);
            ChildOfWithChild(fs, e, Some(Node(Alter(fmt, t.fields, from[1..], false, Deleting()))), None);
          }
        case None =>
          InnerStepIsNew(fmt, p);
          SameNewKeys(fmt, Fresh(fmt, e.keys), p[1..], text, q[1..]);
      }
    }
  }

  /** What a reader notices of a move: that its entry is gone, that one is there now, or a key attribute of an entry made on the way. */
  predicate SeesMove(fmt: NumberFormat, fs: Fields, p: Path, leaf: Tree, q: Path)
    requires |p| >= 2 && leaf.Leaf?
  {
    if EntryPath(p) <= q then Read(fs, q) != None
    else if Moved(p, leaf.text) <= q then Read(MovedFields(fmt, fs, p, leaf), q[|p| - 1..]) != None
    else ShowsNewKey(fmt, fs, EntryPath(p), q)
  }

  /** A reader below the old place reads nothing any more. */
  lemma {:induction false} MoveFrameBelow(fmt: NumberFormat, fs: Fields, p: Path, leaf: Tree, q: Path)
    requires KeyPath(p) && leaf.Leaf? && leaf.text != KeyText(p) && FitsPath(fmt, fs, EntryPath(p))
    requires EntryPath(p) <= q && |q| >= |p|
    ensures Read(Rekey(fmt, fs, p, leaf), q) == None
  {
    var from := EntryPath(p);
    ReadMoved(fmt, fs, p, leaf);
    assert q == from + q[|p| - 1..];
    hide KeyPath, Moved, Read, Alter, FitsPath, AvoidsKeyLeaves, MovedFields, Rekey;
    ReadOn(Rekey(fmt, fs, p, leaf), from, q[|p| - 1..]);
  }

  /** A reader below the new place, where nothing was, reads what the entry holds. */
  lemma {:induction false} MoveFrameThere(fmt: NumberFormat, fs: Fields, p: Path, leaf: Tree, q: Path)
    requires KeyPath(p) && leaf.Leaf? && leaf.text != KeyText(p) && FitsPath(fmt, fs, EntryPath(p))
    requires Read(fs, Moved(p, leaf.text)) == None && Moved(p, leaf.text) <= q
    ensures Read(fs, q) == None && Read(Rekey(fmt, fs, p, leaf), q) == Read(MovedFields(fmt, fs, p, leaf), q[|p| - 1..])
  {
    var to := Moved(p, leaf.text);
    MovedShape(p, leaf.text);
    ReadMoved(fmt, fs, p, leaf);
    assert q == to + q[|p| - 1..];
    hide KeyPath, EntryPath, Moved, Read, Alter, FitsPath, AvoidsKeyLeaves, MovedFields, Rekey, KeyText;
    ReadOn(Rekey(fmt, fs, p, leaf), to, q[|p| - 1..]);
    ReadOn(fs, to, q[|p| - 1..]);
    ReadHere(MovedFields(fmt, fs, p, leaf));
  }

  /** A reader that parts from both places of the entry. */
  lemma {:induction false} MoveFrameElsewhere(fmt: NumberFormat, fs: Fields, p: Path, leaf: Tree, q: Path)
    requires KeyPath(p) && leaf.Leaf? && leaf.text != KeyText(p) && FitsPath(fmt, fs, EntryPath(p))
    requires Diverge(EntryPath(p), q) && Diverge(Moved(p, leaf.text), q)
    ensures Read(Rekey(fmt, fs, p, leaf), q) != Read(fs, q) <==> ShowsNewKey(fmt, fs, EntryPath(p), q)
  {
    var from, to := EntryPath(p), Moved(p, leaf.text);
    MovedShape(p, leaf.text);
    ReadMoved(fmt, fs, p, leaf);
    FitsAfterRemoval(fmt, fs, p, leaf.text);
    SameNewKeys(fmt, fs, p, leaf.text, q);
    hide KeyPath, EntryPath, Moved, Read, Alter, FitsPath, AvoidsKeyLeaves, ShowsNewKey, MovedFields, Diverge, KeyText;
    var without := Alter(fmt, fs, from, false, Deleting());
    Frame(fmt, fs, from, false, Deleting(), q);
    Frame(fmt, without, to, true, Placing(MovedFields(fmt, fs, p, leaf)), q);
  }

  /** The frame of a move to a free key tuple. */
  lemma {:induction false} MoveFrame(fmt: NumberFormat, fs: Fields, p: Path, leaf: Tree, q: Path)
    requires KeyPath(p) && leaf.Leaf? && leaf.text != KeyText(p) && FitsPath(fmt, fs, EntryPath(p))
    requires Read(fs, Moved(p, leaf.text)) == None && Diverge(p, q)
    ensures Read(Rekey(fmt, fs, p, leaf), q) != Read(fs, q) <==> SeesMove(fmt, fs, p, leaf, q)
  {
    WhereReaders(p, leaf.text, q);
    hide KeyPath, EntryPath, Moved, Read, Alter, FitsPath, AvoidsKeyLeaves, ShowsNewKey, MovedFields, Diverge, KeyText, Rekey;
    if EntryPath(p) <= q {
      MoveFrameBelow(fmt, fs, p, leaf, q);
    } else if Moved(p, leaf.text) <= q {
      MoveFrameThere(fmt, fs, p, leaf, q);
    } else {
      MoveFrameElsewhere(fmt, fs, p, leaf, q);
    }
  }

  lemma {:induction false} ReadHere(fs: Fields)
    ensures Read(fs, []) == Some(Node(fs))
  {
  }

  // ---- Order of moves ----

  /** A move and an edit that keeps away from both places of the entry may be made in either order. */
  lemma {:induction false} MoveAndEdit(fmt: NumberFormat, fs: Fields, p: Path, leaf: Tree, q: Path, d: bool, g: Edit)
    requires KeyPath(p) && leaf.Leaf? && Diverge(EntryPath(p), q) && Diverge(Moved(p, leaf.text), q)
    requires (d || AvoidsKeyLeaves(q)) && Harmless(d, g)
    ensures Alter(fmt, Rekey(fmt, fs, p, leaf), q, d, g) == Rekey(fmt, Alter(fmt, fs, q, d, g), p, leaf)
  {
    var from, to := EntryPath(p), Moved(p, leaf.text);
    MovedShape(p, leaf.text);
    DivergeBack(from, q);
    hide Alter, Read, Diverge, AvoidsKeyLeaves, ShowsNewKey, KeyPath, EntryPath, Moved;
    var placing := Placing(MovedFields(fmt, fs, p, leaf));
    var fs' := Alter(fmt, fs, q, d, g);
    Frame(fmt, fs, q, d, g, from);
    NoNewKeyShown(fmt, fs, q, from);
    assert MovedFields(fmt, fs', p, leaf) == MovedFields(fmt, fs, p, leaf);
    EditsCommute(fmt, Alter(fmt, fs, from, false, Deleting()), to, true, placing, q, d, g);
    EditsCommute(fmt, fs, from, false, Deleting(), q, d, g);
  }

  lemma {:induction false} DivergeBack(p: Path, q: Path)
    requires Diverge(p, q)
    ensures Diverge(q, p)
    decreases |p|
  {
    if !Apart(p[0], q[0]) {
      DivergeBack(p[1..], q[1..]);
    }
  }

  /** Two moves whose four places part pairwise may be made in either order. */
  lemma {:induction false} MoveAndMove(fmt: NumberFormat, fs: Fields, p: Path, leaf: Tree, q: Path, leaf': Tree)
    requires KeyPath(p) && KeyPath(q) && leaf.Leaf? && leaf'.Leaf?
    requires Diverge(EntryPath(p), EntryPath(q)) && Diverge(EntryPath(p), Moved(q, leaf'.text))
    requires Diverge(Moved(p, leaf.text), EntryPath(q)) && Diverge(Moved(p, leaf.text), Moved(q, leaf'.text))
    ensures Rekey(fmt, Rekey(fmt, fs, p, leaf), q, leaf') == Rekey(fmt, Rekey(fmt, fs, q, leaf'), p, leaf)
  {
    MovedShape(q, leaf'.text);
    EntryUnmoved(fmt, fs, p, leaf, EntryPath(q));
    hide Alter, Read, Diverge, AvoidsKeyLeaves, ShowsNewKey, KeyPath, EntryPath, Moved, FitsPath;
    var placing := Placing(MovedFields(fmt, fs, q, leaf'));
    assert MovedFields(fmt, Rekey(fmt, fs, p, leaf), q, leaf') == MovedFields(fmt, fs, q, leaf');
    MoveAndEdit(fmt, fs, p, leaf, EntryPath(q), false, Deleting());
    MoveAndEdit(fmt, Alter(fmt, fs, EntryPath(q), false, Deleting()), p, leaf, Moved(q, leaf'.text), true, placing);
  }

  /** Readers that keep away from both places, and from key attributes, see nothing of a move. */
  lemma {:induction false} EntryUnmoved(fmt: NumberFormat, fs: Fields, p: Path, leaf: Tree, q: Path)
    requires KeyPath(p) && leaf.Leaf? && Diverge(EntryPath(p), q) && Diverge(Moved(p, leaf.text), q) && AvoidsKeyLeaves(q)
    ensures Read(Rekey(fmt, fs, p, leaf), q) == Read(fs, q)
  {
    MovedShape(p, leaf.text);
    hide Alter, Read, Diverge, AvoidsKeyLeaves, ShowsNewKey, KeyPath, EntryPath, Moved;
    var without := Alter(fmt, fs, EntryPath(p), false, Deleting());
    FrameAvoidingKeys(fmt, fs, EntryPath(p), false, Deleting(), q);
    FrameAvoidingKeys(fmt, without, Moved(p, leaf.text), true, Placing(MovedFields(fmt, fs, p, leaf)), q);
  }
}
