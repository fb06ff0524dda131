/**
 The meaning of a configuration tree, with no list order left in it: a node maps names to children and a keyed list
 maps key tuples to entries. An edit along a path is a lens over one step at a time, so reading, framing, commuting
 and repeating edits are short inductions over the path. Module JsonEdit proves that the server's list-searching
 code means exactly these edits.
 */
module PathTree {
  import opened Wrappers

  datatype Kind = Text | Number | Boolean

  datatype Tree =
    | Leaf(kind: Kind, text: string)
    | Node(fields: Fields)
    | Many(entries: map<Keys, Tree>)

  type Fields = map<string, Tree>

  /** The attributes of a path element, and the key tuple of a list entry. */
  type Keys = map<string, string>

  /** One step of a gNMI path; a step without attributes has keys == map[]. */
  datatype Elem = Elem(name: string, keys: Keys)

  type Path = seq<Elem>

  /** How a key text is stored: None when it is not a number, else the text its number prints as. */
  type NumberFormat = string -> Option<string>

  /** The leaf that stores key text v: a number when v parses as one. */
  function KeyLeaf(fmt: NumberFormat, v: string): Tree {
    match fmt(v)
    case None => Leaf(Text, v)
    case Some(t) => Leaf(Number, t)
  }

  /** The key attributes a list entry starts with; a step without keys starts empty. */
  function Fresh(fmt: NumberFormat, keys: Keys): Fields {
    map k | k in keys :: KeyLeaf(fmt, keys[k])
  }

  function Lookup<K, V>(m: map<K, V>, k: K): Option<V> {
    if k in m then Some(m[k]) else None
  }

  /** The map with k bound to x, or unbound when x is None. */
  function Bind<K, V>(m: map<K, V>, k: K, x: Option<V>): map<K, V> {
    match x
    case Some(v) => m[k := v]
    case None => m - {k}
  }

  /**
   A slot is what a node holds under one name: nothing, a single child, or a list. A step with keys can only be taken
   into a list, existing or still to be made.
   */
  type Slot = Option<Tree>

  predicate FitsSlot(slot: Slot, keys: Keys) {
    keys == map[] || slot.None? || slot.value.Many?
  }

  function SlotEntries(slot: Slot): map<Keys, Tree> {
    if slot.Some? && slot.value.Many? then slot.value.entries else map[]
  }

  function GetSlot(slot: Slot, keys: Keys): Option<Tree> {
    if keys == map[] then slot else Lookup(SlotEntries(slot), keys)
  }

  /** Puts a child in place or takes it away; a list that loses its last entry goes away with it. */
  function SetSlot(slot: Slot, keys: Keys, x: Option<Tree>): Slot {
    if keys == map[] then x
    else if !FitsSlot(slot, keys) then slot
    else
      var entries := Bind(SlotEntries(slot), keys, x);
      if entries == map[] then None else Some(Many(entries))
  }

  predicate Fits(fs: Fields, e: Elem) {
    FitsSlot(Lookup(fs, e.name), e.keys)
  }

  function Child(fs: Fields, e: Elem): Option<Tree> {
    GetSlot(Lookup(fs, e.name), e.keys)
  }

  function WithChild(fs: Fields, e: Elem, x: Option<Tree>): Fields {
    Bind(fs, e.name, SetSlot(Lookup(fs, e.name), e.keys, x))
  }

  /** What an edit does to the node it addresses. */
  type Edit = Option<Tree> -> Option<Tree>

  /** The edit that removes the node. */
  function Deleting(): Edit {
    before => None
  }

  /** The edit f applied at the end of the path, making missing nodes on the way only if create is set. */
  function Alter(fmt: NumberFormat, fs: Fields, path: Path, create: bool, f: Edit): Fields
    requires path != []
    decreases |path|
  {
    var e := path[0];
    if |path| == 1 then WithChild(fs, e, f(Child(fs, e)))
    else match Child(fs, e)
      case None =>
        if create && Fits(fs, e) then WithChild(fs, e, Some(Node(Alter(fmt, Fresh(fmt, e.keys), path[1..], create, f))))
        else fs
      case Some(Node(sub)) => WithChild(fs, e, Some(Node(Alter(fmt, sub, path[1..], create, f))))
      case Some(_) => fs
  }

  /** What a reader finds at the end of a path. */
  function Read(fs: Fields, path: Path): Option<Tree>
    decreases |path|
  {
    if path == [] then Some(Node(fs))
    else match Child(fs, path[0])
      case None => None
      case Some(t) =>
        if |path| == 1 then Some(t)
        else if t.Node? then Read(t.fields, path[1..])
        else None
  }

  // ---- Laws of a single step ----

  lemma BindLaws<K, V>(m: map<K, V>, k: K, x: Option<V>, y: Option<V>)
    ensures Lookup(Bind(m, k, x), k) == x
    ensures forall j :: j != k ==> Lookup(Bind(m, k, x), j) == Lookup(m, j)
    ensures Bind(Bind(m, k, x), k, y) == Bind(m, k, y)
    ensures Bind(m, k, Lookup(m, k)) == m
  {
  }

  lemma BindCommute<K, V>(m: map<K, V>, j: K, x: Option<V>, k: K, y: Option<V>)
    requires j != k
    ensures Bind(Bind(m, j, x), k, y) == Bind(Bind(m, k, y), j, x)
  {
  }

  lemma SlotLaws(slot: Slot, keys: Keys, x: Option<Tree>, y: Option<Tree>)
    ensures FitsSlot(slot, keys) ==> GetSlot(SetSlot(slot, keys, x), keys) == x
    ensures FitsSlot(SetSlot(slot, keys, x), keys) <==> FitsSlot(slot, keys)
    ensures SetSlot(SetSlot(slot, keys, x), keys, y) == SetSlot(slot, keys, y)
  {
    var es := SlotEntries(slot);
    BindLaws(es, keys, x, y);
    if keys != map[] && FitsSlot(slot, keys) {
      assert SlotEntries(SetSlot(slot, keys, x)) == Bind(es, keys, x);
    }
  }

  lemma SlotApart(slot: Slot, j: Keys, x: Option<Tree>, k: Keys, y: Option<Tree>)
    requires j != map[] && k != map[] && j != k
    ensures GetSlot(SetSlot(slot, j, x), k) == GetSlot(slot, k)
    ensures FitsSlot(SetSlot(slot, j, x), k) <==> FitsSlot(slot, k)
    ensures SetSlot(SetSlot(slot, j, x), k, y) == SetSlot(SetSlot(slot, k, y), j, x)
  {
    var es := SlotEntries(slot);
    BindLaws(es, j, x, None);
    if FitsSlot(slot, j) {
      BindCommute(es, j, x, k, y);
      assert SlotEntries(SetSlot(slot, j, x)) == Bind(es, j, x);
      assert SlotEntries(SetSlot(slot, k, y)) == Bind(es, k, y);
    }
  }

  /** Two steps from the same node that lead to different places. */
  predicate Apart(d: Elem, e: Elem) {
    d.name != e.name || (d.keys != map[] && e.keys != map[] && d.keys != e.keys)
  }

  lemma ChildOfWithChild(fs: Fields, e: Elem, x: Option<Tree>, y: Option<Tree>)
    ensures Fits(fs, e) ==> Child(WithChild(fs, e, x), e) == x
    ensures Fits(WithChild(fs, e, x), e) <==> Fits(fs, e)
    ensures WithChild(WithChild(fs, e, x), e, y) == WithChild(fs, e, y)
  {
    var slot := Lookup(fs, e.name);
    SlotLaws(slot, e.keys, x, y);
    BindLaws(fs, e.name, SetSlot(slot, e.keys, x), SetSlot(slot, e.keys, y));
  }

  lemma ChildApart(fs: Fields, e: Elem, x: Option<Tree>, d: Elem, y: Option<Tree>)
    requires Apart(d, e)
    ensures Child(WithChild(fs, e, x), d) == Child(fs, d)
    ensures Fits(WithChild(fs, e, x), d) <==> Fits(fs, d)
    ensures WithChild(WithChild(fs, e, x), d, y) == WithChild(WithChild(fs, d, y), e, x)
  {
    var se, sd := Lookup(fs, e.name), Lookup(fs, d.name);
    var te, td := SetSlot(se, e.keys, x), SetSlot(sd, d.keys, y);
    BindLaws(fs, e.name, te, None);
    BindLaws(fs, d.name, td, None);
    if d.name == e.name {
      SlotApart(se, e.keys, x, d.keys, y);
      BindLaws(fs, e.name, te, SetSlot(te, d.keys, y));
      BindLaws(fs, e.name, td, SetSlot(td, e.keys, x));
    } else {
      BindCommute(fs, e.name, te, d.name, td);
    }
  }

  /** No list is kept without entries. */
  predicate NoEmptyList(fs: Fields) {
    forall f :: f in fs && fs[f].Many? ==> fs[f].entries != map[]
  }

  lemma WithSameChild(fs: Fields, e: Elem)
    requires NoEmptyList(fs)
    ensures WithChild(fs, e, Child(fs, e)) == fs
  {
    var slot := Lookup(fs, e.name);
    BindLaws(SlotEntries(slot), e.keys, None, None);
    BindLaws(fs, e.name, slot, None);
    assert SetSlot(slot, e.keys, GetSlot(slot, e.keys)) == slot;
  }
}
