/** The incremental path reaches the rebuild exactly when every interface changes safely. */
module Convergence {
  import opened Wrappers
  import opened Names
  import opened Transponder
  import opened Validation
  import opened Redis
  import opened Rebuild
  import opened Database
  import opened Wiring
  import opened Changes
  import opened Handlers
  import opened Moves
  import opened Incremental

  /**
   The changes the incremental path gets right: an interface that stays unconnected, or one that keeps its description
   and gets its first connection or keeps its id.
   */
  predicate Safe(a: Config, b: Config, k: string) {
    if ConnectionAt(b, k).None? then ConnectionAt(a, k).None?
    else !DescriptionGone(a, b, k) && (ConnectionAt(a, k).None? || IdAt(a, k) == IdAt(b, k))
  }

  /** The far ends of two connections differ if their lines do. */
  ghost predicate EndsTell(a: Config, b: Config) {
    forall k :: ConnectionAt(a, k).Some? && ConnectionAt(b, k).Some? && FarEndOf(a, k) == FarEndOf(b, k)
      ==> ConnectionAt(a, k).value.line == ConnectionAt(b, k).value.line
  }

  // ---- A safe move ----

  /** Two configurations that differ in one interface. */
  predicate OneChanged(c: Config, c': Config, k: string) {
    c'.interfaces.Keys == c.interfaces.Keys && k in c.interfaces && forall j :: j in c.interfaces && j != k ==> c'.interfaces[j] == c.interfaces[j]
  }

  lemma {:induction false} OthersSame(c: Config, c': Config, k: string, j: string)
    requires OneChanged(c, c', k) && j != k
    ensures ConnectionAt(c', j) == ConnectionAt(c, j) && IdAt(c', j) == IdAt(c, j) && FarEndOf(c', j) == FarEndOf(c, j)
    ensures MembersOf(c', j) == MembersOf(c, j)
  {
    hide OptEthernetName;
  }

  lemma {:induction false} OwnerById(c: Config, v: nat)
    requires Plain(c)
    ensures Owner(c, v).Some? ==> IdAt(c, Owner(c, v).value) == Some(v)
    ensures forall k :: IdAt(c, k) == Some(v) ==> Owner(c, v) == Some(k)
  {
    hide LinePortNames, OptEthernetName, FarEnd;
    NoOwner(c, v);
    if Owner(c, v).Some? {
      IdIsOnVlan(c, Owner(c, v).value, v);
    }
    forall k | IdAt(c, k) == Some(v) ensures Owner(c, v) == Some(k) {
      IdIsOnVlan(c, k, v);
      OwnerIs(c, k, v);
    }
  }

  /** Another interface's id is its owner's in both configurations. */
  lemma {:induction false} OwnersAfter(c: Config, c': Config, k: string, v: nat)
    requires Plain(c) && Plain(c') && OneChanged(c, c', k) && (ConnectionAt(c, k).None? || IdAt(c, k) == IdAt(c', k))
    ensures Owner(c', v) == if IdAt(c', k) == Some(v) then Some(k) else Owner(c, v)
    ensures IdAt(c', k) == Some(v) ==> Owner(c, v) == if IdAt(c, k) == Some(v) then Some(k) else None
    ensures Owner(c, v) == Some(k) ==> IdAt(c', k) == Some(v)
  {
    hide Plain, OneChanged, Owner;
    OwnerById(c, v);
    OwnerById(c', v);
    if Owner(c, v).Some? && Owner(c, v).value != k {
      OthersSame(c, c', k, Owner(c, v).value);
    }
    if Owner(c', v).Some? && Owner(c', v).value != k {
      OthersSame(c, c', k, Owner(c', v).value);
    }
  }

  /** The move of a plain pair of configurations. */
  lemma {:induction false} FarEnds(c: Config, k: string)
    requires Plain(c) && ConnectionAt(c, k).Some?
    ensures IdAt(c, k).Some? && FarEndOf(c, k).Some? && FarEndOf(c, k).value != k
    ensures MembersOf(c, k) == [k, FarEndOf(c, k).value]
  {
    hide IdsUnique, LinePortNames, OptEthernetName;
    assert PlainInterface(k, c.interfaces[k]);
  }

  lemma {:induction false} SafeMove(c: Config, c': Config, k: string)
    requires Plain(c) && Plain(c') && EndsTell(c, c') && Safe(c, c', k)
    ensures MoveOf(c, c', k) ==
      if ConnectionAt(c, k) == ConnectionAt(c', k) then Stay
      else Go((IdAt(c, k), FarEndOf(c, k)), IdAt(c', k).value, FarEndOf(c', k), ConnectionAt(c, k).None?)
    ensures ConnectionAt(c, k) != ConnectionAt(c', k) ==> ConnectionAt(c', k).Some?
    ensures ConnectionAt(c, k) != ConnectionAt(c', k) && ConnectionAt(c, k).Some? ==> FarEndOf(c, k) != FarEndOf(c', k)
  {
    hide Plain, FarEndOf;
    if ConnectionAt(c, k).Some? {
      FarEnds(c, k);
    }
    if ConnectionAt(c', k).Some? {
      FarEnds(c', k);
    }
  }

  lemma {:induction false} MemberInSync(c: Config, v: nat, x: string)
    ensures RebuildAt(c, MemberKey(v, x)) ==
      match Owner(c, v)
      case None => map[]
      case Some(k) => if x == k then MemberEntry("untagged") else if FarEndOf(c, k) == Some(x) then MemberEntry("tagged") else map[]
  {
  }

  lemma {:induction false} VlanInSync(c: Config, v: nat)
    ensures RebuildAt(c, VlanKey(v)) ==
      match Owner(c, v)
      case None => map[]
      case Some(k) => VlanEntry(v, MembersOf(c, k))
  {
  }

  lemma {:induction false} SafeMember(db: Db, c: Config, c': Config, k: string, v: nat, x: string)
    requires Plain(c) && Plain(c') && EndsTell(c, c') && OneChanged(c, c', k) && Safe(c, c', k)
    requires Lookup(db, MemberKey(v, x)) == RebuildAt(c, MemberKey(v, x))
    ensures MemberRow(db, k, MoveOf(c, c', k), v, x) == RebuildAt(c', MemberKey(v, x))
  {
    hide Plain, EndsTell, OneChanged, Owner, RebuildAt, FarEndOf, Lookup, MoveOf, MemberEntry, MembersOf;
    SafeMove(c, c', k);
    OwnersAfter(c, c', k, v);
    MemberInSync(c, v, x);
    MemberInSync(c', v, x);
    if Owner(c, v).Some? && Owner(c, v).value != k {
      OthersSame(c, c', k, Owner(c, v).value);
    }
    SameConnection(c, c', k);
    if ConnectionAt(c', k).Some? {
      FarEnds(c', k);
    }
    if ConnectionAt(c, k).Some? {
      FarEnds(c, k);
    }
  }

  lemma {:induction false} SameConnection(c: Config, c': Config, k: string)
    ensures ConnectionAt(c, k) == ConnectionAt(c', k) ==> FarEndOf(c, k) == FarEndOf(c', k) && MembersOf(c, k) == MembersOf(c', k)
  {
    hide OptEthernetName;
  }

  /** The two lists of a move that keeps its id, and those of a first connection. */
  lemma {:induction false} SafeLists(k: string, p: string, q: string, w: nat)
    requires k != p && k != q && p != q
    ensures NewMembers([k, p], k, (Some(w), Some(p)), Some(q), false) == [k, q]
    ensures Relabeled([k, p], k, Some(q), false) == [k, k]
  {
    assert [k, p] + [q] == [k, p, q] && [k, p, q][..2] == [k, p] && [k, p][..1] == [k] && [k][..0] == [];
    assert Without([k], p) == [k] && Without([k, p], p) == [k];
    assert Relabeled([k], k, Some(q), false) == [k];
  }

  lemma {:induction false} FirstPair(k: string, q: string)
    ensures NewMembers([], k, (None, None), Some(q), true) == [k, q]
  {
    assert [] + [k] == [k];
  }

  lemma {:induction false} SafeVlan(db: Db, c: Config, c': Config, k: string, v: nat)
    requires Plain(c) && Plain(c') && EndsTell(c, c') && OneChanged(c, c', k) && Safe(c, c', k)
    requires Lookup(db, VlanKey(v)) == RebuildAt(c, VlanKey(v))
    ensures VlanRow(db, k, MoveOf(c, c', k), v) == RebuildAt(c', VlanKey(v))
  {
    hide Plain, EndsTell, OneChanged, Owner, RebuildAt, FarEndOf, Lookup, MoveOf, MembersOf, NewMembers, Relabeled, VlanEntry, VlanChange, LeftRow, MembersIn;
    SafeMove(c, c', k);
    OwnersAfter(c, c', k, v);
    VlanInSync(c, v);
    VlanInSync(c', v);
    if Owner(c, v).Some? && Owner(c, v).value != k {
      OthersSame(c, c', k, Owner(c, v).value);
    }
    SameConnection(c, c', k);
    if ConnectionAt(c, k) != ConnectionAt(c', k) {
      FarEnds(c', k);
      var q := FarEndOf(c', k).value;
      if ConnectionAt(c, k).Some? {
        FarEnds(c, k);
        var p := FarEndOf(c, k).value;
        SafeLists(k, p, q, IdAt(c, k).value);
        KeptVlan(v, k, p, q);
      } else {
        NoFarEnd(c, k);
        FirstPair(k, q);
        FirstVlan(v, k, q);
      }
    }
  }

  lemma {:induction false} NoFarEnd(c: Config, k: string)
    requires ConnectionAt(c, k).None?
    ensures FarEndOf(c, k) == None
  {
  }

  lemma {:induction false} KeptVlan(v: nat, k: string, p: string, q: string)
    ensures MembersIn(VlanEntry(v, [k, p])) == [k, p]
    ensures LeftRow(VlanEntry(v, [k, p]), [k, k]) + VlanChange(VlanEntry(v, [k, p]), v, [k, q]) == VlanEntry(v, [k, q])
  {
    assert "vlanid" in VlanEntry(v, [k, p]);
  }

  lemma {:induction false} FirstVlan(v: nat, k: string, q: string)
    ensures MembersIn(map[]) == []
    ensures map[] + VlanChange(map[], v, [k, q]) == VlanEntry(v, [k, q])
  {
  }

  /** A safe move takes tables in sync to tables in sync. */
  lemma {:induction false} SafeStep(db: Db, c: Config, c': Config, k: string)
    requires Plain(c) && Plain(c') && EndsTell(c, c') && OneChanged(c, c', k) && Safe(c, c', k)
    requires VlansInSync(db, c) && Apply(db, k, MoveOf(c, c', k)).error.None?
    ensures VlansInSync(Apply(db, k, MoveOf(c, c', k)).db, c')
  {
    hide Plain, EndsTell, OneChanged, Safe, Lookup, RebuildAt, MoveOf, Apply;
    var db' := Apply(db, k, MoveOf(c, c', k)).db;
    forall key | VlanTable(key) ensures Lookup(db', key) == RebuildAt(c', key) {
      if key.VlanKey? {
        VlanRowAfter(db, k, MoveOf(c, c', k), key.vid);
        SafeVlan(db, c, c', k, key.vid);
      } else {
        MemberRowAfter(db, k, MoveOf(c, c', k), key.vid, key.member);
        SafeMember(db, c, c', k, key.vid, key.member);
      }
    }
  }

  // ---- All moves safe ----

  /** The interfaces moved so far as in the new configuration, the others as in the old one. */
  function Mixed(a: Config, b: Config, names: seq<string>): Config {
    a.(interfaces := map j | j in a.interfaces :: if j in names && j in b.interfaces then b.interfaces[j] else a.interfaces[j])
  }

  lemma {:induction false} MixedAt(a: Config, b: Config, names: seq<string>, j: string)
    requires a.interfaces.Keys == b.interfaces.Keys
    ensures j in Mixed(a, b, names).interfaces <==> j in a.interfaces
    ensures j in a.interfaces ==> Mixed(a, b, names).interfaces[j] == if j in names then b.interfaces[j] else a.interfaces[j]
    ensures ConnectionAt(Mixed(a, b, names), j) == ConnectionAt(if j in names then b else a, j)
    ensures IdAt(Mixed(a, b, names), j) == IdAt(if j in names then b else a, j)
    ensures FarEndOf(Mixed(a, b, names), j) == FarEndOf(if j in names then b else a, j)
  {
    hide OptEthernetName;
  }

  /** While only safe moves are made ids stay unique. */
  lemma {:induction false} MixedIsPlain(a: Config, b: Config, names: seq<string>)
    requires Plain(a) && Plain(b) && a.interfaces.Keys == b.interfaces.Keys && forall k :: Safe(a, b, k)
    ensures Plain(Mixed(a, b, names))
  {
    hide LinePortNames, OptEthernetName, PlainConnection;
    var c := Mixed(a, b, names);
    forall k | k in c.interfaces ensures PlainInterface(k, c.interfaces[k]) {
      MixedAt(a, b, names, k);
      assert PlainInterface(k, a.interfaces[k]) && PlainInterface(k, b.interfaces[k]);
    }
    forall k ensures IdAt(c, k).Some? ==> IdAt(c, k) == IdAt(b, k) {
      MixedAt(a, b, names, k);
      assert Safe(a, b, k);
    }
    IdsStayUnique(b, c);
  }

  lemma {:induction false} IdsStayUnique(b: Config, c: Config)
    requires IdsUnique(b) && forall k :: IdAt(c, k).Some? ==> IdAt(c, k) == IdAt(b, k)
    ensures IdsUnique(c)
  {
    forall j, k | j in c.interfaces && k in c.interfaces && j != k && c.interfaces[j].connection.Some? && c.interfaces[k].connection.Some?
      && c.interfaces[j].connection.value.id.Some?
      ensures c.interfaces[j].connection.value.id != c.interfaces[k].connection.value.id {
      assert IdAt(c, j) == IdAt(b, j);
      assert IdAt(c, k).Some? ==> IdAt(c, k) == IdAt(b, k);
    }
  }

  /** The moves of a walk in which every move is safe. */
  lemma {:induction false} SafeRun(db: Db, a: Config, b: Config, names: seq<string>)
    requires Plain(a) && Plain(b) && EndsTell(a, b) && a.interfaces.Keys == b.interfaces.Keys && (forall k :: Safe(a, b, k))
    requires VlansInSync(db, a) && Distinct(names) && forall i :: 0 <= i < |names| ==> names[i] in a.interfaces
    ensures VlansInSync(RunMoves(db, a, b, names), Mixed(a, b, names))
    decreases |names|
  {
    hide Plain, EndsTell, VlansInSync, Apply, MoveOf, Safe, Mixed;
    if names == [] {
      MixedNone(a, b);
    } else {
      var less, k := names[..|names| - 1], names[|names| - 1];
      SafeRun(db, a, b, less);
      NoPanic(db, a, b, less, k);
      MixedStep(a, b, less, k);
      assert less + [k] == names;
      MixedIsPlain(a, b, less);
      MixedIsPlain(a, b, names);
      SafeStep(RunMoves(db, a, b, less), Mixed(a, b, less), Mixed(a, b, names), k);
    }
  }

  lemma {:induction false} MixedNone(a: Config, b: Config)
    ensures Mixed(a, b, []) == a
  {
    assert Mixed(a, b, []).interfaces == a.interfaces;
  }

  lemma {:induction false} MixedStep(a: Config, b: Config, less: seq<string>, k: string)
    requires a.interfaces.Keys == b.interfaces.Keys && k in a.interfaces && k !in less && EndsTell(a, b) && Safe(a, b, k)
    ensures var c, c' := Mixed(a, b, less), Mixed(a, b, less + [k]);
      OneChanged(c, c', k) && EndsTell(c, c') && Safe(c, c', k) && MoveOf(c, c', k) == MoveOf(a, b, k)
  {
    hide FarEndOf, Mixed, ConnectionAt, IdAt, Safe, EndsTell, MoveOf;
    var names := less + [k];
    var c, c' := Mixed(a, b, less), Mixed(a, b, names);
    forall j ensures j in names <==> j in less || j == k {
    }
    MixedAt(a, b, less, k);
    MixedAt(a, b, names, k);
    forall j | j != k
      ensures ConnectionAt(c', j) == ConnectionAt(c, j)
      ensures j in c.interfaces <==> j in c'.interfaces
      ensures j in c.interfaces ==> c'.interfaces[j] == c.interfaces[j] {
      MixedAt(a, b, less, j);
      MixedAt(a, b, names, j);
    }
    assert c'.interfaces.Keys == c.interfaces.Keys;
    SameAt(a, b, c, c', k);
    LinesTell(a, b, c, c', k);
  }

  lemma {:induction false} SameAt(a: Config, b: Config, c: Config, c': Config, k: string)
    requires k in a.interfaces && k in b.interfaces && k in c.interfaces && k in c'.interfaces
    requires c.interfaces[k] == a.interfaces[k] && c'.interfaces[k] == b.interfaces[k]
    ensures Safe(c, c', k) == Safe(a, b, k) && MoveOf(c, c', k) == MoveOf(a, b, k)
  {
    hide OptEthernetName;
  }

  lemma {:induction false} LinesTell(a: Config, b: Config, c: Config, c': Config, k: string)
    requires EndsTell(a, b) && forall j :: j != k ==> ConnectionAt(c', j) == ConnectionAt(c, j)
    requires ConnectionAt(c, k) == ConnectionAt(a, k) && ConnectionAt(c', k) == ConnectionAt(b, k)
    requires FarEndOf(c, k) == FarEndOf(a, k) && FarEndOf(c', k) == FarEndOf(b, k)
    ensures EndsTell(c, c')
  {
    hide FarEndOf;
  }

  lemma {:induction false} SameConnections(c: Config, d: Config, key: Key)
    requires Plain(c) && Plain(d) && VlanTable(key) && forall k :: ConnectionAt(c, k) == ConnectionAt(d, k)
    ensures RebuildAt(c, key) == RebuildAt(d, key)
  {
    hide Plain, Owner, FarEndOf, MembersOf, VlanEntry, MemberEntry, RebuildAt;
    var v := key.vid;
    OwnerById(c, v);
    OwnerById(d, v);
    if Owner(c, v).Some? {
      assert IdAt(d, Owner(c, v).value) == Some(v);
      SameConnection(c, d, Owner(c, v).value);
    }
    if Owner(d, v).Some? {
      assert IdAt(c, Owner(d, v).value) == Some(v);
    }
    if key.VlanKey? {
      VlanInSync(c, v);
      VlanInSync(d, v);
    } else {
      MemberInSync(c, v, key.member);
      MemberInSync(d, v, key.member);
    }
  }

  /** Safe changes of all interfaces, handled in any order, end with the tables a rebuild would store. */
  lemma {:induction false} AllSafe(db: Db, a: Config, b: Config, d: Diff, names: seq<string>)
    requires Plain(a) && Plain(b) && EndsTell(a, b) && a.interfaces.Keys == b.interfaces.Keys && (forall k :: Safe(a, b, k))
    requires VlansInSync(db, a) && IsDiff(a, b, d) && FullWalk(d, Interfaces, names)
    ensures VlansInSync(RunMoves(db, a, b, names), b)
  {
    hide Plain, EndsTell, Safe, IsDiff, HasWork, RunMoves, RebuildAt, Mixed, Lookup, ConnectionAt;
    forall i | 0 <= i < |names| ensures names[i] in a.interfaces {
      KnownName(a, b, d, names[i]);
    }
    SafeRun(db, a, b, names);
    MixedIsPlain(a, b, names);
    forall k ensures ConnectionAt(Mixed(a, b, names), k) == ConnectionAt(b, k) {
      MixedAt(a, b, names, k);
      if k !in names {
        NoWorkNoMove(a, b, d, k);
      }
    }
    forall key | VlanTable(key) ensures RebuildAt(Mixed(a, b, names), key) == RebuildAt(b, key) {
      SameConnections(Mixed(a, b, names), b, key);
    }
  }
}
