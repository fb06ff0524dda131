/** One unsafe change is enough: whatever else changes and in whatever order, the VLAN tables miss the rebuild. */
module Divergence {
  import opened Wrappers
  import opened Names
  import opened Transponder
  import opened Validation
  import opened RedisCodec
  import opened Redis
  import opened Rebuild
  import opened Database
  import opened Handlers
  import opened Moves
  import opened Incremental
  import opened Convergence

  lemma {:induction false} MemberEntryHolds(mode: string)
    ensures MemberEntry(mode) != map[]
  {
    assert "tagging_mode" in MemberEntry(mode);
  }

  lemma {:induction false} VlanEntryHolds(v: nat, members: seq<string>)
    ensures VlanEntry(v, members) != map[] && Listed(VlanEntry(v, members)) && MembersIn(VlanEntry(v, members)) == members
  {
    assert "members" in VlanEntry(v, members);
  }

  lemma {:induction false} RunMovesStep(db: Db, a: Config, b: Config, names: seq<string>)
    requires names != []
    ensures RunMoves(db, a, b, names) ==
      Apply(RunMoves(db, a, b, names[..|names| - 1]), names[|names| - 1], MoveOf(a, b, names[|names| - 1])).db
    ensures forall k :: k in names <==> k in names[..|names| - 1] || k == names[|names| - 1]
  {
    assert names == names[..|names| - 1] + [names[|names| - 1]];
  }

  // ---- A cleared connection ----

  /** The member row of the interface is never removed. */
  lemma {:induction false} ClearedStays(db: Db, a: Config, b: Config, names: seq<string>, k: string, v: nat)
    requires Plain(a) && IdAt(a, k) == Some(v) && ConnectionAt(b, k).None?
    requires Lookup(db, MemberKey(v, k)) != map[]
    ensures Lookup(RunMoves(db, a, b, names), MemberKey(v, k)) != map[]
    decreases |names|
  {
    if names != [] {
      hide Plain, RunMoves, Apply, Lookup, MembersIn, FarEndOf, DescriptionGone, MemberEntry;
      var less, j := names[..|names| - 1], names[|names| - 1];
      ClearedStays(db, a, b, less, k, v);
      RunMovesStep(db, a, b, names);
      MemberRowAfter(RunMoves(db, a, b, less), j, MoveOf(a, b, j), v, k);
      MemberEntryHolds("tagged");
      MemberEntryHolds("untagged");
      if j != k {
        IdsApart(a, k, j);
      }
    }
  }

  /** A rebuild has no such row: the VLAN, if anybody else has it now, holds only that interface and its far end. */
  lemma {:induction false} NotRebuilt(c: Config, k: string, v: nat)
    requires Plain(c) && IdAt(c, k) != Some(v) && k !in LinePortNames(LAST_LINE_PORT)
    ensures RebuildAt(c, MemberKey(v, k)) == map[]
  {
    hide Plain, Owner, FarEndOf, RebuildAt, MemberEntry, LinePortNames;
    OwnerById(c, v);
    MemberInSync(c, v, k);
    if Owner(c, v).Some? {
      FarEndIsLine(c, Owner(c, v).value);
    }
  }

  lemma {:induction false} FarEndIsLine(c: Config, k: string)
    requires Plain(c)
    ensures FarEndOf(c, k).Some? ==> FarEndOf(c, k).value in LinePortNames(LAST_LINE_PORT)
    ensures k in c.interfaces ==> k !in LinePortNames(LAST_LINE_PORT)
  {
    hide IdsUnique, LinePortNames, OptEthernetName;
    if k in c.interfaces {
      assert PlainInterface(k, c.interfaces[k]);
    }
  }

  lemma {:induction false} OwnRow(c: Config, k: string, v: nat)
    requires Plain(c) && IdAt(c, k) == Some(v)
    ensures RebuildAt(c, MemberKey(v, k)) == MemberEntry("untagged") && MemberEntry("untagged") != map[]
    ensures RebuildAt(c, VlanKey(v)) == VlanEntry(v, [k, FarEndOf(c, k).value]) && FarEndOf(c, k).Some? && FarEndOf(c, k).value != k
  {
    hide Plain, Owner, FarEndOf, RebuildAt, MemberEntry, VlanEntry;
    OwnerById(c, v);
    MemberInSync(c, v, k);
    VlanInSync(c, v);
    FarEnds(c, k);
    MemberEntryHolds("untagged");
  }

  /** k is an interface of one of the configurations, hence no line port. */
  lemma {:induction false} IsClient(c: Config, k: string)
    requires Plain(c) && ConnectionAt(c, k).Some?
    ensures k !in LinePortNames(LAST_LINE_PORT)
  {
    FarEndIsLine(c, k);
  }

  lemma {:induction false} Cleared(db: Db, a: Config, b: Config, names: seq<string>, k: string)
    requires Plain(a) && Plain(b) && VlansInSync(db, a) && ConnectionAt(a, k).Some? && ConnectionAt(b, k).None?
    ensures !VlansInSync(RunMoves(db, a, b, names), b)
  {
    hide Plain, RunMoves, RebuildAt, Lookup, FarEndOf;
    FarEnds(a, k);
    var v := IdAt(a, k).value;
    OwnRow(a, k, v);
    IsClient(a, k);
    NotRebuilt(b, k, v);
    assert VlanTable(MemberKey(v, k));
    ClearedStays(db, a, b, names, k, v);
  }

  // ---- A delete task ----

  /** The member row of the new id is never written. */
  lemma {:induction false} NeverWritten(db: Db, a: Config, b: Config, names: seq<string>, k: string, w: nat)
    requires Plain(b) && IdAt(b, k) == Some(w) && DescriptionGone(a, b, k)
    requires Lookup(db, MemberKey(w, k)) == map[]
    ensures Lookup(RunMoves(db, a, b, names), MemberKey(w, k)) == map[]
    decreases |names|
  {
    if names != [] {
      hide Plain, RunMoves, Apply, Lookup, MembersIn, FarEndOf, MemberEntry;
      var less, j := names[..|names| - 1], names[|names| - 1];
      NeverWritten(db, a, b, less, k, w);
      RunMovesStep(db, a, b, names);
      MemberRowAfter(RunMoves(db, a, b, less), j, MoveOf(a, b, j), w, k);
      if j != k {
        IdsApart(b, k, j);
      }
    }
  }

  /** The VLAN is removed when its interface is handled, and nobody brings it back. */
  lemma {:induction false} VlanDropped(db: Db, a: Config, b: Config, names: seq<string>, k: string, v: nat)
    requires Plain(a) && Plain(b) && VlansInSync(db, a) && Distinct(names) && k in names
    requires IdAt(a, k) == Some(v) && IdAt(b, k) == Some(v) && DescriptionGone(a, b, k)
    ensures Lookup(RunMoves(db, a, b, names), VlanKey(v)) == map[]
    decreases |names|
  {
    hide Plain, RunMoves, Apply, Lookup, MembersIn, FarEndOf, VlansInSync, Relabeled, NewMembers, VlanChange, LeftRow;
    var less, j := names[..|names| - 1], names[|names| - 1];
    RunMovesStep(db, a, b, names);
    LastIsNew(names);
    NoPanic(db, a, b, less, j);
    VlanRowAfter(RunMoves(db, a, b, less), j, MoveOf(a, b, j), v);
    if j != k {
      VlanDropped(db, a, b, less, k, v);
      IdsApart(a, k, j);
      IdsApart(b, k, j);
    }
  }

  lemma {:induction false} LastIsNew(names: seq<string>)
    requires names != [] && Distinct(names)
    ensures Distinct(names[..|names| - 1]) && names[|names| - 1] !in names[..|names| - 1]
  {
  }

  lemma {:induction false} Described(db: Db, a: Config, b: Config, names: seq<string>, k: string)
    requires Plain(a) && Plain(b) && VlansInSync(db, a) && Distinct(names) && k in names
    requires ConnectionAt(b, k).Some? && DescriptionGone(a, b, k)
    ensures !VlansInSync(RunMoves(db, a, b, names), b)
  {
    hide Plain, RunMoves, RebuildAt, Lookup, FarEndOf, MemberEntry, VlanEntry, DescriptionGone;
    FarEnds(b, k);
    var w := IdAt(b, k).value;
    OwnRow(b, k, w);
    IsClient(b, k);
    assert VlanTable(MemberKey(w, k)) && VlanTable(VlanKey(w));
    if IdAt(a, k) == Some(w) {
      VlanDropped(db, a, b, names, k, w);
      VlanEntryHolds(w, [k, FarEndOf(b, k).value]);
    } else {
      NotRebuilt(a, k, w);
      NeverWritten(db, a, b, names, k, w);
    }
  }

  // ---- A new id, the same far end ----

  /** The far end is filtered out of the new VLAN's members, and nobody brings it back. */
  lemma {:induction false} EndLost(db: Db, a: Config, b: Config, names: seq<string>, k: string, v: nat, w: nat, q: string)
    requires Plain(a) && Plain(b) && VlansInSync(db, a) && Distinct(names) && k in names && !DescriptionGone(a, b, k)
    requires IdAt(a, k) == Some(v) && IdAt(b, k) == Some(w) && v != w && FarEndOf(a, k) == Some(q) && FarEndOf(b, k) == Some(q) && k != q
    requires q in LinePortNames(LAST_LINE_PORT)
    ensures q !in MembersIn(Lookup(RunMoves(db, a, b, names), VlanKey(w)))
    decreases |names|
  {
    hide Plain, RunMoves, Apply, Lookup, MembersIn, FarEndOf, VlansInSync, Relabeled, NewMembers, VlanChange, LeftRow, LinePortNames, DescriptionGone;
    var less, j := names[..|names| - 1], names[|names| - 1];
    var was := Lookup(RunMoves(db, a, b, less), VlanKey(w));
    var m := MoveOf(a, b, j);
    RunMovesStep(db, a, b, names);
    LastIsNew(names);
    NoPanic(db, a, b, less, j);
    VlanRowAfter(RunMoves(db, a, b, less), j, m, w);
    if j != k {
      EndLost(db, a, b, less, k, v, w, q);
      IdsApart(b, k, j);
      NoMembers();
      if m.Go? && m.from.0 == Some(w) {
        LeftLists(was, Relabeled(MembersIn(was), j, m.end, m.ether));
        RelabeledHolds(MembersIn(was), j, m.end, m.ether, q);
        HasId(a, j, w);
        IsClient(a, j);
      }
    } else {
      ChangeLists(was, was, w, NewMembers(MembersIn(was), k, m.from, m.end, m.ether));
      NewMembersHold(MembersIn(was), k, m.from, m.end, m.ether, q);
      NewMembersHold(MembersIn(was), k, m.from, m.end, m.ether, k);
    }
  }

  lemma {:induction false} HasId(c: Config, k: string, v: nat)
    requires IdAt(c, k) == Some(v)
    ensures ConnectionAt(c, k).Some? && k in c.interfaces
  {
  }

  lemma {:induction false} NoMembers()
    ensures MembersIn(map[]) == []
  {
  }

  // ---- A new id, a new far end ----

  /** Until its interface is handled the old VLAN lists it, and one more member than it and its new far end. */
  ghost predicate Crowded(e: Entry, k: string, q: string) {
    Listed(e) && k in MembersIn(e) && exists m :: m in MembersIn(e) && m != k && m != q
  }

  lemma {:induction false} StillCrowded(db: Db, a: Config, b: Config, names: seq<string>, k: string, v: nat, q: string)
    requires Plain(a) && Plain(b) && VlansInSync(db, a) && Distinct(names) && k !in names
    requires IdAt(a, k) == Some(v) && IdAt(b, k) != Some(v) && FarEndOf(a, k) != Some(q) && q in LinePortNames(LAST_LINE_PORT)
    ensures Crowded(Lookup(RunMoves(db, a, b, names), VlanKey(v)), k, q)
    decreases |names|
  {
    hide Plain, RunMoves, Apply, Lookup, MembersIn, FarEndOf, VlansInSync, Relabeled, NewMembers, VlanChange, LeftRow, LinePortNames, Listed, DescriptionGone;
    HasId(a, k, v);
    IsClient(a, k);
    if names == [] {
      RunNone(db, a, b);
      FirstCrowd(db, a, k, v, q);
    } else {
      var less, j := names[..|names| - 1], names[|names| - 1];
      var was := Lookup(RunMoves(db, a, b, less), VlanKey(v));
      var m := MoveOf(a, b, j);
      RunMovesStep(db, a, b, names);
      LastIsNew(names);
      NoPanic(db, a, b, less, j);
      VlanRowAfter(RunMoves(db, a, b, less), j, m, v);
      StillCrowded(db, a, b, less, k, v, q);
      IdsApart(a, k, j);
      if m.Go? && m.v == v {
        Joining(a, b, j, was, v, k, q);
        ChangeLists(was, was, v, NewMembers(MembersIn(was), j, m.from, m.end, m.ether));
      }
    }
  }

  lemma {:induction false} RunNone(db: Db, a: Config, b: Config)
    ensures RunMoves(db, a, b, []) == db
  {
  }

  lemma {:induction false} FirstCrowd(db: Db, a: Config, k: string, v: nat, q: string)
    requires Plain(a) && VlansInSync(db, a) && IdAt(a, k) == Some(v) && FarEndOf(a, k) != Some(q) && q in LinePortNames(LAST_LINE_PORT)
    ensures Crowded(Lookup(db, VlanKey(v)), k, q)
  {
    hide Plain, Lookup, FarEndOf, RebuildAt, LinePortNames, VlanEntry, MembersIn, Listed;
    OwnRow(a, k, v);
    assert VlanTable(VlanKey(v));
    var p := FarEndOf(a, k).value;
    VlanEntryHolds(v, [k, p]);
    assert [k, p][0] == k && [k, p][1] == p;
    assert p in MembersIn(Lookup(db, VlanKey(v))) && p != k && p != q;
  }

  /** Another interface joins: it stays in the list, and so does everybody who is no line port. */
  lemma {:induction false} Joining(a: Config, b: Config, j: string, was: Entry, v: nat, k: string, q: string)
    requires Plain(a) && Plain(b) && MoveOf(a, b, j).Go? && MoveOf(a, b, j).v == v && IdAt(a, j) != Some(v) && j != k
    requires k !in LinePortNames(LAST_LINE_PORT) && q in LinePortNames(LAST_LINE_PORT) && k in MembersIn(was)
    ensures var m := MoveOf(a, b, j);
      var ms := NewMembers(MembersIn(was), j, m.from, m.end, m.ether);
      k in ms && j in ms && j != q && ms != []
  {
    hide Plain, MembersIn, FarEndOf, NewMembers, LinePortNames, DescriptionGone;
    var m := MoveOf(a, b, j);
    assert IdAt(b, j) == Some(v);
    HasId(b, j, v);
    IsClient(b, j);
    FarEndIsLine(a, j);
    NewMembersHold(MembersIn(was), j, m.from, m.end, m.ether, k);
    NewMembersHold(MembersIn(was), j, m.from, m.end, m.ether, j);
  }

  /** Afterwards the old VLAN still lists the interface. */
  lemma {:induction false} LeftBehind(db: Db, a: Config, b: Config, names: seq<string>, k: string, v: nat, w: nat, q: string)
    requires Plain(a) && Plain(b) && VlansInSync(db, a) && Distinct(names) && k in names && !DescriptionGone(a, b, k)
    requires IdAt(a, k) == Some(v) && IdAt(b, k) == Some(w) && v != w && FarEndOf(a, k) != Some(q) && FarEndOf(b, k) == Some(q)
    requires q in LinePortNames(LAST_LINE_PORT)
    ensures Listed(Lookup(RunMoves(db, a, b, names), VlanKey(v))) && k in MembersIn(Lookup(RunMoves(db, a, b, names), VlanKey(v)))
    decreases |names|
  {
    hide Plain, RunMoves, Apply, Lookup, MembersIn, FarEndOf, VlansInSync, Relabeled, NewMembers, VlanChange, LeftRow, LinePortNames, Listed, DescriptionGone;
    var less, j := names[..|names| - 1], names[|names| - 1];
    var was := Lookup(RunMoves(db, a, b, less), VlanKey(v));
    var m := MoveOf(a, b, j);
    RunMovesStep(db, a, b, names);
    LastIsNew(names);
    NoPanic(db, a, b, less, j);
    VlanRowAfter(RunMoves(db, a, b, less), j, m, v);
    HasId(a, k, v);
    IsClient(a, k);
    if j != k {
      LeftBehind(db, a, b, less, k, v, w, q);
      IdsApart(a, k, j);
      if m.Go? && m.v == v {
        Joining(a, b, j, was, v, k, q);
        ChangeLists(was, was, v, NewMembers(MembersIn(was), j, m.from, m.end, m.ether));
      }
    } else {
      StillCrowded(db, a, b, less, k, v, q);
      RelabeledHolds(MembersIn(was), k, m.end, m.ether, k);
      LeftLists(was, Relabeled(MembersIn(was), k, m.end, m.ether));
    }
  }

  lemma {:induction false} Renumbered(db: Db, a: Config, b: Config, names: seq<string>, k: string)
    requires Plain(a) && Plain(b) && VlansInSync(db, a) && Distinct(names) && k in names && !DescriptionGone(a, b, k)
    requires ConnectionAt(a, k).Some? && ConnectionAt(b, k).Some? && IdAt(a, k) != IdAt(b, k)
    ensures !VlansInSync(RunMoves(db, a, b, names), b)
  {
    hide Plain, RunMoves, RebuildAt, Lookup, FarEndOf, MemberEntry, VlanEntry, DescriptionGone, LinePortNames, MembersIn, Listed, Owner;
    FarEnds(a, k);
    FarEnds(b, k);
    FarEndIsLine(b, k);
    IsClient(b, k);
    var v, w, q := IdAt(a, k).value, IdAt(b, k).value, FarEndOf(b, k).value;
    assert VlanTable(VlanKey(v)) && VlanTable(VlanKey(w));
    if FarEndOf(a, k) == Some(q) {
      EndLost(db, a, b, names, k, v, w, q);
      OwnRow(b, k, w);
      VlanEntryHolds(w, [k, q]);
      assert [k, q][1] == q;
    } else {
      LeftBehind(db, a, b, names, k, v, w, q);
      NotListed(b, k, v);
    }
  }

  /** A rebuild lists an interface only under its own id. */
  lemma {:induction false} NotListed(c: Config, k: string, v: nat)
    requires Plain(c) && IdAt(c, k) != Some(v) && k !in LinePortNames(LAST_LINE_PORT)
    ensures k !in MembersIn(RebuildAt(c, VlanKey(v)))
  {
    hide Plain, FarEndOf, MembersIn, VlanEntry, LinePortNames, Owner, RebuildAt;
    OwnerById(c, v);
    VlanInSync(c, v);
    NoMembers();
    if Owner(c, v).Some? {
      var j := Owner(c, v).value;
      FarEnds(c, j);
      FarEndIsLine(c, j);
      VlanEntryHolds(v, MembersOf(c, j));
      assert MembersOf(c, j) == [j, FarEndOf(c, j).value];
    }
  }

  /** One unsafe change among those handled, and the tables are not those of a rebuild. */
  lemma {:induction false} OneUnsafe(db: Db, a: Config, b: Config, names: seq<string>, k: string)
    requires Plain(a) && Plain(b) && VlansInSync(db, a) && Distinct(names) && k in names && !Safe(a, b, k)
    ensures !VlansInSync(RunMoves(db, a, b, names), b)
  {
    hide Plain, VlansInSync, RunMoves, DescriptionGone;
    if ConnectionAt(b, k).None? {
      Cleared(db, a, b, names, k);
    } else if DescriptionGone(a, b, k) {
      Described(db, a, b, names, k);
    } else {
      Renumbered(db, a, b, names, k);
    }
  }
}
