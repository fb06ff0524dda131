/** What a commit that changes one interface in an unsafe way leaves in the database, row by row. */
module Residue {
  import opened Wrappers
  import opened Text
  import opened Names
  import opened Transponder
  import opened Validation
  import opened RedisCodec
  import opened Redis
  import opened Rebuild
  import opened Database
  import opened Changes
  import opened Handlers
  import opened Moves
  import opened Incremental
  import opened Convergence
  import opened Divergence
  import opened Sync
  import opened System

  /** The configurations differ in this interface alone. */
  predicate OnlyChange(a: Config, b: Config, k: string) {
    k in a.interfaces && k in b.interfaces && b == a.(interfaces := a.interfaces[k := b.interfaces[k]])
  }

  /** The rows after the commit; w is the new id and q the new far end. */
  function RowLeft(a: Config, b: Config, k: string, key: Key, stored: Entry): Entry {
    var x, p, w, q := IdAt(a, k), FarEndOf(a, k), IdAt(b, k), FarEndOf(b, k);
    if w.None? || x.None? || p.None? || q.None? then stored
    else if DescriptionGone(a, b, k) then
      if key in {VlanKey(x.value), MemberKey(x.value, k), MemberKey(x.value, p.value)} then map[] else stored
    else if x == w then stored
    else if key == VlanKey(w.value) then
      map["vlanid" := Scalar(Print(w.value)), "members" := Items(if p == q then [k] else [k, q.value])]
    else if key == VlanKey(x.value) then
      if p == q then map[] else map["vlanid" := Scalar(Print(x.value)), "members" := Items([k])]
    else if key == MemberKey(w.value, k) then map["tagging_mode" := Scalar("untagged")]
    else if key == MemberKey(w.value, q.value) then map["tagging_mode" := Scalar("tagged")]
    else if key in {MemberKey(x.value, k), MemberKey(x.value, p.value)} then map[]
    else stored
  }

  // ---- The walks ----

  lemma {:induction false} NoOtherWork(a: Config, b: Config, d: Diff, k: string, t: Table, name: string)
    requires IsDiff(a, b, d) && OnlyChange(a, b, k) && HasWork(d, t, name)
    ensures t == Interfaces && name == k
  {
    hide IsDiff, TasksOf, ModuleLeaf, PortLeaf, InterfaceLeaf;
    HasTasks(a, b, d, t, name);
  }

  lemma {:induction false} OneWalked(a: Config, b: Config, d: Diff, k: string, names: seq<string>)
    requires IsDiff(a, b, d) && OnlyChange(a, b, k) && FullWalk(d, Interfaces, names)
    ensures if HasWork(d, Interfaces, k) then names == [k] else names == []
  {
    hide IsDiff, TasksOf, HasWork, OnlyChange;
    forall i | 0 <= i < |names| ensures names[i] == k {
      NoOtherWork(a, b, d, k, Interfaces, names[i]);
    }
    AtMostOne(names, k);
    if names != [] {
      assert HasWork(d, Interfaces, names[0]);
    }
  }

  lemma {:induction false} AtMostOne(names: seq<string>, k: string)
    requires forall i :: 0 <= i < |names| ==> names[i] == k
    ensures Distinct(names) ==> names == [] || names == [k]
  {
    if |names| >= 2 {
      assert names[0] == names[1];
    }
  }

  lemma {:induction false} NoModuleWalked(a: Config, b: Config, d: Diff, k: string, names: seq<string>)
    requires IsDiff(a, b, d) && OnlyChange(a, b, k) && Walk(d, Modules, names)
    ensures names == []
  {
    hide IsDiff, TasksOf, HasWork, OnlyChange;
    if names != [] {
      assert HasWork(d, Modules, names[0]);
      NoOtherWork(a, b, d, k, Modules, names[0]);
    }
  }

  lemma {:induction false} SamePorts(a: Config, b: Config, k: string)
    requires OnlyChange(a, b, k)
    ensures NoModuleLoss(a, b) && !PortsChanged(a, b)
  {
    hide ModuleLeaf;
  }

  /** The commit is one move. */
  lemma {:induction false} OneMove(before: Db, a: Config, b: Config, after: Db, v: Verdict, k: string)
    requires Sound(a) && Sound(b) && InSync(before, a) && DiffRan(before, a, b, after, v) && OnlyChange(a, b, k)
    ensures v == Done && after == Apply(before, k, MoveOf(a, b, k)).db
  {
    hide Sound, InSync, IsDiff, RanAs, NoModuleLoss, PortsChanged, OnlyChange, FullWalk, RunOpts, VlansInSync, MoveOf, Apply, Walk;
    var d, opts, intfs, mid, reboot, error :|
      && IsDiff(a, b, d)
      && RanAs(before, b, a, d, opts, intfs, mid, reboot, error)
      && (if reboot then v == Done && InSync(after, b) else after == mid && v == if error.None? then Done else Failed);
    HandleDiffFails(before, a, b, d, opts, intfs, mid, reboot, error);
    SamePorts(a, b, k);
    ModulesWalk(d, opts);
    NoModuleWalked(a, b, d, k, opts);
    NothingRun(before, d);
    OneWalked(a, b, d, k, intfs);
    if HasWork(d, Interfaces, k) {
      RunMovesStep(before, a, b, [k]);
      assert [k][..0] == [];
    } else {
      SoundParts(a);
      SoundParts(b);
      NoWorkNoMove(a, b, d, k);
      Staying(before, k);
    }
    RunNone(before, a, b);
  }

  lemma {:induction false} ModulesWalk(d: Diff, names: seq<string>)
    requires FullWalk(d, Modules, names)
    ensures Walk(d, Modules, names)
  {
    hide HasWork, Walk;
  }

  lemma {:induction false} NothingRun(db: Db, d: Diff)
    ensures RunOpts(db, d, []) == Outcome(db, None)
  {
  }

  lemma {:induction false} Staying(db: Db, k: string)
    ensures Apply(db, k, Stay).db == db
  {
  }

  // ---- The rows of the move ----

  /** Nobody has the new id yet. */
  lemma {:induction false} NewIdFree(a: Config, b: Config, k: string, w: nat)
    requires Plain(a) && Plain(b) && OnlyChange(a, b, k) && IdAt(b, k) == Some(w) && IdAt(a, k) != Some(w)
    ensures Owner(a, w) == None
  {
    hide Plain, Owner;
    OwnerById(a, w);
    if Owner(a, w).Some? {
      var j := Owner(a, w).value;
      OtherId(a, b, k, j);
      IdsApart(b, k, j);
    }
  }

  lemma {:induction false} OtherId(a: Config, b: Config, k: string, j: string)
    requires OnlyChange(a, b, k) && j != k
    ensures IdAt(b, j) == IdAt(a, j)
  {
  }

  lemma {:induction false} MovedLists(k: string, p: string, q: string, x: nat)
    requires k != p && k != q
    ensures NewMembers([], k, (Some(x), Some(p)), Some(q), true) == if p == q then [k] else [k, q]
    ensures Relabeled([k, p], k, Some(q), true) == if p == q then [] else [k]
  {
    assert [] + [k] == [k] && [k] + [q] == [k, q] && [k, q][..1] == [k] && [k, p][..1] == [k] && [k][..0] == [];
    assert Without([k], p) == [k] && Without([k, q], p) == if p == q then [k] else [k, q];
    assert Relabeled([k], k, Some(q), true) == [];
  }

  /** The two rows of a VLAN table in a move to another id. */
  lemma {:induction false} RenumberedVlans(db: Db, k: string, x: nat, p: string, w: nat, q: string, v: nat)
    requires k != p && k != q && x != w && Lookup(db, VlanKey(x)) == VlanEntry(x, [k, p]) && Lookup(db, VlanKey(w)) == map[]
    ensures var m := Go((Some(x), Some(p)), w, Some(q), true);
      VlanRow(db, k, m, v) ==
        if v == w then map["vlanid" := Scalar(Print(w)), "members" := Items(if p == q then [k] else [k, q])]
        else if v == x then (if p == q then map[] else map["vlanid" := Scalar(Print(x)), "members" := Items([k])])
        else Lookup(db, VlanKey(v))
  {
    MovedLists(k, p, q, x);
    VlanEntryHolds(x, [k, p]);
    hide NewMembers, Relabeled, Lookup, Print;
    assert MembersIn(map[]) == [];
    if p != q {
      assert VlanEntry(x, [k, p]) + map["members" := Items([k])] == map["vlanid" := Scalar(Print(x)), "members" := Items([k])];
    }
  }

  lemma {:induction false} VlanLeft(db: Db, a: Config, b: Config, k: string, v: nat)
    requires Plain(a) && Plain(b) && VlansInSync(db, a) && OnlyChange(a, b, k) && !Safe(a, b, k)
    requires Apply(db, k, MoveOf(a, b, k)).error.None?
    ensures Lookup(Apply(db, k, MoveOf(a, b, k)).db, VlanKey(v)) == RowLeft(a, b, k, VlanKey(v), Lookup(db, VlanKey(v)))
  {
    hide Plain, Owner, FarEndOf, RebuildAt, Lookup, Apply, VlanEntry, VlanRow, VlansInSync, OnlyChange, Print;
    VlanRowAfter(db, k, MoveOf(a, b, k), v);
    MoveIs(a, b, k);
    if MoveOf(a, b, k).Go? {
      var x, w := IdAt(a, k).value, IdAt(b, k).value;
      OwnRow(a, k, x);
      NewIdFree(a, b, k, w);
      RowsStored(db, a, x);
      RowsStored(db, a, w);
      VlanInSync(a, w);
      RenumberedVlans(db, k, x, FarEndOf(a, k).value, w, FarEndOf(b, k).value, v);
    } else {
      DropsVlan(db, k, MoveOf(a, b, k), v);
    }
  }

  lemma {:induction false} DropsVlan(db: Db, k: string, m: Move, v: nat)
    requires !m.Go?
    ensures VlanRow(db, k, m, v) == if m.Drop? && m.gone == Some(v) then map[] else Lookup(db, VlanKey(v))
  {
  }

  lemma {:induction false} RowsStored(db: Db, a: Config, v: nat)
    requires VlansInSync(db, a)
    ensures Lookup(db, VlanKey(v)) == RebuildAt(a, VlanKey(v))
    ensures forall y :: Lookup(db, MemberKey(v, y)) == RebuildAt(a, MemberKey(v, y))
  {
    hide Lookup, RebuildAt;
    assert VlanTable(VlanKey(v));
    assert forall y :: VlanTable(MemberKey(v, y));
  }

  /** The move of an unsafe change, and the parts of both connections. */
  lemma {:induction false} MoveIs(a: Config, b: Config, k: string)
    requires Plain(a) && Plain(b) && !Safe(a, b, k)
    ensures if ConnectionAt(b, k).None? then MoveOf(a, b, k) == Stay && IdAt(b, k) == None
      else
        && IdAt(b, k).Some? && FarEndOf(b, k).Some? && FarEndOf(b, k).value != k
        && (IdAt(a, k).Some? <==> FarEndOf(a, k).Some?)
        && (IdAt(a, k).Some? ==> FarEndOf(a, k).value != k)
        && (DescriptionGone(a, b, k) ==> MoveOf(a, b, k) == Drop(IdAt(a, k)))
        && (!DescriptionGone(a, b, k) ==>
              && IdAt(a, k).Some? && IdAt(a, k) != IdAt(b, k)
              && MoveOf(a, b, k) == Go((IdAt(a, k), FarEndOf(a, k)), IdAt(b, k).value, FarEndOf(b, k), true))
  {
    hide Plain, FarEndOf, DescriptionGone;
    if ConnectionAt(b, k).Some? {
      FarEnds(b, k);
    }
    if ConnectionAt(a, k).Some? {
      FarEnds(a, k);
    } else {
      NoFarEnd(a, k);
    }
  }

  lemma {:induction false} MemberLeft(db: Db, a: Config, b: Config, k: string, v: nat, y: string)
    requires Plain(a) && Plain(b) && VlansInSync(db, a) && OnlyChange(a, b, k) && !Safe(a, b, k)
    ensures Lookup(Apply(db, k, MoveOf(a, b, k)).db, MemberKey(v, y)) == RowLeft(a, b, k, MemberKey(v, y), Lookup(db, MemberKey(v, y)))
  {
    hide Plain, Owner, FarEndOf, RebuildAt, Lookup, Apply, VlanEntry, VlansInSync, OnlyChange, Print, MembersIn;
    MemberRowAfter(db, k, MoveOf(a, b, k), v, y);
    MoveIs(a, b, k);
    if IdAt(a, k).Some? && MoveOf(a, b, k).Drop? {
      var x := IdAt(a, k).value;
      OwnRow(a, k, x);
      RowsStored(db, a, x);
      VlanEntryHolds(x, [k, FarEndOf(a, k).value]);
    }
  }

  /**
   A commit that changes one interface alone, and not safely, on a database in sync. A cleared connection leaves every row
   of the old configuration. A lost description takes the old VLAN and its two members away and stores nothing new. A new id
   gives the new VLAN both its members, but lists the far end only if it is a new one; the old VLAN goes if the far
   end stays, and else keeps a list of just the interface that left it. All other rows stay.
   */
  lemma {:induction false} OneUnsafeLeaves(before: Db, a: Config, b: Config, after: Db, v: Verdict, k: string, key: Key)
    requires Sound(a) && Sound(b) && InSync(before, a) && DiffRan(before, a, b, after, v)
    requires OnlyChange(a, b, k) && !Safe(a, b, k)
    ensures v == Done && Lookup(after, key) == RowLeft(a, b, k, key, RebuildAt(a, key))
  {
    hide Sound, InSync, DiffRan, Plain, OnlyChange, Safe, MoveOf, Apply, Lookup, RebuildAt, VlansInSync, RowLeft;
    OneMove(before, a, b, after, v, k);
    SoundParts(a);
    SoundParts(b);
    SyncParts(before, a);
    SyncAt(before, a, key);
    if key.VlanKey? {
      MoveDone(before, a, b, k);
      VlanLeft(before, a, b, k, key.vid);
    } else if key.MemberKey? {
      MemberLeft(before, a, b, k, key.vid, key.member);
    } else {
      OtherRowsStay(before, k, MoveOf(a, b, k), key);
      OtherRowLeft(a, b, k, key, RebuildAt(a, key));
    }
  }

  lemma {:induction false} MoveDone(db: Db, a: Config, b: Config, k: string)
    requires Plain(a) && Plain(b) && VlansInSync(db, a)
    ensures Apply(db, k, MoveOf(a, b, k)).error.None?
  {
    hide Plain, VlansInSync, Apply, MoveOf;
    NoPanic(db, a, b, [], k);
    RunNone(db, a, b);
  }

  lemma {:induction false} OtherRowLeft(a: Config, b: Config, k: string, key: Key, stored: Entry)
    requires !VlanTable(key)
    ensures RowLeft(a, b, k, key, stored) == stored
  {
    hide FarEndOf;
  }
}
