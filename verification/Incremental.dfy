/** The incremental path over all interfaces, in any order: when it reaches the rebuild's VLANs and when it does not. */
module Incremental {
  import opened Wrappers
  import opened Names
  import opened Transponder
  import opened Validation
  import opened RedisCodec
  import opened Redis
  import opened Rebuild
  import opened Database
  import opened Wiring
  import opened Changes
  import opened Handlers
  import opened Moves

  /** The rows after the moves of these interfaces, one after the other. */
  function RunMoves(db: Db, a: Config, b: Config, names: seq<string>): Db {
    if names == [] then db
    else
      var name := names[|names| - 1];
      Apply(RunMoves(db, a, b, names[..|names| - 1]), name, MoveOf(a, b, name)).db
  }

  predicate VlanTable(key: Key) {
    key.VlanKey? || key.MemberKey?
  }

  /** The VLAN and VLAN_MEMBER tables are those of a rebuild. */
  ghost predicate VlansInSync(db: Db, c: Config) {
    forall key :: VlanTable(key) ==> Lookup(db, key) == RebuildAt(c, key)
  }

  // ---- One move, row by row ----

  /** What a move makes of a member row. */
  function MemberRow(db: Db, k: string, m: Move, v: nat, x: string): Entry {
    var e := Lookup(db, MemberKey(v, x));
    match m
    case Stay => e
    case Drop(gone) => if gone == Some(v) && x in MembersIn(Lookup(db, VlanKey(v))) then map[] else e
    case Go(from, w, end, ether) =>
      if end == Some(x) && v == w then MemberEntry("tagged")
      else if end.Some? && from == (Some(v), Some(x)) then map[]
      else if ether && x == k && v == w then MemberEntry("untagged")
      else if ether && x == k && from.0 == Some(v) then map[]
      else e
  }

  function LeftRow(e: Entry, left: seq<string>): Entry {
    if left == [] then map[] else e + map["members" := Items(left)]
  }

  /** What a move makes of a VLAN's row. */
  function VlanRow(db: Db, k: string, m: Move, v: nat): Entry {
    var e := Lookup(db, VlanKey(v));
    match m
    case Stay => e
    case Drop(gone) => if gone == Some(v) then map[] else e
    case Go(from, w, end, ether) =>
      var left := if from.0 == Some(v) then LeftRow(e, Relabeled(MembersIn(e), k, end, ether)) else e;
      if v == w then left + VlanChange(e, w, NewMembers(MembersIn(e), k, from, end, ether)) else left
  }

  lemma {:induction false} MemberRowAfter(db: Db, k: string, m: Move, v: nat, x: string)
    ensures Lookup(Apply(db, k, m).db, MemberKey(v, x)) == MemberRow(db, k, m, v, x)
  {
    hide Lookup, MemberEntry, MembersIn, PutMember, Moved, DropVlan;
    match m {
      case Stay =>
      case Drop(gone) => DroppedRow(db, gone, v, x);
      case Go(from, w, end, ether) =>
        MovedRow(db, k, from, w, end, ether, v, x);
        var db1 := if ether then PutMember(db, from.0, Some(k), w, k, "untagged") else db;
        PutRow(db, from.0, Some(k), w, k, "untagged", v, x);
        if end.Some? {
          PutRow(db1, from.0, from.1, w, end.value, "tagged", v, x);
        }
    }
  }

  lemma {:induction false} DroppedRow(db: Db, gone: Option<nat>, v: nat, x: string)
    ensures Lookup(DropVlan(db, gone), MemberKey(v, x)) ==
      if gone == Some(v) && x in MembersIn(Lookup(db, VlanKey(v))) then map[] else Lookup(db, MemberKey(v, x))
  {
    hide MembersIn;
    if gone.Some? {
      MemberRowsHold(gone.value, MembersIn(Lookup(db, VlanKey(gone.value))), v, x);
    }
  }

  lemma {:induction false} PutRow(db: Db, from: Option<nat>, former: Option<string>, w: nat, y: string, mode: string, v: nat, x: string)
    ensures Lookup(PutMember(db, from, former, w, y, mode), MemberKey(v, x)) ==
      if v == w && x == y then MemberEntry(mode) else if from == Some(v) && former == Some(x) then map[] else Lookup(db, MemberKey(v, x))
  {
    hide MemberEntry;
  }

  lemma {:induction false} MovedRow(db: Db, k: string, from: (Option<nat>, Option<string>), w: nat, end: Option<string>, ether: bool, v: nat, x: string)
    ensures Lookup(Moved(db, k, from, w, end, ether).db, MemberKey(v, x)) == Lookup(MovedMembers(db, k, from, w, end, ether), MemberKey(v, x))
  {
    hide MovedMembers, Relabeled, NewMembers, VlanChange, MembersIn;
  }

  lemma {:induction false} MemberRowsHold(w: nat, members: seq<string>, v: nat, x: string)
    ensures MemberKey(v, x) in MemberRows(w, members) <==> v == w && x in members
    ensures VlanKey(v) !in MemberRows(w, members)
  {
  }

  lemma {:induction false} VlanRowAfter(db: Db, k: string, m: Move, v: nat)
    requires Apply(db, k, m).error.None?
    ensures Lookup(Apply(db, k, m).db, VlanKey(v)) == VlanRow(db, k, m, v)
  {
    hide Relabeled, NewMembers, MemberEntry, MembersIn, VlanChange;
    if m.Drop? && m.gone.Some? {
      MemberRowsHold(m.gone.value, MembersIn(Lookup(db, VlanKey(m.gone.value))), v, "");
    }
    if m.Go? {
      MovedMembersFrame(db, k, m.from, m.v, m.end, m.ether, VlanKey(v));
    }
  }

  lemma {:induction false} MovedMembersFrame(db: Db, k: string, from: (Option<nat>, Option<string>), v: nat, end: Option<string>, ether: bool, key: Key)
    requires !key.MemberKey?
    ensures Lookup(MovedMembers(db, k, from, v, end, ether), key) == Lookup(db, key)
  {
    hide MemberEntry;
  }

  /** No other table is touched. */
  lemma {:induction false} OtherRowsStay(db: Db, k: string, m: Move, key: Key)
    requires !VlanTable(key)
    ensures Lookup(Apply(db, k, m).db, key) == Lookup(db, key)
  {
    hide Relabeled, NewMembers, MemberEntry, MembersIn, VlanChange;
    if m.Go? {
      MovedMembersFrame(db, k, m.from, m.v, m.end, m.ether, key);
    }
  }

  // ---- Lists of members ----

  lemma {:induction false} WithoutHolds(members: seq<string>, x: string, y: string)
    ensures y in Without(members, x) <==> y in members && y != x
  {
    if members != [] {
      WithoutHolds(members[..|members| - 1], x, y);
      assert members == members[..|members| - 1] + [members[|members| - 1]];
    }
  }

  lemma {:induction false} NewMembersHold(members: seq<string>, k: string, from: (Option<nat>, Option<string>), end: Option<string>, ether: bool, x: string)
    ensures x in NewMembers(members, k, from, end, ether) <==>
      && (x in members || (ether && x == k) || end == Some(x))
      && !(end.Some? && from.0.Some? && from.1 == Some(x))
  {
    hide Without;
    if end.Some? && from.0.Some? && from.1.Some? {
      WithoutHolds((if ether then members + [k] else members) + [end.value], from.1.value, x);
    }
  }

  /** The old VLAN keeps only the interface's own name, once for every member that is neither it nor the new far end. */
  lemma {:induction false} RelabeledHolds(members: seq<string>, k: string, end: Option<string>, ether: bool, x: string)
    ensures x in Relabeled(members, k, end, ether) <==> x == k && exists m :: m in members && !(m == k && ether) && end != Some(m)
  {
    if members != [] {
      RelabeledHolds(members[..|members| - 1], k, end, ether, x);
      assert members == members[..|members| - 1] + [members[|members| - 1]];
      assert members[|members| - 1] in members;
    }
  }

  /** The row has a list of members. */
  predicate Listed(e: Entry) {
    "members" in e && e["members"].Items?
  }

  lemma {:induction false} ChangeLists(e: Entry, left: Entry, v: nat, members: seq<string>)
    ensures Listed(left + VlanChange(e, v, members)) && MembersIn(left + VlanChange(e, v, members)) == ReadList(members)
  {
  }

  lemma {:induction false} LeftLists(e: Entry, left: seq<string>)
    ensures MembersIn(LeftRow(e, left)) == left
    ensures Listed(LeftRow(e, left)) <==> left != []
  {
  }

  // ---- No handler panics ----

  lemma {:induction false} IdIsOnVlan(c: Config, k: string, v: nat)
    requires Plain(c)
    ensures OnVlan(c, k, v) <==> IdAt(c, k) == Some(v)
    ensures IdAt(c, k).Some? <==> ConnectionAt(c, k).Some?
  {
    hide IdsUnique, LinePortNames, OptEthernetName;
    if k in c.interfaces {
      assert PlainInterface(k, c.interfaces[k]);
    }
  }

  lemma {:induction false} IdsApart(c: Config, j: string, k: string)
    requires Plain(c) && j != k && IdAt(c, j).Some?
    ensures IdAt(c, k) != IdAt(c, j)
  {
  }

  /** The move of another interface leaves a VLAN its list of members, as long as its own interface has not moved. */
  lemma {:induction false} OthersKeepList(db: Db, a: Config, b: Config, k: string, j: string, v: nat)
    requires Plain(a) && IdAt(a, j) == Some(v) && j != k && Listed(Lookup(db, VlanKey(v)))
    requires Apply(db, k, MoveOf(a, b, k)).error.None?
    ensures Listed(Lookup(Apply(db, k, MoveOf(a, b, k)).db, VlanKey(v)))
  {
    hide Lookup, Apply, Plain, VlanChange, NewMembers, Relabeled, LeftRow, Listed, MembersIn;
    var m := MoveOf(a, b, k);
    VlanRowAfter(db, k, m, v);
    IdsApart(a, j, k);
    if m.Go? && m.v == v {
      ChangeLists(Lookup(db, VlanKey(v)), Lookup(db, VlanKey(v)), v, NewMembers(MembersIn(Lookup(db, VlanKey(v))), k, m.from, m.end, m.ether));
    }
  }

  predicate Distinct(names: seq<string>) {
    forall i, j :: 0 <= i < j < |names| ==> names[i] != names[j]
  }

  /** A VLAN whose interface has not moved yet still has its list of members. */
  lemma {:induction false} StillListed(db: Db, a: Config, b: Config, names: seq<string>, j: string, v: nat)
    requires Plain(a) && Plain(b) && VlansInSync(db, a) && Distinct(names)
    requires IdAt(a, j) == Some(v) && j !in names
    ensures Listed(Lookup(RunMoves(db, a, b, names), VlanKey(v)))
    decreases |names|, 0
  {
    if names == [] {
      FirstList(db, a, j, v);
    } else {
      var less, k := names[..|names| - 1], names[|names| - 1];
      StillListed(db, a, b, less, j, v);
      NoPanic(db, a, b, less, k);
      OthersKeepList(RunMoves(db, a, b, less), a, b, k, j, v);
    }
  }

  lemma {:induction false} FirstList(db: Db, a: Config, j: string, v: nat)
    requires Plain(a) && VlansInSync(db, a) && IdAt(a, j) == Some(v)
    ensures Lookup(db, VlanKey(v)) == VlanEntry(v, MembersOf(a, j)) && Listed(Lookup(db, VlanKey(v)))
  {
    IdIsOnVlan(a, j, v);
    hide FarEndOf, LinePortNames, OptEthernetName;
    OwnerIs(a, j, v);
    assert VlanTable(VlanKey(v));
  }

  /** No move fails on a VLAN without members. */
  lemma {:induction false} NoPanic(db: Db, a: Config, b: Config, names: seq<string>, k: string)
    requires Plain(a) && Plain(b) && VlansInSync(db, a) && Distinct(names) && k !in names
    ensures Apply(RunMoves(db, a, b, names), k, MoveOf(a, b, k)).error.None?
    decreases |names|, 1
  {
    hide Plain, VlansInSync, RunMoves, Lookup, DropVlan, MovedMembers, LeftVlan, NewMembers, Relabeled, VlanChange;
    if IdAt(a, k).Some? {
      StillListed(db, a, b, names, k, IdAt(a, k).value);
    }
  }

  lemma {:induction false} WalkIsDistinct(d: Diff, t: Table, names: seq<string>)
    requires Walk(d, t, names) && names != []
    ensures Walk(d, t, names[..|names| - 1]) && Distinct(names[..|names| - 1]) && HasWork(d, t, names[|names| - 1])
    ensures names[|names| - 1] !in names[..|names| - 1] && Distinct(names)
  {
    hide TasksOf;
  }

  /** handleDiff's walk over the interfaces runs the moves, and never fails. */
  lemma {:induction false} InterfacesRunMoves(db: Db, a: Config, b: Config, d: Diff, names: seq<string>)
    requires IsDiff(a, b, d) && Plain(a) && Plain(b) && VlansInSync(db, a) && Walk(d, Interfaces, names)
    ensures RunInterfaces(db, b, a, d, names) == Outcome(RunMoves(db, a, b, names), None)
    decreases |names|
  {
    if names != [] {
      hide IsDiff, Plain, VlansInSync, Walk, HasWork, Apply, MoveOf, HandleInterface, TasksOf;
      var less, k := names[..|names| - 1], names[|names| - 1];
      WalkIsDistinct(d, Interfaces, names);
      InterfacesRunMoves(db, a, b, d, less);
      NoPanic(db, a, b, less, k);
      HandleIsMove(RunMoves(db, a, b, less), a, b, d, k);
    }
  }
}
