/** The incremental path: handleDiff and the three handlers (cmd/oopt/main.go, pkg/sonic/interface.go, pkg/sonic/transport.go). */
module Handlers {
  import opened Wrappers
  import opened Names
  import T = Text
  import opened Transponder
  import opened RedisCodec
  import opened Redis
  import opened Database
  import opened Changes

  /** Errors and the run-time panics of the handlers. */
  datatype DiffError = InvalidDiffName | NilValue | WrongType | NilMembers | NilId | ShortName

  /** The rows a handler leaves, and its error if it failed. */
  datatype Outcome = Outcome(db: Db, error: Option<DiffError>)

  // ---- HandleOptDiff ----

  function Put(e: Entry, column: Column, text: string): Result<Entry, DiffError> {
    Ok(e[ColumnName(column) := Scalar(text)])
  }

  const HANDLED: set<Leaf> := {GridLeaf, ChannelLeaf, BerLeaf, PrbsLeaf, LosiLeaf, EnabledLeaf, ModulationLeaf}

  /** One task of a module; the handled leaves read the value, which a delete does not carry. */
  function OptTask(e: Entry, t: Task): Result<Entry, DiffError> {
    if t.leaf !in HANDLED then Ok(e)
    else if t.value.None? then Err(NilValue)
    else match (t.leaf, t.value.value)
      case (GridLeaf, GridOf(g)) => Put(e, GridColumn, T.Print(if g == GridUnset then 0 else GridTypeToInt(g)))
      case (ChannelLeaf, Number(n)) => Put(e, ChannelColumn, T.Print(n))
      case (BerLeaf, Number(n)) => Put(e, BerColumn, T.Print(n))
      case (PrbsLeaf, Truth(b)) => Put(e, PrbsColumn, OnOff(b))
      case (LosiLeaf, Truth(b)) => Put(e, LosiColumn, OnOff(b))
      case (EnabledLeaf, Truth(b)) => Put(e, EnabledColumn, OnOff(b))
      case (ModulationLeaf, ModulationOf(m)) => if m == ModulationUnset then Ok(e) else Put(e, ModulationColumn, ModulationText(m))
      case _ => Err(WrongType)
  }

  function OptEntry(tasks: seq<Task>): Result<Entry, DiffError> {
    if tasks == [] then Ok(map[])
    else match OptEntry(tasks[..|tasks| - 1])
      case Err(e) => Err(e)
      case Ok(entry) => OptTask(entry, tasks[|tasks| - 1])
  }

  function HandleOpt(db: Db, name: string, tasks: seq<Task>): Outcome {
    if !T.HasPrefix(name, "Opt") then Outcome(db, Some(InvalidDiffName))
    else match OptEntry(tasks)
      case Err(e) => Outcome(db, Some(e))
      case Ok(entry) => Outcome(if entry == map[] then db else Overlay(db, ModuleKey(name), entry), None)
  }

  predicate PlainRow(e: Entry) {
    forall f :: f in e ==> f != "" && !IsListName(f) && e[f].Scalar? && f != "members"
  }

  lemma {:induction false} TaskKeepsPlain(e: Entry, t: Task)
    requires PlainRow(e) && OptTask(e, t).Ok?
    ensures PlainRow(OptTask(e, t).value)
  {
    hide ColumnName, IsListName;
    forall c ensures ColumnName(c) != "" && !IsListName(ColumnName(c)) && ColumnName(c) != "members" {
      ColumnPlain(c);
    }
  }

  lemma {:induction false} PlainIsWritable(e: Entry)
    requires PlainRow(e) && e != map[]
    ensures Writable(e) && AsRead(e) == e
  {
  }

  method HandleOptDiff(client: Client, name: string, tasks: seq<Task>) returns (error: Option<DiffError>)
    requires client.Valid()
    modifies client
    ensures client.Valid() && Outcome(client.rows, error) == HandleOpt(old(client.rows), name, tasks)
  {
    hide OptTask, Client.Valid, PlainRow, Writable;
    if !T.HasPrefix(name, "Opt") {
      return Some(InvalidDiffName);
    }
    var entry: Entry := map[];
    EmptyIsPlain();
    assert tasks[..0] == [];
    for i := 0 to |tasks|
      invariant OptEntry(tasks[..i]) == Ok(entry) && PlainRow(entry)
      invariant client.Valid() && client.rows == old(client.rows)
    {
      assert tasks[..i + 1][..i] == tasks[..i];
      var step := OptTask(entry, tasks[i]);
      if step.Err? {
        ErrorStays(tasks, i + 1);
        return Some(step.error);
      }
      TaskKeepsPlain(entry, tasks[i]);
      entry := step.value;
    }
    assert tasks[..|tasks|] == tasks;
    if entry == map[] {
      return None;
    }
    PlainIsWritable(entry);
    client.ModEntry(ModuleKey(name), entry);
    error := None;
  }

  lemma {:induction false} EmptyIsPlain()
    ensures PlainRow(map[])
  {
  }

  /** The first failing task decides the error. */
  lemma {:induction false} ErrorStays(tasks: seq<Task>, i: nat)
    requires i <= |tasks| && OptEntry(tasks[..i]).Err?
    ensures OptEntry(tasks) == OptEntry(tasks[..i])
    decreases |tasks| - i
  {
    if i < |tasks| {
      assert tasks[..i + 1][..i] == tasks[..i];
      ErrorStays(tasks, i + 1);
    } else {
      assert tasks[..i] == tasks;
    }
  }

  // ---- HandlePortDiff ----

  predicate Reboots(tasks: seq<Task>) {
    exists i :: 0 <= i < |tasks| && tasks[i].leaf != DescriptionLeaf
  }

  method HandlePortDiff(name: string, tasks: seq<Task>) returns (r: Result<bool, DiffError>)
    ensures r == if T.HasPrefix(name, "Port") then Ok(Reboots(tasks)) else Err(InvalidDiffName)
  {
    if !T.HasPrefix(name, "Port") {
      return Err(InvalidDiffName);
    }
    for i := 0 to |tasks|
      invariant forall j :: 0 <= j < i ==> tasks[j].leaf == DescriptionLeaf
    {
      if tasks[i].leaf != DescriptionLeaf {
        return Ok(true);
      }
    }
    r := Ok(false);
  }

  // ---- HandleInterfaceDiff ----

  predicate HasDelete(tasks: seq<Task>) {
    exists i :: 0 <= i < |tasks| && tasks[i].deleted
  }

  predicate Mentions(tasks: seq<Task>, leaves: set<Leaf>) {
    exists i :: 0 <= i < |tasks| && tasks[i].leaf in leaves
  }

  const END_LEAVES := {IdLeaf, LineNameLeaf, LineChannelLeaf}

  /** The port at the far end; None stands for the empty name an error leaves, a short module name panics. */
  function EndName(line: Option<Endpoint>): Result<Option<string>, DiffError> {
    if line.None? then Ok(None)
    else match OptEthernetName(line)
      case Ok(name) => Ok(Some(name))
      case Err(SliceOutOfRange) => Err(ShortName)
      case Err(_) => Ok(None)
  }

  /** The id and the far end the interface had in the old configuration. */
  function Former(c: Config, k: string): Result<(Option<nat>, Option<string>), DiffError> {
    if k !in c.interfaces || c.interfaces[k].connection.None? || c.interfaces[k].connection.value.id.None? then Ok((None, None))
    else match EndName(c.interfaces[k].connection.value.line)
      case Err(e) => Err(e)
      case Ok(end) => Ok((c.interfaces[k].connection.value.id, end))
  }

  function MembersIn(vlan: Entry): seq<string> {
    if "members" in vlan && vlan["members"].Items? then vlan["members"].items else []
  }

  function MemberRows(v: nat, members: seq<string>): set<Key> {
    set m | m in members :: MemberKey(v, m)
  }

  /** A delete task removes the old VLAN with all its members. */
  function DropVlan(db: Db, from: Option<nat>): Db {
    if from.None? then db
    else db - {VlanKey(from.value)} - MemberRows(from.value, MembersIn(Lookup(db, VlanKey(from.value))))
  }

  function Without(members: seq<string>, x: string): seq<string> {
    if members == [] then []
    else
      var last := members[|members| - 1];
      Without(members[..|members| - 1], x) + if last == x then [] else [last]
  }

  /** What the code makes of the old VLAN's members: the ones that stay are all replaced by the interface's own name. */
  function Relabeled(members: seq<string>, name: string, end: Option<string>, ether: bool): seq<string> {
    if members == [] then []
    else
      var last := members[|members| - 1];
      Relabeled(members[..|members| - 1], name, end, ether) + if (last == name && ether) || end == Some(last) then [] else [name]
  }

  /** The members of the new VLAN: the far end joins and, if both are known, the former one leaves. */
  function NewMembers(members: seq<string>, name: string, from: (Option<nat>, Option<string>), end: Option<string>, ether: bool): seq<string> {
    var ms := if ether then members + [name] else members;
    if end.None? then ms
    else if from.0.Some? && from.1.Some? then Without(ms + [end.value], from.1.value)
    else ms + [end.value]
  }

  function PutMember(db: Db, from: Option<nat>, former: Option<string>, v: nat, x: string, mode: string): Db {
    (if from.Some? && former.Some? then db - {MemberKey(from.value, former.value)} else db)[MemberKey(v, x) := MemberEntry(mode)]
  }

  /** The member rows after the move; end is None unless the far end is to be modified. */
  function MovedMembers(db: Db, name: string, from: (Option<nat>, Option<string>), v: nat, end: Option<string>, ether: bool): Db {
    var db1 := if ether then PutMember(db, from.0, Some(name), v, name, "untagged") else db;
    if end.Some? then PutMember(db1, from.0, from.1, v, end.value, "tagged") else db1
  }

  function VlanChange(vlan: Entry, v: nat, members: seq<string>): Entry {
    if vlan == map[] then VlanEntry(v, ReadList(members)) else map["members" := Items(ReadList(members))]
  }

  /** The old VLAN keeps its other members, or goes. */
  function LeftVlan(db: Db, from: nat, left: seq<string>): Db {
    if left == [] then db - {VlanKey(from)} else Overlay(db, VlanKey(from), map["members" := Items(left)])
  }

  function Moved(db: Db, name: string, from: (Option<nat>, Option<string>), v: nat, end: Option<string>, ether: bool): Outcome {
    var vlan := Lookup(db, VlanKey(v));
    var db2 := MovedMembers(db, name, from, v, end, ether);
    var change := VlanChange(vlan, v, NewMembers(MembersIn(vlan), name, from, end, ether));
    if from.0.None? then Outcome(Overlay(db2, VlanKey(v), change), None)
    else
      var was := Lookup(db, VlanKey(from.0.value));
      if "members" !in was then Outcome(db2, Some(NilMembers))
      else Outcome(Overlay(LeftVlan(db2, from.0.value, Relabeled(MembersIn(was), name, end, ether)), VlanKey(v), change), None)
  }

  /** HandleInterfaceDiff. */
  function HandleInterface(db: Db, newer: Config, older: Config, name: string, tasks: seq<Task>): Outcome {
    if !T.HasPrefix(name, "Ethernet") then Outcome(db, Some(InvalidDiffName))
    else if name !in newer.interfaces || newer.interfaces[name].connection.None? then Outcome(db, None)
    else
      match Former(older, name)
      case Err(e) => Outcome(db, Some(e))
      case Ok(from) =>
        if HasDelete(tasks) then Outcome(DropVlan(db, from.0), None)
        else
          var x := newer.interfaces[name].connection.value;
          if x.id.None? then Outcome(db, Some(NilId))
          else
            match EndName(x.line)
            case Err(e) => Outcome(db, Some(e))
            case Ok(to) =>
              var end := if Mentions(tasks, END_LEAVES) then to else None;
              var ether := Mentions(tasks, {IdLeaf});
              if end.None? && !ether then Outcome(db, None) else Moved(db, name, from, x.id.value, end, ether)
  }

  // ---- The handler as it runs ----

  /** The flags computed from the tasks; the walk stops at the first delete. */
  method ReadTasks(tasks: seq<Task>) returns (modEther: bool, modOpt: bool, delOld: bool)
    ensures delOld == HasDelete(tasks)
    ensures !delOld ==> modEther == Mentions(tasks, {IdLeaf}) && modOpt == Mentions(tasks, END_LEAVES)
  {
    modEther, modOpt, delOld := false, false, false;
    for i := 0 to |tasks|
      invariant !delOld && forall j :: 0 <= j < i ==> !tasks[j].deleted
      invariant modEther <==> exists j :: 0 <= j < i && tasks[j].leaf == IdLeaf
      invariant modOpt <==> exists j :: 0 <= j < i && tasks[j].leaf in END_LEAVES
    {
      var t := tasks[i];
      if t.deleted {
        delOld := true;
        break;
      }
      match t.leaf {
        case LineChannelLeaf => modOpt := true;
        case LineNameLeaf => modOpt := true;
        case IdLeaf => modOpt, modEther := true, true;
        case _ =>
      }
    }
  }

  /** The loop that filters the former far end out of the new members. */
  method Filter(members: seq<string>, x: string) returns (ms: seq<string>)
    ensures ms == Without(members, x)
  {
    ms := [];
    for i := 0 to |members|
      invariant ms == Without(members[..i], x)
    {
      assert members[..i + 1][..i] == members[..i];
      if members[i] != x {
        ms := ms + [members[i]];
      }
    }
    assert members[..|members|] == members;
  }

  /** The loop over the old VLAN's members. */
  method Relabel(members: seq<string>, name: string, end: Option<string>, ether: bool) returns (ms: seq<string>)
    ensures ms == Relabeled(members, name, end, ether)
  {
    ms := [];
    for i := 0 to |members|
      invariant ms == Relabeled(members[..i], name, end, ether)
    {
      assert members[..i + 1][..i] == members[..i];
      var v := members[i];
      if v == name && ether {
        continue;
      }
      if end == Some(v) {
        continue;
      }
      ms := ms + [name];
    }
    assert members[..|members|] == members;
  }

  lemma {:induction false} OneRowLess(db: Db, v: nat, members: seq<string>, m: string)
    ensures db - MemberRows(v, members) - {MemberKey(v, m)} == db - MemberRows(v, members + [m])
  {
    assert MemberRows(v, members + [m]) == MemberRows(v, members) + {MemberKey(v, m)};
  }

  /** The loop that removes the member rows of a dropped VLAN. */
  method DropMembers(client: Client, v: nat, members: seq<string>)
    requires client.Valid()
    modifies client
    ensures client.Valid() && client.rows == old(client.rows) - MemberRows(v, members)
  {
    for i := 0 to |members|
      invariant client.Valid() && client.rows == old(client.rows) - MemberRows(v, members[..i])
    {
      hide *;
      assert members[..i + 1] == members[..i] + [members[i]];
      OneRowLess(old(client.rows), v, members[..i], members[i]);
      client.Delete(MemberKey(v, members[i]));
    }
    assert members[..|members|] == members;
  }

  lemma {:induction false} MembersStored(e: Entry)
    requires Stored(e)
    ensures "members" in e ==> e["members"].Items? && T.Free(e["members"].items, ',')
    ensures T.Free(MembersIn(e), ',')
  {
  }

  lemma {:induction false} FreeAfter(members: seq<string>, x: string)
    requires T.Free(members, ',')
    ensures T.Free(Without(members, x), ',')
  {
    if members != [] {
      FreeAfter(members[..|members| - 1], x);
    }
  }

  lemma {:induction false} RelabeledFree(members: seq<string>, name: string, end: Option<string>, ether: bool)
    requires ',' !in name
    ensures T.Free(Relabeled(members, name, end, ether), ',')
  {
    if members != [] {
      RelabeledFree(members[..|members| - 1], name, end, ether);
    }
  }

  lemma {:induction false} EndIsFree(line: Option<Endpoint>)
    requires EndName(line).Ok? && EndName(line).value.Some?
    ensures ',' !in EndName(line).value.value
  {
    forall n: nat ensures ',' !in T.Print(n) {
      DigitsHoldNo(T.Print(n), ',');
    }
    assert ',' !in "Ethernet";
    assert ',' !in "-";
  }

  lemma {:induction false} NewMembersFree(members: seq<string>, name: string, from: (Option<nat>, Option<string>), end: Option<string>, ether: bool)
    requires T.Free(members, ',') && ',' !in name && (end.Some? ==> ',' !in end.value)
    ensures T.Free(NewMembers(members, name, from, end, ether), ',')
  {
    var ms := if ether then members + [name] else members;
    if end.Some? && from.0.Some? && from.1.Some? {
      FreeAfter(ms + [end.value], from.1.value);
    }
  }

  lemma {:induction false} VlanEntryWritable(v: nat, members: seq<string>)
    requires T.Free(members, ',')
    ensures Writable(VlanEntry(v, members)) && AsRead(VlanEntry(v, members)) == VlanEntry(v, ReadList(members))
    ensures Writable(map["members" := Items(members)]) && AsRead(map["members" := Items(members)]) == map["members" := Items(ReadList(members))]
  {
    assert "members" in VlanEntry(v, members) && "members" in map["members" := Items(members)];
  }

  lemma {:induction false} MemberEntryStored(mode: string)
    ensures Stored(MemberEntry(mode))
  {
    assert "tagging_mode" in MemberEntry(mode);
  }

  /** The member rows of one move: the former row goes, the new one is set. */
  method MoveMember(client: Client, from: Option<nat>, former: Option<string>, v: nat, x: string, mode: string)
    requires client.Valid()
    modifies client
    ensures client.Valid() && client.rows == PutMember(old(client.rows), from, former, v, x, mode)
  {
    hide Client.Valid, Stored;
    if from.Some? && former.Some? {
      client.Delete(MemberKey(from.value, former.value));
    }
    MemberEntryStored(mode);
    client.SetEntry(MemberKey(v, x), MemberEntry(mode));
  }

  /** The old VLAN: its other members stay under the interface's name, or the VLAN goes. */
  method LeaveVlan(client: Client, from: nat, was: Entry, name: string, end: Option<string>, ether: bool)
    requires client.Valid() && ',' !in name
    modifies client
    ensures client.Valid() && client.rows == LeftVlan(old(client.rows), from, Relabeled(MembersIn(was), name, end, ether))
  {
    hide Client.Valid, Stored, Writable;
    var left := Relabel(MembersIn(was), name, end, ether);
    if left == [] {
      client.Delete(VlanKey(from));
    } else {
      RelabeledFree(MembersIn(was), name, end, ether);
      VlanEntryWritable(from, left);
      client.ModEntry(VlanKey(from), map["members" := Items(left)]);
    }
  }

  /** The part of the handler that moves an interface. */
  method MoveInterface(client: Client, name: string, from: (Option<nat>, Option<string>), was: Entry, v: nat, end: Option<string>, ether: bool)
    returns (error: Option<DiffError>)
    requires client.Valid() && ',' !in name && (end.Some? ==> ',' !in end.value)
    requires from.0.Some? ==> was == Lookup(client.rows, VlanKey(from.0.value))
    modifies client
    ensures client.Valid() && Outcome(client.rows, error) == Moved(old(client.rows), name, from, v, end, ether)
  {
    hide Client.Valid, Stored, Writable, Lookup, MembersIn;
    var vlan := client.GetEntry(VlanKey(v));
    LookupStored(client, VlanKey(v), vlan);
    var members := MembersIn(vlan);
    if ether {
      members := members + [name];
      MoveMember(client, from.0, Some(name), v, name, "untagged");
    }
    if end.Some? {
      members := members + [end.value];
      if from.0.Some? && from.1.Some? {
        members := Filter(members, from.1.value);
      }
      MoveMember(client, from.0, from.1, v, end.value, "tagged");
    }
    assert members == NewMembers(MembersIn(vlan), name, from, end, ether);
    NewMembersFree(MembersIn(vlan), name, from, end, ether);
    if from.0.Some? {
      if "members" !in was {
        return Some(NilMembers);
      }
      LeaveVlan(client, from.0.value, was, name, end, ether);
    }
    VlanEntryWritable(v, members);
    if vlan == map[] {
      client.ModEntry(VlanKey(v), VlanEntry(v, members));
    } else {
      client.ModEntry(VlanKey(v), map["members" := Items(members)]);
    }
    error := None;
  }

  lemma {:induction false} LookupStored(client: Client, k: Key, e: Entry)
    requires client.Valid() && e == Lookup(client.rows, k)
    ensures T.Free(MembersIn(e), ',')
  {
    if k in client.rows {
      MembersStored(client.rows[k]);
    }
  }

  method HandleInterfaceDiff(client: Client, newer: Config, older: Config, name: string, tasks: seq<Task>) returns (error: Option<DiffError>)
    requires client.Valid() && ',' !in name
    modifies client
    ensures client.Valid() && Outcome(client.rows, error) == HandleInterface(old(client.rows), newer, older, name, tasks)
  {
    hide Client.Valid, Stored, Lookup, Moved, EndName, Mentions, HasDelete;
    if !T.HasPrefix(name, "Ethernet") {
      return Some(InvalidDiffName);
    }
    var modEther, modOpt, delOld := ReadTasks(tasks);
    if name !in newer.interfaces || newer.interfaces[name].connection.None? {
      return None;
    }
    var from := Former(older, name);
    if from.Err? {
      return Some(from.error);
    }
    var oldVid := from.value.0;
    var was: Entry := map[];
    if oldVid.Some? {
      was := client.GetEntry(VlanKey(oldVid.value));
    }
    if delOld {
      if oldVid.None? {
        return None;
      }
      client.Delete(VlanKey(oldVid.value));
      DropMembers(client, oldVid.value, MembersIn(was));
      return None;
    }
    var x := newer.interfaces[name].connection.value;
    if x.id.None? {
      return Some(NilId);
    }
    var end := EndName(x.line);
    if end.Err? {
      return Some(end.error);
    }
    if end.value.None? {
      modOpt := false;
    } else {
      EndIsFree(x.line);
    }
    if !modOpt && !modEther {
      return None;
    }
    error := MoveInterface(client, name, from.value, was, x.id.value, if modOpt then end.value else None, modEther);
  }

  // ---- handleDiff ----

  predicate HasWork(d: Diff, t: Table, name: string) {
    TasksOf(d, t, name) != []
  }

  /** Names with work, none of them twice: as far as a walk over a task map got. */
  predicate Walk(d: Diff, t: Table, names: seq<string>) {
    && (forall i :: 0 <= i < |names| ==> HasWork(d, t, names[i]))
    && (forall i, j :: 0 <= i < j < |names| ==> names[i] != names[j])
  }

  /** A walk that met every name with work. */
  ghost predicate FullWalk(d: Diff, t: Table, names: seq<string>) {
    Walk(d, t, names) && forall name :: HasWork(d, t, name) ==> name in names
  }

  function RunOpts(db: Db, d: Diff, names: seq<string>): Outcome {
    if names == [] then Outcome(db, None)
    else
      var o := RunOpts(db, d, names[..|names| - 1]);
      var name := names[|names| - 1];
      if o.error.Some? then o else HandleOpt(o.db, name, TasksOf(d, Modules, name))
  }

  function RunInterfaces(db: Db, newer: Config, older: Config, d: Diff, names: seq<string>): Outcome {
    if names == [] then Outcome(db, None)
    else
      var o := RunInterfaces(db, newer, older, d, names[..|names| - 1]);
      var name := names[|names| - 1];
      if o.error.Some? then o else HandleInterface(o.db, newer, older, name, TasksOf(d, Interfaces, name))
  }

  predicate BadPort(d: Diff, name: string) {
    HasWork(d, Ports, name) && !T.HasPrefix(name, "Port")
  }

  predicate PortReboots(d: Diff, name: string) {
    HasWork(d, Ports, name) && Reboots(TasksOf(d, Ports, name))
  }

  /** One way handleDiff may have run: the modules in some order, the interfaces in some order, then the ports. */
  ghost predicate RanAs(before: Db, newer: Config, older: Config, d: Diff, opts: seq<string>, intfs: seq<string>,
                        after: Db, reboot: bool, error: Option<DiffError>) {
    var o := RunOpts(before, d, opts);
    var i := RunInterfaces(o.db, newer, older, d, intfs);
    && Walk(d, Modules, opts)
    && (o.error.Some? ==> after == o.db && error == o.error)
    && (o.error.None? ==> FullWalk(d, Modules, opts) && Walk(d, Interfaces, intfs) && after == i.db)
    && (o.error.None? && i.error.Some? ==> error == i.error)
    && (o.error.Some? || i.error.Some? ==> !reboot)
    && (o.error.None? && i.error.None? ==> FullWalk(d, Interfaces, intfs))
    && (o.error.None? && i.error.None? ==> (error.Some? <==> exists name :: BadPort(d, name)))
    && (error.None? ==> (reboot <==> exists name :: PortReboots(d, name)))
  }

  lemma {:induction false} OneMoreOpt(db: Db, d: Diff, names: seq<string>, name: string)
    requires RunOpts(db, d, names).error.None?
    ensures RunOpts(db, d, names + [name]) == HandleOpt(RunOpts(db, d, names).db, name, TasksOf(d, Modules, name))
  {
    assert (names + [name])[..|names|] == names;
  }

  lemma {:induction false} OneMoreInterface(db: Db, newer: Config, older: Config, d: Diff, names: seq<string>, name: string)
    requires RunInterfaces(db, newer, older, d, names).error.None?
    ensures RunInterfaces(db, newer, older, d, names + [name]) ==
      HandleInterface(RunInterfaces(db, newer, older, d, names).db, newer, older, name, TasksOf(d, Interfaces, name))
  {
    assert (names + [name])[..|names|] == names;
  }

  method RunOptTasks(client: Client, d: Diff, tasks: TaskMap) returns (error: Option<DiffError>, ghost names: seq<string>)
    requires client.Valid() && Grouped(tasks, Modules, d.updates, d.deletes)
    modifies client
    ensures client.Valid() && Outcome(client.rows, error) == RunOpts(old(client.rows), d, names)
    ensures Walk(d, Modules, names) && (error.None? ==> FullWalk(d, Modules, names))
  {
    hide Client.Valid, HandleOpt, TasksOf, RunOpts;
    ghost var before := client.rows;
    names := [];
    NoneRun(before, d);
    var rest := tasks.Keys;
    while rest != {}
      invariant rest <= tasks.Keys && client.Valid()
      invariant Outcome(client.rows, None) == RunOpts(before, d, names)
      invariant Walk(d, Modules, names) && forall name :: name in tasks ==> (name in names <==> name !in rest)
      decreases |rest|
    {
      var k :| k in rest;
      OneMoreOpt(before, d, names, k);
      error := HandleOptDiff(client, k, tasks[k]);
      names, rest := names + [k], rest - {k};
      if error.Some? {
        return;
      }
    }
    error := None;
  }

  lemma {:induction false} NoneRun(db: Db, d: Diff)
    ensures RunOpts(db, d, []) == Outcome(db, None)
    ensures forall newer, older :: RunInterfaces(db, newer, older, d, []) == Outcome(db, None)
  {
  }

  method RunInterfaceTasks(client: Client, newer: Config, older: Config, d: Diff, tasks: TaskMap) returns (error: Option<DiffError>, ghost names: seq<string>)
    requires client.Valid() && Grouped(tasks, Interfaces, d.updates, d.deletes) && forall k :: k in tasks ==> ',' !in k
    modifies client
    ensures client.Valid() && Outcome(client.rows, error) == RunInterfaces(old(client.rows), newer, older, d, names)
    ensures Walk(d, Interfaces, names) && (error.None? ==> FullWalk(d, Interfaces, names))
  {
    hide Client.Valid, HandleInterface, TasksOf, RunInterfaces;
    ghost var before := client.rows;
    names := [];
    NoneRun(before, d);
    var rest := tasks.Keys;
    while rest != {}
      invariant rest <= tasks.Keys && client.Valid()
      invariant Outcome(client.rows, None) == RunInterfaces(before, newer, older, d, names)
      invariant Walk(d, Interfaces, names) && forall name :: name in tasks ==> (name in names <==> name !in rest)
      decreases |rest|
    {
      var k :| k in rest;
      OneMoreInterface(before, newer, older, d, names, k);
      error := HandleInterfaceDiff(client, newer, older, k, tasks[k]);
      names, rest := names + [k], rest - {k};
      if error.Some? {
        return;
      }
    }
    error := None;
  }

  method RunPortTasks(d: Diff, tasks: TaskMap) returns (reboot: bool, error: Option<DiffError>)
    requires Grouped(tasks, Ports, d.updates, d.deletes)
    ensures error.Some? <==> exists name :: BadPort(d, name)
    ensures error.None? ==> (reboot <==> exists name :: PortReboots(d, name))
  {
    hide TasksOf, Reboots;
    reboot := false;
    var rest := tasks.Keys;
    while rest != {}
      invariant rest <= tasks.Keys
      invariant forall name :: name in tasks && name !in rest ==> !BadPort(d, name)
      invariant reboot <==> exists name :: name in tasks && name !in rest && PortReboots(d, name)
      decreases |rest|
    {
      var k :| k in rest;
      var r := HandlePortDiff(k, tasks[k]);
      if r.Err? {
        assert BadPort(d, k);
        return reboot, Some(r.error);
      }
      rest := rest - {k};
      if r.value {
        assert PortReboots(d, k);
        reboot := true;
      }
    }
    error := None;
  }

  /** handleDiff. */
  method HandleDiff(client: Client, newer: Config, older: Config, d: Diff) returns (reboot: bool, error: Option<DiffError>)
    requires client.Valid() && forall k :: HasWork(d, Interfaces, k) ==> ',' !in k
    modifies client
    ensures client.Valid()
    ensures exists opts, intfs :: RanAs(old(client.rows), newer, older, d, opts, intfs, client.rows, reboot, error)
  {
    hide Client.Valid, RunOpts, RunInterfaces, TasksOf, Walk, FullWalk, Reboots;
    ghost var before := client.rows;
    var opt, intf, port := GroupTasks(d);
    ghost var opts: seq<string>, intfs: seq<string> := [], [];
    error, opts := RunOptTasks(client, d, opt);
    if error.Some? {
      reboot := false;
      assert RanAs(before, newer, older, d, opts, intfs, client.rows, reboot, error);
      return;
    }
    error, intfs := RunInterfaceTasks(client, newer, older, d, intf);
    if error.Some? {
      reboot := false;
      assert RanAs(before, newer, older, d, opts, intfs, client.rows, reboot, error);
      return;
    }
    reboot, error := RunPortTasks(d, port);
    assert RanAs(before, newer, older, d, opts, intfs, client.rows, reboot, error);
  }
}
