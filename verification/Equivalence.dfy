/** When two accepted configurations rebuild to the same database: the leaves a rebuild stores, and no others, agree. */
module Equivalence {
  import opened Wrappers
  import opened Transponder
  import opened Redis
  import opened Rebuild
  import opened Database
  import opened Changes
  import opened Handlers
  import opened Moves
  import opened Incremental
  import opened Convergence
  import opened Divergence
  import opened ModuleSync
  import opened Sync

  /** A rebuild of either configuration stores the same rows. */
  ghost predicate SameRebuild(a: Config, b: Config) {
    forall key :: RebuildAt(a, key) == RebuildAt(b, key)
  }

  /** The same interfaces with the same connections, and modules with the same texts in the columns they have. */
  predicate SameLeaves(a: Config, b: Config) {
    && a.interfaces.Keys == b.interfaces.Keys
    && (forall k :: k in a.interfaces ==> a.interfaces[k].connection == b.interfaces[k].connection)
    && (forall name, l :: name in a.modules && l in HANDLED ==> SameText(a, b, name, l))
  }

  predicate SameText(a: Config, b: Config, name: string, l: Leaf)
    requires name in a.modules
  {
    name in b.modules && FullText(name, a.modules[name], l) == FullText(name, b.modules[name], l)
  }

  // ---- From the rows back to the leaves ----

  lemma {:induction false} InterfaceShown(a: Config, b: Config, k: string)
    requires SameRebuild(a, b) && Plain(a) && k in a.interfaces
    ensures k in b.interfaces
  {
    hide Plain, LinePortNames, LaneOf, SameRebuild;
    FarEndIsLine(a, k);
    RowAgrees(a, b, PortKey(k));
    assert "lanes" in PortEntry(LaneOf(k));
  }

  lemma {:induction false} RowAgrees(a: Config, b: Config, key: Key)
    requires SameRebuild(a, b)
    ensures RebuildAt(a, key) == RebuildAt(b, key)
  {
  }

  /** The id shows in the interface's member row, the far end in the list of its VLAN. */
  lemma {:induction false} ConnectionShown(a: Config, b: Config, k: string)
    requires SameRebuild(a, b) && Plain(a) && Plain(b) && EndsTell(a, b) && ConnectionAt(a, k).Some?
    ensures ConnectionAt(b, k) == ConnectionAt(a, k)
  {
    hide Plain, LinePortNames, RebuildAt, FarEndOf, MemberEntry, VlanEntry, MembersIn, SameRebuild, EndsTell;
    FarEnds(a, k);
    IsClient(a, k);
    var v := IdAt(a, k).value;
    OwnRow(a, k, v);
    RowAgrees(a, b, MemberKey(v, k));
    RowAgrees(a, b, VlanKey(v));
    if IdAt(b, k) != Some(v) {
      NotRebuilt(b, k, v);
    }
    OwnRow(b, k, v);
    VlanEntryHolds(v, [k, FarEndOf(a, k).value]);
    VlanEntryHolds(v, [k, FarEndOf(b, k).value]);
    assert [k, FarEndOf(a, k).value][1] == [k, FarEndOf(b, k).value][1];
    EndTells(a, b, k);
  }

  lemma {:induction false} EndTells(a: Config, b: Config, k: string)
    requires EndsTell(a, b) && ConnectionAt(a, k).Some? && ConnectionAt(b, k).Some? && FarEndOf(a, k) == FarEndOf(b, k)
    ensures ConnectionAt(a, k).value.line == ConnectionAt(b, k).value.line
  {
    hide FarEndOf;
  }

  lemma {:induction false} TextShown(a: Config, b: Config, name: string, l: Leaf)
    requires SameRebuild(a, b) && ModulesNamed(a) && ModulesNamed(b) && name in a.modules && l in HANDLED
    ensures SameText(a, b, name, l)
  {
    hide SameRebuild, RowOf, FullText, ColumnName, ColumnOf, HANDLED, IsModuleName;
    ModuleNamed(name);
    RowAgrees(a, b, ModuleKey(name));
    RowText(name, a.modules[name], l);
    RowText(name, b.modules[name], l);
  }

  // ---- From the leaves to the rows ----

  /** A row is determined by the module's name and the texts of the handled leaves. */
  lemma {:induction false} TextsMakeRow(name: string, m: OpticalModule, n: OpticalModule)
    requires ModuleIndex(name).Some? && forall l :: l in HANDLED ==> FullText(name, m, l) == FullText(name, n, l)
    ensures RowOf(name, m) == RowOf(name, n)
  {
    hide ColumnName, ColumnOf, RowOf, ModuleIndex, FullText;
    IndexText(name, m);
    IndexText(name, n);
    forall d ensures ColumnName(d) in RowOf(name, m) && ColumnName(d) in RowOf(name, n)
      && RowOf(name, m)[ColumnName(d)] == RowOf(name, n)[ColumnName(d)] {
      var l := EveryColumn(d);
      if d != IndexColumn {
        RowText(name, m, l);
        RowText(name, n, l);
      }
    }
  }

  lemma {:induction false} LeavesMakeRow(a: Config, b: Config, key: Key)
    requires SameLeaves(a, b) && Plain(a) && Plain(b) && ModulesNamed(a) && ModulesNamed(b)
    ensures RebuildAt(a, key) == RebuildAt(b, key)
  {
    hide Plain, Owner, LinePortNames, LaneOf, RowOf, FullText, HANDLED, IsModuleName;
    if VlanTable(key) {
      forall k ensures ConnectionAt(a, k) == ConnectionAt(b, k) {
      }
      SameConnections(a, b, key);
    } else if key.ModuleKey? && key.name in a.modules {
      ModuleNamed(key.name);
      forall l | l in HANDLED ensures FullText(key.name, a.modules[key.name], l) == FullText(key.name, b.modules[key.name], l) {
        assert SameText(a, b, key.name, l);
      }
      TextsMakeRow(key.name, a.modules[key.name], b.modules[key.name]);
    } else {
      SyncKey(key);
    }
  }

  /**
   Two wired, accepted configurations rebuild to the same database exactly if they have the same interfaces with the same
   connections, and every module shows the same texts: speeds, descriptions, MTUs and unset leaves at their default do not tell.
   */
  lemma {:induction false} SameRebuildSameLeaves(a: Config, b: Config)
    requires Sound(a) && Sound(b)
    ensures SameRebuild(a, b) <==> SameLeaves(a, b)
  {
    SoundParts(a);
    SoundParts(b);
    LinesOfEnds(a, b);
    LinesOfEnds(b, a);
    hide Sound, Plain, ModulesNamed, EndsTell, RebuildAt, SameLeaves, SameRebuild;
    if SameRebuild(a, b) {
      AllShown(a, b);
    }
    if SameLeaves(a, b) {
      forall key ensures RebuildAt(a, key) == RebuildAt(b, key) {
        LeavesMakeRow(a, b, key);
      }
      RebuildAgrees(a, b);
    }
  }

  lemma {:induction false} RebuildAgrees(a: Config, b: Config)
    requires forall key :: RebuildAt(a, key) == RebuildAt(b, key)
    ensures SameRebuild(a, b)
  {
    hide RebuildAt;
  }

  lemma {:induction false} AllShown(a: Config, b: Config)
    requires Plain(a) && Plain(b) && ModulesNamed(a) && ModulesNamed(b) && EndsTell(a, b) && EndsTell(b, a) && SameRebuild(a, b)
    ensures SameLeaves(a, b)
  {
    hide Plain, ModulesNamed, EndsTell, SameText, HANDLED, SameRebuild;
    SameRebuildBack(a, b);
    forall k ensures k in a.interfaces <==> k in b.interfaces {
      if k in a.interfaces {
        InterfaceShown(a, b, k);
      }
      if k in b.interfaces {
        InterfaceShown(b, a, k);
      }
    }
    assert a.interfaces.Keys == b.interfaces.Keys;
    forall k | k in a.interfaces ensures a.interfaces[k].connection == b.interfaces[k].connection {
      if ConnectionAt(a, k).Some? {
        ConnectionShown(a, b, k);
      }
      if ConnectionAt(b, k).Some? {
        ConnectionShown(b, a, k);
      }
    }
    forall name, l | name in a.modules && l in HANDLED ensures SameText(a, b, name, l) {
      TextShown(a, b, name, l);
    }
  }

  lemma {:induction false} SameRebuildBack(a: Config, b: Config)
    requires SameRebuild(a, b)
    ensures SameRebuild(b, a)
  {
    hide RebuildAt;
  }
}
