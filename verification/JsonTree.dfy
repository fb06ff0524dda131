/**
 The IETF JSON tree the server edits: objects, keyed lists and scalars, and the schema they follow.
 Meaning() forgets the order of list entries and gives the PathTree the JSON stands for.
 */
module JsonTree {
  import opened Wrappers
  import opened PathTree

  datatype Json =
    | Scalar(kind: Kind, text: string)
    | Object(members: map<string, Json>)
    | List(entries: seq<Json>)

  /** A schema node: a leaf, a container (no keys), or a keyed list whose entries have members dir. */
  datatype Schema = Schema(leaf: bool, keys: set<string>, dir: map<string, Schema>)

  const LEAF_SCHEMA := Schema(true, {}, map[])

  function Sub(s: Schema, name: string): Schema {
    if name in s.dir then s.dir[name] else LEAF_SCHEMA
  }

  /** fmt.Sprintf("%v"): the text path keys are compared with. Objects and lists print as no key text does. */
  function Printed(j: Json): string {
    match j
    case Scalar(_, text) => text
    case Object(_) => "map[]"
    case List(_) => "[]"
  }

  /** The value of a key attribute: a number when the key text parses as one. */
  function StoredKey(fmt: NumberFormat, v: string): Json {
    match fmt(v)
    case None => Scalar(Text, v)
    case Some(t) => Scalar(Number, t)
  }

  /** A key text that survives being stored and printed again. */
  predicate Canonical(fmt: NumberFormat, v: string) {
    Printed(StoredKey(fmt, v)) == v
  }

  function NewMembers(fmt: NumberFormat, keys: Keys): map<string, Json> {
    map k | k in keys :: StoredKey(fmt, keys[k])
  }

  // ---- Keyed lists ----

  /** The key tuple of a list entry. */
  function KeysOf(entry: Json, keys: set<string>): Keys {
    map k | k in keys && entry.Object? && k in entry.members :: Printed(entry.members[k])
  }

  /** The entry can be compared with the key attributes of a path element. */
  predicate Comparable(entry: Json, keys: Keys) {
    entry.Object? && forall k :: k in keys ==> k in entry.members
  }

  /** Only scalars are compared: an object or a list never prints as a key text. */
  predicate Matches(entry: Json, keys: Keys) {
    Comparable(entry, keys) &&
    forall k :: k in keys ==> entry.members[k].Scalar? && entry.members[k].text == keys[k]
  }

  /** What the linear search of a keyed list ends with. */
  datatype Search = Found(index: nat) | Missing | Malformed

  /** The search, from entry i on: the first matching entry, unless an entry without the key attributes comes first. */
  function Find(es: seq<Json>, keys: Keys, i: nat): (r: Search)
    requires i <= |es|
    ensures r.Found? ==> i <= r.index < |es| && Matches(es[r.index], keys)
    decreases |es| - i
  {
    if i == |es| then Missing
    else if !Comparable(es[i], keys) then Malformed
    else if Matches(es[i], keys) then Found(i)
    else Find(es, keys, i + 1)
  }

  /** Every entry carries all key attributes, as scalars. */
  predicate Keyed(es: seq<Json>, keys: set<string>) {
    forall i :: 0 <= i < |es| ==>
      es[i].Object? && forall k :: k in keys ==> k in es[i].members && es[i].members[k].Scalar?
  }

  predicate DistinctKeys(es: seq<Json>, keys: set<string>) {
    forall i, j :: 0 <= i < j < |es| ==> KeysOf(es[i], keys) != KeysOf(es[j], keys)
  }

  // ---- Well-formed trees ----

  /** The value follows the schema; lists have at least one entry, all keys present and no key tuple twice. */
  predicate WellFormed(j: Json, s: Schema)
    decreases j, 1
  {
    if s.leaf then j.Scalar?
    else if s.keys == {} then j.Object? && MembersWellFormed(j, s)
    else
      && j.List? && j.entries != []
      && Keyed(j.entries, s.keys) && DistinctKeys(j.entries, s.keys)
      && forall i :: 0 <= i < |j.entries| ==> MembersWellFormed(j.entries[i], s)
  }

  predicate MembersWellFormed(j: Json, s: Schema)
    decreases j, 0
  {
    j.Object? && forall f :: f in j.members ==> f in s.dir && WellFormed(j.members[f], s.dir[f])
  }

  // ---- Meaning ----

  /** The key tuples of a list, as a set. */
  function Tuples(es: seq<Json>, keys: set<string>): set<Keys> {
    set i | 0 <= i < |es| :: KeysOf(es[i], keys)
  }

  /** The position of the first entry with the given key tuple. */
  function Position(es: seq<Json>, keys: set<string>, t: Keys): (i: nat)
    requires t in Tuples(es, keys)
    ensures i < |es| && KeysOf(es[i], keys) == t
  {
    if KeysOf(es[0], keys) == t then 0
    else
      assert t in Tuples(es[1..], keys) by {
        var i :| 0 <= i < |es| && KeysOf(es[i], keys) == t;
        assert es[1..][i - 1] == es[i];
      }
      1 + Position(es[1..], keys, t)
  }

  /** The tree without list order: a keyed list becomes a finite map from key tuples to entries. */
  function Meaning(j: Json, s: Schema): Tree
    decreases j
  {
    match j
    case Scalar(kind, text) => Leaf(kind, text)
    case Object(ms) => Node(map f | f in ms :: Meaning(ms[f], Sub(s, f)))
    case List(es) => Many(map t | t in Tuples(es, s.keys) :: Meaning(es[Position(es, s.keys, t)], s))
  }

  function FieldsOf(ms: map<string, Json>, s: Schema): Fields {
    map f | f in ms :: Meaning(ms[f], Sub(s, f))
  }

  function EntriesOf(es: seq<Json>, s: Schema): map<Keys, Tree> {
    map t | t in Tuples(es, s.keys) :: Meaning(es[Position(es, s.keys, t)], s)
  }

  // ---- Keyed lists are finite maps ----

  /** With distinct keys, an entry is found under its own key tuple and nowhere else. */
  lemma PositionOf(es: seq<Json>, keys: set<string>, i: nat)
    requires i < |es| && DistinctKeys(es, keys)
    ensures KeysOf(es[i], keys) in Tuples(es, keys) && Position(es, keys, KeysOf(es[i], keys)) == i
  {
    var p := Position(es, keys, KeysOf(es[i], keys));
    assert !(p < i) && !(i < p);
  }

  /** For entries with all keys, matching a full key tuple is having it. */
  lemma MatchesIsEquality(entry: Json, keys: set<string>, t: Keys)
    requires t.Keys == keys && entry.Object? && forall k :: k in keys ==> k in entry.members && entry.members[k].Scalar?
    ensures Comparable(entry, t)
    ensures Matches(entry, t) <==> KeysOf(entry, keys) == t
  {
    var own := KeysOf(entry, keys);
    assert own.Keys == keys;
    if Matches(entry, t) {
      assert forall k :: k in keys ==> own[k] == t[k];
    } else {
      var k :| k in t && entry.members[k].text != t[k];
      assert own[k] != t[k];
    }
  }

  /** The linear search is lookup in the finite map: it finds the position of the tuple, or the tuple is absent. */
  lemma {:induction false} FindIsLookup(es: seq<Json>, s: Schema, t: Keys, i: nat)
    requires Keyed(es, s.keys) && DistinctKeys(es, s.keys) && t.Keys == s.keys && i <= |es|
    requires forall j :: 0 <= j < i ==> KeysOf(es[j], s.keys) != t
    ensures Find(es, t, i) == if t in Tuples(es, s.keys) then Found(Position(es, s.keys, t)) else Missing
    decreases |es| - i
  {
    if i < |es| {
      MatchesIsEquality(es[i], s.keys, t);
      PositionOf(es, s.keys, i);
      if !Matches(es[i], t) {
        FindIsLookup(es, s, t, i + 1);
      }
    }
  }

  lemma EntryMeaning(es: seq<Json>, s: Schema, i: nat)
    requires i < |es| && DistinctKeys(es, s.keys)
    ensures KeysOf(es[i], s.keys) in EntriesOf(es, s)
    ensures EntriesOf(es, s)[KeysOf(es[i], s.keys)] == Meaning(es[i], s)
  {
    PositionOf(es, s.keys, i);
  }

  /** A list stands for a map exactly when the map holds the meaning of each entry under its tuple, and nothing else. */
  lemma {:induction false} EntriesAre(es: seq<Json>, s: Schema, m: map<Keys, Tree>)
    requires DistinctKeys(es, s.keys)
    requires forall i :: 0 <= i < |es| ==> KeysOf(es[i], s.keys) in m && m[KeysOf(es[i], s.keys)] == Meaning(es[i], s)
    requires forall t :: t in m ==> t in Tuples(es, s.keys)
    ensures EntriesOf(es, s) == m
  {
    hide Meaning, KeysOf, DistinctKeys;
    var own := EntriesOf(es, s);
    forall t | t in own ensures t in m && own[t] == m[t] {
      TupleMeaning(es, s, m, t);
    }
    assert own.Keys == m.Keys;
  }

  lemma TupleMeaning(es: seq<Json>, s: Schema, m: map<Keys, Tree>, t: Keys)
    requires t in Tuples(es, s.keys)
    requires forall i :: 0 <= i < |es| ==> KeysOf(es[i], s.keys) in m && m[KeysOf(es[i], s.keys)] == Meaning(es[i], s)
    ensures t in m && EntriesOf(es, s)[t] == m[t]
  {
    var i := Position(es, s.keys, t);
    assert KeysOf(es[i], s.keys) == t;
  }

  /** Appending an entry with a new key tuple inserts it into the map. */
  lemma AppendInserts(es: seq<Json>, s: Schema, e: Json)
    requires DistinctKeys(es, s.keys) && KeysOf(e, s.keys) !in Tuples(es, s.keys)
    ensures DistinctKeys(es + [e], s.keys)
    ensures EntriesOf(es + [e], s) == EntriesOf(es, s)[KeysOf(e, s.keys) := Meaning(e, s)]
  {
    var all := es + [e];
    assert forall i :: 0 <= i < |es| ==> KeysOf(es[i], s.keys) in Tuples(es, s.keys);
    var m := EntriesOf(es, s)[KeysOf(e, s.keys) := Meaning(e, s)];
    forall i | 0 <= i < |all| ensures KeysOf(all[i], s.keys) in m && m[KeysOf(all[i], s.keys)] == Meaning(all[i], s) {
      if i < |es| {
        EntryMeaning(es, s, i);
      }
    }
    forall t | t in m ensures t in Tuples(all, s.keys) {
      if t in Tuples(es, s.keys) {
        assert all[Position(es, s.keys, t)] == es[Position(es, s.keys, t)];
      } else {
        assert all[|es|] == e;
      }
    }
    EntriesAre(all, s, m);
  }

  /** Overwriting an entry without changing its key tuple updates the map in one place. */
  lemma ReplaceUpdates(es: seq<Json>, s: Schema, i: nat, e: Json)
    requires i < |es| && DistinctKeys(es, s.keys) && KeysOf(e, s.keys) == KeysOf(es[i], s.keys)
    ensures DistinctKeys(es[i := e], s.keys)
    ensures EntriesOf(es[i := e], s) == EntriesOf(es, s)[KeysOf(e, s.keys) := Meaning(e, s)]
  {
    hide Meaning, KeysOf;
    var all := es[i := e];
    var m := EntriesOf(es, s)[KeysOf(e, s.keys) := Meaning(e, s)];
    forall j | 0 <= j < |all| ensures KeysOf(all[j], s.keys) in m && m[KeysOf(all[j], s.keys)] == Meaning(all[j], s) {
      EntryMeaning(es, s, j);
    }
    forall t | t in m ensures t in Tuples(all, s.keys) {
      EntryMeaning(es, s, i);
      var j := Position(es, s.keys, t);
      assert KeysOf(all[j], s.keys) == t;
    }
    EntriesAre(all, s, m);
  }

  /** Deleting by moving the last entry into the gap removes exactly the deleted key tuple from the map. */
  lemma SwapDeleteRemoves(es: seq<Json>, s: Schema, i: nat)
    requires i < |es| && DistinctKeys(es, s.keys)
    ensures var rest := es[i := es[|es| - 1]][..|es| - 1];
      && DistinctKeys(rest, s.keys)
      && EntriesOf(rest, s) == EntriesOf(es, s) - {KeysOf(es[i], s.keys)}
  {
    var n := |es| - 1;
    var rest := es[i := es[n]][..n];
    var m := EntriesOf(es, s) - {KeysOf(es[i], s.keys)};
    forall j | 0 <= j < |rest| ensures KeysOf(rest[j], s.keys) in m && m[KeysOf(rest[j], s.keys)] == Meaning(rest[j], s) {
      var k := if j == i then n else j;
      assert rest[j] == es[k] && k != i;
      EntryMeaning(es, s, k);
    }
    forall t | t in m ensures t in Tuples(rest, s.keys) {
      var j := Position(es, s.keys, t);
      assert j != i;
      assert rest[if j == n then i else j] == es[j];
    }
    forall j, k | 0 <= j < k < |rest| ensures KeysOf(rest[j], s.keys) != KeysOf(rest[k], s.keys) {
      assert rest[j] == es[if j == i then n else j] && rest[k] == es[if k == i then n else k];
    }
    EntriesAre(rest, s, m);
  }
}
