/** The device's Redis server and the client operations on it (pkg/sonic/redis.go), over the tables oopt writes. */
module Redis {
  import opened Text
  import opened RedisCodec

  /** The rows oopt writes. */
  datatype Key =
    | DeviceKey(host: string)
    | PortKey(port: string)
    | VlanKey(vid: nat)
    | MemberKey(vid: nat, member: string)
    | ModuleKey(name: string)

  const CONFIG_DB: nat := 4
  const TRANSPORT_CONFIG_DB: nat := 7

  function DbOf(k: Key): nat {
    if k.ModuleKey? then TRANSPORT_CONFIG_DB else CONFIG_DB
  }

  function TableOf(k: Key): string {
    match k
    case DeviceKey(_) => "DEVICE_METADATA"
    case PortKey(_) => "PORT_TABLE"
    case VlanKey(_) => "VLAN"
    case MemberKey(_, _) => "VLAN_MEMBER"
    case ModuleKey(_) => "MODULE_CONFIG_TABLE"
  }

  /** The key inside the table; a member's is that of its VLAN and its port. */
  function KeyText(k: Key): string {
    match k
    case DeviceKey(host) => host
    case PortKey(port) => port
    case VlanKey(vid) => "Vlan" + Print(vid)
    case MemberKey(vid, member) => "Vlan" + Print(vid) + "|" + member
    case ModuleKey(name) => name
  }

  /** The database number and the name of the hash that holds a row. */
  function Slot(k: Key): (nat, string) {
    (DbOf(k), TableOf(k) + "|" + KeyText(k))
  }

  lemma {:induction false} BarPosition(a: string, x: string)
    requires '|' !in a
    ensures forall i :: 0 <= i <= |a| ==> ((a + "|" + x)[i] == '|' <==> i == |a|)
  {
  }

  /** The first bar splits a text in one way only. */
  lemma {:induction false} FirstBar(a: string, b: string, x: string, y: string)
    requires '|' !in a && '|' !in b && a + "|" + x == b + "|" + y
    ensures a == b && x == y
  {
    var s := a + "|" + x;
    BarPosition(a, x);
    BarPosition(b, y);
    var i := if |a| <= |b| then |a| else |b|;
    assert s == b + "|" + y;
    assert (s[i] == '|' <==> i == |a|) && (s[i] == '|' <==> i == |b|);
    assert a == s[..|a|] && b == s[..|b|];
    assert x == s[|a| + 1..] && y == s[|b| + 1..];
  }

  lemma {:induction false} VlanTexts(v: nat, w: nat, x: string, y: string)
    requires "Vlan" + Print(v) + x == "Vlan" + Print(w) + y
    requires (x != "" ==> x[0] == '|') && (y != "" ==> y[0] == '|')
    ensures v == w && x == y
  {
    var s := "Vlan" + Print(v) + x;
    assert s[4..] == Print(v) + x && s[4..] == Print(w) + y;
    DigitsSplitUniquely(Print(v), Print(w), x, y);
    PrintInjective(v, w);
  }

  /** Two rows never share a hash. */
  lemma {:induction false} SlotsApart(j: Key, k: Key)
    requires Slot(j) == Slot(k)
    ensures j == k
  {
    FirstBar(TableOf(j), TableOf(k), KeyText(j), KeyText(k));
    match j {
      case VlanKey(v) =>
        VlanTexts(v, k.vid, "", "");
      case MemberKey(v, m) =>
        assert KeyText(j) == "Vlan" + Print(v) + ("|" + m) && KeyText(k) == "Vlan" + Print(k.vid) + ("|" + k.member);
        VlanTexts(v, k.vid, "|" + m, "|" + k.member);
        assert m == ("|" + m)[1..] && k.member == ("|" + k.member)[1..];
      case _ =>
    }
  }

  // ---- Entries as they are read back ----

  /** Only "members" is a list; names are proper and no element holds a comma. An entry of this form may be written. */
  predicate Writable(e: Entry) {
    e != map[] && Named(e) && forall f :: f in e ==>
      (e[f].Items? <==> f == "members") && (e[f].Items? ==> Free(e[f].items, ','))
  }

  /** What a written list reads as: no element at all becomes one empty element. */
  function ReadList(items: seq<string>): seq<string> {
    if items == [] then [""] else items
  }

  function AsRead(e: Entry): Entry {
    map f | f in e :: if e[f].Items? then Items(ReadList(e[f].items)) else e[f]
  }

  predicate Stored(e: Entry) {
    Writable(e) && ListsPlain(e)
  }

  lemma {:induction false} WrittenIsStored(e: Entry)
    requires Writable(e)
    ensures Stored(AsRead(e)) && Serialize(AsRead(e)) == Serialize(e)
    ensures Stored(e) ==> AsRead(e) == e
  {
    var r := AsRead(e);
    ReadStored(e);
    hide AsRead, Writable, Stored, Serialize, IsRawOf, RawName, RawValue;
    forall raw
      ensures raw in Serialize(r) <==> raw in Serialize(e)
      ensures raw in Serialize(e) ==> Serialize(r)[raw] == Serialize(e)[raw] {
      SerializedNames(r, raw);
      SerializedNames(e, raw);
      SameRaw(e, raw);
    }
  }

  lemma {:induction false} ReadStored(e: Entry)
    requires Writable(e)
    ensures Stored(AsRead(e)) && Named(e) && e != map[] && Named(AsRead(e)) && AsRead(e) != map[]
    ensures Stored(e) ==> AsRead(e) == e
  {
    assert AsRead(e).Keys == e.Keys;
  }

  lemma {:induction false} SameRaw(e: Entry, raw: string)
    ensures IsRawOf(AsRead(e), raw) <==> IsRawOf(e, raw)
    ensures IsRawOf(e, raw) ==> RawValue(AsRead(e)[FieldName(raw)]) == RawValue(e[FieldName(raw)])
  {
  }

  /** Stored entries are read back exactly. */
  lemma {:induction false} StoredReadsBack(e: Entry, e': Entry)
    requires Stored(e) && Reads(Serialize(e), e')
    ensures e' == e
  {
    assert Tidy(map[]) && Reads(map[], map[]);
    assert SetHash(map[], e, map[]) == Serialize(e);
    RoundTripHolds(map[], e, map[], e');
  }

  lemma {:induction false} SerializedIsTidy(e: Entry)
    requires Stored(e)
    ensures NoEmptyName(Serialize(e)) && Tidy(Serialize(e))
  {
    forall raw | raw in Serialize(e) ensures IsRawOf(e, raw) && raw != "" {
      SerializedNames(e, raw);
      RawNameBack(FieldName(raw), e[FieldName(raw)]);
    }
  }

  /** HMSet of one entry over another is HMSet of the overlay. */
  lemma {:induction false} OverlaySerialized(a: Entry, b: Entry)
    requires Stored(a) && Stored(b)
    ensures Stored(a + b) && Serialize(a) + Serialize(b) == Serialize(a + b)
  {
    StoredOver(a, b);
    hide Serialize, Stored, IsRawOf;
    forall raw
      ensures raw in Serialize(a + b) <==> raw in Serialize(a) || raw in Serialize(b)
      ensures raw in Serialize(b) ==> Serialize(a + b)[raw] == Serialize(b)[raw]
      ensures raw in Serialize(a) && raw !in Serialize(b) ==> Serialize(a + b)[raw] == Serialize(a)[raw] {
      SerializedNames(a, raw);
      SerializedNames(b, raw);
      SerializedNames(a + b, raw);
      RawOver(a, b, raw);
    }
  }

  lemma {:induction false} StoredOver(a: Entry, b: Entry)
    requires Stored(a) && Stored(b)
    ensures Stored(a + b) && Named(a) && Named(b) && Named(a + b) && a != map[] && b != map[] && a + b != map[]
  {
    assert forall f :: f in b ==> f in a + b;
  }

  lemma {:induction false} RawOver(a: Entry, b: Entry, raw: string)
    requires Stored(a) && Stored(b)
    ensures IsRawOf(a + b, raw) <==> IsRawOf(a, raw) || IsRawOf(b, raw)
    ensures IsRawOf(b, raw) ==> (a + b)[FieldName(raw)] == b[FieldName(raw)]
    ensures IsRawOf(a, raw) && !IsRawOf(b, raw) ==> (a + b)[FieldName(raw)] == a[FieldName(raw)]
  {
    SameKind(a, b, raw);
    SameKind(b, a, raw);
  }

  /** HMSet and HDel of SetEntry leave exactly the new entry. */
  lemma {:induction false} SetSerialized(a: Entry, b: Entry)
    requires Stored(a) && Stored(b)
    ensures SetHash(Serialize(a), b, a) == Serialize(b)
  {
    var h := Serialize(a);
    SerializedIsTidy(a);
    SelfReads(a);
    SameKind(a, b, "");
    forall raw
      ensures raw in SetHash(h, b, a) <==> raw in Serialize(b)
      ensures raw in Serialize(b) ==> SetHash(h, b, a)[raw] == Serialize(b)[raw] {
      hide SetHash, Serialize, Reads, Tidy, Stored, IsRawOf;
      SetHashHolds(h, b, a, raw);
      SerializedNames(a, raw);
      SerializedNames(b, raw);
      SameKind(a, b, raw);
    }
  }

  /** A field has one kind in all stored entries. */
  lemma {:induction false} SameKind(a: Entry, b: Entry, raw: string)
    requires Stored(a) && Stored(b)
    ensures a != map[] && b != map[] && Named(a) && Named(b)
    ensures IsRawOf(a, raw) && FieldName(raw) in b ==> IsRawOf(b, raw)
  {
  }

  lemma {:induction false} SelfReads(e: Entry)
    requires Stored(e)
    ensures Reads(Serialize(e), e)
  {
    var h := Serialize(e);
    forall raw | raw in h ensures FieldName(raw) in e {
      SerializedNames(e, raw);
    }
    forall k | k in e ensures exists raw :: raw in h && FieldName(raw) == k && e[k] == ParseField(raw, h[raw]) {
      SerializedField(e, k);
      RawNameBack(k, e[k]);
      ParsedBack(e, k, RawName(k, e[k]));
    }
  }

  // ---- The database as rows ----

  type Db = map<Key, Entry>

  /** GetEntry of a missing row gives an empty entry. */
  function Lookup(db: Db, k: Key): Entry {
    if k in db then db[k] else map[]
  }

  function Overlay(db: Db, k: Key, e: Entry): Db {
    db[k := Lookup(db, k) + e]
  }

  ghost predicate AllStored(db: Db) {
    forall k :: k in db ==> Stored(db[k])
  }

  /** The hashes hold exactly the rows. */
  ghost predicate Holds(hashes: map<(nat, string), Hash>, rows: Db) {
    && AllStored(rows)
    && (forall k :: k in rows <==> Slot(k) in hashes)
    && (forall k :: k in rows ==> hashes[Slot(k)] == Serialize(rows[k]))
  }

  lemma {:induction false} StoreRow(hashes: map<(nat, string), Hash>, rows: Db, k: Key, h: Hash, e: Entry)
    requires Holds(hashes, rows) && Stored(e) && h == Serialize(e)
    ensures Holds(hashes[Slot(k) := h], rows[k := e])
  {
    hide Slot, Serialize, Stored;
    OthersApart(k);
  }

  lemma {:induction false} RemoveRow(hashes: map<(nat, string), Hash>, rows: Db, k: Key)
    requires Holds(hashes, rows)
    ensures Holds(hashes - {Slot(k)}, rows - {k})
  {
    hide Slot, Serialize, Stored;
    OthersApart(k);
  }

  /** The hash of a row, empty if there is none. */
  lemma {:induction false} RowHash(hashes: map<(nat, string), Hash>, rows: Db, k: Key)
    requires Holds(hashes, rows)
    ensures k in rows <==> Slot(k) in hashes
    ensures k in rows ==> Stored(rows[k]) && hashes[Slot(k)] == Serialize(rows[k])
  {
    hide Slot, Serialize, Stored;
  }

  /** What ModEntry's HMSet leaves in the hash. */
  lemma {:induction false} LaidOver(hashes: map<(nat, string), Hash>, rows: Db, k: Key, e: Entry)
    requires Holds(hashes, rows) && Writable(e)
    ensures var h: Hash := if Slot(k) in hashes then hashes[Slot(k)] else map[];
      Stored(Lookup(rows, k) + AsRead(e)) && h + Serialize(e) == Serialize(Lookup(rows, k) + AsRead(e))
  {
    hide Slot, Serialize, Stored, Writable, AsRead, Holds;
    RowHash(hashes, rows, k);
    WrittenIsStored(e);
    var r := AsRead(e);
    if k in rows {
      OverlaySerialized(rows[k], r);
    } else {
      assert map[] + r == r && map[] + Serialize(e) == Serialize(e);
    }
  }

  /** What SetEntry leaves in the hash. */
  lemma {:induction false} SetOver(hashes: map<(nat, string), Hash>, rows: Db, k: Key, e: Entry)
    requires Holds(hashes, rows) && Stored(e)
    ensures Named(e)
    ensures var h: Hash := if Slot(k) in hashes then hashes[Slot(k)] else map[];
      SetHash(h, e, Lookup(rows, k)) == Serialize(e)
  {
    hide Slot, Serialize, Stored, Holds, SetHash;
    StoredNamed(e);
    RowHash(hashes, rows, k);
    if k in rows {
      SetSerialized(rows[k], e);
    } else {
      SetFirst(e);
    }
  }

  /** The server's hashes, and the rows they stand for. */
  class Client {
    var hashes: map<(nat, string), Hash>
    ghost var rows: Db

    ghost predicate Valid()
      reads this
    {
      Holds(hashes, rows)
    }

    constructor ()
      ensures Valid() && rows == map[]
    {
      hashes, rows := map[], map[];
    }

    /** A restart of the Redis pod starts from an empty database. */
    method Restart()
      modifies this
      ensures Valid() && rows == map[]
    {
      hashes, rows := map[], map[];
    }

    method GetEntry(k: Key) returns (e: Entry)
      requires Valid()
      ensures e == Lookup(rows, k)
      ensures k in rows ==> Stored(e)
    {
      hide Slot, Serialize, Tidy, Stored, Holds;
      var h: Hash := if Slot(k) in hashes then hashes[Slot(k)] else map[];
      RowHash(hashes, rows, k);
      if k in rows {
        SerializedIsTidy(rows[k]);
      }
      e := ReadHash(h);
      if k in rows {
        StoredReadsBack(rows[k], e);
      }
    }

    /** ModEntry with nil. */
    method Delete(k: Key)
      requires Valid()
      modifies this
      ensures Valid() && rows == old(rows) - {k}
    {
      hide Slot, Holds;
      RemoveRow(hashes, rows, k);
      hashes, rows := hashes - {Slot(k)}, rows - {k};
    }

    /** ModEntry with an entry: its fields are laid over those stored. */
    method ModEntry(k: Key, e: Entry)
      requires Valid() && Writable(e)
      modifies this
      ensures Valid() && rows == Overlay(old(rows), k, AsRead(e))
    {
      hide Slot, Holds, Serialize, Stored, Writable, Lookup;
      var serialized := SerializeWritable(e);
      LaidOver(hashes, rows, k, e);
      var h: Hash := if Slot(k) in hashes then hashes[Slot(k)] else map[];
      StoreRow(hashes, rows, k, h + serialized, Lookup(rows, k) + AsRead(e));
      hashes, rows := hashes[Slot(k) := h + serialized], Overlay(rows, k, AsRead(e));
    }

    /** SetEntry: the row becomes exactly the entry. */
    method SetEntry(k: Key, e: Entry)
      requires Valid() && Stored(e)
      modifies this
      ensures Valid() && rows == old(rows)[k := e]
    {
      hide Slot, Holds, Serialize, SetHash, Stored, Lookup;
      SetOver(hashes, rows, k, e);
      var original := GetEntry(k);
      var h: Hash := if Slot(k) in hashes then hashes[Slot(k)] else map[];
      var h' := OverwriteHash(h, e, original);
      StoreRow(hashes, rows, k, h', e);
      hashes, rows := hashes[Slot(k) := h'], rows[k := e];
    }
  }

  method SerializeWritable(e: Entry) returns (h: Hash)
    requires Writable(e)
    ensures h == Serialize(e)
  {
    h := SerializeEntry(e);
  }

  lemma {:induction false} StoredNamed(e: Entry)
    requires Stored(e)
    ensures Named(e)
  {
  }

  lemma {:induction false} SetFirst(e: Entry)
    ensures SetHash(map[], e, map[]) == Serialize(e)
  {
  }

  lemma {:induction false} OthersApart(k: Key)
    ensures forall j :: Slot(j) == Slot(k) ==> j == k
  {
    hide Slot;
    forall j | Slot(j) == Slot(k) ensures j == k {
      SlotsApart(j, k);
    }
  }
}
