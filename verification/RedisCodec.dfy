/** How SONiC database entries are kept in Redis hashes: scalars as they are, lists joined by commas under "name@". */
module RedisCodec {
  import opened Text

  /** A field of an entry; scalars are kept by the text they are stored as. */
  datatype Field = Scalar(text: string) | Items(items: seq<string>)

  type Entry = map<string, Field>

  type Hash = map<string, string>

  predicate IsListName(raw: string) {
    raw != "" && raw[|raw| - 1] == '@'
  }

  /** The field a raw name stands for. */
  function FieldName(raw: string): string {
    if IsListName(raw) then raw[..|raw| - 1] else raw
  }

  /** The raw name a field is stored under. */
  function RawName(name: string, v: Field): string {
    match v
    case Scalar(_) => name
    case Items(_) => name + "@"
  }

  function RawValue(v: Field): string {
    match v
    case Scalar(text) => text
    case Items(items) => Join(items, ',')
  }

  function ParseField(raw: string, v: string): Field {
    if IsListName(raw) then Items(Split(v, ',')) else Scalar(v)
  }

  /** No field has an empty name, and no scalar one that looks like a list's. */
  predicate Named(e: Entry) {
    forall k :: k in e ==> k != "" && (e[k].Scalar? ==> !IsListName(k))
  }

  /** Lists are not empty, and their elements hold no comma. */
  predicate ListsPlain(e: Entry) {
    forall k :: k in e && e[k].Items? ==> e[k].items != [] && Free(e[k].items, ',')
  }

  lemma {:induction false} RawNameBack(k: string, v: Field)
    requires k != "" && (v.Scalar? ==> !IsListName(k))
    ensures RawName(k, v) != "" && FieldName(RawName(k, v)) == k && (IsListName(RawName(k, v)) <==> v.Items?)
  {
  }

  /** The raw name belongs to a field of the entry, stored the way it is stored. */
  predicate IsRawOf(e: Entry, raw: string) {
    FieldName(raw) in e && RawName(FieldName(raw), e[FieldName(raw)]) == raw
  }

  function RawNames(e: Entry): set<string> {
    set k | k in e :: RawName(k, e[k])
  }

  /** serializeEntry of an entry that is not nil. */
  function Serialize(e: Entry): Hash {
    if e == map[] then map["NULL" := "NULL"]
    else map raw | raw in RawNames(e) && IsRawOf(e, raw) :: RawValue(e[FieldName(raw)])
  }

  lemma {:induction false} SerializedField(e: Entry, k: string)
    requires Named(e) && k in e
    ensures RawName(k, e[k]) in Serialize(e) && Serialize(e)[RawName(k, e[k])] == RawValue(e[k])
  {
    RawNameBack(k, e[k]);
  }

  /** The loop of serializeEntry, over the fields in any order. */
  method SerializeEntry(e: Entry) returns (ret: Hash)
    requires Named(e)
    ensures ret == Serialize(e)
  {
    ret := map[];
    if e == map[] {
      return map["NULL" := "NULL"];
    }
    var rest := e.Keys;
    while rest != {}
      invariant rest <= e.Keys
      invariant forall raw :: raw in ret <==> IsRawOf(e, raw) && FieldName(raw) !in rest
      invariant forall raw :: raw in ret ==> ret[raw] == RawValue(e[FieldName(raw)])
      decreases |rest|
    {
      var k :| k in rest;
      RawNameBack(k, e[k]);
      match e[k] {
        case Items(items) => ret := ret[k + "@" := Join(items, ',')];
        case Scalar(text) => ret := ret[k := text];
      }
      rest := rest - {k};
    }
    assert forall raw :: raw in ret <==> raw in Serialize(e);
  }

  // ---- Reading ----

  /** The possible results of reading a hash: where both "f" and "f@" are stored, either may be read last. */
  ghost predicate Reads(h: Hash, e: Entry) {
    && (forall raw :: raw in h ==> FieldName(raw) in e)
    && (forall k :: k in e ==> exists raw :: raw in h && FieldName(raw) == k && e[k] == ParseField(raw, h[raw]))
  }

  predicate NoEmptyName(h: Hash) {
    "" !in h
  }

  /** GetEntry: the loop over the fields of the hash, in any order. */
  method ReadHash(h: Hash) returns (ret: Entry)
    requires NoEmptyName(h)
    ensures Reads(h, ret)
  {
    ret := map[];
    var rest := h.Keys;
    while rest != {}
      invariant rest <= h.Keys
      invariant forall raw :: raw in h && raw !in rest ==> FieldName(raw) in ret
      invariant forall k :: k in ret ==> exists raw :: raw in h && FieldName(raw) == k && ret[k] == ParseField(raw, h[raw])
      decreases |rest|
    {
      var k :| k in rest;
      if k[|k| - 1] == '@' {
        ret := ret[k[..|k| - 1] := Items(Split(h[k], ','))];
      } else {
        ret := ret[k := Scalar(h[k])];
      }
      rest := rest - {k};
    }
  }

  /** No field is stored both as a scalar and as a list. */
  predicate Tidy(h: Hash) {
    NoEmptyName(h) && forall r, s :: r in h && s in h && FieldName(r) == FieldName(s) ==> r == s
  }

  /** A tidy hash reads in one way only. */
  lemma {:induction false} ReadsOnce(h: Hash, e: Entry, e': Entry)
    requires Tidy(h) && Reads(h, e) && Reads(h, e')
    ensures e == e'
  {
    forall k | k in e ensures k in e' && e[k] == e'[k] {
      var r :| r in h && FieldName(r) == k && e[k] == ParseField(r, h[r]);
      assert FieldName(r) in e';
    }
    forall k | k in e' ensures k in e {
      var r :| r in h && FieldName(r) == k && e'[k] == ParseField(r, h[r]);
    }
  }

  // ---- Writing ----

  /** ModEntry on an existing hash: the fields are laid over it. */
  function ModHash(h: Hash, e: Entry): Hash {
    h + Serialize(e)
  }

  /** SetEntry: ModEntry, then the fields that were read before and are not in the entry are deleted. */
  function SetHash(h: Hash, e: Entry, original: Entry): Hash {
    ModHash(h, e) - Dropped(e, original)
  }

  function Dropped(e: Entry, original: Entry): set<string> {
    set k | k in original && k !in e :: RawName(k, original[k])
  }

  /** The raw names to delete for some of the fields read before. */
  function DroppedFrom(ks: set<string>, e: Entry, original: Entry): set<string> {
    set k | k in ks && k in original && k !in e :: RawName(k, original[k])
  }

  lemma {:induction false} DropOneMore(ks: set<string>, e: Entry, original: Entry, k: string)
    requires k in original && k !in ks
    ensures DroppedFrom(ks + {k}, e, original) == DroppedFrom(ks, e, original) + if k in e then {} else {RawName(k, original[k])}
  {
  }

  lemma {:induction false} DropFromHash(h: Hash, done: set<string>, raw: string)
    ensures h - done - {raw} == h - (done + {raw}) && h - (done + {}) == h - done && h - {} == h
  {
  }

  /** SetEntry on one hash: HMSet, then HDel of every field read before that the entry does not name. */
  method OverwriteHash(h: Hash, e: Entry, original: Entry) returns (ret: Hash)
    requires Named(e)
    ensures ret == SetHash(h, e, original)
  {
    hide *;
    var serialized := SerializeEntry(e);
    SetHashIs(h, e, original);
    ret := h + serialized;
    var rest := original.Keys;
    NothingDropped(e, original);
    assert original.Keys - rest == {};
    DropFromHash(ret, {}, "");
    while rest != {}
      invariant rest <= original.Keys
      invariant ret == h + serialized - DroppedFrom(original.Keys - rest, e, original)
      decreases |rest|
    {
      var k :| k in rest;
      var ok := k in e;
      DropOneMore(original.Keys - rest, e, original, k);
      DropFromHash(h + serialized, DroppedFrom(original.Keys - rest, e, original), RawName(k, original[k]));
      assert original.Keys - (rest - {k}) == original.Keys - rest + {k};
      if !ok {
        ret := ret - {RawName(k, original[k])};
      }
      rest := rest - {k};
    }
    assert original.Keys - rest == original.Keys;
  }

  lemma {:induction false} SetHashIs(h: Hash, e: Entry, original: Entry)
    ensures SetHash(h, e, original) == h + Serialize(e) - Dropped(e, original)
  {
  }

  lemma {:induction false} NothingDropped(e: Entry, original: Entry)
    ensures DroppedFrom({}, e, original) == {} && DroppedFrom(original.Keys, e, original) == Dropped(e, original)
  {
  }

  /** No field of the entry changes between scalar and list. */
  predicate NoSwitch(h: Hash, e: Entry) {
    forall raw :: raw in h && FieldName(raw) in e ==> RawName(FieldName(raw), e[FieldName(raw)]) == raw
  }

  lemma {:induction false} OriginalRaw(h: Hash, original: Entry, raw: string)
    requires Tidy(h) && Reads(h, original) && raw in h
    ensures FieldName(raw) in original && RawName(FieldName(raw), original[FieldName(raw)]) == raw
  {
    var k := FieldName(raw);
    var r :| r in h && FieldName(r) == k && original[k] == ParseField(r, h[r]);
    assert r == raw;
  }

  /** The deleted raw names are those of the old fields that are not in the entry. */
  lemma {:induction false} DroppedAre(h: Hash, e: Entry, original: Entry, raw: string)
    requires Tidy(h) && Reads(h, original)
    ensures raw in Dropped(e, original) <==> raw in h && FieldName(raw) !in e
  {
    if raw in h {
      OriginalRaw(h, original, raw);
    }
    if raw in Dropped(e, original) {
      var k :| k in original && k !in e && raw == RawName(k, original[k]);
      var r :| r in h && FieldName(r) == k && original[k] == ParseField(r, h[r]);
      OriginalRaw(h, original, r);
    }
  }

  lemma {:induction false} SerializedNames(e: Entry, raw: string)
    requires Named(e) && e != map[]
    ensures raw in Serialize(e) <==> IsRawOf(e, raw)
    ensures IsRawOf(e, raw) ==> Serialize(e)[raw] == RawValue(e[FieldName(raw)])
  {
  }

  /** After SetEntry the hash holds the entry's fields, and of the old ones only those that changed their kind. */
  lemma {:induction false} SetHashHolds(h: Hash, e: Entry, original: Entry, raw: string)
    requires Tidy(h) && Named(e) && e != map[] && Reads(h, original)
    ensures raw in SetHash(h, e, original) <==> IsRawOf(e, raw) || (raw in h && FieldName(raw) in e)
    ensures IsRawOf(e, raw) ==> SetHash(h, e, original)[raw] == RawValue(e[FieldName(raw)])
    ensures raw in h && !IsRawOf(e, raw) && FieldName(raw) in e ==> SetHash(h, e, original)[raw] == h[raw]
  {
    hide Serialize, Dropped, Reads;
    DroppedAre(h, e, original, raw);
    SerializedNames(e, raw);
  }

  /** One of the ways to read a hash: of the two forms of a field, the list if preferList, else the scalar. */
  function Decode(h: Hash, preferList: bool): Entry {
    map k | k in (set raw | raw in h :: FieldName(raw)) ::
      if (k + "@") in h && (preferList || k !in h || IsListName(k)) then Items(Split(h[k + "@"], ','))
      else if k in h then Scalar(h[k]) else Scalar("")
  }

  lemma {:induction false} DecodeReads(h: Hash, preferList: bool)
    ensures Reads(h, Decode(h, preferList))
  {
    var e := Decode(h, preferList);
    hide Decode, ParseField, FieldName;
    forall raw | raw in h ensures FieldName(raw) in e {
      DecodedName(h, preferList, raw);
    }
    forall k | k in e ensures exists raw :: raw in h && FieldName(raw) == k && e[k] == ParseField(raw, h[raw]) {
      var raw := DecodedFrom(h, preferList, k);
    }
  }

  lemma {:induction false} DecodedName(h: Hash, preferList: bool, raw: string)
    requires raw in h
    ensures FieldName(raw) in Decode(h, preferList)
  {
  }

  lemma {:induction false} DecodedFrom(h: Hash, preferList: bool, k: string) returns (raw: string)
    requires k in Decode(h, preferList)
    ensures raw in h && FieldName(raw) == k && Decode(h, preferList)[k] == ParseField(raw, h[raw])
  {
    hide Split;
    var r :| r in h && FieldName(r) == k;
    if (k + "@") in h && (preferList || k !in h || IsListName(k)) {
      raw := k + "@";
      assert FieldName(raw) == k;
    } else {
      assert IsListName(r) ==> r == k + "@";
      raw := k;
    }
  }

  /** What makes SetEntry then GetEntry give back the entry; the empty entry survives only over its own placeholder. */
  predicate Survives(h: Hash, e: Entry) {
    if e == map[] then "NULL" in h else ListsPlain(e) && NoSwitch(h, e)
  }

  /**
   The round trip. Whatever order Go takes, GetEntry after SetEntry returns exactly the entry if and only if its lists
   are plain and no field changed between scalar and list; an empty entry leaves a placeholder field behind instead,
   unless that placeholder was there before.
   */
  lemma {:induction false} RoundTrip(h: Hash, e: Entry, original: Entry)
    requires Tidy(h) && Named(e) && Reads(h, original)
    ensures (forall e' :: Reads(SetHash(h, e, original), e') ==> e' == e) <==> Survives(h, e)
  {
    hide SetHash, Reads;
    var h' := SetHash(h, e, original);
    if e == map[] {
      EmptyRoundTrip(h, original);
    } else if Survives(h, e) {
      forall e' | Reads(h', e') ensures e' == e {
        RoundTripHolds(h, e, original, e');
      }
    } else {
      var e' := RoundTripFails(h, e, original);
      assert Reads(h', e') && e' != e;
    }
  }

  lemma {:induction false} EmptyRoundTrip(h: Hash, original: Entry)
    requires Tidy(h) && Reads(h, original)
    ensures (forall e' :: Reads(SetHash(h, map[], original), e') ==> e' == map[]) <==> "NULL" in h
  {
    var h' := SetHash(h, map[], original);
    forall raw ensures raw in h' <==> raw == "NULL" && "NULL" !in h {
      DroppedAre(h, map[], original, raw);
    }
    if "NULL" !in h {
      DecodeReads(h', true);
      assert FieldName("NULL") == "NULL";
      assert "NULL" in Decode(h', true);
    }
  }

  lemma {:induction false} RoundTripHolds(h: Hash, e: Entry, original: Entry, e': Entry)
    requires Tidy(h) && Named(e) && Reads(h, original)
    requires e != map[] && ListsPlain(e) && NoSwitch(h, e) && Reads(SetHash(h, e, original), e')
    ensures e' == e
  {
    hide SetHash;
    var h' := SetHash(h, e, original);
    forall k | k in e ensures k in e' {
      RawNameBack(k, e[k]);
      SetHashHolds(h, e, original, RawName(k, e[k]));
    }
    forall k | k in e' ensures k in e && e'[k] == e[k] {
      var raw :| raw in h' && FieldName(raw) == k && e'[k] == ParseField(raw, h'[raw]);
      SetHashHolds(h, e, original, raw);
      ParsedBack(e, k, raw);
    }
  }

  lemma {:induction false} ParsedBack(e: Entry, k: string, raw: string)
    requires Named(e) && ListsPlain(e) && k in e && raw == RawName(k, e[k])
    ensures ParseField(raw, RawValue(e[k])) == e[k]
  {
    RawNameBack(k, e[k]);
    if e[k].Items? {
      SplitJoin(e[k].items, ',');
    }
  }

  lemma {:induction false} DecodedList(h: Hash, k: string)
    requires (k + "@") in h
    ensures k in Decode(h, true) && Decode(h, true)[k] == Items(Split(h[k + "@"], ','))
  {
    assert FieldName(k + "@") == k;
  }

  lemma {:induction false} DecodedScalar(h: Hash, k: string)
    requires k in h && !IsListName(k)
    ensures k in Decode(h, false) && Decode(h, false)[k] == Scalar(h[k])
  {
    assert FieldName(k) == k;
  }

  /** A reading that differs from the entry. */
  lemma {:induction false} RoundTripFails(h: Hash, e: Entry, original: Entry) returns (e': Entry)
    requires Tidy(h) && Named(e) && Reads(h, original)
    requires e != map[] && !(ListsPlain(e) && NoSwitch(h, e))
    ensures Reads(SetHash(h, e, original), e') && e' != e
  {
    hide SetHash, Reads, Decode, NoSwitch;
    if !ListsPlain(e) {
      e' := ListChanged(h, e, original);
    } else {
      e' := KindChanged(h, e, original);
    }
  }

  lemma {:induction false} ListChanged(h: Hash, e: Entry, original: Entry) returns (e': Entry)
    requires Tidy(h) && Named(e) && Reads(h, original) && e != map[] && !ListsPlain(e)
    ensures Reads(SetHash(h, e, original), e') && e' != e
  {
    hide SetHash, Reads, Decode;
    var h' := SetHash(h, e, original);
    var k :| k in e && e[k].Items? && !(e[k].items != [] && Free(e[k].items, ','));
    RawNameBack(k, e[k]);
    SetHashHolds(h, e, original, k + "@");
    SplitJoin(e[k].items, ',');
    e' := Decode(h', true);
    DecodeReads(h', true);
    DecodedList(h', k);
  }

  lemma {:induction false} KindChanged(h: Hash, e: Entry, original: Entry) returns (e': Entry)
    requires Tidy(h) && Named(e) && Reads(h, original) && e != map[] && !NoSwitch(h, e)
    ensures Reads(SetHash(h, e, original), e') && e' != e
  {
    var raw :| raw in h && FieldName(raw) in e && RawName(FieldName(raw), e[FieldName(raw)]) != raw;
    var k := FieldName(raw);
    OtherKind(e, raw);
    KindKept(h, e, original, raw);
    hide *;
    var h' := SetHash(h, e, original);
    e' := Decode(h', e[k].Scalar?);
    DecodeReads(h', e[k].Scalar?);
    if e[k].Scalar? {
      DecodedList(h', k);
    } else {
      DecodedScalar(h', k);
    }
  }

  lemma {:induction false} KindKept(h: Hash, e: Entry, original: Entry, raw: string)
    requires Tidy(h) && Named(e) && Reads(h, original) && e != map[] && raw in h && FieldName(raw) in e
    ensures raw in SetHash(h, e, original)
  {
    hide SetHash, Reads, Tidy;
    SetHashHolds(h, e, original, raw);
  }

  /** A raw name that is not the field's own is that of the other kind. */
  lemma {:induction false} OtherKind(e: Entry, raw: string)
    requires Named(e) && FieldName(raw) in e && RawName(FieldName(raw), e[FieldName(raw)]) != raw
    ensures if e[FieldName(raw)].Scalar? then raw == FieldName(raw) + "@" else raw == FieldName(raw) && !IsListName(raw)
  {
  }
}
