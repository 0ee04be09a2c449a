/** The storage-provider helpers of
    be/apps/dashboard/src/modules/storage-providers/utils.ts: coercing
    untyped JSON records into providers, projecting a configuration onto
    exactly the fields of its provider type, serialising, choosing the
    active provider and ordering providers with the active one first.

    Random ids, the i18n "untitled" label, `String(number)`, `JSON.parse`
    and the locale collator are parameters. */
module Providers {
  import opened Common
  import opened ProviderConstants
  import Sorting

  /** `StorageProvider`: `createdAt`/`updatedAt` are optional. */
  datatype Provider = Provider(
    id: string,
    name: string,
    ptype: ProviderType,
    config: map<string, string>,
    createdAt: Option<string>,
    updatedAt: Option<string>)

  /** `record[key]` on an untyped record; None is `undefined`. */
  type Lookup = string -> Option<Json>

  /** `String(n)` for a JavaScript number. */
  type NumberText = real -> string

  /** The set of configuration keys of a provider type. */
  function FieldKeySet(t: ProviderType): (r: set<string>)
    ensures forall k :: k in r <==> k in FieldKeys(t)
  {
    set k | k in FieldKeys(t)
  }

  /** `isStorageProviderType`: strict membership in the type list, so only
      the strings "s3" and "github" qualify. */
  function IsStorageProviderType(v: Json): (r: bool)
    ensures r <==> exists t: ProviderType :: v == JStr(TypeName(t))
  {
    assert v == JStr("s3") ==> v == JStr(TypeName(S3));
    assert v == JStr("github") ==> v == JStr(TypeName(GitHub));
    v.JStr? && TypeFromName(v.s).Some?
  }

  /** The value one config field is normalised to: strings are kept,
      `null`/`undefined` become "", anything else goes through `String`. */
  function CoerceValue(raw: Option<Json>, numText: NumberText): (r: string)
    ensures raw.None? || raw == Some(JNull) ==> r == ""
    ensures raw.Some? && raw.value.JStr? ==> r == raw.value.s
    ensures raw.Some? && !raw.value.JStr? && !raw.value.JNull? ==> r == ToJsString(raw.value, numText)
  {
    match raw
    case None => ""
    case Some(JNull) => ""
    case Some(JStr(s)) => s
    case Some(v) => ToJsString(v, numText)
  }

  /** The reduction over a field list: one entry per field key. */
  function NormaliseFields(keys: seq<string>, lookup: Lookup, numText: NumberText): (r: map<string, string>)
    ensures forall k :: k in r <==> k in keys
    ensures forall k :: k in r ==> r[k] == CoerceValue(lookup(k), numText)
  {
    if keys == [] then map[]
    else
      var init := keys[..|keys| - 1];
      var key := keys[|keys| - 1];
      assert keys == init + [key];
      NormaliseFields(init, lookup, numText)[key := CoerceValue(lookup(key), numText)]
  }

  /** `normaliseConfigForType`: exactly the type's field keys, each mapped
      to the coerced input value; other input keys are dropped. */
  function NormaliseConfigForType(t: ProviderType, lookup: Lookup, numText: NumberText): (r: map<string, string>)
    ensures r.Keys == FieldKeySet(t)
    ensures forall k :: k in r ==> r[k] == CoerceValue(lookup(k), numText)
  {
    NormaliseFields(FieldKeys(t), lookup, numText)
  }

  /** A typed config read as an untyped record. */
  function MapLookup(m: map<string, string>): Lookup {
    k => if k in m then Some(JStr(m[k])) else None
  }

  /** A typed config holds only strings, so `String` is never needed. */
  const NoNumbers: NumberText := _ => ""

  /** `normalizeStorageProviderConfig`: the same provider with its config
      projected onto its type's fields, missing ones as "". */
  function NormalizeStorageProviderConfig(p: Provider): (r: Provider)
    ensures r.config.Keys == FieldKeySet(p.ptype)
    ensures forall k :: k in r.config ==> r.config[k] == if k in p.config then p.config[k] else ""
    ensures r.(config := p.config) == p
  {
    p.(config := NormaliseConfigForType(p.ptype, MapLookup(p.config), NoNumbers))
  }

  /** Normalising twice is normalising once. */
  lemma NormalizeIdempotent(p: Provider)
    ensures NormalizeStorageProviderConfig(NormalizeStorageProviderConfig(p)) == NormalizeStorageProviderConfig(p)
  {
    var once := NormalizeStorageProviderConfig(p);
    var twice := NormalizeStorageProviderConfig(once);
    assert twice.config == once.config;
  }

  /** A provider whose config already has exactly its type's keys is a
      fixed point of normalisation. */
  predicate IsNormalized(p: Provider) {
    p.config.Keys == FieldKeySet(p.ptype)
  }

  lemma NormalizedIsFixedPoint(p: Provider)
    requires IsNormalized(p)
    ensures NormalizeStorageProviderConfig(p) == p
  {
    assert NormalizeStorageProviderConfig(p).config == p.config;
  }

  // ---------------------------------------------------------------------
  // Coercion from untyped JSON
  // ---------------------------------------------------------------------

  /** The string a record field holds, trimmed, when it is a string with
      non-blank content. */
  function TrimmedString(v: Option<Json>): (r: Option<string>)
    ensures r.Some? <==> v.Some? && v.value.JStr? && !IsBlank(v.value.s)
    ensures r.Some? ==> r.value == Trim(v.value.s) && r.value != ""
  {
    match v
    case Some(JStr(s)) => if Trim(s) != "" then Some(Trim(s)) else None
    case _ => None
  }

  /** A record field that is copied only when it is a string. */
  function StringField(v: Option<Json>): (r: Option<string>)
    ensures r.Some? <==> v.Some? && v.value.JStr?
    ensures r.Some? ==> v == Some(JStr(r.value))
  {
    match v
    case Some(JStr(s)) => Some(s)
    case _ => None
  }

  /** The config input of a record: its `config` field when that is a
      non-array object, else the empty record. */
  function ConfigInput(fields: seq<(string, Json)>): Lookup {
    match Get(fields, "config")
    case Some(JObj(cfg)) => RecordLookup(cfg)
    case _ => RecordLookup([])
  }

  /** `record[key]` on a record's properties. */
  function RecordLookup(cfg: seq<(string, Json)>): Lookup {
    k => Get(cfg, k)
  }

  /** `coerceProvider`: None for anything that is not a plain object;
      otherwise a provider whose id and name are trimmed and non-blank (a
      fresh id and the untitled label stand in for blank ones) and whose
      config has exactly its type's keys. */
  function CoerceProvider(input: Json, freshId: string, untitled: string, numText: NumberText): (r: Option<Provider>)
    ensures r.Some? <==> input.JObj?
    ensures r.Some? ==> IsNormalized(r.value)
    ensures r.Some? ==> r.value.id == freshId || (r.value.id != "" && Trim(r.value.id) == r.value.id)
    ensures r.Some? ==> r.value.name == untitled || (r.value.name != "" && Trim(r.value.name) == r.value.name)
  {
    match input
    case JObj(fields) =>
      var typeField := Get(fields, "type");
      var t := if typeField.Some? && IsStorageProviderType(typeField.value) then TypeFromName(typeField.value.s).value else S3;
      var id := TrimmedString(Get(fields, "id"));
      var name := TrimmedString(Get(fields, "name"));
      Some(Provider(
        if id.Some? then id.value else freshId,
        if name.Some? then name.value else untitled,
        t,
        NormaliseConfigForType(t, ConfigInput(fields), numText),
        StringField(Get(fields, "createdAt")),
        StringField(Get(fields, "updatedAt"))))
    case _ => None
  }

  /** What `coerceProvider` takes from each property of the record: the
      type only when it names a provider type (s3 otherwise), a non-blank
      id and name, the config projected through the field table, and the
      timestamps only when they are strings. */
  lemma CoerceProviderReadsRecord(fields: seq<(string, Json)>, freshId: string, untitled: string, numText: NumberText)
    ensures var r := CoerceProvider(JObj(fields), freshId, untitled, numText).value;
            && (Get(fields, "type").Some? && IsStorageProviderType(Get(fields, "type").value) ==>
                  TypeName(r.ptype) == Get(fields, "type").value.s)
            && (!(Get(fields, "type").Some? && IsStorageProviderType(Get(fields, "type").value)) ==> r.ptype == S3)
            && (TrimmedString(Get(fields, "id")).Some? ==> r.id == Trim(Get(fields, "id").value.s))
            && (TrimmedString(Get(fields, "id")).None? ==> r.id == freshId)
            && (TrimmedString(Get(fields, "name")).Some? ==> r.name == Trim(Get(fields, "name").value.s))
            && (TrimmedString(Get(fields, "name")).None? ==> r.name == untitled)
            && (forall k :: k in r.config ==> r.config[k] == CoerceValue(ConfigInput(fields)(k), numText))
            && r.createdAt == StringField(Get(fields, "createdAt"))
            && r.updatedAt == StringField(Get(fields, "updatedAt"))
  {
  }

  /** `coerceProvider` with the fresh id of position `n`. */
  function Coercer(freshIds: nat -> string, untitled: string, numText: NumberText): (Json, nat) -> Option<Provider> {
    (x: Json, n: nat) => CoerceProvider(x, freshIds(n), untitled, numText)
  }

  predicate IsObject(v: Json) {
    v.JObj?
  }

  /** How many of `items` are objects. */
  function CountObjects(items: seq<Json>): nat {
    |Filter(items, IsObject)|
  }

  /** `items.map(coerceProvider).filter(notNull)`: the coercions that are
      not null, in order; item `i` draws the fresh id `freshIds(offset + i)`.
      Exactly the objects survive. */
  function CoerceAll(items: seq<Json>, offset: nat, freshIds: nat -> string, untitled: string,
                     numText: NumberText): (r: seq<Provider>)
    ensures |r| == CountObjects(items)
    ensures forall i :: 0 <= i < |r| ==> IsNormalized(r[i])
  {
    var coerce := Coercer(freshIds, untitled, numText);
    CoercerFacts(items, offset, freshIds, untitled, numText);
    FilterMapCount(items, offset, coerce, IsObject);
    FilterMapKeeps(items, offset, coerce, IsNormalized);
    FilterMapFrom(items, offset, coerce)
  }

  /** A coercion is present exactly for an object, and then normalised. */
  lemma CoercerFacts(items: seq<Json>, offset: nat, freshIds: nat -> string, untitled: string, numText: NumberText)
    ensures forall i :: 0 <= i < |items| ==>
              (Coercer(freshIds, untitled, numText)(items[i], offset + i).Some? <==> IsObject(items[i]))
    ensures forall i :: 0 <= i < |items| && Coercer(freshIds, untitled, numText)(items[i], offset + i).Some? ==>
              IsNormalized(Coercer(freshIds, untitled, numText)(items[i], offset + i).value)
  {
    forall i | 0 <= i < |items|
      ensures Coercer(freshIds, untitled, numText)(items[i], offset + i)
              == CoerceProvider(items[i], freshIds(offset + i), untitled, numText)
    {
    }
  }

  /** Each object of the array is coerced in place: the object at `i`,
      with the objects before it counted as `k`, becomes provider `k`,
      drawing the fresh id `freshIds(offset + i)`. With the length being
      the number of objects, this is the order-preserving filter of the
      coercions. */
  lemma CoerceAllAt(items: seq<Json>, offset: nat, freshIds: nat -> string, untitled: string,
                    numText: NumberText, i: nat)
    requires i < |items| && items[i].JObj?
    ensures CountObjects(items[..i]) < |CoerceAll(items, offset, freshIds, untitled, numText)|
    ensures CoerceAll(items, offset, freshIds, untitled, numText)[CountObjects(items[..i])]
            == CoerceProvider(items[i], freshIds(offset + i), untitled, numText).value
  {
    var coerce := Coercer(freshIds, untitled, numText);
    CoercerFacts(items, offset, freshIds, untitled, numText);
    CoercerFacts(items[..i], offset, freshIds, untitled, numText);
    assert coerce(items[i], offset + i) == CoerceProvider(items[i], freshIds(offset + i), untitled, numText);
    FilterMapAt(items, offset, coerce, i);
    FilterMapCount(items[..i], offset, coerce, IsObject);
  }

  /** Only non-objects are dropped: an array of objects keeps its length. */
  lemma CoerceAllKeepsObjects(items: seq<Json>, offset: nat, freshIds: nat -> string,
                              untitled: string, numText: NumberText)
    requires forall i :: 0 <= i < |items| ==> items[i].JObj?
    ensures |CoerceAll(items, offset, freshIds, untitled, numText)| == |items|
  {
    FilterAll(items, IsObject);
  }

  /** `parseStorageProviders`: [] for a missing or empty text, text that
      does not parse, or JSON that is not an array; otherwise the coerced
      array elements that are objects, in order. */
  function ParseStorageProviders(raw: Option<string>, parse: string -> Option<Json>, freshIds: nat -> string,
                                 untitled: string, numText: NumberText): (r: seq<Provider>)
    ensures !Truthy(raw) ==> r == []
    ensures Truthy(raw) && (parse(raw.value).None? || !parse(raw.value).value.JArr?) ==> r == []
    ensures Truthy(raw) && parse(raw.value).Some? && parse(raw.value).value.JArr? ==>
              |r| == CountObjects(parse(raw.value).value.items)
  {
    if !Truthy(raw) then []
    else
      match parse(raw.value)
      case Some(JArr(items)) => CoerceAll(items, 0, freshIds, untitled, numText)
      case _ => []
  }

  /** The object at position `i` of the parsed array becomes the provider
      after those coerced from the objects before it. */
  lemma ParseStorageProvidersAt(raw: Option<string>, parse: string -> Option<Json>, freshIds: nat -> string,
                                untitled: string, numText: NumberText, i: nat)
    requires Truthy(raw) && parse(raw.value).Some? && parse(raw.value).value.JArr?
    requires i < |parse(raw.value).value.items| && parse(raw.value).value.items[i].JObj?
    ensures CountObjects(parse(raw.value).value.items[..i]) < |ParseStorageProviders(raw, parse, freshIds, untitled, numText)|
    ensures ParseStorageProviders(raw, parse, freshIds, untitled, numText)[CountObjects(parse(raw.value).value.items[..i])]
            == CoerceProvider(parse(raw.value).value.items[i], freshIds(i), untitled, numText).value
  {
    var items := parse(raw.value).value.items;
    assert ParseStorageProviders(raw, parse, freshIds, untitled, numText) == CoerceAll(items, 0, freshIds, untitled, numText);
    CoerceAllAtPosition(items, 0, freshIds, untitled, numText, i, i);
  }

  /** `CoerceAllAt` with the absolute position `n` of the item named. */
  lemma CoerceAllAtPosition(items: seq<Json>, offset: nat, freshIds: nat -> string, untitled: string,
                            numText: NumberText, i: nat, n: nat)
    requires i < |items| && items[i].JObj? && n == offset + i
    ensures CountObjects(items[..i]) < |CoerceAll(items, offset, freshIds, untitled, numText)|
    ensures CoerceAll(items, offset, freshIds, untitled, numText)[CountObjects(items[..i])]
            == CoerceProvider(items[i], freshIds(n), untitled, numText).value
  {
    assert freshIds(offset + i) == freshIds(n);
    CoerceAllAt(items, offset, freshIds, untitled, numText, i);
  }

  // ---------------------------------------------------------------------
  // Serialisation
  // ---------------------------------------------------------------------

  /** A config as a JSON object with the given keys, in that order. */
  function ConfigObject(keys: seq<string>, config: map<string, string>): (r: seq<(string, Json)>)
    requires forall i :: 0 <= i < |keys| ==> keys[i] in config
    ensures |r| == |keys|
    ensures forall i :: 0 <= i < |keys| ==> r[i] == (keys[i], JStr(config[keys[i]]))
  {
    if keys == [] then [] else [(keys[0], JStr(config[keys[0]]))] + ConfigObject(keys[1..], config)
  }

  /** An optional string property, omitted when undefined as
      `JSON.stringify` does. */
  function OptionalField(key: string, v: Option<string>): seq<(string, Json)> {
    match v
    case Some(s) => [(key, JStr(s))]
    case None => []
  }

  /** The properties of one serialised provider record, in the order the
      provider object has them; undefined timestamps are omitted as
      `JSON.stringify` does. */
  function RecordFields(id: string, name: string, typeName: string, config: seq<(string, Json)>,
                        createdAt: Option<string>, updatedAt: Option<string>): seq<(string, Json)>
  {
    [("id", JStr(id)), ("name", JStr(name)), ("type", JStr(typeName)), ("config", JObj(config))]
    + OptionalField("createdAt", createdAt) + OptionalField("updatedAt", updatedAt)
  }

  /** One serialised provider: its fields with the normalised config,
      whose keys follow the field table. */
  function ProviderToJson(p: Provider): (r: Json)
    ensures r.JObj?
  {
    var n := NormalizeStorageProviderConfig(p);
    JObj(RecordFields(n.id, n.name, TypeName(n.ptype), ConfigObject(FieldKeys(n.ptype), n.config),
                      n.createdAt, n.updatedAt))
  }

  /** `serializeStorageProviders`, as the JSON value before it is printed. */
  function SerializeStorageProviders(ps: seq<Provider>): (r: Json)
    ensures r.JArr? && |r.items| == |ps|
    ensures forall i :: 0 <= i < |ps| ==> r.items[i] == ProviderToJson(ps[i])
  {
    JArr(ProvidersToJson(ps))
  }

  function ProvidersToJson(ps: seq<Provider>): (r: seq<Json>)
    ensures |r| == |ps|
    ensures forall i :: 0 <= i < |ps| ==> r[i] == ProviderToJson(ps[i])
  {
    seq(|ps|, i requires 0 <= i < |ps| => ProviderToJson(ps[i]))
  }

  /** A provider as coercion would leave it: id and name trimmed and not
      blank. */
  predicate WellFormed(p: Provider) {
    p.id != "" && Trim(p.id) == p.id && p.name != "" && Trim(p.name) == p.name
  }

  lemma {:induction false} GetConfigObject(keys: seq<string>, config: map<string, string>, k: string)
    requires forall i :: 0 <= i < |keys| ==> keys[i] in config
    requires k in keys
    ensures Get(ConfigObject(keys, config), k) == Some(JStr(config[k]))
  {
    if keys[0] != k {
      assert ConfigObject(keys, config)[1..] == ConfigObject(keys[1..], config);
      GetConfigObject(keys[1..], config, k);
    }
  }

  /** A lookup past a prefix that lacks the key. */
  lemma {:induction false} GetSkipsPrefix(a: seq<(string, Json)>, b: seq<(string, Json)>, k: string)
    requires forall i :: 0 <= i < |a| ==> a[i].0 != k
    ensures Get(a + b, k) == Get(b, k)
  {
    if a == [] {
      assert a + b == b;
    } else {
      assert (a + b)[0] == a[0];
      assert (a + b)[1..] == a[1..] + b;
      GetSkipsPrefix(a[1..], b, k);
    }
  }

  /** What a lookup finds in a serialised provider record. */
  lemma RecordFieldsLookup(id: string, name: string, typeName: string, config: seq<(string, Json)>,
                           createdAt: Option<string>, updatedAt: Option<string>)
    ensures var fields := RecordFields(id, name, typeName, config, createdAt, updatedAt);
            && Get(fields, "id") == Some(JStr(id))
            && Get(fields, "name") == Some(JStr(name))
            && Get(fields, "type") == Some(JStr(typeName))
            && Get(fields, "config") == Some(JObj(config))
            && StringField(Get(fields, "createdAt")) == createdAt
            && StringField(Get(fields, "updatedAt")) == updatedAt
  {
    var head := [("id", JStr(id)), ("name", JStr(name)), ("type", JStr(typeName)), ("config", JObj(config))];
    var created := OptionalField("createdAt", createdAt);
    var updated := OptionalField("updatedAt", updatedAt);
    var fields := RecordFields(id, name, typeName, config, createdAt, updatedAt);
    assert fields == head + (created + updated);
    GetFindsFirst(fields, "type", 2);
    GetFindsFirst(fields, "config", 3);
    GetSkipsPrefix(head, created + updated, "createdAt");
    GetSkipsPrefix(head, created + updated, "updatedAt");
    GetSkipsPrefix(created, updated, "updatedAt");
  }

  /** Coercing a serialised config gives back the config, whatever its
      key list. */
  lemma ConfigRoundTrip(keys: seq<string>, config: map<string, string>, numText: NumberText)
    requires forall k :: k in config <==> k in keys
    ensures NormaliseFields(keys, RecordLookup(ConfigObject(keys, config)), numText) == config
  {
    var c := NormaliseFields(keys, RecordLookup(ConfigObject(keys, config)), numText);
    forall k | k in c
      ensures c[k] == config[k]
    {
      GetConfigObject(keys, config, k);
    }
  }

  /** Coercing a serialised record with a trimmed id and name gives the
      record's own values back, its config read through the field table. */
  lemma CoerceRecord(id: string, name: string, t: ProviderType, config: seq<(string, Json)>,
                     createdAt: Option<string>, updatedAt: Option<string>,
                     freshId: string, untitled: string, numText: NumberText)
    requires id != "" && Trim(id) == id && name != "" && Trim(name) == name
    ensures CoerceProvider(JObj(RecordFields(id, name, TypeName(t), config, createdAt, updatedAt)), freshId, untitled, numText)
            == Some(Provider(id, name, t, NormaliseConfigForType(t, RecordLookup(config), numText), createdAt, updatedAt))
  {
    var fields := RecordFields(id, name, TypeName(t), config, createdAt, updatedAt);
    RecordFieldsLookup(id, name, TypeName(t), config, createdAt, updatedAt);
    TypeNameRoundTrip(t);
    assert IsStorageProviderType(JStr(TypeName(t)));
    assert ConfigInput(fields) == RecordLookup(config);
    assert TrimmedString(Get(fields, "id")) == Some(id);
    assert TrimmedString(Get(fields, "name")) == Some(name);
  }

  /** Reading back one serialised provider yields the normalised provider. */
  lemma ProviderRoundTrip(p: Provider, freshId: string, untitled: string, numText: NumberText)
    requires WellFormed(p)
    ensures CoerceProvider(ProviderToJson(p), freshId, untitled, numText) == Some(NormalizeStorageProviderConfig(p))
  {
    var n := NormalizeStorageProviderConfig(p);
    var cfg := ConfigObject(FieldKeys(n.ptype), n.config);
    CoerceRecord(n.id, n.name, n.ptype, cfg, n.createdAt, n.updatedAt, freshId, untitled, numText);
    ConfigRoundTrip(FieldKeys(n.ptype), n.config, numText);
  }

  /** Every provider with its config normalised. */
  function NormalizeAll(ps: seq<Provider>): (r: seq<Provider>)
    ensures |r| == |ps|
    ensures forall i :: 0 <= i < |ps| ==> r[i] == NormalizeStorageProviderConfig(ps[i])
  {
    if ps == [] then [] else [NormalizeStorageProviderConfig(ps[0])] + NormalizeAll(ps[1..])
  }

  /** Serialising and reading back returns the normalised providers, in
      order, drawing no fresh ids. */
  lemma SerializeRoundTrip(ps: seq<Provider>, offset: nat, freshIds: nat -> string,
                           untitled: string, numText: NumberText)
    requires forall i :: 0 <= i < |ps| ==> WellFormed(ps[i])
    ensures CoerceAll(SerializeStorageProviders(ps).items, offset, freshIds, untitled, numText) == NormalizeAll(ps)
  {
    var items := SerializeStorageProviders(ps).items;
    forall i, f | 0 <= i < |ps|
      ensures CoerceProvider(items[i], f, untitled, numText) == Some(NormalizeStorageProviderConfig(ps[i]))
    {
      ProviderRoundTrip(ps[i], f, untitled, numText);
    }
    CoerceEach(items, NormalizeAll(ps), offset, freshIds, untitled, numText);
  }

  /** Coercing items that each coerce to a provider yields those providers. */
  lemma CoerceEach(items: seq<Json>, ps: seq<Provider>, offset: nat,
                    freshIds: nat -> string, untitled: string, numText: NumberText)
    requires |items| == |ps|
    requires forall i, f :: 0 <= i < |ps| ==> CoerceProvider(items[i], f, untitled, numText) == Some(ps[i])
    ensures CoerceAll(items, offset, freshIds, untitled, numText) == ps
  {
    var coerce := Coercer(freshIds, untitled, numText);
    forall i | 0 <= i < |items|
      ensures coerce(items[i], offset + i) == Some(ps[i])
    {
      assert CoerceProvider(items[i], freshIds(offset + i), untitled, numText) == Some(ps[i]);
    }
    FilterMapAll(items, offset, coerce, ps);
  }

  /** `parseStorageProviders` inverts `serializeStorageProviders` up to
      config normalisation, given a `JSON.parse` that inverts printing. */
  lemma ParseSerializeRoundTrip(ps: seq<Provider>, text: string, parse: string -> Option<Json>,
                                freshIds: nat -> string, untitled: string, numText: NumberText)
    requires forall i :: 0 <= i < |ps| ==> WellFormed(ps[i])
    requires text != "" && parse(text) == Some(SerializeStorageProviders(ps))
    ensures ParseStorageProviders(Some(text), parse, freshIds, untitled, numText) == NormalizeAll(ps)
  {
    var items := SerializeStorageProviders(ps).items;
    assert Truthy(Some(text));
    assert ParseStorageProviders(Some(text), parse, freshIds, untitled, numText)
        == CoerceAll(items, 0, freshIds, untitled, numText);
    SerializeRoundTrip(ps, 0, freshIds, untitled, numText);
  }

  // ---------------------------------------------------------------------
  // Defaults and the active provider
  // ---------------------------------------------------------------------

  /** `getDefaultConfigForType`: every field key of the type mapped to "". */
  function GetDefaultConfigForType(t: ProviderType): (r: map<string, string>)
    ensures r.Keys == FieldKeySet(t)
    ensures forall k :: k in r ==> r[k] == ""
  {
    NormaliseConfigForType(t, _ => None, NoNumbers)
  }

  /** `createEmptyProvider`: no id yet, the untitled label, the default
      config, and one timestamp for both creation and update. */
  function CreateEmptyProvider(t: ProviderType, timestamp: string, untitled: string): (r: Provider)
    ensures r.id == "" && r.name == untitled && r.ptype == t
    ensures r.config == GetDefaultConfigForType(t)
    ensures r.createdAt == r.updatedAt == Some(timestamp)
    ensures IsNormalized(r)
  {
    Provider("", untitled, t, GetDefaultConfigForType(t), Some(timestamp), Some(timestamp))
  }

  predicate HasId(ps: seq<Provider>, id: string) {
    exists i :: 0 <= i < |ps| && ps[i].id == id
  }

  /** `ensureActiveProviderId`: the active id when it is set and names a
      provider, else null. */
  function EnsureActiveProviderId(ps: seq<Provider>, activeId: Option<string>): (r: Option<string>)
    ensures r.Some? <==> Truthy(activeId) && HasId(ps, activeId.value)
    ensures r.Some? ==> r == activeId
  {
    if !Truthy(activeId) then None
    else if HasId(ps, activeId.value) then activeId
    else None
  }

  /** The name a provider is sorted by. */
  function DisplayName(p: Provider, untitled: string): (r: string)
    ensures p.name != "" ==> r == p.name
    ensures p.name == "" ==> r == untitled
  {
    if p.name != "" then p.name else untitled
  }

  /** The sort comparator `compare(a, b) <= 0`: the active provider first,
      the rest by the collator's rank of their display names. */
  function ActiveFirst(activeId: string, rank: string -> int, untitled: string): (r: (Provider, Provider) -> bool)
    ensures forall a: Provider, b: Provider :: a.id == activeId ==> r(a, b)
    ensures forall a: Provider, b: Provider :: a.id != activeId && b.id == activeId ==> !r(a, b)
    ensures forall a: Provider, b: Provider :: a.id != activeId && b.id != activeId ==>
              (r(a, b) <==> rank(DisplayName(a, untitled)) <= rank(DisplayName(b, untitled)))
  {
    (a: Provider, b: Provider) =>
      if a.id == activeId then true
      else if b.id == activeId then false
      else rank(DisplayName(a, untitled)) <= rank(DisplayName(b, untitled))
  }

  lemma ActiveFirstIsTotalPreorder(activeId: string, rank: string -> int, untitled: string)
    ensures Sorting.TotalPreorder(ActiveFirst(activeId, rank, untitled))
  {
  }

  /** `reorderProvidersByActive`: an unchanged copy without an active id;
      otherwise a permutation with the active provider first and the rest
      ordered by name. */
  function ReorderProvidersByActive(ps: seq<Provider>, activeId: Option<string>, rank: string -> int,
                                    untitled: string): (r: seq<Provider>)
    ensures multiset(r) == multiset(ps)
    ensures !Truthy(activeId) ==> r == ps
    ensures Truthy(activeId) ==> Sorting.SortedBy(r, ActiveFirst(activeId.value, rank, untitled))
    ensures Truthy(activeId) ==> forall z :: Sorting.Ties(r, z, ActiveFirst(activeId.value, rank, untitled))
                                             == Sorting.Ties(ps, z, ActiveFirst(activeId.value, rank, untitled))
  {
    if !Truthy(activeId) then ps
    else
      ActiveFirstIsTotalPreorder(activeId.value, rank, untitled);
      Sorting.InsertionSortStableAll(ps, ActiveFirst(activeId.value, rank, untitled));
      Sorting.InsertionSort(ps, ActiveFirst(activeId.value, rank, untitled))
  }

  /** When the active id names a provider, that provider comes first. */
  lemma {:induction false} ActiveProviderComesFirst(ps: seq<Provider>, activeId: string, rank: string -> int, untitled: string)
    requires activeId != "" && HasId(ps, activeId)
    ensures var r := ReorderProvidersByActive(ps, Some(activeId), rank, untitled);
            r != [] && r[0].id == activeId
  {
    var r := ReorderProvidersByActive(ps, Some(activeId), rank, untitled);
    var i :| 0 <= i < |ps| && ps[i].id == activeId;
    assert ps[i] in multiset(r);
    var j :| 0 <= j < |r| && r[j] == ps[i];
    if j > 0 {
      assert ActiveFirst(activeId, rank, untitled)(r[0], r[j]);
    }
  }

  /** The providers other than the active one keep the collator's order. */
  lemma OthersOrderedByName(ps: seq<Provider>, activeId: string, rank: string -> int, untitled: string, i: nat, j: nat)
    requires activeId != ""
    requires var r := ReorderProvidersByActive(ps, Some(activeId), rank, untitled);
             i < j < |r| && r[i].id != activeId && r[j].id != activeId
    ensures var r := ReorderProvidersByActive(ps, Some(activeId), rank, untitled);
            rank(DisplayName(r[i], untitled)) <= rank(DisplayName(r[j], untitled))
  {
    var r := ReorderProvidersByActive(ps, Some(activeId), rank, untitled);
    assert ActiveFirst(activeId, rank, untitled)(r[i], r[j]);
  }
}
