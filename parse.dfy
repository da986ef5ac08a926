/** The attribute resolver of `src/parse.rs`: the reference-table entry
    (`ObjectAttribute`), its closed set of data types, the search-query tree,
    and `convert_raw_entity`, which keeps the `oa_`-prefixed keys of a raw
    entity, renames each to its attribute's display key and resolves picklist
    and nested-form values through the reference table. */
module Parse {
  import opened Strings
  import opened Results
  import opened JsonValue

  // ---------------------------------------------------------------------
  // Reference-table entries

  datatype DataType =
    | Address | Boolean | Currency | Date | Datetime | Email | EncryptedString
    | File | Float | Id | Integer | NestedForm | Number | Percent | Phone
    | Picklist | Reference | String | Text | Textarea | Richtextarea

  /** `Display for ObjectAttributeDataType`. */
  function DataTypeName(t: DataType): string
  {
    match t
    case Address => "address"
    case Boolean => "boolean"
    case Currency => "currency"
    case Date => "date"
    case Datetime => "datetime"
    case Email => "email"
    case EncryptedString => "encrypted_string"
    case File => "file"
    case Float => "float"
    case Id => "id"
    case Integer => "integer"
    case NestedForm => "nested_form"
    case Number => "number"
    case Percent => "percent"
    case Phone => "phone"
    case Picklist => "picklist"
    case Reference => "reference"
    case String => "string"
    case Text => "text"
    case Textarea => "textarea"
    case Richtextarea => "rich_textarea"
  }

  /** The tag deserialisation accepts for each data type: the variant name in
      snake case (`#[serde(rename_all = "snake_case")]`); any other tag is
      rejected. */
  function WireDataType(s: string): Option<DataType>
  {
    if s == "address" then Some(DataType.Address)
    else if s == "boolean" then Some(Boolean)
    else if s == "currency" then Some(Currency)
    else if s == "date" then Some(Date)
    else if s == "datetime" then Some(Datetime)
    else if s == "email" then Some(Email)
    else if s == "encrypted_string" then Some(EncryptedString)
    else if s == "file" then Some(File)
    else if s == "float" then Some(Float)
    else if s == "id" then Some(Id)
    else if s == "integer" then Some(Integer)
    else if s == "nested_form" then Some(NestedForm)
    else if s == "number" then Some(Number)
    else if s == "percent" then Some(Percent)
    else if s == "phone" then Some(Phone)
    else if s == "picklist" then Some(Picklist)
    else if s == "reference" then Some(Reference)
    else if s == "string" then Some(String)
    else if s == "text" then Some(Text)
    else if s == "textarea" then Some(Textarea)
    else if s == "richtextarea" then Some(Richtextarea)
    else None
  }

  /** The display name of every data type reads back as that data type,
      except `rich_textarea`, whose deserialised tag is `richtextarea`. */
  lemma DisplayedNameReadsBack(t: DataType)
    ensures t != Richtextarea ==> WireDataType(DataTypeName(t)) == Some(t)
    ensures t == Richtextarea ==> WireDataType(DataTypeName(t)) == None
  {
  }

  /** The 21 display names are pairwise distinct. */
  lemma DataTypeNameInjective(a: DataType, b: DataType)
    requires DataTypeName(a) == DataTypeName(b)
    ensures a == b
  {
    DisplayedNameReadsBack(a);
    DisplayedNameReadsBack(b);
  }

  datatype PicklistOption = PicklistOption(id: string, name: string)

  datatype ObjectAttribute = ObjectAttribute(dataType: DataType, name: string, picklistOptions: seq<PicklistOption>)

  /** The reference table: attribute id to attribute. It is a value, so no
      resolution step can change it. */
  type Table = map<string, ObjectAttribute>

  /** A record of a response envelope; only its `attributes` are read. */
  datatype ObjectEntity = ObjectEntity(attributes: map<string, Json>)

  // ---------------------------------------------------------------------
  // Search-query tree

  datatype GroupOperator = And | Or | Not

  datatype ConditionOperator =
    | Equal | NotEqual | Contain | NotContain | IsPresent | IsBlank
    | Greater | GreaterOrEqual | Less | LessOrEqual | Between
    | Today | BeforeToday | AfterToday
    | ThisWeek | BeforeThisWeek | AfterThisWeek
    | ThisMonth | BeforeThisMonth | AfterThisMonth
    | ThisQuarter | BeforeThisQuarter | AfterThisQuarter
    | ThisYear | BeforeThisYear | AfterThisYear
    | AnyOf | NoneOf | IsTrue | IsFalse | Address

  /** A leaf condition; `value` is `None` when the field is absent or JSON
      `null`. Deserialisation never yields `Some(Null)`: an input holding it
      stands for no document the source can receive. */
  datatype SearchQueryCondition = SearchQueryCondition(operator: ConditionOperator, objectAttributeId: string, value: Option<Json>)

  datatype SearchQueryGroup = SearchQueryGroup(
    operator: GroupOperator,
    conditions: Option<seq<SearchQueryCondition>>,
    children: OptionalChildren)

  /** A group's optional child list (`Option<Vec<SearchQueryGroup>>`), as a
      datatype of its own so that recursion into the children visibly terminates. */
  datatype OptionalChildren = NoChildren | SomeChildren(groups: seq<SearchQueryGroup>)

  datatype SearchQuery = SearchQuery(groups: seq<SearchQueryGroup>)

  // ---------------------------------------------------------------------
  // Attribute keys

  const OaPrefix: string := "oa_"

  /** `key.starts_with("oa_")`. */
  predicate HasOaPrefix(key: string)
  {
    |key| >= 3 && key[..3] == OaPrefix
  }

  /** `key.trim_start_matches("oa_")`. */
  function TrimOaPrefix(key: string): string
    decreases |key|
  {
    if HasOaPrefix(key) then TrimOaPrefix(key[3..]) else key
  }

  /** Trimming removes exactly the leading repetitions of `oa_`: what is
      removed is `oa_` repeated, and what is left does not start with `oa_`. */
  lemma {:induction false} TrimOaPrefixRemovesRepetitions(key: string)
    ensures var r := TrimOaPrefix(key);
      && |r| <= |key| && r == key[|key| - |r|..]
      && (|key| - |r|) % 3 == 0
      && (forall i :: 0 <= i < |key| - |r| ==> key[i] == OaPrefix[i % 3])
      && !HasOaPrefix(r)
    decreases |key|
  {
    if HasOaPrefix(key) {
      TrimOaPrefixRemovesRepetitions(key[3..]);
      assert forall i :: 3 <= i < |key| ==> key[i] == key[3..][i - 3];
    }
  }

  /** `s.replace("_", "-")`. */
  function HyphenateUnderscores(s: string): string
  {
    if s == [] then "" else [if s[0] == '_' then '-' else s[0]] + HyphenateUnderscores(s[1..])
  }

  /** Every `_` becomes `-` and nothing else changes. */
  lemma {:induction false} HyphenateUnderscoresAt(s: string)
    ensures |HyphenateUnderscores(s)| == |s|
    ensures forall i :: 0 <= i < |s| ==> HyphenateUnderscores(s)[i] == if s[i] == '_' then '-' else s[i]
  {
    if s != [] {
      HyphenateUnderscoresAt(s[1..]);
    }
  }

  /** `parse_oa_uuid`: the attribute id a raw `oa_…` key stands for. */
  function ParseOaUuid(key: string): string
  {
    HyphenateUnderscores(TrimOaPrefix(key))
  }

  /** An attribute id never holds `_`, and canonicalising it again changes nothing. */
  lemma ParseOaUuidCanonical(key: string)
    ensures '_' !in ParseOaUuid(key)
    ensures ParseOaUuid(ParseOaUuid(key)) == ParseOaUuid(key)
  {
    var c := ParseOaUuid(key);
    HyphenateUnderscoresAt(TrimOaPrefix(key));
    assert '_' !in c;
    assert !HasOaPrefix(c) by {
      if |c| >= 3 {
        assert c[..3][2] == c[2] && c[2] in c;
      }
    }
    assert TrimOaPrefix(c) == c;
    HyphenateUnderscoresAt(c);
    assert HyphenateUnderscores(c) == c;
  }

  // ---------------------------------------------------------------------
  // Picklist options

  /** `i` is the position of the first option whose id is `id`. */
  predicate IsFirstMatch(options: seq<PicklistOption>, id: string, i: int)
  {
    0 <= i < |options| && options[i].id == id && forall j :: 0 <= j < i ==> options[j].id != id
  }

  predicate NoMatch(options: seq<PicklistOption>, id: string)
  {
    forall j :: 0 <= j < |options| ==> options[j].id != id
  }

  /** `options.iter().find(|option| option.id == id)`. */
  function FindOption(options: seq<PicklistOption>, id: string): (r: Option<PicklistOption>)
    ensures r.None? <==> NoMatch(options, id)
    ensures r.Some? ==> exists i :: IsFirstMatch(options, id, i) && options[i] == r.value
  {
    if options == [] then None
    else if options[0].id == id then
      assert IsFirstMatch(options, id, 0);
      Some(options[0])
    else
      var r := FindOption(options[1..], id);
      if r.Some? then
        var i :| IsFirstMatch(options[1..], id, i) && options[1..][i] == r.value;
        assert IsFirstMatch(options, id, i + 1);
        r
      else r
  }

  // ---------------------------------------------------------------------
  // Nested-form sub-payloads

  const ObjectEntityAttributeValues: string := "object_entity_attribute_values"

  /** A sub-payload's `object_entity_attribute_values` field after
      deserialisation: absent and `null` both read as `None`. */
  function SubPayloadValues(p: Json): (r: Option<map<string, Json>>)
    requires p.Obj?
    ensures r.Some? ==> ObjectEntityAttributeValues in p.fields && p.fields[ObjectEntityAttributeValues] == Obj(r.value)
  {
    if ObjectEntityAttributeValues in p.fields && p.fields[ObjectEntityAttributeValues].Obj? then
      Some(p.fields[ObjectEntityAttributeValues].fields)
    else None
  }

  /** The raw entity deserialises wherever `convert_raw_entity` deserialises:
      every nested-form value that is not `null` is an object of sub-payloads.
      Elsewhere the `expect` at that step panics. */
  predicate EntityShaped(entity: map<string, Json>, t: Table)
    decreases Obj(entity), 3
  {
    forall k | k in OaKeys(entity) :: EntryShaped(entity, k, t)
  }

  /** The value under `key` deserialises wherever resolution needs it to. */
  predicate EntryShaped(entity: map<string, Json>, key: string, t: Table)
    requires key in entity
    decreases Obj(entity), 2
  {
    ParseOaUuid(key) in t ==> AttributeValueShaped(t[ParseOaUuid(key)], entity[key], t)
  }

  predicate AttributeValueShaped(oa: ObjectAttribute, value: Json, t: Table)
    decreases value, 1
  {
    oa.dataType == NestedForm && !value.Null? ==>
      value.Obj? && forall s | s in value.fields :: SubPayloadShaped(value.fields[s], t)
  }

  /** A sub-payload is an object whose `object_entity_attribute_values`
      field is absent, `null`, or a well-shaped entity. */
  predicate SubPayloadShaped(p: Json, t: Table)
    decreases p, 0
  {
    p.Obj? &&
    (ObjectEntityAttributeValues in p.fields ==>
       var v := p.fields[ObjectEntityAttributeValues];
       v.Null? || (v.Obj? && EntityShaped(v.fields, t)))
  }

  // ---------------------------------------------------------------------
  // Resolution

  const NotFound: string := "not found"

  /** The output key of a known attribute: `"{name} ({data_type})"`. */
  function AttributeKey(oa: ObjectAttribute): string
  {
    oa.name + " (" + DataTypeName(oa.dataType) + ")"
  }

  /** The key under which a raw `oa_…` entry appears in the output. */
  function ResolvedKey(key: string, t: Table): string
  {
    var id := ParseOaUuid(key);
    if id in t then AttributeKey(t[id]) else id
  }

  /** The keys `convert_raw_entity` reads. */
  function OaKeys(entity: map<string, Json>): set<string>
  {
    set k | k in entity && HasOaPrefix(k)
  }

  /** `.collect()` of pairs into a `HashMap`: a later pair replaces an
      earlier one with the same key. */
  function Collect(pairs: seq<(string, Json)>): (r: map<string, Json>)
    ensures r.Keys == set i | 0 <= i < |pairs| :: pairs[i].0
  {
    if pairs == [] then map[]
    else
      var n := |pairs| - 1;
      assert forall i :: 0 <= i < n ==> pairs[..n][i] == pairs[i];
      Collect(pairs[..n])[pairs[n].0 := pairs[n].1]
  }

  /** A pair that no later pair overrides keeps its value. */
  lemma {:induction false} CollectLastWins(pairs: seq<(string, Json)>, i: int)
    requires 0 <= i < |pairs|
    requires forall j :: i < j < |pairs| ==> pairs[j].0 != pairs[i].0
    ensures Collect(pairs)[pairs[i].0] == pairs[i].1
  {
    var n := |pairs| - 1;
    if i < n {
      assert forall j :: 0 <= j < n ==> pairs[..n][j] == pairs[j];
      CollectLastWins(pairs[..n], i);
    }
  }

  /** Every value in the collected map comes from a pair with that key. */
  lemma {:induction false} CollectOrigin(pairs: seq<(string, Json)>, k: string)
    requires k in Collect(pairs)
    ensures exists i :: 0 <= i < |pairs| && pairs[i].0 == k && Collect(pairs)[k] == pairs[i].1
  {
    var n := |pairs| - 1;
    if pairs[n].0 != k {
      assert forall j :: 0 <= j < n ==> pairs[..n][j] == pairs[j];
      CollectOrigin(pairs[..n], k);
      var i :| 0 <= i < n && pairs[..n][i].0 == k && Collect(pairs[..n])[k] == pairs[..n][i].1;
      assert pairs[i].0 == k && Collect(pairs)[k] == pairs[i].1;
    } else {
      assert Collect(pairs)[k] == pairs[n].1;
    }
  }

  /** There are no more entries than pairs, and exactly as many when no two
      pairs share a key. */
  lemma {:induction false} CollectSize(pairs: seq<(string, Json)>)
    ensures |Collect(pairs)| <= |pairs|
    ensures (forall i, j :: 0 <= i < j < |pairs| ==> pairs[i].0 != pairs[j].0) ==> |Collect(pairs)| == |pairs|
  {
    if pairs != [] {
      var n := |pairs| - 1;
      assert forall j :: 0 <= j < n ==> pairs[..n][j] == pairs[j];
      CollectSize(pairs[..n]);
      var prev := Collect(pairs[..n]);
      if pairs[n].0 in prev {
        assert Collect(pairs).Keys == prev.Keys;
      } else {
        assert Collect(pairs).Keys == prev.Keys + {pairs[n].0};
      }
    }
  }

  /** `process_entity_attribute`: the display key of a known attribute and
      its value resolved by data type. */
  function ProcessEntityAttribute(oa: ObjectAttribute, value: Json, t: Table): (r: (string, Json))
    requires AttributeValueShaped(oa, value, t)
    ensures r.0 == AttributeKey(oa)
    ensures oa.dataType == Picklist ==>
      && (value.Null? ==> r.1 == Null)
      && (forall i :: value.Str? && IsFirstMatch(oa.picklistOptions, value.s, i) ==> r.1 == Str(oa.picklistOptions[i].name))
      && (!value.Null? && (!value.Str? || NoMatch(oa.picklistOptions, value.s)) ==> r.1 == Str(NotFound))
    ensures oa.dataType == NestedForm ==>
      && (value.Null? ==> r.1 == Null)
      && (!value.Null? ==> r.1.Arr? && |r.1.items| == |value.fields|)
    ensures oa.dataType != Picklist && oa.dataType != NestedForm ==> r.1 == value
    decreases value, 1
  {
    var name := AttributeKey(oa);
    match oa.dataType
    case Picklist =>
      if value.Null? then (name, value)
      else
        var found := if value.Str? then FindOption(oa.picklistOptions, value.s) else None;
        (match found
         case Some(option) => (name, Str(option.name))
         case None => (name, Str(NotFound)))
    case NestedForm =>
      if value.Null? then (name, value)
      else
        var ks := SortedKeys(value.fields.Keys);
        (name, Arr(seq(|ks|, i requires 0 <= i < |ks| => SubPayloadRecord(value.fields[ks[i]], t))))
    case _ => (name, value)
  }

  /** One element of a resolved nested form: the sub-payload's record
      resolved under the same table, or the empty record when it has none. */
  function SubPayloadRecord(p: Json, t: Table): Json
    requires SubPayloadShaped(p, t)
    decreases p, 0
  {
    match SubPayloadValues(p)
    case Some(values) => Obj(ConvertRawEntity(values, t))
    case None => Obj(map[])
  }

  /** One step of `convert_raw_entity`'s map: a known id goes through
      `process_entity_attribute`; an unknown one is kept, value untouched,
      under its canonical id. */
  function ResolveEntry(key: string, value: Json, t: Table): (r: (string, Json))
    requires ParseOaUuid(key) in t ==> AttributeValueShaped(t[ParseOaUuid(key)], value, t)
    ensures r.0 == ResolvedKey(key, t)
    ensures ParseOaUuid(key) !in t ==> r.1 == value
    decreases value, 2
  {
    var id := ParseOaUuid(key);
    if id in t then ProcessEntityAttribute(t[id], value, t) else (id, value)
  }

  /** The (key, value) pairs `convert_raw_entity` collects, one per
      `oa_`-prefixed key. The source visits the entries in hash-map order,
      which is unspecified; the model visits them in ascending key order. */
  function ResolvedPairs(entity: map<string, Json>, t: Table): (r: seq<(string, Json)>)
    requires EntityShaped(entity, t)
    ensures |r| == |OaKeys(entity)|
    decreases Obj(entity), 4
  {
    var keys := SortedKeys(OaKeys(entity));
    seq(|keys|, i requires 0 <= i < |keys| =>
      assert EntryShaped(entity, keys[i], t);
      ResolveEntry(keys[i], entity[keys[i]], t))
  }

  /** `convert_raw_entity`. */
  function ConvertRawEntity(entity: map<string, Json>, t: Table): map<string, Json>
    requires EntityShaped(entity, t)
    decreases Obj(entity), 5
  {
    Collect(ResolvedPairs(entity, t))
  }

  lemma ResolvedPairsAt(entity: map<string, Json>, t: Table, i: int)
    requires EntityShaped(entity, t)
    requires 0 <= i < |OaKeys(entity)|
    ensures var keys := SortedKeys(OaKeys(entity));
      && keys[i] in OaKeys(entity)
      && EntryShaped(entity, keys[i], t)
      && ResolvedPairs(entity, t)[i] == ResolveEntry(keys[i], entity[keys[i]], t)
  {
  }

  lemma ConvertKeysResolved(entity: map<string, Json>, t: Table, key: string)
    requires EntityShaped(entity, t)
    requires key in ConvertRawEntity(entity, t)
    ensures exists k :: k in OaKeys(entity) && ResolvedKey(k, t) == key
  {
    var pairs := ResolvedPairs(entity, t);
    var i :| 0 <= i < |pairs| && pairs[i].0 == key;
    ResolvedPairsAt(entity, t, i);
  }

  lemma ConvertKeysPresent(entity: map<string, Json>, t: Table, k: string)
    requires EntityShaped(entity, t)
    requires k in OaKeys(entity)
    ensures ResolvedKey(k, t) in ConvertRawEntity(entity, t)
  {
    var keys := SortedKeys(OaKeys(entity));
    assert k in keys;
    var i :| 0 <= i < |keys| && keys[i] == k;
    ResolvedPairsAt(entity, t, i);
    assert ResolvedPairs(entity, t)[i].0 == ResolvedKey(k, t);
  }

  /** Keys without the `oa_` prefix are dropped, and every other key appears
      under its resolved key. */
  lemma ConvertKeys(entity: map<string, Json>, t: Table)
    requires EntityShaped(entity, t)
    ensures ConvertRawEntity(entity, t).Keys == set k | k in OaKeys(entity) :: ResolvedKey(k, t)
  {
    forall key | key in ConvertRawEntity(entity, t)
      ensures exists k :: k in OaKeys(entity) && ResolvedKey(k, t) == key
    {
      ConvertKeysResolved(entity, t, key);
    }
    forall k | k in OaKeys(entity)
      ensures ResolvedKey(k, t) in ConvertRawEntity(entity, t)
    {
      ConvertKeysPresent(entity, t, k);
    }
  }

  /** An entity with no `oa_` key resolves to the empty map. */
  lemma ConvertWithoutOaKeys(entity: map<string, Json>, t: Table)
    requires EntityShaped(entity, t)
    requires forall k | k in entity :: !HasOaPrefix(k)
    ensures ConvertRawEntity(entity, t) == map[]
  {
    ConvertKeys(entity, t);
    assert OaKeys(entity) == {};
  }

  /** Keys without the `oa_` prefix are never read: changing or adding one
      changes nothing. */
  lemma ConvertIgnoresOtherKeys(entity: map<string, Json>, t: Table, k: string, v: Json)
    requires EntityShaped(entity, t)
    requires !HasOaPrefix(k)
    ensures EntityShaped(entity[k := v], t)
    ensures ConvertRawEntity(entity[k := v], t) == ConvertRawEntity(entity, t)
  {
    var e' := entity[k := v];
    assert OaKeys(e') == OaKeys(entity);
    forall k' | k' in OaKeys(e')
      ensures EntryShaped(e', k', t)
    {
      assert EntryShaped(entity, k', t);
      assert e'[k'] == entity[k'];
    }
    assert ResolvedPairs(e', t) == ResolvedPairs(entity, t) by {
      var keys := SortedKeys(OaKeys(entity));
      forall i | 0 <= i < |keys|
        ensures ResolvedPairs(e', t)[i] == ResolvedPairs(entity, t)[i]
      {
        ResolvedPairsAt(e', t, i);
        ResolvedPairsAt(entity, t, i);
      }
    }
  }

  /** The `oa_` keys, listed in the model's visiting order, are pairwise distinct. */
  lemma SortedKeysDistinct(s: set<string>)
    ensures forall i, j :: 0 <= i < j < |SortedKeys(s)| ==> SortedKeys(s)[i] != SortedKeys(s)[j]
  {
    var ks := SortedKeys(s);
    forall i, j | 0 <= i < j < |ks|
      ensures ks[i] != ks[j]
    {
      if ks[i] == ks[j] {
        BelowIrreflexive(ks[i]);
      }
    }
  }

  /** At most one entry per `oa_` key, and exactly one each when no two of
      them resolve to the same key. */
  lemma ConvertSize(entity: map<string, Json>, t: Table)
    requires EntityShaped(entity, t)
    ensures |ConvertRawEntity(entity, t)| <= |OaKeys(entity)|
    ensures (forall k, k' | k in OaKeys(entity) && k' in OaKeys(entity) && k != k' :: ResolvedKey(k, t) != ResolvedKey(k', t))
            ==> |ConvertRawEntity(entity, t)| == |OaKeys(entity)|
  {
    var pairs := ResolvedPairs(entity, t);
    CollectSize(pairs);
    if forall k, k' | k in OaKeys(entity) && k' in OaKeys(entity) && k != k' :: ResolvedKey(k, t) != ResolvedKey(k', t) {
      var keys := SortedKeys(OaKeys(entity));
      SortedKeysDistinct(OaKeys(entity));
      forall i, j | 0 <= i < j < |pairs|
        ensures pairs[i].0 != pairs[j].0
      {
        ResolvedPairsAt(entity, t, i);
        ResolvedPairsAt(entity, t, j);
      }
    }
  }

  /** An `oa_` key whose resolved key no other `oa_` key shares appears
      under that key with its resolved value. */
  lemma ConvertUniqueEntry(entity: map<string, Json>, t: Table, k: string)
    requires EntityShaped(entity, t)
    requires k in OaKeys(entity)
    requires forall k' | k' in OaKeys(entity) && k' != k :: ResolvedKey(k', t) != ResolvedKey(k, t)
    ensures EntryShaped(entity, k, t)
    ensures ResolvedKey(k, t) in ConvertRawEntity(entity, t)
    ensures ConvertRawEntity(entity, t)[ResolvedKey(k, t)] == ResolveEntry(k, entity[k], t).1
  {
    var keys := SortedKeys(OaKeys(entity));
    var pairs := ResolvedPairs(entity, t);
    SortedKeysDistinct(OaKeys(entity));
    assert k in keys;
    var i :| 0 <= i < |keys| && keys[i] == k;
    ResolvedPairsAt(entity, t, i);
    forall j | i < j < |pairs|
      ensures pairs[j].0 != pairs[i].0
    {
      ResolvedPairsAt(entity, t, j);
    }
    CollectLastWins(pairs, i);
    ConvertKeys(entity, t);
  }

  /** Every output entry is the resolution of some `oa_` key. */
  lemma ConvertEntryOrigin(entity: map<string, Json>, t: Table, key: string)
    requires EntityShaped(entity, t)
    requires key in ConvertRawEntity(entity, t)
    ensures exists k :: k in OaKeys(entity) && EntryShaped(entity, k, t) && ResolvedKey(k, t) == key &&
                        ConvertRawEntity(entity, t)[key] == ResolveEntry(k, entity[k], t).1
  {
    var keys := SortedKeys(OaKeys(entity));
    var pairs := ResolvedPairs(entity, t);
    CollectOrigin(pairs, key);
    var i :| 0 <= i < |pairs| && pairs[i].0 == key && Collect(pairs)[key] == pairs[i].1;
    ResolvedPairsAt(entity, t, i);
  }

  /** An unknown id is kept under its canonical id (not the raw `oa_…` key),
      its value untouched. */
  lemma UnknownIdKept(entity: map<string, Json>, t: Table, k: string)
    requires EntityShaped(entity, t)
    requires k in OaKeys(entity) && ParseOaUuid(k) !in t
    requires forall k' | k' in OaKeys(entity) && k' != k :: ResolvedKey(k', t) != ResolvedKey(k, t)
    ensures ParseOaUuid(k) in ConvertRawEntity(entity, t)
    ensures ConvertRawEntity(entity, t)[ParseOaUuid(k)] == entity[k]
  {
    ConvertUniqueEntry(entity, t, k);
  }

  /** A known id is renamed to `"{name} ({data_type})"` and its value resolved
      by data type. */
  lemma KnownIdRenamed(entity: map<string, Json>, t: Table, k: string)
    requires EntityShaped(entity, t)
    requires k in OaKeys(entity) && ParseOaUuid(k) in t
    requires forall k' | k' in OaKeys(entity) && k' != k :: ResolvedKey(k', t) != ResolvedKey(k, t)
    ensures var oa := t[ParseOaUuid(k)];
      && AttributeValueShaped(oa, entity[k], t)
      && AttributeKey(oa) in ConvertRawEntity(entity, t)
      && ConvertRawEntity(entity, t)[AttributeKey(oa)] == ProcessEntityAttribute(oa, entity[k], t).1
  {
    ConvertUniqueEntry(entity, t, k);
  }

  /** `ks` lists the keys of `fields` once each, and `items[i]` is the
      record of sub-payload `ks[i]`. */
  predicate EnumeratesSubPayloads(ks: seq<string>, fields: map<string, Json>, items: seq<Json>, t: Table)
    requires forall s | s in fields :: SubPayloadShaped(fields[s], t)
  {
    && |ks| == |items|
    && (forall s | s in fields :: s in ks)
    && (forall i, j :: 0 <= i < j < |ks| ==> ks[i] != ks[j])
    && (forall i :: 0 <= i < |ks| ==> ks[i] in fields && items[i] == SubPayloadRecord(fields[ks[i]], t))
  }

  /** A resolved nested form lists every sub-payload exactly once (in an
      order the source leaves unspecified), each resolved on its own. */
  lemma NestedFormRecords(oa: ObjectAttribute, value: Json, t: Table)
    requires oa.dataType == NestedForm && !value.Null?
    requires AttributeValueShaped(oa, value, t)
    ensures var r := ProcessEntityAttribute(oa, value, t).1;
      && r.Arr? && |r.items| == |value.fields|
      && exists ks :: EnumeratesSubPayloads(ks, value.fields, r.items, t)
  {
    var ks := SortedKeys(value.fields.Keys);
    var items := seq(|ks|, i requires 0 <= i < |ks| => SubPayloadRecord(value.fields[ks[i]], t));
    assert ProcessEntityAttribute(oa, value, t).1 == Arr(items);
    SortedKeysDistinct(value.fields.Keys);
    assert EnumeratesSubPayloads(ks, value.fields, items, t);
  }
}
