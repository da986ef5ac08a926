/** `src/parse/reference.rs`: the reference loader, which builds the
    attribute table (id to name, data type and picklist options) from the
    attribute records of a reference document and the side table of included
    picklist-option records. */
module Reference {
  import opened Results
  import opened Parse

  /** An included picklist-option record: its own id and its display name. */
  datatype IncludedRecord = IncludedRecord(id: string, name: string)

  /** One attribute record of the reference document. `picklistOptionIds` is
      the relationship's `data` list of option ids, `None` when absent. */
  datatype RawAttribute = RawAttribute(
    id: string,
    name: string,
    dataType: DataType,
    picklistOptionIds: Option<seq<string>>)

  datatype ReferenceDocument = ReferenceDocument(data: seq<RawAttribute>, included: map<string, IncludedRecord>)

  const NotFoundOptionName: string := "not_found"

  /** One picklist option: taken from the included record when the id has
      one, a placeholder named `not_found` otherwise. */
  function ResolvePicklistOption(included: map<string, IncludedRecord>, optionId: string): PicklistOption
  {
    if optionId in included then
      PicklistOption(included[optionId].id, included[optionId].name)
    else
      PicklistOption(optionId, NotFoundOptionName)
  }

  /** The options of one attribute record, one per relationship id and in
      the same order; no ids when the relationship has no data. */
  function ResolvePicklistOptions(included: map<string, IncludedRecord>, ids: Option<seq<string>>): (r: seq<PicklistOption>)
    ensures ids.None? ==> r == []
    ensures ids.Some? ==> |r| == |ids.value|
  {
    match ids
    case None => []
    case Some(xs) => seq(|xs|, i requires 0 <= i < |xs| => ResolvePicklistOption(included, xs[i]))
  }

  /** Each option comes from its relationship id: an included id yields the
      included record's id and name (which need not equal the lookup key),
      a missing one yields that id with the name `not_found`. */
  lemma PicklistOptionsFromIds(included: map<string, IncludedRecord>, ids: seq<string>, i: int)
    requires 0 <= i < |ids|
    ensures var o := ResolvePicklistOptions(included, Some(ids))[i];
      && (ids[i] in included ==> o.id == included[ids[i]].id && o.name == included[ids[i]].name)
      && (ids[i] !in included ==> o.id == ids[i] && o.name == NotFoundOptionName)
  {
  }

  /** The table entry built from one attribute record. Options are resolved
      whatever the data type. */
  function EntryOf(raw: RawAttribute, included: map<string, IncludedRecord>): ObjectAttribute
  {
    ObjectAttribute(raw.dataType, raw.name, ResolvePicklistOptions(included, raw.picklistOptionIds))
  }

  /** Record `i` is the first record with its id. */
  predicate FirstWithId(data: seq<RawAttribute>, i: int)
    requires 0 <= i < |data|
  {
    forall j :: 0 <= j < i ==> data[j].id != data[i].id
  }

  /** The ids of the records. */
  function Ids(data: seq<RawAttribute>): set<string>
  {
    set i | 0 <= i < |data| :: data[i].id
  }

  /** The table the loader holds after the records `data`, taken in order:
      a record whose id is already present is skipped. */
  function LoadTable(data: seq<RawAttribute>, included: map<string, IncludedRecord>): Table
    decreases |data|
  {
    if data == [] then map[]
    else
      var t := LoadTable(data[..|data| - 1], included);
      var last := data[|data| - 1];
      if last.id in t then t else t[last.id := EntryOf(last, included)]
  }

  /** Every record's id has an entry, and nothing else does. */
  lemma {:induction false} LoadTableKeys(data: seq<RawAttribute>, included: map<string, IncludedRecord>)
    ensures LoadTable(data, included).Keys == Ids(data)
    decreases |data|
  {
    if data != [] {
      var n := |data| - 1;
      LoadTableKeys(data[..n], included);
      assert forall i :: 0 <= i < n ==> data[..n][i] == data[i];
      assert Ids(data) == Ids(data[..n]) + {data[n].id};
    } else {
      assert Ids(data) == {};
    }
  }

  /** The first record with an id decides that id's entry; later records
      with the same id change nothing. */
  lemma {:induction false} LoadTableFirstWins(data: seq<RawAttribute>, included: map<string, IncludedRecord>, i: int)
    requires 0 <= i < |data| && FirstWithId(data, i)
    ensures data[i].id in LoadTable(data, included)
    ensures LoadTable(data, included)[data[i].id] == EntryOf(data[i], included)
    decreases |data|
  {
    var n := |data| - 1;
    var prefix := data[..n];
    LoadTableKeys(prefix, included);
    if i < n {
      assert prefix[i] == data[i];
      assert FirstWithId(prefix, i);
      LoadTableFirstWins(prefix, included, i);
    }
  }

  /** `parse`: walks the records in order and inserts each record's entry
      unless its id is already in the table. It never fails. */
  method ParseReference(raw: ReferenceDocument) returns (r: Result<Table>)
    ensures r.Ok?
    ensures r.value == LoadTable(raw.data, raw.included)
  {
    var table: Table := map[];
    for k := 0 to |raw.data|
      invariant table == LoadTable(raw.data[..k], raw.included)
    {
      var oa := raw.data[k];
      var options := ResolvePicklistOptions(raw.included, oa.picklistOptionIds);
      assert raw.data[..k + 1][..k] == raw.data[..k];
      if oa.id !in table {
        table := table[oa.id := ObjectAttribute(oa.dataType, oa.name, options)];
      }
    }
    assert raw.data[..|raw.data|] == raw.data;
    r := Ok(table);
  }

  /** The loaded table has exactly the records' ids as keys, and each id's
      entry is built from the first record that carries it. */
  lemma ParseReferenceFirstWins(raw: ReferenceDocument, i: int)
    requires 0 <= i < |raw.data| && FirstWithId(raw.data, i)
    ensures LoadTable(raw.data, raw.included).Keys == Ids(raw.data)
    ensures LoadTable(raw.data, raw.included)[raw.data[i].id] == EntryOf(raw.data[i], raw.included)
  {
    LoadTableKeys(raw.data, raw.included);
    LoadTableFirstWins(raw.data, raw.included, i);
  }
}
