/** `src/parse/object_entity.rs`: one entity record converted with the
    attribute table. */
module ObjectEntityAdapter {
  import opened Results
  import opened JsonValue
  import opened Parse
  import Response

  /** `parse`: the record's attribute map converted; it never fails. */
  function ParseObjectEntity(entity: map<string, Json>, t: Table): (r: Result<map<string, Json>>)
    requires EntityShaped(entity, t)
    ensures r.Ok?
  {
    Ok(ConvertRawEntity(entity, t))
  }

  /** The converted record has one entry per `oa_` key, provided no two of
      those keys resolve to the same output key; other keys are dropped. */
  lemma ParseObjectEntitySize(entity: map<string, Json>, t: Table)
    requires EntityShaped(entity, t)
    requires forall k, k' | k in OaKeys(entity) && k' in OaKeys(entity) && k != k' ::
               ResolvedKey(k, t) != ResolvedKey(k', t)
    ensures |ParseObjectEntity(entity, t).value| == |OaKeys(entity)|
  {
    ConvertSize(entity, t);
  }

  /** Record `i` of a converted search response is what this adapter
      makes of that record given alone. */
  lemma ResponseRecordAlone(resp: Response.Response, t: Table, i: int)
    requires Response.ResponseShaped(resp, t)
    requires 0 <= i < |resp.data|
    ensures Response.ParseResponse(resp, t).value[i] == ParseObjectEntity(resp.data[i].attributes, t).value
  {
    Response.ParseResponseAt(resp, t, i);
  }
}
