/** `src/parse/response.rs`: a search response is a list of entity records,
    each converted on its own with the attribute table. */
module Response {
  import opened Results
  import opened JsonValue
  import opened Parse

  datatype Response = Response(data: seq<ObjectEntity>)

  /** Every record can be converted (see `Parse.EntityShaped`). */
  predicate ResponseShaped(resp: Response, t: Table)
  {
    forall i :: 0 <= i < |resp.data| ==> EntityShaped(resp.data[i].attributes, t)
  }

  /** `parse`: converts each record, keeping the records' order. */
  function ParseResponse(resp: Response, t: Table): (r: Result<seq<map<string, Json>>>)
    requires ResponseShaped(resp, t)
    ensures r.Ok? && |r.value| == |resp.data|
  {
    Ok(seq(|resp.data|, i requires 0 <= i < |resp.data| => ConvertRawEntity(resp.data[i].attributes, t)))
  }

  /** Record `i` of the result is record `i` of the response converted on
      its own: no record sees another. */
  lemma ParseResponseAt(resp: Response, t: Table, i: int)
    requires ResponseShaped(resp, t)
    requires 0 <= i < |resp.data|
    ensures ParseResponse(resp, t).value[i] == ConvertRawEntity(resp.data[i].attributes, t)
  {
  }

  /** Converting a response split in two and concatenating the results is
      converting the whole response. */
  lemma ParseResponseAppend(a: Response, b: Response, t: Table)
    requires ResponseShaped(a, t) && ResponseShaped(b, t)
    ensures ResponseShaped(Response(a.data + b.data), t)
    ensures ParseResponse(Response(a.data + b.data), t).value
         == ParseResponse(a, t).value + ParseResponse(b, t).value
  {
    var ab := Response(a.data + b.data);
    assert forall i :: 0 <= i < |ab.data| ==>
      ab.data[i] == if i < |a.data| then a.data[i] else b.data[i - |a.data|];
  }
}
