# json-replacer in Dafny

json-replacer rewrites the JSON of a records service into a readable form.
The reference document lists the object attributes: id, name, data type and picklist options.
Loading it gives an attribute table keyed by id.
The table is then used for three kinds of input:

- a search payload: attribute ids, a search query and an entity;
- a search response: a list of entity records;
- a single entity record.

In an entity record, only the `oa_…` keys are kept.
The key of an attribute in the table becomes `"<name> (<data type>)"`.
The key of an unknown attribute becomes its canonical id, with its value unchanged.
A picklist option id becomes the option's name.
A nested form becomes the list of its sub-records, each converted in the same way.
A search query becomes a prefix expression, for example `(AND (equal Type_Name "x"))`.

The model has nine modules:

| file | module | stands for |
|---|---|---|
| `results.dfy` | `Results` | `Option` and the `anyhow::Result` of the adapters |
| `strings.dfy` | `Strings` | `join`, and the ascending key order used wherever a hash map is iterated |
| `json_value.dfy` | `JsonValue` | `serde_json::Value` and the compact text its `Display` writes |
| `parse.dfy` | `Parse` | `src/parse.rs`: the data types, `parse_oa_uuid`, `process_entity_attribute`, `convert_raw_entity` |
| `payload.dfy` | `Payload` | `src/parse/payload.rs`: picklist values, the query printer, the payload adapter |
| `parens.dfy` | `Parens` | parenthesis depth, used to prove that a printed query is balanced when no name or value in it holds a parenthesis |
| `reference.dfy` | `Reference` | `src/parse/reference.rs`: the loader, as a method with a loop |
| `response.dfy`, `object_entity.dfy` | `Response`, `ObjectEntityAdapter` | the response adapter and the single-entity adapter |

The attribute table is a value (`Parse.Table`), so no operation can change it.
The source iterates hash maps in an unspecified order.
The model uses ascending key order instead.
No lemma depends on which entry wins when two entries collide.

## Model

| member | source | states |
|---|---|---|
| Parse.DisplayedNameReadsBack | src/parse.rs:18-70 | the `Display` name of every data type deserialises back to that type, except `rich_textarea`, whose serde tag is `richtextarea` |
| Parse.DataTypeNameInjective | src/parse.rs:44-70 | no two data types display alike |
| Parse.DataTypeName | src/parse.rs:44-70 | defined as the 21 `Display` names, one per data type |
| Parse.WireDataType | src/parse.rs:18-42 | defined as the serde `snake_case` tag of each data type, read back; any other text is no data type |
| Parse.TrimOaPrefixRemovesRepetitions | src/parse.rs:147 | `trim_start_matches("oa_")` removes exactly the leading repetitions of `oa_`; what is left does not start with `oa_` |
| Parse.HyphenateUnderscoresAt | src/parse.rs:147 | `replace("_", "-")` keeps the length, turns every `_` into `-` and changes nothing else |
| Parse.ParseOaUuidCanonical | src/parse.rs:146-148 | an attribute id never holds `_`, and converting it again gives the same id |
| Parse.TrimOaPrefix | src/parse.rs:147 | defined as `trim_start_matches("oa_")`: drops `oa_` while the key starts with it |
| Parse.HyphenateUnderscores | src/parse.rs:147 | defined as `replace("_", "-")`, character by character |
| Parse.ParseOaUuid | src/parse.rs:146-148 | defined as the key with the leading `oa_` repetitions trimmed, then every `_` replaced by `-` |
| Parse.FindOption | src/parse.rs:168 | `find` returns the first option with that id, and nothing exactly when no option has it |
| Parse.AttributeKey | src/parse.rs:156 | defined as `"<name> (<data type display name>)"` |
| Parse.ProcessEntityAttribute | src/parse.rs:150-200 | the key is `"<name> (<data type>)"`; picklist: `null` stays, the first matching option's name, otherwise `"not found"`; nested form: `null` stays, otherwise one record per sub-payload; any other type: the value unchanged |
| Parse.NestedFormRecords | src/parse.rs:179-197 | a nested-form value becomes an array holding, for each sub-payload exactly once, its converted `object_entity_attribute_values`, or `{}` when there are none |
| Parse.SubPayloadRecord | src/parse.rs:187-190 | defined as the sub-payload's `object_entity_attribute_values` converted with the same table, or `{}` when that field is absent or `null` |
| Parse.ResolveEntry | src/parse.rs:209-216 | an entry goes under its resolved key; an unknown id keeps its value |
| Parse.ResolvedPairs | src/parse.rs:206-216 | one resolved pair per `oa_` key, in ascending key order |
| Parse.Collect | src/parse.rs:217 | the key set of `collect()` is exactly the set of the pairs' keys; a later pair replaces an earlier one |
| Parse.ConvertRawEntity | src/parse.rs:202-218 | defined as `Collect` of `ResolvedPairs`; its properties are the `Convert…` lemmas below |
| Parse.CollectLastWins | src/parse.rs:217 | in `collect()` into a map, a pair that no later pair overrides keeps its value |
| Parse.CollectOrigin | src/parse.rs:217 | every collected value comes from a pair with that key |
| Parse.CollectSize | src/parse.rs:217 | at most one entry per pair, and exactly one each when the keys are distinct |
| Parse.ConvertKeys | src/parse.rs:202-218 | the output keys are exactly the resolved keys of the `oa_` entries |
| Parse.ConvertWithoutOaKeys | src/parse.rs:208 | an entity with no `oa_` key converts to the empty map |
| Parse.ConvertIgnoresOtherKeys | src/parse.rs:208 | adding or changing a key without `oa_` leaves the result unchanged |
| Parse.ConvertSize | src/parse.rs:202-218 | at most one output entry per `oa_` key, and exactly one each when no two of them resolve to the same key |
| Parse.ConvertUniqueEntry | src/parse.rs:209-217 | an `oa_` key whose resolved key is unshared appears with its resolved value |
| Parse.ConvertEntryOrigin | src/parse.rs:206-217 | every output entry is the resolution of some `oa_` entry |
| Parse.UnknownIdKept | src/parse.rs:210-216 | an entry of an unknown id appears under its id with its value untouched |
| Parse.KnownIdRenamed | src/parse.rs:210-211 | an entry of a known id appears under `"<name> (<data type>)"` with the value `process_entity_attribute` gives |
| Payload.PicklistLabel | src/parse/payload.rs:22-33 | a string option id becomes the name of the first option with that id, otherwise `"not_found_picklist_label"` |
| Payload.ProcessPicklistOaValue | src/parse/payload.rs:19-54 | a string is looked up; an array is looked up element by element, keeping the length; any other value becomes the fixed "not implemented" text |
| Payload.PicklistArrayElementwise | src/parse/payload.rs:35-51 | element `i` of a translated array is the translation of element `i` on its own |
| Payload.PicklistLabelsFromOptions | src/parse/payload.rs:19-54 | a string result is an option name of the attribute or one of the two fixed texts |
| Payload.ConditionOperatorTokenReadsBack | src/parse/payload.rs:103-135 | every condition operator's token reads back as that operator |
| Payload.ConditionOperatorTokenInjective | src/parse/payload.rs:103-135 | no two condition operators print alike |
| Payload.OperatorTokensDistinct | src/parse/payload.rs:62-66 | group tokens are distinct and differ from every condition token |
| Payload.GroupOperatorToken | src/parse/payload.rs:62-66 | defined as `AND`, `OR`, `NOT` |
| Payload.ConditionOperatorToken | src/parse/payload.rs:103-135 | defined as the 31-entry token table, one token per condition operator |
| Payload.AttributeName | src/parse/payload.rs:137-148 | the attribute's name, or `"not_found"` for an unknown id |
| JsonValue.EscapeChar | src/parse/payload.rs:152 | states that a character is written as itself exactly when it needs no escape; defined as: quote and backslash are backslash-escaped, `\n`, `\r`, `\t`, `\b`, `\f` use their short forms, other control characters are `\u00XX` in lower-case hex |
| JsonValue.Escape | src/parse/payload.rs:152 | defined as every character escaped in turn |
| JsonValue.Render | src/parse/payload.rs:152 | defined as compact JSON: `null`, `true`/`false`, decimal integers (within the i64/u64 range that serde_json keeps as integers), quoted escaped strings, arrays and objects with commas and no spaces, object keys ascending |
| JsonValue.RenderPlainString | src/parse/payload.rs:152 | a string with nothing to escape is printed between plain quotes |
| Payload.ConditionValue | src/parse/payload.rs:137-149 | a value is present exactly when the condition has one |
| Payload.ConditionRendering | src/parse/payload.rs:137-158 | a condition prints as `(<op> <name>)` without a value and `(<op> <name> <value as JSON>)` with one; the value is translated only for a known picklist attribute |
| Payload.ConditionArgs | src/parse/payload.rs:151-154 | defined as the name alone without a value, or the name, a space and the value's JSON text |
| Payload.ConditionExpr | src/parse/payload.rs:156 | defined as `(`, the operator token, a space, the arguments, `)` |
| Payload.ConditionsExpr | src/parse/payload.rs:96-163 | defined as the conditions' expressions in input order, joined by single spaces |
| Payload.GroupExpr | src/parse/payload.rs:56-83 | defined as `(`, the group token, ` conditions` if the group has a condition list, ` children` if it has a child list, `)` |
| Payload.ChildrenExpr | src/parse/payload.rs:85-94 | defined as the child groups' expressions in input order, joined by single spaces |
| Payload.ParseSearchQueryGroup | src/parse/payload.rs:56-83 | the pushed parts joined by spaces inside parentheses equal the group's expression |
| Payload.EmptyGroup | src/parse/payload.rs:60-80 | a group with no conditions and no children prints as `(<op>)` |
| Payload.GroupDelimited | src/parse/payload.rs:60-80 | a group's text opens with `(` and its operator and closes with `)` |
| Payload.ParseSearchQuery | src/parse/payload.rs:165-177 | printing a query never fails |
| Payload.SingleGroupQuery | src/parse/payload.rs:169-174 | a query of one group prints as that group |
| Payload.ConditionWrapped | src/parse/payload.rs:151-156 | a condition prints as one parenthesised unit when names and values hold no parenthesis |
| Payload.GroupWrapped | src/parse/payload.rs:56-94 | when no attribute name, option name, string value or object key in the table or the group holds a parenthesis, every group, nested children included, prints as one parenthesised unit |
| Payload.QueryBalanced | src/parse/payload.rs:165-177 | when no attribute name, option name, string value or object key in the table or the query holds a parenthesis, the whole printed query has balanced parentheses |
| Payload.ObjectAttributeLabel | src/parse/payload.rs:188-195 | defined as `"<name>, <id>"`, with `not_found` as the name of an unknown id |
| Payload.ParsePayload | src/parse/payload.rs:179-219 | never fails; each of the three keys is present exactly when its part of the payload is; `object_attributes` holds `"<name>, <id>"` per id in order; `search_query` holds the printed query; the entity is converted |
| Payload.UnknownOptionScenario | tests/integrate_test.rs:44-58 | a known picklist attribute whose option is missing prints as `"<name>, <id>"` and `(AND (equal <name> "not_found_picklist_label"))` |
| Reference.PicklistOptionsFromIds | src/parse/reference.rs:56-76 | an included option id yields the included record's id and name; a missing one yields that id named `"not_found"` |
| Reference.ResolvePicklistOptions | src/parse/reference.rs:56-76 | one option per relationship id, in order; none when the relationship has no data |
| Reference.LoadTable | src/parse/reference.rs:55-83 | defined as the table after the records taken in order, where a record whose id is present is skipped |
| Reference.ParseReference | src/parse/reference.rs:52-87 | the loop builds exactly the first-wins table of the records, and never fails |
| Reference.LoadTableKeys | src/parse/reference.rs:78 | the table's keys are exactly the records' ids |
| Reference.LoadTableFirstWins | src/parse/reference.rs:78-83 | the first record with an id decides its entry; later duplicates change nothing |
| Reference.ParseReferenceFirstWins | src/parse/reference.rs:52-87 | the loaded table has the records' ids as keys, and each entry is built from the first record carrying that id |
| Response.ParseResponse | src/parse/response.rs:14-25 | never fails, and there is one converted record per response record |
| Response.ParseResponseAt | src/parse/response.rs:18-22 | record `i` of the result is record `i` converted on its own |
| Response.ParseResponseAppend | src/parse/response.rs:18-22 | converting two parts of a response and concatenating gives the conversion of the whole |
| ObjectEntityAdapter.ParseObjectEntity | src/parse/object_entity.rs:9-14 | converting a single entity never fails |
| ObjectEntityAdapter.ParseObjectEntitySize | src/parse/object_entity.rs:13 | when no two `oa_` keys resolve to the same key, the converted entity has exactly as many entries as there are `oa_` keys |
| ObjectEntityAdapter.ResponseRecordAlone | src/parse/response.rs:21 | a response record converts as that record would when given alone |

## Left out

- `src/main.rs` is not part of this model. It calls a `Cli`, `Config` and `run` that `src/lib.rs` does not define.
- `src/wasm.rs` is not part of this model. It converts JavaScript values with `serde_wasm_bindgen` and calls the four `lib.rs` functions.
- `src/lib.rs` is not part of this model. It only forwards to the four `parse` functions.
- `src/json.rs` and `src/json/*` are not part of this model. They are an older version of the same conversion (the `oa_` filter and canonical ids, the picklist lookup, the id-to-name lookup, loading the table from a file). `src/lib.rs` declares no `mod json`, so none of it is compiled.
- Deserialisation from text is not modelled. Inputs are already-parsed values, and `null` for an `Option` field reads as absent.
- The `println!` diagnostics are not modelled. They only write to the console.
- Numbers: `Num` stands for an integer in serde_json's i64/u64 range only. A larger integer literal is read by serde_json as an f64 and printed in floating-point form; that, and floating-point numbers in general, are not modelled.
- Hash-map iteration order is unspecified in the source. The model iterates in ascending key order. The nested-form array order and which entry wins a key collision in `convert_raw_entity` are therefore only one possible order.
- Objects render with their keys in ascending order. That is `serde_json::Map` without the `preserve_order` feature. `Cargo.toml` is not part of this model.
- Parse.ConvertRawEntity: the `expect("failed to parse nested_form")` panic becomes the precondition `EntityShaped`. That precondition requires each sub-payload to be a JSON object, and checks only its `object_entity_attribute_values` field. A sub-payload whose `object_attribute_ids` or `search_query` field is malformed makes the source panic but satisfies the precondition. serde also builds a sub-payload from a three-element array (`[ids, query, values]`); the source accepts that form and the precondition excludes it.
- The second `expect` (`to_value` of the converted records) cannot fail on string-keyed maps, so it is not modelled.
- `SearchQueryGroup.children`, an `Option<Vec<…>>`, is the datatype `Parse.OptionalChildren`. The shape is the same; the separate type lets the recursion visibly terminate.
- The data type `Richtextarea` displays as `rich_textarea`, but its serde tag is `richtextarea`. `Parse.DisplayedNameReadsBack` states this as written. It is not reported as a defect, because nothing in the repository round-trips the name.
- The test fixtures (`tests/common`, the `*.json` files) are not part of this model. `Payload.UnknownOptionScenario` restates the payload test for any attribute in that situation.
