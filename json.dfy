/**
 * JSON values as both `json.loads` (the dev server) and `JSON.parse` (the browser scripts)
 * deliver them. Numbers keep the distinction Python makes between integers and floats;
 * `NaN` and `Infinity` are literals Python's parser accepts and JavaScript's does not.
 */
module Json {
  import opened Wrappers

  datatype Json =
    | JNull
    | JBool(b: bool)
    | JInt(i: int)
    | JFloat(r: real)
    | JNonFinite
    | JString(s: string)
    | JArray(items: seq<Json>)
    | JObject(members: seq<(string, Json)>)

  /**
   * The value stored under `key` in an object's members. When a key is repeated,
   * both parsers keep the last occurrence.
   */
  function Get(members: seq<(string, Json)>, key: string): (r: Option<Json>)
    ensures r.None? <==> forall k :: 0 <= k < |members| ==> members[k].0 != key
    ensures r.Some? ==>
      exists k :: 0 <= k < |members| && members[k] == (key, r.value)
        && (forall l :: k < l < |members| ==> members[l].0 != key)
  {
    if members == [] then None
    else if members[|members| - 1].0 == key then Some(members[|members| - 1].1)
    else Get(members[..|members| - 1], key)
  }

  /** `data.field` in JavaScript, or `body.get(field)` in Python: absent unless `data` is an object holding it. */
  function Field(data: Json, key: string): Option<Json>
  {
    if data.JObject? then Get(data.members, key) else None
  }

  /** `Number.isFinite(v)`: true exactly for a JSON number. */
  predicate IsFiniteNumber(v: Json) {
    v.JInt? || v.JFloat?
  }

  /** The numeric value of a finite JSON number. */
  function NumberValue(v: Json): real
    requires IsFiniteNumber(v)
  {
    if v.JInt? then v.i as real else v.r
  }
}
