/** The parsed JSON value a descriptor loader receives, and the field accessors
    the loaders share.  Numbers, booleans and null are never accepted where a
    descriptor expects a string, an array or an object, so they are one case. */
module Json {
  import opened Results

  datatype Json =
    | JString(str: string)
    | JArray(items: seq<Json>)
    | JObject(fields: map<string, Json>)
    | JOther

  /** A validation failure; `key` is the descriptor path named in the message,
      such as "_REPO::type" or "_FILES::filename". */
  datatype MetaError =
    | Missing(key: string)          // "missing ... key"
    | NotString(key: string)        // "... must be type string"
    | NotArray(key: string)         // "... must be type array"
    | NotStringArray(key: string)   // "... must be an array of strings"
    | NotObjectArray(key: string)   // "... must be an array of objects"
    | BadRepoType                   // "invalid _REPO::type value"

  /** `key` looked up in an object; a non-object has no members. */
  function Member(j: Json, key: string): (r: Option<Json>)
    ensures r.Some? <==> j.JObject? && key in j.fields
    ensures r.Some? ==> r.value == j.fields[key]
  {
    if j.JObject? && key in j.fields then Some(j.fields[key]) else None
  }

  /** A required string member: missing and mistyped are distinct errors. */
  function StringMember(j: Json, key: string, path: string): (r: Result<string, MetaError>)
    ensures r.Ok? <==> Member(j, key).Some? && Member(j, key).value.JString?
    ensures r.Ok? ==> Member(j, key) == Some(JString(r.value))
    ensures r.Err? ==> r.error == (if Member(j, key).None? then Missing(path) else NotString(path))
  {
    match Member(j, key)
    case None => Err(Missing(path))
    case Some(v) => if v.JString? then Ok(v.str) else Err(NotString(path))
  }

  /** True when every item is a string. */
  predicate AllStrings(items: seq<Json>)
  {
    forall i :: 0 <= i < |items| ==> items[i].JString?
  }

  /** The leading run of string items, up to (not including) the first
      non-string: what an element-by-element loader has appended when it stops. */
  function StringPrefix(items: seq<Json>): (r: seq<string>)
    ensures |r| <= |items|
    ensures forall i :: 0 <= i < |r| ==> items[i] == JString(r[i])
    ensures |r| < |items| ==> !items[|r|].JString?
    decreases |items|
  {
    if items == [] || !items[0].JString? then []
    else [items[0].str] + StringPrefix(items[1..])
  }

  /** The strings of an all-string array, in order. */
  function Strings(items: seq<Json>): (r: seq<string>)
    requires AllStrings(items)
    ensures |r| == |items|
    ensures forall i :: 0 <= i < |items| ==> items[i] == JString(r[i])
  {
    StringPrefix(items)
  }

  /** The JSON array holding the given strings, as a serialiser writes a name list. */
  function StringArray(names: seq<string>): (r: seq<Json>)
    ensures |r| == |names|
    ensures forall i :: 0 <= i < |names| ==> r[i] == JString(names[i])
  {
    seq(|names|, i requires 0 <= i < |names| => JString(names[i]))
  }

  /** Writing a name list and reading it back returns the same names. */
  lemma StringsOfStringArray(names: seq<string>)
    ensures AllStrings(StringArray(names))
    ensures Strings(StringArray(names)) == names
  {
    var r := Strings(StringArray(names));
    assert |r| == |names|;
    forall i | 0 <= i < |names| ensures r[i] == names[i] {
      assert StringArray(names)[i] == JString(r[i]);
    }
  }

  /** A required array-of-strings member. */
  function StringArrayMember(j: Json, key: string): (r: Result<seq<string>, MetaError>)
    ensures r.Ok? <==> Member(j, key).Some? && Member(j, key).value.JArray? && AllStrings(Member(j, key).value.items)
    ensures r.Ok? ==> Member(j, key) == Some(JArray(StringArray(r.value)))
  {
    match Member(j, key)
    case None => Err(Missing(key))
    case Some(v) =>
      if !v.JArray? then Err(NotArray(key))
      else if !AllStrings(v.items) then Err(NotStringArray(key))
      else
        var r := Strings(v.items);
        assert v.items == StringArray(r);
        Ok(r)
  }
}
