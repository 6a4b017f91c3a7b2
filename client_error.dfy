/** The JSON values Jackson hands the web client as `Map<String, Object>` entries. */
module Json {

  datatype Json =
    | JNull
    | JBool(b: bool)
    | JNumber(n: real)
    | JString(s: string)
    | JArray(items: seq<Json>)
    | JObject(fields: map<string, Json>)

  /**
   * `Object.toString()` of a non-null value: a string is itself; how numbers,
   * booleans, lists and maps print is given by `render`.
   */
  function ToText(v: Json, render: Json -> string): (t: string)
    requires v != JNull
    ensures v.JString? ==> t == v.s
  {
    if v.JString? then v.s else render(v)
  }
}

/**
 * `com.cliente.dto.ClientErrorResponseDTO`: the constructor flattens the body of a
 * 4xx reply into a map of strings. A JSON null where `toString()` is called
 * throws a `NullPointerException`, modelled as `None`.
 */
module ClientErrors {
  import opened Wrappers
  import opened Json

  /** Some value of `nested` is JSON null. */
  predicate HasNull(nested: map<string, Json>) {
    exists k :: k in nested && nested[k] == JNull
  }

  /**
   * The loop over `nestedErrors.entrySet()`: every entry copied with its value as
   * text, or a `NullPointerException` (None) when some value is null.
   */
  method CopyNested(nested: map<string, Json>, render: Json -> string) returns (r: Option<map<string, string>>)
    ensures r.None? <==> HasNull(nested)
    ensures r.Some? ==> r.value.Keys == nested.Keys
    ensures r.Some? ==> forall k :: k in nested ==> nested[k] != JNull && r.value[k] == ToText(nested[k], render)
  {
    var errors: map<string, string> := map[];
    var todo := nested.Keys;
    while todo != {}
      invariant todo <= nested.Keys
      invariant errors.Keys == nested.Keys - todo
      invariant forall k :: k in errors ==> nested[k] != JNull && errors[k] == ToText(nested[k], render)
      decreases |todo|
    {
      var k :| k in todo;
      if nested[k] == JNull {
        return None;
      }
      errors := errors[k := ToText(nested[k], render)];
      todo := todo - {k};
    }
    return Some(errors);
  }

  /**
   * The constructor. "errors" wins over "error"; an "errors" value that is not a
   * map gives no entries; "error" alone gives the one entry "error"; no other
   * top-level key is ever copied.
   */
  method New(data: map<string, Json>, render: Json -> string) returns (r: Option<map<string, string>>)
    ensures "errors" in data && data["errors"].JObject? ==>
      var nested := data["errors"].fields;
      (r.None? <==> HasNull(nested))
      && (r.Some? ==> r.value.Keys == nested.Keys
                      && forall k :: k in nested ==> nested[k] != JNull && r.value[k] == ToText(nested[k], render))
    ensures "errors" in data && !data["errors"].JObject? ==> r == Some(map[])
    ensures "errors" !in data && "error" in data ==>
      if data["error"] == JNull then r.None? else r == Some(map["error" := ToText(data["error"], render)])
    ensures "errors" !in data && "error" !in data ==> r == Some(map[])
  {
    if "errors" in data {
      var errorsObject := data["errors"];
      if errorsObject.JObject? {
        r := CopyNested(errorsObject.fields, render);
      } else {
        r := Some(map[]);
      }
    } else if "error" in data {
      if data["error"] == JNull {
        r := None;
      } else {
        r := Some(map["error" := ToText(data["error"], render)]);
      }
    } else {
      r := Some(map[]);
    }
  }
}
