/**
 Chromium's base::Value, reduced to the shapes the DNS-over-HTTPS group
 configuration tells apart: a dictionary, a list, a string, and anything else.
 */
module BaseValues {
  import opened Wrappers

  datatype Value =
    | Dict(entries: map<string, Value>)
    | List(items: seq<Value>)
    | Str(text: string)
    | Other

  /** base::Value::Dict. */
  type Dict = map<string, Value>

  /** Value::Dict::FindList(key): the list stored under `key`, if that entry exists and holds a list. */
  function FindList(d: Dict, key: string): (r: Option<seq<Value>>)
    ensures r.Some? <==> key in d && d[key].List?
    ensures r.Some? ==> d[key] == List(r.value)
  {
    if key in d && d[key].List? then Some(d[key].items) else None
  }
}
