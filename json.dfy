/** JSON documents as the handlers see them after `json.load`: Python's
    None, bool, int, str, list and dict. */
module JsonValue {
  import opened Base
  import opened Strings

  datatype Json =
    | JNull
    | JBool(b: bool)
    | JNum(n: int)
    | JStr(s: string)
    | JArr(items: seq<Json>)
    | JObj(fields: map<string, Json>)

  /** Python truthiness: None, False, 0, "", [] and {} are false. */
  predicate Truthy(j: Json) {
    match j
    case JNull => false
    case JBool(b) => b
    case JNum(n) => n != 0
    case JStr(s) => s != ""
    case JArr(items) => items != []
    case JObj(fields) => fields != map[]
  }

  /** `d.get(key)`: the value under `key`, or None when the key is absent. */
  function Get(d: map<string, Json>, key: string): Json {
    if key in d then d[key] else JNull
  }

  /** The dictionary key under which `json.dump` writes a Python dictionary
      entry whose key is `j`: strings as they are, numbers and booleans as their
      JSON text. A list or a dict cannot be a key at all (Python raises
      TypeError), which gives None. */
  function KeyText(j: Json): (k: Option<string>)
    ensures k.None? <==> j.JArr? || j.JObj?
    ensures j.JStr? ==> k == Some(j.s)
    ensures j.JNum? ==> k.Some? && k.value != "" && IsStripped(k.value)
  {
    match j
    case JNull => Some("null")
    case JBool(b) => Some(if b then "true" else "false")
    case JNum(n) => Some(IntToDecimal(n))
    case JStr(s) => Some(s)
    case JArr(_) => None
    case JObj(_) => None
  }
}
