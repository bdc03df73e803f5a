/** Decoded JSON as Go's `any` values hold it: numbers are opaque leaves. */
module JsonTrees {
  import opened Options

  type Object = map<string, Json>

  datatype Json =
    | Null
    | Bool(b: bool)
    | Number(n: int)
    | Str(s: string)
    | Arr(items: seq<Json>)
    | Obj(fields: map<string, Json>)

  /** m[key].(map[string]any), nil when absent or of another type. */
  function ObjAt(m: Object, key: string): Option<Object> {
    if key in m && m[key].Obj? then Some(m[key].fields) else None
  }

  /** m[key].(string), "" when absent or of another type. */
  function StrAt(m: Object, key: string): string {
    if key in m && m[key].Str? then m[key].s else ""
  }

  /** m[key].([]any), empty when absent or of another type. */
  function ArrAt(m: Object, key: string): seq<Json> {
    if key in m && m[key].Arr? then m[key].items else []
  }
}
