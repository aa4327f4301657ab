/** JSON documents as the nlohmann::json values the recorder and the camera record write. */
module JsonValues {
  import opened Wrappers

  datatype Json =
    | Null
    | Bool(b: bool)
    | Int(i: int)
    | Num(r: real)
    | Str(s: string)
    | Arr(items: seq<Json>)
    | Obj(fields: map<string, Json>)

  /**
   * `j[key] = v`: on an object the key is set, a null value first becomes an
   * empty object, and any other kind of value throws (None).
   */
  function SetKey(j: Json, key: string, v: Json): (r: Option<Json>)
    ensures r.Some? <==> j.Null? || j.Obj?
    ensures r.Some? ==> r.value.Obj? && key in r.value.fields && r.value.fields[key] == v
    ensures r.Some? ==> forall k :: k in r.value.fields && k != key ==> j.Obj? && k in j.fields && r.value.fields[k] == j.fields[k]
    ensures j.Obj? ==> r.Some? && forall k :: k in j.fields ==> k in r.value.fields
  {
    match j
    case Null => Some(Obj(map[key := v]))
    case Obj(m) => Some(Obj(m[key := v]))
    case _ => None
  }
}
