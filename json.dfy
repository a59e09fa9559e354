/** JSON values, as `JSON.parse` produces them and `res.json` sends them. */
module Json {
  import opened Optional

  datatype Json =
    | JNull
    | JBool(b: bool)
    | JNum(n: real)
    | JStr(s: string)
    | JArr(items: seq<Json>)
    | JObj(members: map<string, Json>)

  /** Property access `v[k]` on a parsed value: None stands for `undefined`,
      which is what every key of a non-object reads as. */
  function Field(v: Json, k: string): (r: Option<Json>)
    ensures r.Some? <==> v.JObj? && k in v.members
  {
    if v.JObj? && k in v.members then Some(v.members[k]) else None
  }
}
