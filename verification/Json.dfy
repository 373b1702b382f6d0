/** JSON values as trees, and bytes. */
module Json {
  import opened Outcomes

  type Byte = b: int | 0 <= b < 256
  type Bytes = seq<Byte>

  datatype Json =
    | Null
    | Bool(b: bool)
    | Number(digits: string)
    | Str(s: string)
    | Arr(items: seq<Json>)
    | Obj(fields: map<string, Json>)

  /** `json.dumps(..).encode("utf-8")` and `json.loads(..decode("utf-8"))`; `None` is a text that
      is not UTF-8 JSON. */
  datatype JsonText = JsonText(dumps: Json -> Bytes, parse: Bytes -> Option<Json>) {
    ghost predicate Inverse() {
      forall j :: parse(dumps(j)) == Some(j)
    }
  }

  function Field(j: Json, key: string): Option<Json> {
    if j.Obj? && key in j.fields then Some(j.fields[key]) else None
  }
}
