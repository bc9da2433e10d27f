/** JSON as `json.loads` gives it. */
module ParsedJson {
  /** An object is a dict, so its order is gone. */
  datatype Json =
    | Null
    | Bool(b: bool)
    | Int(i: int)
    | Text(s: string)
    | Array(items: seq<Json>)
    | Object(fields: map<string, Json>)

  /** `mapping.get(name)`. */
  function Field(fields: map<string, Json>, name: string): Json { if name in fields then fields[name] else Null }
}
