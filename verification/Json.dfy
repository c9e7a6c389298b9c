// JSON values. Their text form is not modelled: printing and parsing are taken as given.
module JsonValues {

  datatype Json =
    | Null
    | Bool(b: bool)
    | Number(value: real)
    | Str(s: string)
    | Arr(items: seq<Json>)
    | Obj(fields: map<string, Json>)

  // Tool arguments are always an object; any other value is wrapped in one.
  function AsObject(j: Json): (o: Json)
    ensures o.Obj? && if j.Obj? then o == j else o.fields == map["value" := j]
  {
    if j.Obj? then j else Obj(map["value" := j])
  }
}
