/** The dynamically typed values that flow through the configuration tree and the
    request parameters: what YAML loading and Python's `Dict[str, Any]` can hold. */
module Values {

  datatype Value =
    | Null
    | Bool(b: bool)
    | Int(i: int)
    | Str(s: string)
    | List(items: seq<Value>)
    | Dict(entries: map<string, Value>)
}
