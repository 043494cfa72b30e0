/** The values a decoded JSON line (or a polars cell) can hold, named after
    the Python objects they stand for. */
module Values {

  datatype Value =
    | Null                          // None
    | Bool(b: bool)                 // bool, which Python also counts as an int
    | Int(i: int)                   // int
    | Float(f: real)                // a finite float
    | Str(s: string)                // str
    | DateTime                      // a datetime.datetime object
    | List(items: seq<Value>)       // list
    | Dict(entries: map<string, Value>)  // dict
}
