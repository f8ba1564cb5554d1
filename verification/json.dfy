/** A decoded JSON document, as `response.json()` hands it to the page and
    to the route handlers. */
module Json {

  datatype Value =
    | Null
    | Bool(b: bool)
    | Number(n: real)
    | Str(s: string)
    | Array(items: seq<Value>)
    | Object(members: seq<(string, Value)>)
}
