/**
 The dictionaries the backend returns, as JSON values: the model's typed
 replies are rendered into these so that their key sets can be stated.
 */
module Json {

  datatype Value =
    | Null
    | Bool(b: bool)
    | Number(n: real)
    | Str(s: string)
    | Array(items: seq<Value>)

  /** A JSON object: field names to values. */
  type Object = map<string, Value>

  /** A list of floats as a JSON array, element by element. */
  function Numbers(xs: seq<real>): Value
  {
    Array(seq(|xs|, i requires 0 <= i < |xs| => Number(xs[i])))
  }
}
