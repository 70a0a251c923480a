/** Values as JSON has them, and their truth. */
module Values {
  /** Parsed JSON. */
  datatype Json =
    | Null
    | Bool(b: bool)
    | Number(n: real)
    | Str(text: string)
    | List(items: seq<Json>)
    | Dict(entries: map<string, Json>)

  /** The truth of a value in a condition. */
  predicate Truthy(j: Json) {
    match j
    case Null => false
    case Bool(b) => b
    case Number(n) => n != 0.0
    case Str(text) => text != ""
    case List(items) => items != []
    case Dict(entries) => entries != map[]
  }

  /** One value of each type counts as false. */
  lemma FalseValues(j: Json)
    ensures !Truthy(j) <==> j in {Null, Bool(false), Number(0.0), Str(""), List([]), Dict(map[])}
  {
  }
}
