/** JSON values. */
module JsonDocument {

  /** Numbers that are not integers are `Fraction`, with their text. */
  datatype Json =
    | Null
    | Bool(b: bool)
    | Number(n: int)
    | Fraction(number: string)
    | String(text: string)
    | List(elements: seq<Json>)
    | Object(fields: map<string, Json>)
}
