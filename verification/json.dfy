/** JSON values.  Objects are finite maps: member order and duplicates are gone after parsing. */
module Jsons {
  datatype Json =
    | Null
    | Bool(truth: bool)
    | Num(number: real)
    | Str(text: string)
    | Arr(items: seq<Json>)
    | Obj(members: map<string, Json>)

  const EMPTY_OBJECT := Obj(map[])

  /** What an aggregator turns into null: null itself and the empty object. */
  predicate IsBlank(v: Json) {
    v == Null || v == EMPTY_OBJECT
  }
}
