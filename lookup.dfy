/** The generator's three lookup tables, taken together. */
module Lookup {

  /** `route_mapping`, `routing_mapping` and `type_mapping`, each in insertion order. */
  datatype Tables = Tables(
    routes: seq<(string, string)>,
    routings: seq<(string, string)>,
    types: seq<(string, string)>)

  /** No code of `table` contains the character `c`. */
  predicate CodesAvoid(table: seq<(string, string)>, c: char) {
    forall i :: 0 <= i < |table| ==> c !in table[i].1
  }

  /** No code of any of the three tables contains `c`. */
  predicate AllCodesAvoid(tables: Tables, c: char) {
    CodesAvoid(tables.routes, c) && CodesAvoid(tables.routings, c) && CodesAvoid(tables.types, c)
  }
}
