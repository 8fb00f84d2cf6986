/**
  The cell values of the pandas frames the ODOO export reads and writes,
  with Python's truth value and pandas' notion of a missing value.
 */
module Cells {

  datatype Value = Str(s: string) | Int(i: int) | Real(r: real) | Bool(b: bool) | NaN | Null

  /** `bool(v)`: empty text, zero and None are false; a float NaN is true. */
  predicate Truthy(v: Value) {
    match v
    case Str(s) => s != ""
    case Int(i) => i != 0
    case Real(r) => r != 0.0
    case Bool(b) => b
    case NaN => true
    case Null => false
  }

  /** `pd.isnull(v)`: NaN and None. */
  predicate IsNull(v: Value) {
    v.NaN? || v.Null?
  }

  /** A pandas row or an exported product: column name to value. */
  type Row = map<string, Value>

  /** `row.get(key, default)` */
  function Get(row: Row, key: string, default: Value): Value {
    if key in row then row[key] else default
  }
}
