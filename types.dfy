/**
 * The shapes of the analyzer's data (types.ts): a row of a loaded sheet, one
 * (x, y) observation, and the result of the regression.
 */
module Types {
  import opened Wrappers

  /** No element of `s` occurs twice. */
  predicate Distinct<T(==)>(s: seq<T>) {
    forall i, j :: 0 <= i < j < |s| ==> s[i] != s[j]
  }

  /**
   * A raw cell value: a JavaScript number (a finite one, or NaN) or a string.
   * Infinite numbers are not represented; see README.
   */
  datatype Cell = Number(value: real) | NotANumber | Text(text: string)

  /**
   * A row as the sheet reader returns it: a JavaScript object whose keys, in
   * `Object.keys` order, are `keys`, and whose values are `cells`.
   */
  datatype RawRow = RawRow(keys: seq<string>, cells: map<string, Cell>)

  /** A JavaScript object has each key once, and its keys are exactly its properties. */
  predicate IsObject(r: RawRow) {
    && Distinct(r.keys)
    && r.cells.Keys == set i | 0 <= i < |r.keys| :: r.keys[i]
  }

  /** `DataRow = Record<string, string | number>` (types.ts:2). */
  type DataRow = r: RawRow | IsObject(r) witness RawRow([], map[])

  /** `row[h]`: the cell, or None for `undefined` when the row has no such key. */
  function Lookup(row: DataRow, h: string): (c: Option<Cell>)
    ensures c.Some? <==> h in row.keys
  {
    if h in row.cells then Some(row.cells[h]) else None
  }

  /** One observation `{ x, y }` (types.ts:8). */
  datatype Point = Point(x: real, y: real)

  /** `RegressionResult` (types.ts:4-9), with numbers as reals. */
  datatype RegressionResult = RegressionResult(
    slope: real,
    intercept: real,
    rSquared: real,
    lineData: seq<Point>)
}
