/**
 * Which columns of a loaded sheet can be plotted, and the axes picked when a
 * file is loaded (app.py:92-111 and the `numericHeaders` memo, app.py:135-138).
 */
module Columns {
  import opened Wrappers
  import opened Types
  import opened NumberParsing

  /** `parseFloat(String(v))`, None for NaN. `String` of a finite number is a numeral that reads back as that number. */
  function CellNumber(c: Option<Cell>): (r: Option<real>)
    ensures c == None || c == Some(NotANumber) ==> r == None
    ensures c.Some? && c.value.Number? ==> r == Some(c.value.value)
    ensures c.Some? && c.value.Text? ==> (r.Some? <==> StartsWithMantissa(Unsigned(TrimStart(c.value.text))))
  {
    match c
    case None => ParseFloatOfWord("undefined"); ParseFloat("undefined")
    case Some(Number(x)) => Some(x)
    case Some(NotANumber) => ParseFloatOfWord("NaN"); ParseFloat("NaN")
    case Some(Text(s)) => ParseFloat(s)
  }

  /** The test applied while loading (app.py:96): `!isNaN(parseFloat(String(v)))`. */
  predicate ParsesAsNumber(c: Option<Cell>)
    ensures ParsesAsNumber(c) ==> c.Some? && c.value != NotANumber
    ensures c.Some? && c.value.Number? ==> ParsesAsNumber(c)
  {
    CellNumber(c).Some?
  }

  /**
   * The test of the `numericHeaders` memo (app.py:137): a value of type
   * number passes outright, a string passes when `parseFloat` reads a number from it.
   */
  predicate NumberOrNumericText(c: Option<Cell>)
    ensures NumberOrNumericText(c) ==> c.Some?
    ensures c.Some? && c.value.Text? ==> (NumberOrNumericText(c) <==> StartsWithMantissa(Unsigned(TrimStart(c.value.text))))
  {
    match c
    case None => false
    case Some(Number(_)) => true
    case Some(NotANumber) => true
    case Some(Text(s)) => ParseFloat(s).Some?
  }

  /** The two tests differ on one value only: a number-typed NaN passes the memo's test and fails the loader's. */
  lemma EligibilityTestsDiffer(c: Option<Cell>)
    ensures ParsesAsNumber(c) ==> NumberOrNumericText(c)
    ensures (NumberOrNumericText(c) && !ParsesAsNumber(c)) <==> c == Some(NotANumber)
  {
    ParseFloatOfWord("undefined");
    ParseFloatOfWord("NaN");
  }

  /** Every row's value in column `h` passes `eligible`. */
  predicate ColumnPasses(rows: seq<DataRow>, h: string, eligible: Option<Cell> -> bool) {
    forall i :: 0 <= i < |rows| ==> eligible(Lookup(rows[i], h))
  }

  /** `a` is `b` with some elements left out, the rest in their order. */
  predicate IsSublist<T(==)>(a: seq<T>, b: seq<T>)
    decreases |b|
  {
    if a == [] then true
    else if b == [] then false
    else if a[0] == b[0] then IsSublist(a[1..], b[1..])
    else IsSublist(a, b[1..])
  }

  /** `headers.filter(h => rows.every(row => eligible(row[h])))`. */
  function FilterColumns(headers: seq<string>, rows: seq<DataRow>, eligible: Option<Cell> -> bool): (r: seq<string>)
    ensures IsSublist(r, headers)
    ensures forall h :: h in r <==> h in headers && ColumnPasses(rows, h, eligible)
    ensures Distinct(headers) ==> Distinct(r)
  {
    if headers == [] then []
    else
      var rest := FilterColumns(headers[1..], rows, eligible);
      if ColumnPasses(rows, headers[0], eligible) then [headers[0]] + rest else rest
  }

  /** The columns the loader treats as numeric when a file arrives (app.py:96). */
  function LoadNumericHeaders(rows: seq<DataRow>, headers: seq<string>): (r: seq<string>)
    ensures IsSublist(r, headers)
    ensures forall h :: h in r <==> h in headers && ColumnPasses(rows, h, ParsesAsNumber)
    ensures Distinct(headers) ==> Distinct(r)
  {
    FilterColumns(headers, rows, ParsesAsNumber)
  }

  /** The `numericHeaders` memo (app.py:135-138): empty while there is no data. */
  function NumericHeaders(data: seq<DataRow>, headers: seq<string>): (r: seq<string>)
    ensures IsSublist(r, headers)
    ensures forall h :: h in r <==> |data| > 0 && h in headers && ColumnPasses(data, h, NumberOrNumericText)
    ensures data == [] ==> r == []
  {
    if |data| == 0 then [] else FilterColumns(headers, data, NumberOrNumericText)
  }

  /** Without number-typed NaN cells, the loader's list and the memo's list are the same list. */
  lemma {:induction false} LoadAndMemoAgree(rows: seq<DataRow>, headers: seq<string>)
    requires |rows| > 0
    requires forall i, h :: 0 <= i < |rows| && h in headers ==> Lookup(rows[i], h) != Some(NotANumber)
    ensures LoadNumericHeaders(rows, headers) == NumericHeaders(rows, headers)
  {
    if headers != [] {
      var h := headers[0];
      forall i | 0 <= i < |rows|
        ensures ParsesAsNumber(Lookup(rows[i], h)) == NumberOrNumericText(Lookup(rows[i], h))
      {
        assert h in headers;
        EligibilityTestsDiffer(Lookup(rows[i], h));
      }
      assert forall g :: g in headers[1..] ==> g in headers;
      LoadAndMemoAgree(rows, headers[1..]);
    }
  }

  /** A column the loader accepts is also one the memo offers. */
  lemma LoadHeadersAreNumeric(rows: seq<DataRow>, headers: seq<string>, h: string)
    requires |rows| > 0
    requires h in LoadNumericHeaders(rows, headers)
    ensures h in NumericHeaders(rows, headers)
  {
    forall i | 0 <= i < |rows|
      ensures NumberOrNumericText(Lookup(rows[i], h))
    {
      EligibilityTestsDiffer(Lookup(rows[i], h));
    }
  }

  /** One more row whose value in `h` is not numeric takes `h` out of both lists. */
  lemma BadRowDropsColumn(rows: seq<DataRow>, headers: seq<string>, row: DataRow, h: string)
    requires !NumberOrNumericText(Lookup(row, h))
    ensures h !in NumericHeaders(rows + [row], headers)
    ensures h !in LoadNumericHeaders(rows + [row], headers)
  {
    var all := rows + [row];
    assert all[|rows|] == row;
    EligibilityTestsDiffer(Lookup(row, h));
    assert !ColumnPasses(all, h, NumberOrNumericText);
    assert !ColumnPasses(all, h, ParsesAsNumber);
  }

  /** The axes chosen on a successful load; "" means not selected. */
  datatype Selection = Selection(x: string, y: string)

  /** The first two numeric columns become X and Y (app.py:97-106). */
  function AutoSelection(numeric: seq<string>): (s: Selection)
    ensures |numeric| >= 2 ==> s.x == numeric[0] && s.y == numeric[1]
    ensures |numeric| == 1 ==> s.x == numeric[0] && s.y == ""
    ensures numeric == [] ==> s.x == "" && s.y == ""
    ensures Distinct(numeric) && |numeric| >= 2 ==> s.x != s.y
    ensures (s.x == "" || s.x in numeric) && (s.y == "" || s.y in numeric)
  {
    if |numeric| >= 2 then Selection(numeric[0], numeric[1])
    else if |numeric| == 1 then Selection(numeric[0], "")
    else Selection("", "")
  }
}
