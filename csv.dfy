/**
 * `parseCSV` of src/app/page.tsx: comma-separated text with a header line turned into
 * sales records. No quoting: a comma always separates two cells.
 */
module CsvParser {
  import opened Options
  import opened Text
  import opened Numbers
  import opened Records
  import opened Sequences

  /** A value of the `row` object: `string | number`. */
  datatype Cell = Str(s: string) | Num(n: real)

  /** The `row` object: header name to cell value. */
  type Row = map<string, Cell>

  predicate IsNumericColumn(header: string)
  {
    header == "revenue" || header == "units_sold"
  }

  /** `values[i]`, which is `undefined` past the last cell. */
  function CellAt(values: seq<string>, i: nat): Option<string>
  {
    if i < |values| then Some(values[i]) else None
  }

  /** `val ? parseFloat(val) || 0 : 0`: a missing, empty or unreadable cell reads as 0. */
  function NumericValue(val: Option<string>): real
  {
    if val.Some? && val.value != "" then
      match ParseFloat(val.value)
      case Some(x) => x
      case None => 0.0
    else 0.0
  }

  /** The value stored under `header` for the cell `val`: a number for the numeric columns, else `val || ''`. */
  function CellFor(header: string, val: Option<string>): Cell
  {
    if IsNumericColumn(header) then Num(NumericValue(val))
    else Str(if val.Some? then val.value else "")
  }

  /** The row after the `headers.forEach` has stored the cell of every header in turn. */
  function RowOf(headers: seq<string>, values: seq<string>): Row
  {
    if |headers| == 0 then map[]
    else
      var i := |headers| - 1;
      RowOf(headers[..i], values)[headers[i] := CellFor(headers[i], CellAt(values, i))]
  }

  /** The `headers.forEach((header, i) => { ... row[header] = ... })` loop. */
  method BuildRow(headers: seq<string>, values: seq<string>) returns (row: Row)
    ensures row == RowOf(headers, values)
  {
    row := map[];
    for i := 0 to |headers|
      invariant row == RowOf(headers[..i], values)
    {
      assert headers[..i + 1][..i] == headers[..i];
      var header := headers[i];
      var val := CellAt(values, i);
      if IsNumericColumn(header) {
        row := row[header := Num(NumericValue(val))];
      } else {
        row := row[header := Str(if val.Some? then val.value else "")];
      }
    }
    assert headers[..|headers|] == headers;
  }

  /** The row holds exactly the header names: an absent column leaves its field unset. */
  lemma {:induction false} RowOfKeys(headers: seq<string>, values: seq<string>)
    ensures RowOf(headers, values).Keys == set h | h in headers
  {
    if |headers| > 0 {
      var n := |headers| - 1;
      RowOfKeys(headers[..n], values);
      assert headers == headers[..n] + [headers[n]];
    }
  }

  /** Numeric columns hold numbers and every other column holds text. */
  predicate CellKindsMatch(row: Row)
  {
    forall k :: k in row ==> (IsNumericColumn(k) <==> row[k].Num?)
  }

  /** Every row the loop builds has numbers in exactly its numeric columns. */
  lemma {:induction false} RowOfCellKinds(headers: seq<string>, values: seq<string>)
    ensures CellKindsMatch(RowOf(headers, values))
  {
    if |headers| > 0 {
      RowOfCellKinds(headers[..|headers| - 1], values);
    }
  }

  /** Under a repeated header name, the cell of its last occurrence is the one kept. */
  lemma {:induction false} RowOfLastOccurrenceWins(headers: seq<string>, values: seq<string>, i: nat)
    requires i < |headers|
    requires forall j :: i < j < |headers| ==> headers[j] != headers[i]
    ensures headers[i] in RowOf(headers, values)
    ensures RowOf(headers, values)[headers[i]] == CellFor(headers[i], CellAt(values, i))
  {
    var n := |headers| - 1;
    if i < n {
      var p := headers[..n];
      assert headers[i] == p[i];
      RowOfLastOccurrenceWins(p, values, i);
    }
  }

  /** Cells beyond the last header are never read. */
  lemma {:induction false} RowOfIgnoresExtraCells(headers: seq<string>, values: seq<string>)
    requires |values| > |headers|
    ensures RowOf(headers, values) == RowOf(headers, values[..|headers|])
  {
    if |headers| > 0 {
      RowOfIgnoresExtraCells(headers[..|headers| - 1], values);
      RowOfIgnoresExtraCells(headers[..|headers| - 1], values[..|headers|]);
      assert values[..|headers|][..|headers| - 1] == values[..|headers| - 1];
    }
  }

  /** `v.trim()` for every cell of `line.split(',')`. */
  function CellValues(line: string): seq<string>
  {
    var cells := Split(line, ',');
    seq(|cells|, k requires 0 <= k < |cells| => Trim(cells[k]))
  }

  /** `h.trim().toLowerCase()` for every cell of the header line. */
  function HeaderNames(line: string): seq<string>
  {
    var cells := Split(line, ',');
    seq(|cells|, k requires 0 <= k < |cells| => ToLower(Trim(cells[k])))
  }

  /** A normalised header name carries no surrounding whitespace and no capital ASCII letter. */
  lemma HeaderNameNormalised(cell: string)
    ensures var h := ToLower(Trim(cell));
            (forall c :: 0 <= c < |h| ==> !('A' <= h[c] <= 'Z'))
            && (|h| > 0 ==> !IsSpace(h[0]) && !IsSpace(h[|h| - 1]))
  {
    var t := Trim(cell);
    var _ := TrimIsInfix(cell);
    ToLowerNormalises(t);
    if |t| > 0 {
      LowerKeepsNonSpace(t[0]);
      LowerKeepsNonSpace(t[|t| - 1]);
    }
  }

  lemma LowerKeepsNonSpace(c: char)
    requires !IsSpace(c)
    ensures !IsSpace(LowerChar(c))
  {
  }

  predicate IsBlank(line: string)
  {
    Trim(line) == []
  }

  /** `text.split(/\r?\n/).filter(line => line.trim() !== '')` */
  function NonBlankLines(text: string): seq<string>
  {
    Filter(line => !IsBlank(line), SplitLines(text))
  }

  /** JavaScript truthiness of a cell. */
  predicate Truthy(c: Cell)
  {
    match c
    case Str(s) => s != ""
    case Num(n) => n != 0.0
  }

  /** `row.date && row.product` */
  predicate WellFormed(row: Row)
  {
    "date" in row && Truthy(row["date"]) && "product" in row && Truthy(row["product"])
  }

  /** The row built from one body line; its numeric columns hold numbers and the others text. */
  function LineRow(headers: seq<string>, line: string): (row: Row)
    ensures CellKindsMatch(row)
  {
    RowOfCellKinds(headers, CellValues(line));
    RowOf(headers, CellValues(line))
  }

  /** The rows of the body lines, one per line, before the well-formedness filter. */
  function BodyRows(lines: seq<string>): (rows: seq<Row>)
    requires |lines| >= 1
    ensures |rows| == |lines| - 1
    ensures forall k :: 0 <= k < |rows| ==> CellKindsMatch(rows[k])
  {
    var headers := HeaderNames(lines[0]);
    seq(|lines| - 1, k requires 0 <= k < |lines| - 1 => LineRow(headers, lines[k + 1]))
  }

  /** `parseCSV` up to the final cast: the well-formed rows, in line order. */
  function ParseRows(text: string): seq<Row>
  {
    var lines := NonBlankLines(text);
    if |lines| < 2 then [] else Filter(WellFormed, BodyRows(lines))
  }

  function TextField(row: Row, key: string): string
  {
    if key in row && row[key].Str? then row[key].s else ""
  }

  function NumberField(row: Row, key: string): real
  {
    if key in row && row[key].Num? then row[key].n else 0.0
  }

  /** `row as unknown as SalesData`, with an absent text column read as "" and an absent number as 0. */
  function Project(row: Row): SalesData
  {
    SalesData(
      TextField(row, "id"), TextField(row, "date"), TextField(row, "product"), TextField(row, "region"),
      NumberField(row, "revenue"), NumberField(row, "units_sold"), TextField(row, "category"))
  }

  /** `parseCSV(text)` */
  function ParseCSV(text: string): (records: seq<SalesData>)
    ensures |records| == |ParseRows(text)|
  {
    var rows := ParseRows(text);
    seq(|rows|, k requires 0 <= k < |rows| => Project(rows[k]))
  }

  /** Fewer than two non-blank lines (empty text, a header alone) give no records, and no error. */
  lemma ShortInputGivesNoRecords(text: string)
    requires |NonBlankLines(text)| < 2
    ensures ParseCSV(text) == []
  {
  }

  /** The empty text parses to nothing. */
  lemma EmptyTextGivesNoRecords()
    ensures ParseCSV("") == []
  {
    assert SplitLines("") == [""];
    assert NonBlankLines("") == [] by {
      assert IsBlank("");
    }
  }

  /**
   * The rows are the body lines' rows that are well formed, kept in line order: an
   * increasing list of exactly those line positions reads them off.
   */
  lemma ParseRowsKeepsWellFormedLinesInOrder(text: string) returns (idx: seq<nat>)
    requires |NonBlankLines(text)| >= 2
    ensures IncreasingIndices(idx, |NonBlankLines(text)| - 1)
    ensures |ParseRows(text)| == |idx| <= |NonBlankLines(text)| - 1
    ensures forall j :: 0 <= j < |idx| ==> ParseRows(text)[j] == BodyRows(NonBlankLines(text))[idx[j]]
    ensures forall i :: 0 <= i < |NonBlankLines(text)| - 1 ==>
              (WellFormed(BodyRows(NonBlankLines(text))[i]) <==> i in idx)
  {
    idx := FilterKeepsExactlyInOrder(WellFormed, BodyRows(NonBlankLines(text)));
  }

  /** A well-formed row with numbers in exactly its numeric columns projects to a record with a non-empty date and product. */
  lemma WellFormedRowHasDateAndProduct(row: Row)
    requires CellKindsMatch(row) && WellFormed(row)
    ensures Project(row).date != "" && Project(row).product != ""
  {
    assert !IsNumericColumn("date") && !IsNumericColumn("product");
  }

  /** Of rows with numbers in exactly their numeric columns, the ones the filter keeps project to records with a non-empty date and product. */
  lemma KeptRowsHaveDateAndProduct(body: seq<Row>)
    requires forall k :: 0 <= k < |body| ==> CellKindsMatch(body[k])
    ensures forall row :: row in Filter(WellFormed, body) ==>
              Project(row).date != "" && Project(row).product != ""
  {
    FilterMembers(WellFormed, body);
    forall row | row in Filter(WellFormed, body)
      ensures Project(row).date != "" && Project(row).product != ""
    {
      var b :| 0 <= b < |body| && body[b] == row;
      WellFormedRowHasDateAndProduct(row);
    }
  }

  /** Every parsed record has a non-empty date and a non-empty product. */
  lemma ParsedRecordsHaveDateAndProduct(text: string)
    ensures forall r :: r in ParseCSV(text) ==> r.date != "" && r.product != ""
  {
    var rows := ParseRows(text);
    var lines := NonBlankLines(text);
    if |lines| >= 2 {
      KeptRowsHaveDateAndProduct(BodyRows(lines));
      forall r | r in ParseCSV(text) ensures r.date != "" && r.product != "" {
        var k :| 0 <= k < |rows| && ParseCSV(text)[k] == r;
        assert rows[k] in rows;
      }
    }
  }

  /** A cell holding the decimal text of an integer is read as that integer. */
  lemma NumericValueReadsIntegers(i: int)
    ensures NumericValue(Some(IntText(i))) == i as real
  {
    ParseFloatIntText(i);
  }

  /** A cell that is missing, empty or without a leading number is read as 0. */
  lemma NumericValueDefaultsToZero(val: Option<string>)
    requires val.None? || val.value == "" || ParseFloat(val.value).None?
    ensures NumericValue(val) == 0.0
  {
  }
}
