/**
 * The synchronous part of parseExcelFile in src/services/Parser.js: once the
 * workbook is decoded, the header row is checked, every later row becomes an
 * equipment record or is dropped, and the records are returned in order.
 * A decoded sheet is a sequence of rows and a row a sequence of cell texts;
 * an empty cell is "".
 */
module Parser {
  import opened Wrappers
  import opened JsText
  import opened Constants
  import opened DateEngine
  import opened EquipmentModel

  type Row = seq<string>

  // ---------------------------------------------------------------------------
  // validateHeaders
  // ---------------------------------------------------------------------------

  /** The error validateHeaders throws. */
  datatype HeaderError =
    | TooFewHeaders
    | HeaderMismatch(position: nat, expected: string, found: string)

  const MismatchOpening: string := "Неверный формат заголовков. Ожидалось \""
  const PositionWords: string := "\" на позиции "
  const FoundWords: string := ", найдено \""

  /** The message of the thrown Error. */
  function HeaderErrorMessage(e: HeaderError): (r: string)
    ensures e.TooFewHeaders? ==> r == InvalidHeadersMessage
    ensures e.HeaderMismatch? ==> MismatchOpening + e.expected + PositionWords <= r
  {
    match e
    case TooFewHeaders => InvalidHeadersMessage
    case HeaderMismatch(p, expected, found) =>
      MismatchOpening + expected + PositionWords + NatToString(p + 1) + FoundWords + found + "\"."
  }

  /** A header cell is accepted when, trimmed and lower-cased, it equals the
      lower-cased label. */
  predicate HeaderMatches(cell: string, header: string) {
    ToLower(Trim(cell)) == ToLower(header)
  }

  /** The first of the labels, from position i on, that the row does not carry. */
  function FirstMismatch(headers: Row, labels: seq<string>, i: nat): (r: Option<HeaderError>)
    requires |labels| <= |headers| && i <= |labels|
    decreases |labels| - i
  {
    if i == |labels| then None
    else if !HeaderMatches(headers[i], labels[i]) then Some(HeaderMismatch(i, labels[i], headers[i]))
    else FirstMismatch(headers, labels, i + 1)
  }

  /** What validateHeaders does with a header row: None when it returns, the
      error when it throws. */
  function CheckHeaders(headers: Row): (r: Option<HeaderError>)
    ensures r == Some(TooFewHeaders) <==> |headers| < |RequiredHeaders|
    ensures r.Some? && |headers| >= |RequiredHeaders| ==>
      r.value.HeaderMismatch? && r.value.position < |RequiredHeaders| && r.value.found == headers[r.value.position]
  {
    if |headers| < |RequiredHeaders| then Some(TooFewHeaders)
    else
      FirstMismatchIsFirst(headers, RequiredHeaders, 0);
      FirstMismatch(headers, RequiredHeaders, 0)
  }

  lemma {:induction false} FirstMismatchIsFirst(headers: Row, labels: seq<string>, i: nat)
    requires |labels| <= |headers| && i <= |labels|
    ensures FirstMismatch(headers, labels, i).None? <==>
      forall j :: i <= j < |labels| ==> HeaderMatches(headers[j], labels[j])
    ensures FirstMismatch(headers, labels, i).Some? ==>
      var e := FirstMismatch(headers, labels, i).value;
      && e.HeaderMismatch?
      && i <= e.position < |labels|
      && e.expected == labels[e.position] && e.found == headers[e.position]
      && !HeaderMatches(headers[e.position], labels[e.position])
      && forall j :: i <= j < e.position ==> HeaderMatches(headers[j], labels[j])
    decreases |labels| - i
  {
    if i < |labels| && HeaderMatches(headers[i], labels[i]) {
      FirstMismatchIsFirst(headers, labels, i + 1);
    }
  }

  /** validateHeaders accepts exactly the rows of at least five cells whose
      first five cells match REQUIRED_HEADERS in order. */
  lemma CheckHeadersAccepts(headers: Row)
    ensures CheckHeaders(headers).None? <==>
      && |headers| >= |RequiredHeaders|
      && forall j :: 0 <= j < |RequiredHeaders| ==> HeaderMatches(headers[j], RequiredHeaders[j])
  {
    if |headers| >= |RequiredHeaders| {
      FirstMismatchIsFirst(headers, RequiredHeaders, 0);
    }
  }

  /** A row of five or more cells that is rejected is rejected at its first
      mismatching position, naming that position's label and cell. */
  lemma CheckHeadersReportsFirstMismatch(headers: Row)
    requires CheckHeaders(headers).Some?
    ensures |headers| < |RequiredHeaders| <==> CheckHeaders(headers) == Some(TooFewHeaders)
    ensures |headers| >= |RequiredHeaders| ==>
      var e := CheckHeaders(headers).value;
      && e.HeaderMismatch?
      && e.position < |RequiredHeaders|
      && e.expected == RequiredHeaders[e.position] && e.found == headers[e.position]
      && !HeaderMatches(headers[e.position], RequiredHeaders[e.position])
      && forall j :: 0 <= j < e.position ==> HeaderMatches(headers[j], RequiredHeaders[j])
  {
    if |headers| >= |RequiredHeaders| {
      FirstMismatchIsFirst(headers, RequiredHeaders, 0);
    }
  }

  /** The header row of the expected layout passes, whatever follows it. */
  lemma RequiredHeadersPass(extra: Row)
    ensures CheckHeaders(RequiredHeaders + extra).None?
  {
    var headers := RequiredHeaders + extra;
    forall j | 0 <= j < |RequiredHeaders| ensures HeaderMatches(headers[j], RequiredHeaders[j]) {
      TrimUnchanged(RequiredHeaders[j]);
    }
    CheckHeadersAccepts(headers);
  }

  /** Cells after the fifth are never looked at. */
  lemma CheckHeadersIgnoresExtraCells(headers: Row, extra: Row)
    requires |headers| >= |RequiredHeaders|
    ensures CheckHeaders(headers + extra) == CheckHeaders(headers)
  {
    CheckHeadersAccepts(headers);
    CheckHeadersAccepts(headers + extra);
    if CheckHeaders(headers).Some? {
      CheckHeadersReportsFirstMismatch(headers);
      CheckHeadersReportsFirstMismatch(headers + extra);
      var e1 := CheckHeaders(headers).value;
      var e2 := CheckHeaders(headers + extra).value;
      assert (headers + extra)[e1.position] == headers[e1.position];
      assert (headers + extra)[e2.position] == headers[e2.position];
      assert e1.position == e2.position;
    }
  }

  /** The number after "на позиции " in a mismatch message reads back as the
      1-based position, and the quoted expected label is the label. */
  lemma MismatchMessageNamesPosition(p: nat, expected: string, found: string)
    ensures var m := HeaderErrorMessage(HeaderMismatch(p, expected, found));
      var k := |MismatchOpening| + |expected| + |PositionWords|;
      && k <= |m|
      && m[|MismatchOpening|..|MismatchOpening| + |expected|] == expected
      && ParseInt(m[k..]) == Some(p + 1)
  {
    var m := HeaderErrorMessage(HeaderMismatch(p, expected, found));
    var rest := FoundWords + found + "\".";
    var k := |MismatchOpening| + |expected| + |PositionWords|;
    assert m == MismatchOpening + expected + PositionWords + (NatToString(p + 1) + rest);
    assert m[k..] == NatToString(p + 1) + rest;
    assert m[|MismatchOpening|..|MismatchOpening| + |expected|] == expected;
    assert rest[0] == ',';
    ParseIntOfIntToString(p + 1, rest);
  }

  /** validateHeaders: the length guard, then the labels in order, leaving at
      the first mismatch. */
  method ValidateHeaders(headers: Row) returns (r: Option<HeaderError>)
    ensures r == CheckHeaders(headers)
  {
    if |headers| < |RequiredHeaders| {
      return Some(TooFewHeaders);
    }
    var labels := RequiredHeaders;
    for i := 0 to |labels|
      invariant FirstMismatch(headers, labels, i) == FirstMismatch(headers, labels, 0)
    {
      var actualHeader := ToLower(Trim(headers[i]));
      var expectedHeader := ToLower(labels[i]);
      if actualHeader != expectedHeader {
        return Some(HeaderMismatch(i, labels[i], headers[i]));
      }
    }
    return None;
  }

  // ---------------------------------------------------------------------------
  // processRow
  // ---------------------------------------------------------------------------

  /** processRow: None for a row of fewer than seven cells; otherwise the
      record of columns 0, 1, 2, 3, 4 and 6, with the date done and the next
      date formatted, or "" when the month and year do not parse. */
  function ProcessRow(row: Row, maxNameLength: int): (r: Option<Equipment>)
    ensures r.None? <==> |row| < MinRowLength
    ensures r.Some? ==>
      && r.value.inventoryNumber == row[ColInventoryNumber]
      && r.value.maintenancePeriod == row[ColMaintenancePeriod]
      && r.value.engineer == row[ColEngineer]
      && r.value.name <= row[ColName]
      && (maxNameLength >= 0 ==> |r.value.name| <= maxNameLength)
      && (|row[ColName]| <= maxNameLength ==> r.value.name == row[ColName])
      && (|row[ColName]| > maxNameLength ==>
            r.value.name == row[ColName][..if maxNameLength < 0 then 0 else maxNameLength])
    ensures r.Some? ==>
      && (r.value.maintenanceDone == "" <==> ParseDate(row[ColMonth], row[ColYear]).None?)
      && (r.value.maintenanceNext == "" <==> ParseDate(row[ColMonth], row[ColYear]).None?)
  {
    if |row| < MinRowLength then None
    else
      var name := row[ColName];
      var inventoryNumber := row[ColInventoryNumber];
      var maintenancePeriod := row[ColMaintenancePeriod];
      var date := ParseDate(row[ColMonth], row[ColYear]);
      var maintenanceDone := if date.Some? then FormatDate(date) else "";
      var nextDate := if date.Some? then AddPeriod(date, maintenancePeriod) else None;
      var maintenanceNext := if nextDate.Some? then FormatDate(nextDate) else "";
      Some(NewEquipment(name, inventoryNumber, maintenancePeriod, maintenanceDone, maintenanceNext,
                        row[ColEngineer], Some(maxNameLength)))
  }

  /** Two rows that agree on the columns of EXCEL_COLUMNS give the same record:
      column 5 and the columns after 6 are never read. */
  lemma ProcessRowReadsOnlyExcelColumns(row1: Row, row2: Row, maxNameLength: int)
    requires |row1| >= MinRowLength && |row2| >= MinRowLength
    requires forall c :: c in ExcelColumns ==> row1[c] == row2[c]
    ensures ProcessRow(row1, maxNameLength) == ProcessRow(row2, maxNameLength)
  {
    assert row1[ColName] == row2[ColName] && row1[ColInventoryNumber] == row2[ColInventoryNumber];
    assert row1[ColMaintenancePeriod] == row2[ColMaintenancePeriod] && row1[ColMonth] == row2[ColMonth];
    assert row1[ColYear] == row2[ColYear] && row1[ColEngineer] == row2[ColEngineer];
  }

  /** The two dates of a record: the parsed date formatted, and the date moved
      by the period; a period with no match repeats the date done. */
  lemma ProcessRowDates(row: Row, maxNameLength: int, d: Date)
    requires |row| >= MinRowLength && ParseDate(row[ColMonth], row[ColYear]) == Some(d)
    ensures ProcessRow(row, maxNameLength).value.maintenanceDone == FormatDate(Some(d))
    ensures ProcessRow(row, maxNameLength).value.maintenanceNext ==
      FormatDate(AddPeriod(Some(d), row[ColMaintenancePeriod]))
    ensures row[ColMaintenancePeriod] == "" || MatchPeriod(row[ColMaintenancePeriod]).None? ==>
      ProcessRow(row, maxNameLength).value.maintenanceNext == ProcessRow(row, maxNameLength).value.maintenanceDone
  {
  }

  // ---------------------------------------------------------------------------
  // The sheet and row loop of parseExcelFile
  // ---------------------------------------------------------------------------

  /** The records of the given data rows, in order, rows that give none left out. */
  function Collected(rows: seq<Row>, maxNameLength: int): (r: seq<Equipment>)
    ensures |r| <= |rows|
    decreases |rows|
  {
    if rows == [] then []
    else
      var last := ProcessRow(rows[|rows| - 1], maxNameLength);
      Collected(rows[..|rows| - 1], maxNameLength) + (if last.Some? then [last.value] else [])
  }

  /** The records of two runs of rows, one after the other, are the records of
      the first run followed by those of the second. */
  lemma {:induction false} CollectedAppend(a: seq<Row>, b: seq<Row>, maxNameLength: int)
    ensures Collected(a + b, maxNameLength) == Collected(a, maxNameLength) + Collected(b, maxNameLength)
    decreases |b|
  {
    if b == [] {
      assert a + b == a;
    } else {
      var b' := b[..|b| - 1];
      assert (a + b)[..|a + b| - 1] == a + b';
      assert (a + b)[|a + b| - 1] == b[|b| - 1];
      CollectedAppend(a, b', maxNameLength);
    }
  }

  /** One more data row adds its record, if it has one. */
  lemma CollectedStep(rows: seq<Row>, i: nat, maxNameLength: int)
    requires 1 <= i < |rows|
    ensures var record := ProcessRow(rows[i], maxNameLength);
      Collected(rows[1..i + 1], maxNameLength) ==
        Collected(rows[1..i], maxNameLength) + (if record.Some? then [record.value] else [])
  {
    assert rows[1..i + 1][..i - 1] == rows[1..i];
  }

  /** One row gives its record when it has seven cells and nothing otherwise. */
  lemma CollectedOne(row: Row, maxNameLength: int)
    ensures |row| >= MinRowLength ==> Collected([row], maxNameLength) == [ProcessRow(row, maxNameLength).value]
    ensures |row| < MinRowLength ==> Collected([row], maxNameLength) == []
  {
    assert [row][..0] == [];
  }

  /** The positions of the rows with at least seven cells. */
  function LongRows(rows: seq<Row>): set<nat> {
    set j: nat | j < |rows| && |rows[j]| >= MinRowLength
  }

  /** There is one record per row of at least seven cells. */
  lemma {:induction false} CollectedLength(rows: seq<Row>, maxNameLength: int)
    ensures |Collected(rows, maxNameLength)| == |LongRows(rows)|
    decreases |rows|
  {
    if rows != [] {
      var n := |rows| - 1;
      var front := rows[..n];
      CollectedLength(front, maxNameLength);
      if |rows[n]| >= MinRowLength {
        assert LongRows(rows) == LongRows(front) + {n};
      } else {
        assert LongRows(rows) == LongRows(front);
      }
    }
  }

  /** Why parseExcelFile rejects. */
  datatype ParseError =
    | NoSheets
    | EmptySheet
    | ProcessingError(cause: HeaderError)

  /** The message of the rejection: the header error, caught and rethrown,
      carries the processing-error prefix. */
  function ErrorMessage(e: ParseError): (r: string)
    ensures e.ProcessingError? ==> r == ProcessingErrorPrefix + HeaderErrorMessage(e.cause)
    ensures r == NoSheetsMessage <==> e.NoSheets?
    ensures r == EmptySheetMessage <==> e.EmptySheet?
  {
    match e
    case NoSheets => NoSheetsMessage
    case EmptySheet => EmptySheetMessage
    case ProcessingError(cause) => ProcessingErrorPrefix + HeaderErrorMessage(cause)
  }

  /** parseExcelFile once the workbook is decoded: sheetCount sheets, of which
      the first has the given rows. */
  function ParseWorkbook(sheetCount: nat, rows: seq<Row>, maxNameLength: int): (r: Result<seq<Equipment>, ParseError>)
    ensures r.Success? <==> sheetCount > 0 && rows != [] && CheckHeaders(rows[0]).None?
    ensures r.Failure? && r.error.ProcessingError? ==> rows != [] && CheckHeaders(rows[0]) == Some(r.error.cause)
  {
    if sheetCount == 0 then Failure(NoSheets)
    else if |rows| == 0 then Failure(EmptySheet)
    else
      match CheckHeaders(rows[0])
      case Some(e) => Failure(ProcessingError(e))
      case None => Success(Collected(rows[1..], maxNameLength))
  }

  /** The outcome of parseExcelFile: no sheets, no rows and a bad header row
      are errors, in that order of precedence; otherwise there is one record
      per data row of seven or more cells and the header row is never one. */
  lemma ParseWorkbookOutcome(sheetCount: nat, rows: seq<Row>, maxNameLength: int)
    ensures ParseWorkbook(sheetCount, rows, maxNameLength) == Failure(NoSheets) <==> sheetCount == 0
    ensures ParseWorkbook(sheetCount, rows, maxNameLength) == Failure(EmptySheet) <==> sheetCount > 0 && rows == []
    ensures ParseWorkbook(sheetCount, rows, maxNameLength).Success? <==>
      sheetCount > 0 && rows != [] && CheckHeaders(rows[0]).None?
    ensures ParseWorkbook(sheetCount, rows, maxNameLength).Success? ==>
      && |ParseWorkbook(sheetCount, rows, maxNameLength).value| == |LongRows(rows[1..])|
      && |ParseWorkbook(sheetCount, rows, maxNameLength).value| <= |rows| - 1
  {
    if sheetCount > 0 && rows != [] && CheckHeaders(rows[0]).None? {
      CollectedLength(rows[1..], maxNameLength);
    }
  }

  /** The header check and the row loop as parseExcelFile runs them, pushing
      each record onto the result. maxNameLength None is the omitted
      argument, which defaults to MAX_NAME_LENGTH_DEFAULT. */
  method IngestRows(sheetCount: nat, rows: seq<Row>, maxNameLength: Option<int>)
    returns (r: Result<seq<Equipment>, ParseError>)
    ensures r == ParseWorkbook(sheetCount, rows, maxNameLength.GetOr(MaxNameLengthDefault))
  {
    var limit := maxNameLength.GetOr(MaxNameLengthDefault);
    if sheetCount == 0 {
      return Failure(NoSheets);
    }
    if |rows| == 0 {
      return Failure(EmptySheet);
    }
    var headerError := ValidateHeaders(rows[0]);
    if headerError.Some? {
      return Failure(ProcessingError(headerError.value));
    }
    var equipments: seq<Equipment> := [];
    for i := 1 to |rows|
      invariant equipments == Collected(rows[1..i], limit)
    {
      CollectedStep(rows, i, limit);
      var equipment := ProcessRow(rows[i], limit);
      if equipment.Some? {
        equipments := equipments + [equipment.value];
      }
    }
    assert rows[1..|rows|] == rows[1..];
    return Success(equipments);
  }
}
