/**
 * parseExcelFile of the older ti-stickers/src/Parser.js, from the sheet check
 * on: the same tables written inline, a header loop that rejects directly,
 * and a row loop that skips short rows and builds records without truncating
 * the name. Its parseDate, formatDate and addPeriod are those of DateEngine,
 * since its inline tables are the same as the shared constants.
 */
module LegacyParser {
  import opened Wrappers
  import opened JsText
  import opened Constants
  import opened DateEngine
  import opened EquipmentModel
  import opened LegacyEquipmentModel
  import opened Parser

  // ---------------------------------------------------------------------------
  // The inline tables
  // ---------------------------------------------------------------------------

  const LegacyMonthMap: map<string, int> := map[
    "январь" := 0, "февраль" := 1, "март" := 2, "апрель" := 3,
    "май" := 4, "июнь" := 5, "июль" := 6, "август" := 7,
    "сентябрь" := 8, "октябрь" := 9, "ноябрь" := 10, "декабрь" := 11
  ]

  const LegacyMonthNames: seq<string> := [
    "Январь", "Февраль", "Март", "Апрель", "Май", "Июнь",
    "Июль", "Август", "Сентябрь", "Октябрь", "Ноябрь", "Декабрь"
  ]

  const LegacyPeriodUnits: seq<string> := ["год", "года", "лет", "месяц", "месяцев", "месяца"]
  const LegacyYearUnits: seq<string> := ["год", "года", "лет"]
  const LegacyMonthUnits: seq<string> := ["месяц", "месяцев", "месяца"]

  const LegacyRequiredHeaders: seq<string> := [
    "Наименование оборудования",
    "Инвентарный номер",
    "Периодичность ТО",
    "График ТО",
    "Год сейчас"
  ]

  /** The inline tables are the shared ones, so the three date functions of the
      older parser behave as DateEngine's, and its header labels as
      REQUIRED_HEADERS. */
  lemma LegacyTablesMatch()
    ensures LegacyMonthMap == MonthMap && LegacyMonthNames == MonthNames
    ensures LegacyPeriodUnits == PeriodUnits && LegacyYearUnits == YearUnits && LegacyMonthUnits == MonthUnits
    ensures LegacyRequiredHeaders == RequiredHeaders
  {
  }

  // ---------------------------------------------------------------------------
  // The header loop
  // ---------------------------------------------------------------------------

  /** The inline test: an empty cell is rejected before it is compared. */
  predicate LegacyHeaderMatches(cell: string, header: string) {
    cell != "" && ToLower(Trim(cell)) == ToLower(header)
  }

  function LegacyFirstMismatch(headers: Row, labels: seq<string>, i: nat): (r: Option<HeaderError>)
    requires |labels| <= |headers| && i <= |labels|
    decreases |labels| - i
  {
    if i == |labels| then None
    else if !LegacyHeaderMatches(headers[i], labels[i]) then Some(HeaderMismatch(i, labels[i], headers[i]))
    else LegacyFirstMismatch(headers, labels, i + 1)
  }

  /** The header rejection of the older parser, or None when it goes on. */
  function LegacyCheckHeaders(headers: Row): (r: Option<HeaderError>)
    ensures r == Some(TooFewHeaders) <==> |headers| < |LegacyRequiredHeaders|
    ensures r.Some? && |headers| >= |LegacyRequiredHeaders| ==>
      r.value.HeaderMismatch? && r.value.position < |LegacyRequiredHeaders| && r.value.found == headers[r.value.position]
  {
    if |headers| < |LegacyRequiredHeaders| then Some(TooFewHeaders)
    else
      LegacyFirstMismatchAgrees(headers, LegacyRequiredHeaders, 0);
      FirstMismatchIsFirst(headers, LegacyRequiredHeaders, 0);
      LegacyFirstMismatch(headers, LegacyRequiredHeaders, 0)
  }

  /** Rejecting empty cells first changes nothing when no label is empty: an
      empty cell trims and lower-cases to "", which no label does. */
  lemma {:induction false} LegacyFirstMismatchAgrees(headers: Row, labels: seq<string>, i: nat)
    requires |labels| <= |headers| && i <= |labels|
    requires forall j :: 0 <= j < |labels| ==> labels[j] != ""
    ensures LegacyFirstMismatch(headers, labels, i) == FirstMismatch(headers, labels, i)
    decreases |labels| - i
  {
    if i < |labels| {
      assert |ToLower(labels[i])| > 0;
      assert ToLower(Trim("")) == "";
      assert LegacyHeaderMatches(headers[i], labels[i]) == HeaderMatches(headers[i], labels[i]);
      LegacyFirstMismatchAgrees(headers, labels, i + 1);
    }
  }

  /** The older header check accepts and rejects exactly as validateHeaders. */
  lemma LegacyCheckHeadersAgrees(headers: Row)
    ensures LegacyCheckHeaders(headers) == CheckHeaders(headers)
  {
    LegacyTablesMatch();
    if |headers| >= |RequiredHeaders| {
      LegacyFirstMismatchAgrees(headers, RequiredHeaders, 0);
    }
  }

  // ---------------------------------------------------------------------------
  // The row loop
  // ---------------------------------------------------------------------------

  /** The record the loop body builds from a row of seven or more cells; the
      name is kept whole. */
  function LegacyRecord(row: Row): (r: Option<LegacyEquipment>)
    ensures r.None? <==> |row| < MinRowLength
    ensures r.Some? ==>
      && r.value.name == row[0] && r.value.inventoryNumber == row[1]
      && r.value.maintenancePeriod == row[2] && r.value.engineer == row[6]
    ensures r.Some? ==>
      && (r.value.maintenanceDone == "" <==> ParseDate(row[3], row[4]).None?)
      && (r.value.maintenanceNext == "" <==> ParseDate(row[3], row[4]).None?)
  {
    if |row| < 7 then None
    else
      var date := ParseDate(row[3], row[4]);
      var maintenanceDone := if date.Some? then FormatDate(date) else "";
      var nextDate := if date.Some? then AddPeriod(date, row[2]) else None;
      var maintenanceNext := if nextDate.Some? then FormatDate(nextDate) else "";
      Some(LegacyEquipment(row[0], row[1], row[2], maintenanceDone, maintenanceNext, row[6]))
  }

  /** The records of the data rows in order, short rows skipped. */
  function LegacyCollected(rows: seq<Row>): (r: seq<LegacyEquipment>)
    ensures |r| <= |rows|
    decreases |rows|
  {
    if rows == [] then []
    else
      var last := LegacyRecord(rows[|rows| - 1]);
      LegacyCollected(rows[..|rows| - 1]) + (if last.Some? then [last.value] else [])
  }

  /** Why the older parseExcelFile rejects; each message is rejected as is. */
  datatype LegacyError =
    | LegacyNoSheets
    | LegacyEmptySheet
    | LegacyBadHeaders(cause: HeaderError)

  function LegacyErrorMessage(e: LegacyError): (r: string)
    ensures r == NoSheetsMessage <==> e.LegacyNoSheets?
    ensures r == EmptySheetMessage <==> e.LegacyEmptySheet?
    ensures e.LegacyBadHeaders? ==> r == HeaderErrorMessage(e.cause)
  {
    match e
    case LegacyNoSheets => "Файл не содержит ни одного листа."
    case LegacyEmptySheet => "Первый лист пустой."
    case LegacyBadHeaders(cause) => HeaderErrorMessage(cause)
  }

  function LegacyParseWorkbook(sheetCount: nat, rows: seq<Row>): (r: Result<seq<LegacyEquipment>, LegacyError>)
    ensures r.Success? <==> sheetCount > 0 && rows != [] && LegacyCheckHeaders(rows[0]).None?
    ensures r.Failure? && r.error.LegacyBadHeaders? ==> rows != [] && LegacyCheckHeaders(rows[0]) == Some(r.error.cause)
    ensures r.Success? ==> |r.value| <= |rows| - 1
  {
    if sheetCount == 0 then Failure(LegacyNoSheets)
    else if |rows| == 0 then Failure(LegacyEmptySheet)
    else
      match LegacyCheckHeaders(rows[0])
      case Some(e) => Failure(LegacyBadHeaders(e))
      case None => Success(LegacyCollected(rows[1..]))
  }

  /** The body of the row loop for a row of seven or more cells: the cells
      read, the dates computed, the record built. */
  method LegacyBuildRecord(row: Row) returns (equipment: LegacyEquipment)
    requires |row| >= 7
    ensures LegacyRecord(row) == Some(equipment)
  {
    var date := ParseDate(row[3], row[4]);
    var maintenanceDone := if date.Some? then FormatDate(date) else "";
    var nextDate := if date.Some? then AddPeriod(date, row[2]) else None;
    var maintenanceNext := if nextDate.Some? then FormatDate(nextDate) else "";
    equipment := LegacyEquipment(row[0], row[1], row[2], maintenanceDone, maintenanceNext, row[6]);
  }

  /** One more data row adds its record, if it has one. */
  lemma LegacyCollectedStep(rows: seq<Row>, i: nat)
    requires 1 <= i < |rows|
    ensures var record := LegacyRecord(rows[i]);
      LegacyCollected(rows[1..i + 1]) == LegacyCollected(rows[1..i]) + (if record.Some? then [record.value] else [])
  {
    assert rows[1..i + 1][..i - 1] == rows[1..i];
  }

  /** The sheet check, the header loop and the row loop of the older
      parseExcelFile. */
  method LegacyIngestRows(sheetCount: nat, rows: seq<Row>) returns (r: Result<seq<LegacyEquipment>, LegacyError>)
    ensures r == LegacyParseWorkbook(sheetCount, rows)
  {
    if sheetCount == 0 {
      return Failure(LegacyNoSheets);
    }
    if |rows| == 0 {
      return Failure(LegacyEmptySheet);
    }
    var headers := rows[0];
    if |headers| < |LegacyRequiredHeaders| {
      return Failure(LegacyBadHeaders(TooFewHeaders));
    }
    var labels := LegacyRequiredHeaders;
    for i := 0 to |labels|
      invariant LegacyFirstMismatch(headers, labels, i) == LegacyFirstMismatch(headers, labels, 0)
    {
      if headers[i] == "" || ToLower(Trim(headers[i])) != ToLower(labels[i]) {
        return Failure(LegacyBadHeaders(HeaderMismatch(i, labels[i], headers[i])));
      }
    }
    var equipments: seq<LegacyEquipment> := [];
    for i := 1 to |rows|
      invariant equipments == LegacyCollected(rows[1..i])
    {
      LegacyCollectedStep(rows, i);
      var row := rows[i];
      if |row| < 7 {
        continue;
      }
      var equipment := LegacyBuildRecord(row);
      equipments := equipments + [equipment];
    }
    assert rows[1..|rows|] == rows[1..];
    return Success(equipments);
  }

  // ---------------------------------------------------------------------------
  // The two parsers compared
  // ---------------------------------------------------------------------------

  /** The newer record for the same arguments: the name truncated. */
  function Modernised(e: LegacyEquipment, maxNameLength: int): Equipment {
    NewEquipment(e.name, e.inventoryNumber, e.maintenancePeriod, e.maintenanceDone,
                 e.maintenanceNext, e.engineer, Some(maxNameLength))
  }

  function ModernisedAll(es: seq<LegacyEquipment>, maxNameLength: int): (r: seq<Equipment>)
    ensures |r| == |es|
  {
    seq(|es|, k requires 0 <= k < |es| => Modernised(es[k], maxNameLength))
  }

  /** Row by row, the newer parser builds the older record with its name
      truncated. */
  lemma {:induction false} CollectedAgree(rows: seq<Row>, maxNameLength: int)
    ensures Collected(rows, maxNameLength) == ModernisedAll(LegacyCollected(rows), maxNameLength)
    decreases |rows|
  {
    if rows != [] {
      var front := rows[..|rows| - 1];
      var row := rows[|rows| - 1];
      CollectedAgree(front, maxNameLength);
      var old_ := LegacyCollected(front);
      if |row| >= MinRowLength {
        assert ProcessRow(row, maxNameLength).value == Modernised(LegacyRecord(row).value, maxNameLength);
        assert ModernisedAll(old_ + [LegacyRecord(row).value], maxNameLength)
          == ModernisedAll(old_, maxNameLength) + [Modernised(LegacyRecord(row).value, maxNameLength)];
      } else {
        assert old_ + [] == old_;
      }
    }
  }

  /** The older parser fails exactly when the newer one does, with the same
      message less the processing-error prefix on header errors; otherwise it
      returns the same records in the same order, names not truncated, one per
      data row of seven or more cells. */
  lemma LegacyAgreesWithCurrent(sheetCount: nat, rows: seq<Row>, maxNameLength: int)
    ensures var cur := ParseWorkbook(sheetCount, rows, maxNameLength);
      var old_ := LegacyParseWorkbook(sheetCount, rows);
      && (cur.Success? <==> old_.Success?)
      && (cur.Failure? ==>
            ErrorMessage(cur.error) ==
            (if cur.error.ProcessingError? then ProcessingErrorPrefix else "") + LegacyErrorMessage(old_.error))
      && (cur.Success? ==> cur.value == ModernisedAll(old_.value, maxNameLength))
      && (old_.Success? ==> |old_.value| == |LongRows(rows[1..])|)
  {
    if sheetCount > 0 && rows != [] {
      LegacyCheckHeadersAgrees(rows[0]);
      if CheckHeaders(rows[0]).None? {
        CollectedAgree(rows[1..], maxNameLength);
        CollectedLength(rows[1..], maxNameLength);
      }
    }
  }
}
