# Equipment sticker generator — a Dafny model

The application reads a spreadsheet of maintenance records and prints a PDF
of stickers, one per piece of equipment, on a grid of cols × rows stickers
per A4 page. This project models its core and proves properties of it:

- **Row ingestion** (`src/services/Parser.js`). The header row is checked
  against `REQUIRED_HEADERS`. Each later row of at least seven cells becomes
  an `Equipment` record, and shorter rows are dropped.
  - Each record carries the maintenance date read from the month and year
    columns (`parseDate`), that date displayed (`formatDate`), and the next
    date: the date moved by the maintenance period (`addPeriod`).
  - The period is matched with the pattern
    `/(\d+)\s*(год|года|лет|месяц|месяцев|месяца)/`.
  - The older copy in `ti-stickers/src/Parser.js` is modelled beside it and
    proved equal to it, except for two differences: name truncation and the
    error prefix.
- **The record** (`src/models/Equipment.js`, `ti-stickers/src/Equipment.js`).
  It covers name truncation and the six-line text the sticker renderer
  splits on line breaks.
- **The sticker sheet** (`src/services/PdfConverter.js`).
  - `generatePdf` walks the records a page at a time.
  - `drawPage` gives cell (row, col) the record
    `pageStart + row * cols + col`.
  - `drawEquipmentText` draws the record's wrapped lines while they still
    fit in the sticker.
  - The jsPDF document is modelled as the trace of calls made on it
    (`addPage`, `text`, `save`, plus a `Placed` marker where a record is
    handed to the sticker renderer).
- **The constant tables** (`src/config/constants.js`,
  `src/config/templates.js`). Their consistency is what the operations above
  rely on.

## Files and modules

| file | module | models |
|---|---|---|
| `wrappers.dfy` | `Wrappers` | `Option` and `Result` |
| `js_text.dfy` | `JsText` | `trim`, `toLowerCase`, `parseInt(s, 10)`, integer rendering, `split('\n')` and the multi-line template literal |
| `counting.dfy` | `Counting` | multiplication and division as repeated addition, used by the layout proofs |
| `constants.dfy` | `Constants` | `constants.js` |
| `templates.dfy` | `Templates` | `templates.js` |
| `equipment.dfy` | `EquipmentModel` | `src/models/Equipment.js` |
| `legacy_equipment.dfy` | `LegacyEquipmentModel` | `ti-stickers/src/Equipment.js` |
| `date_engine.dfy` | `DateEngine` | `parseDate`, `formatDate`, `PERIOD_PATTERN`, `addPeriod` and the `Date` copy it mutates |
| `parser.dfy` | `Parser` | `validateHeaders`, `processRow` and the sheet and row loop of `parseExcelFile` |
| `legacy_parser.dfy` | `LegacyParser` | `parseExcelFile` of `ti-stickers/src/Parser.js` from the sheet check on |
| `pdf_converter.dfy` | `PdfConverter` | `calculateLayout` (`stickersPerPage`, `rowHeight`), `drawEquipmentText`, `drawPage`, `generatePdf` |

### How the model represents things

- **Dates.** A date is `Date(year, month)` with `month` in 0..11. The day is
  always 1: `parseDate` builds day 1, and `addPeriod` only sets the year or
  the month.
- **The `Date` constructor.** As section 21.4.2.1 of ECMA-262 prescribes, it
  reads years 0..99 as 1900..1999. `setFullYear` does not.
- **`setMonth`.** It carries months outside 0..11 into the year (MakeDay,
  section 21.4.1 of ECMA-262).
- **Cells.** A cell is a string. An absent cell is `""`, which is what the
  source's `row[c] || ''` makes of it.
- **Patterns and the page loop.** The period pattern is a hand-written
  matcher: greedy digit and white-space runs, then an ordered alternation,
  tried leftmost first. `splitTextToSize` is a parameter `wrap`, and the
  page height is a parameter too.
- **Imperative code stays imperative.** Four pieces of code are written as
  methods with loops and proved equal to a specification function:
  - the header loop and the row loop;
  - the `Date` copy that `addPeriod` mutates (class `CalendarDate`);
  - the jsPDF document (class `Document`, with its trace of calls);
  - the three drawing loops.

## Model

| member | source | states |
|---|---|---|
| Constants.MonthMapIsBijection | src/config/constants.js:76-89 | MONTH_MAP has exactly 12 keys, and they are distinct. Key i maps to i, the values are exactly 0..11, and "" is not a key |
| Constants.MonthNamesMatchMonthMap | src/config/constants.js:76-95 | there are 12 MONTH_NAMES. Lower-casing name i gives the MONTH_MAP key of i, and every name is already trimmed |
| Constants.MonthNameLowerCase | src/config/constants.js:92-95 | lower-casing MONTH_NAMES[i] gives the key that MONTH_MAP maps to i |
| Constants.RequiredHeadersDistinct | src/config/constants.js:57-63 | REQUIRED_HEADERS has five entries, pairwise distinct |
| Constants.ExcelColumnsFitRowGuard | src/config/constants.js:66-73 | the EXCEL_COLUMNS indices are distinct and all below the row guard of 7, and column 5 is not among them |
| Constants.TimeUnitsPartitionPeriodUnits | src/config/constants.js:98-104 | TIME_UNITS.YEARS and TIME_UNITS.MONTHS are disjoint, and together they are exactly the unit alternatives of PERIOD_PATTERN |
| Constants.NameLengthBoundsOrdered | src/config/constants.js:6-11 | MIN_NAME_LENGTH <= MAX_NAME_LENGTH_DEFAULT <= MAX_NAME_LENGTH_LIMIT |
| Templates.Capacity | src/services/PdfConverter.js:17-18 | stickersPerPage = cols * rows. For a grid with at least one column and one row, it is at least 1 and at least cols and rows |
| Templates.StatesCapacityAt | src/config/templates.js:21 | a description made of a lead, "= <capacity> " and a tail states the capacity |
| Templates.SmallNumberText | src/config/templates.js:17-19 | the decimal text of a number below 100 is one or two digits |
| Templates.Key3x8 | src/config/templates.js:17-19 | the 3x8 grid is filed under "<cols>x<rows>" of its own dimensions |
| Templates.Entry3x8 | src/config/templates.js:17-22 | the 3x8 entry is a usable grid, is filed under its own dimensions, and its description states its capacity 24 |
| Templates.Entry3x7 | src/config/templates.js:23-28 | the same for 3x7, with capacity 21 |
| Templates.Entry2x10 | src/config/templates.js:29-34 | the same for 2x10, with capacity 20 |
| Templates.Entry4x6 | src/config/templates.js:35-40 | the same for 4x6, with capacity 24 |
| Templates.CatalogIsConsistent | src/config/templates.js:16-48 | DEFAULT_TEMPLATE is a key of STICKER_TEMPLATES. Every entry has cols >= 1 and rows >= 1, is filed under "<cols>x<rows>", and its description states its capacity |
| Templates.CatalogCapacities | src/config/templates.js:16-41 | the capacities of 3x8, 3x7, 2x10 and 4x6 are 24, 21, 20 and 24 |
| EquipmentModel.TruncateName | src/models/Equipment.js:19-22 | the stored name is a prefix of the given name and no longer than a non-negative maxLength. It is the whole name when that fits, and exactly maxLength characters (0 for a negative limit) when it does not |
| EquipmentModel.TruncateNameIdempotent | src/models/Equipment.js:19-22 | truncating an already truncated name with the same limit changes nothing |
| EquipmentModel.NewEquipment | src/models/Equipment.js:2-22 | the name is kept when it fits in maxLength, which defaults to 100, and is otherwise its first maxLength characters (substring(0, maxLength), none for a negative limit). The other five fields are stored exactly as given |
| EquipmentModel.LabelledLinesSingle | src/models/Equipment.js:24-31 | a "label: value" line has no line break when neither its label nor its value has one |
| EquipmentModel.ToStringLines | src/models/Equipment.js:24-31 | when no field holds a line break, splitting toString on line breaks gives exactly the six "label: value" lines in the order name, inventory no., period, done, next, engineer |
| EquipmentModel.ToString | src/models/Equipment.js:24-31 | toString starts with the name line "Наименование: <name>" and a line break; ToStringLines gives the rest |
| LegacyEquipmentModel.LegacyLabelsAgreeAfterSecond | ti-stickers/src/Equipment.js:18-25 | the older labels are the long "Наименование оборудования" and "Инвентарный номер", followed by the same last four labels as the newer record |
| LegacyEquipmentModel.LegacyToStringLines | ti-stickers/src/Equipment.js:18-25 | splitting the older toString on line breaks gives the six labelled lines in order, the first with the long name label |
| LegacyEquipmentModel.LegacyToString | ti-stickers/src/Equipment.js:18-25 | the older toString starts with "Наименование оборудования: <name>" and a line break |
| JsText.TrimStart | src/services/Parser.js:24 | trimStart drops exactly the leading white space |
| JsText.TrimEnd | src/services/Parser.js:24 | trimEnd drops exactly the trailing white space |
| JsText.TrimStartKeepsSuffix | src/services/Parser.js:24 | trimStart keeps a suffix of the text |
| JsText.TrimEndKeepsPrefix | src/services/Parser.js:24 | trimEnd keeps a prefix of the text |
| JsText.TrimUnchanged | src/services/Parser.js:24 | a text that neither starts nor ends with white space is its own trim |
| JsText.Trim | src/services/Parser.js:24 | trim is no longer than its input, and neither starts nor ends with white space |
| JsText.ToLower | src/services/Parser.js:24 | toLowerCase keeps the length of the text |
| JsText.ToLowerKeepsDigitsAndWhiteSpace | src/services/Parser.js:54 | lower-casing leaves every digit and every white-space character where it was, and makes no new ones, so the period pattern sees the same runs |
| JsText.ParseInt | src/services/Parser.js:26 | parseInt(s, 10) is NaN exactly when no digit follows the leading white space and the optional sign |
| JsText.DigitRunIsLongest | src/config/constants.js:98 | the digit run of \d+ is all digits and cannot be extended |
| JsText.WhiteSpaceRunIsLongest | src/config/constants.js:98 | the white-space run of \s* is all white space and cannot be extended |
| JsText.DigitRunEndShift | src/config/constants.js:98 | text put in front of a digit run moves its end by the text's length and nothing else |
| JsText.WhiteSpaceRunEndShift | src/config/constants.js:98 | the same for a white-space run |
| JsText.NatToString | src/services/Parser.js:41 | the decimal text of a non-negative integer is a non-empty run of digits whose value is the integer |
| JsText.ParseIntOfIntToString | src/services/Parser.js:26 | parseInt reads a rendered integer back and stops at the first non-digit after it |
| JsText.ParseIntRoundTrip | src/services/Parser.js:26 | parseInt of a rendered integer is that integer |
| JsText.SignedBodyOfIntToString | src/services/Parser.js:26 | a rendered integer has no leading white space, and what follows its sign is the digits of its magnitude |
| JsText.DigitRunEndOfDigits | src/services/Parser.js:26 | the digit run over digits followed by a non-digit ends where the digits end |
| JsText.Split | src/services/PdfConverter.js:59 | split on a one-character separator gives at least one piece, and no piece holds the separator |
| JsText.SplitWithoutSeparator | src/services/PdfConverter.js:59 | a text without the separator splits into itself |
| JsText.SplitAtFirstSeparator | src/services/PdfConverter.js:59 | splitting a + sep + b gives a followed by the pieces of b |
| JsText.SplitJoin | src/models/Equipment.js:24-31 | splitting pieces joined by line breaks, when no piece holds a line break, gives the pieces back |
| JsText.JoinSplit | src/services/PdfConverter.js:59 | joining the pieces of a split gives the text back |
| JsText.Join | src/models/Equipment.js:24-31 | joining two or more pieces starts with the first piece and the separator. When no piece holds the separator, the result holds it iff there are at least two pieces |
| Counting.QuotRemSplit | src/services/PdfConverter.js:120 | i = (i / d) * d + i % d, with division as repeated subtraction |
| Counting.QuotRemOf | src/services/PdfConverter.js:120 | x = q * d + r with r < d has quotient q and remainder r |
| Counting.MultipleMonotone | src/services/PdfConverter.js:120 | p <= q implies p * d <= q * d |
| Counting.MultipleFormula | src/services/PdfConverter.js:92 | repeated addition is multiplication |
| Counting.DivModUnique | src/services/PdfConverter.js:120 | Euclidean division has one quotient and one remainder |
| Counting.QuotRemFormula | src/services/PdfConverter.js:120 | repeated subtraction gives / and % |
| DateEngine.ParseDate | src/services/Parser.js:21-31 | parseDate succeeds iff both arguments are non-empty, the trimmed lower-cased month is a MONTH_MAP key and the year has a leading integer. Then it gives that key's month, and the year read as the Date constructor reads it |
| DateEngine.FormatDate | src/services/Parser.js:39-42 | formatDate gives "" exactly for a missing date. A date is shown starting with its MONTH_NAMES name and a space; FormatParseRoundTrip reads it back |
| DateEngine.ParseDateOfMonthName | src/services/Parser.js:21-42 | a month name in any capitalisation and padding, with a year that parses, gives day 1 of that month. formatDate shows it as MONTH_NAMES[i] + " " + year + " г." |
| DateEngine.FormatParseRoundTrip | src/services/Parser.js:21-42 | the displayed month name and year, followed by any text that does not start with a digit (such as " г."), parse back to the same date, for years outside 0..99 |
| DateEngine.TwoDigitYearsShift | src/services/Parser.js:30 | years 0..99 parse as 1900..1999: the Date constructor's two-digit-year rule |
| DateEngine.FirstUnit | src/config/constants.js:98 | ordered alternation returns an alternative the text starts with, and returns none only when no alternative is a prefix |
| DateEngine.FirstUnitIsOrderedChoice | src/config/constants.js:98 | when alternative j is a prefix of the text and none before it is, the alternation returns alternative j: the first one in list order wins |
| DateEngine.MatchAt | src/config/constants.js:98 | a match at i starts at i, and its group 1 is the whole digit run from i. Group 2 is the first of the six unit alternatives that the text after the white-space run starts with |
| DateEngine.MatchIsAReading | src/config/constants.js:98 | what MatchAt finds is a reading of the text: a non-empty digit run (group 1), a white-space run, then group 2 as the first alternative the rest starts with. With GreedyReadingIsTheOnlyOne this makes MatchAt succeed exactly when such a reading exists |
| DateEngine.FindPeriod | src/services/Parser.js:55 | the match found starts at or after the search position and is MatchAt's match there, so its unit occurs in the text after its digits |
| DateEngine.FindPeriodIsLeftmost | src/services/Parser.js:55 | no match starts before the one found, and "no match" means the pattern matches at no position |
| DateEngine.GreedyReadingIsTheOnlyOne | src/config/constants.js:98 | whenever any split of the text at i into digits, white space and a unit exists, it is the greedy one, so backtracking finds nothing else |
| DateEngine.YearUnitFirst | src/config/constants.js:98 | a text starting with "год" captures "год" |
| DateEngine.MonthUnitFirst | src/config/constants.js:98 | a text starting with "месяц" captures "месяц" |
| DateEngine.CapturedUnitIsShortForm | src/config/constants.js:98 | ordered alternation only ever captures "год", "лет" or "месяц" |
| DateEngine.MatchExtendsLeft | src/config/constants.js:98 | a digit just before a match starts a match of its own |
| DateEngine.LeftmostMatchShape | src/services/Parser.js:54-60 | the leftmost match starts at the first digit of a digit run, its number is that whole run, and its unit is a short form |
| DateEngine.MatchPeriod | src/services/Parser.js:54-55 | a match of the trimmed, lower-cased period has a non-empty digit group and a unit among the alternatives |
| DateEngine.MakeMonth | src/services/Parser.js:66 | a month number outside 0..11 carries into the year: months since year 0 = year * 12 + month |
| DateEngine.Advance | src/services/Parser.js:59-67 | a year unit adds the amount to the year and keeps the month. A month unit adds the amount to the months since year 0. Any other unit changes nothing |
| DateEngine.AddPeriod | src/services/Parser.js:51-70 | addPeriod returns a date exactly when it is given one |
| DateEngine.AddPeriodWithoutMatch | src/services/Parser.js:52-57 | an empty period, or one with no match after trim and lower-case, leaves the date unchanged |
| DateEngine.AddPeriodMovesDate | src/services/Parser.js:54-69 | a matched period moves the date by the value of the leftmost match's digits. Year units add that many years and keep the month. Month units add that many months, carrying into the year |
| DateEngine.PeriodTextOfAmount | src/services/Parser.js:54 | "<digits> <lower-case unit text>" is its own trimmed, lower-cased form |
| DateEngine.MatchAtAmount | src/services/Parser.js:55 | the pattern at the start of "<digits> <unit text>" reads the digits and the unit the text starts with |
| DateEngine.MatchAtAfterLead | src/services/Parser.js:55 | the same, for a number preceded by any text |
| DateEngine.AddPeriodOfAmount | src/services/Parser.js:51-70 | "<n><unit text>" moves a date by n of that unit |
| DateEngine.AddMonths | src/services/Parser.js:65-67 | "<n> месяцев" adds n months, carrying into the year |
| DateEngine.AddYears | src/services/Parser.js:63-64 | "<n> год" adds n years and keeps the month |
| DateEngine.TwelveMonthsFromMarch | src/services/Parser.js:48 | "12 месяцев" from March 2024 gives March 2025 |
| DateEngine.OneYearFromMarch | src/services/Parser.js:48 | "1 год" from March 2024 gives March 2025 |
| DateEngine.FindPeriodSkips | src/services/Parser.js:55 | the search passes over positions where the pattern does not match |
| DateEngine.RepeatedPeriodFirstNumber | src/services/Parser.js:55 | in "1 раз в 12 месяцев" the pattern matches at none of the first eight positions |
| DateEngine.RepeatedPeriodSecondNumber | src/services/Parser.js:55 | in "1 раз в 12 месяцев" the pattern matches at "12", with the unit "месяц" |
| DateEngine.RepeatedPeriodMatch | src/services/Parser.js:54-60 | the match of "1 раз в 12 месяцев" is "12 месяц" at position 8 |
| DateEngine.LaterNumberCounts | src/services/Parser.js:54-67 | "1 раз в 12 месяцев" adds 12 months: a number no unit follows is passed over |
| DateEngine.AddPeriodOfMatch | src/services/Parser.js:54-67 | a period whose match is m moves the date by m's amount of m's unit |
| DateEngine.CalendarDate.Copy | src/services/Parser.js:61 | the copy holds the same date |
| DateEngine.CalendarDate.SetFullYear | src/services/Parser.js:64 | setFullYear sets the year as given, 0..99 included, and keeps the month |
| DateEngine.CalendarDate.SetMonth | src/services/Parser.js:66 | setMonth on day 1 carries a month outside 0..11 into the year |
| DateEngine.MoveCopy | src/services/Parser.js:61-67 | copying the date and setting its year or month gives the date Advance describes |
| DateEngine.AddPeriodToCopy | src/services/Parser.js:51-70 | addPeriod run step by step, with the date moved on a copy, gives AddPeriod's result |
| Parser.FirstMismatchIsFirst | src/services/Parser.js:83-92 | the loop finds no mismatch iff every label from i on matches its cell. A mismatch it reports is at the first position that does not match and names that position's label and cell |
| Parser.CheckHeaders | src/services/Parser.js:78-93 | validateHeaders throws INVALID_HEADERS exactly for a row of fewer than five cells. Any other rejection is a mismatch at one of the five positions, quoting the cell found there |
| Parser.HeaderErrorMessage | src/services/Parser.js:79-90 | the short-row error carries INVALID_HEADERS. A mismatch message opens with the expected label and "на позиции "; MismatchMessageNamesPosition reads the position back |
| Parser.CheckHeadersAccepts | src/services/Parser.js:78-93 | validateHeaders accepts exactly the rows of at least five cells whose first five cells, trimmed and lower-cased, equal the lower-cased REQUIRED_HEADERS in order |
| Parser.CheckHeadersReportsFirstMismatch | src/services/Parser.js:78-93 | a row of fewer than five cells gets the "incomplete headers" error. A longer row that is rejected is rejected at its first mismatching position, naming the expected label and the cell found |
| Parser.RequiredHeadersPass | src/services/Parser.js:78-93 | the expected header row passes, whatever cells follow it |
| Parser.CheckHeadersIgnoresExtraCells | src/services/Parser.js:83 | cells after the fifth are never looked at |
| Parser.MismatchMessageNamesPosition | src/services/Parser.js:88-90 | the mismatch message quotes the expected label, and the number after "на позиции " reads back as the 1-based position |
| Parser.ValidateHeaders | src/services/Parser.js:78-93 | the length guard and the loop that throws at the first mismatch give CheckHeaders' verdict |
| Parser.ProcessRow | src/services/Parser.js:102-126 | no record iff the row has fewer than 7 cells. A record reads columns 0, 1, 2, 3, 4 and 6. The name is kept when it fits in maxNameLength and is otherwise its first maxNameLength characters. The done and next dates are both "" exactly when parseDate fails |
| Parser.ProcessRowReadsOnlyExcelColumns | src/services/Parser.js:103-110 | two rows of at least 7 cells that agree on the EXCEL_COLUMNS give the same record, so column 5 and the columns after 6 are never read |
| Parser.ProcessRowDates | src/services/Parser.js:112-115 | the done date is the parsed date displayed, and the next date is that date moved by the period. A period with no match makes the two equal |
| Parser.Collected | src/services/Parser.js:172-177 | the data rows give at most one record each |
| Parser.CollectedAppend | src/services/Parser.js:172-177 | the records of two runs of rows are those of the first run followed by those of the second: records keep the order of their rows |
| Parser.CollectedStep | src/services/Parser.js:172-177 | one more data row adds its record, if it has one |
| Parser.CollectedOne | src/services/Parser.js:173-176 | one row gives its record when it has 7 or more cells and nothing otherwise |
| Parser.CollectedLength | src/services/Parser.js:172-177 | there is one record per data row of at least 7 cells |
| Parser.ParseWorkbookOutcome | src/services/Parser.js:155-181 | zero sheets fails with NO_SHEETS, and otherwise zero rows fails with EMPTY_SHEET. Otherwise the result is a success iff the header row passes. A success has one record per data row of 7 or more cells, and the header row is never one |
| Parser.ParseWorkbook | src/services/Parser.js:155-181 | parseExcelFile, for a given maxNameLength, resolves iff there is a sheet, the sheet has rows and the header row passes. A processing error carries the header row's own error |
| Parser.ErrorMessage | src/services/Parser.js:155-181 | a header error is rethrown behind the PROCESSING_ERROR prefix. The NO_SHEETS and EMPTY_SHEET messages are given for those failures and no other, so a message tells its cause |
| Parser.IngestRows | src/services/Parser.js:136-181 | the sheet check, the row check, the header check and the loop pushing each record give ParseWorkbook's result. An omitted maxNameLength is MAX_NAME_LENGTH_DEFAULT (100). A header error is wrapped with the PROCESSING_ERROR prefix |
| LegacyParser.LegacyTablesMatch | ti-stickers/src/Parser.js:4-63 | the inline month table, month names, unit lists and header labels equal the shared constants, so the older parseDate, formatDate and addPeriod are those of DateEngine |
| LegacyParser.LegacyFirstMismatchAgrees | ti-stickers/src/Parser.js:109-121 | testing for an empty cell first changes nothing, since no label is empty |
| LegacyParser.LegacyCheckHeadersAgrees | ti-stickers/src/Parser.js:103-121 | the older header check rejects exactly the rows validateHeaders rejects, with the same error |
| LegacyParser.LegacyCheckHeaders | ti-stickers/src/Parser.js:103-121 | the older check rejects with "incomplete headers" exactly for a row of fewer than five cells. Any other rejection is a mismatch at one of the five positions, quoting the cell found there |
| LegacyParser.LegacyRecord | ti-stickers/src/Parser.js:125-149 | no record iff the row has fewer than 7 cells. The name is row[0], not truncated. The other cells are 1, 2 and 6. The dates are "" exactly when parseDate fails |
| LegacyParser.LegacyErrorMessage | ti-stickers/src/Parser.js:87-120 | the "no sheets" and "empty sheet" messages are given for those failures and no other. A header rejection is the header error's own message, with no processing-error prefix |
| LegacyParser.LegacyBuildRecord | ti-stickers/src/Parser.js:129-149 | the loop body builds LegacyRecord's record |
| LegacyParser.LegacyCollectedStep | ti-stickers/src/Parser.js:125-152 | one more data row adds its record, if it has one |
| LegacyParser.LegacyCollected | ti-stickers/src/Parser.js:125-152 | the data rows give at most one record each |
| LegacyParser.LegacyParseWorkbook | ti-stickers/src/Parser.js:87-154 | the older parseExcelFile resolves iff there is a sheet, the sheet has rows and the header row passes, with at most one record per data row. A header rejection carries the header row's own error |
| LegacyParser.LegacyIngestRows | ti-stickers/src/Parser.js:87-154 | the sheet check, the header loop and the row loop with continue and push give LegacyParseWorkbook's result |
| LegacyParser.CollectedAgree | ti-stickers/src/Parser.js:125-152 | row by row, the newer parser builds the older record with its name truncated |
| LegacyParser.LegacyAgreesWithCurrent | ti-stickers/src/Parser.js:87-154 | the older parser fails exactly when the newer one does, with the same message less the processing-error prefix on header errors. Otherwise it returns the same records in the same order, names untruncated, one per data row of 7 or more cells |
| PdfConverter.Document.constructor | src/services/PdfConverter.js:112-115 | a new document has no calls |
| PdfConverter.Document.AddPage | src/services/PdfConverter.js:122 | addPage appends one NewPage call |
| PdfConverter.Document.Text | src/services/PdfConverter.js:70 | text appends one TextAt call with its line and y |
| PdfConverter.Document.Place | src/services/PdfConverter.js:93-98 | marks the record at index handed to the sticker renderer for cell (row, col) |
| PdfConverter.Document.Save | src/services/PdfConverter.js:128 | save appends one Saved call with the file name |
| PdfConverter.LineYFormula | src/services/PdfConverter.js:60-71 | the k-th line is drawn k line heights below the first |
| PdfConverter.FitCount | src/services/PdfConverter.js:62-73 | no more lines are counted than there are |
| PdfConverter.FitCountIsLongest | src/services/PdfConverter.js:62-73 | the last counted line ends within the cell, and the first line left out would not |
| PdfConverter.FitCountUnique | src/services/PdfConverter.js:62-73 | any count with those two properties is FitCount |
| PdfConverter.LineYGrows | src/services/PdfConverter.js:71 | lines further down have larger y, because currentY only increases |
| PdfConverter.ClippedFits | src/services/PdfConverter.js:59-74 | every drawn line satisfies y + lineHeight <= the cell's bottom. The drawn lines are a prefix of the wrapped lines, in order, one line height apart. Drawing stops only at a line that would cross the bottom |
| PdfConverter.DrawLine | src/services/PdfConverter.js:62-74 | one line's callback: nothing once a line no longer fits, otherwise its wrapped lines while each still fits, keeping the prefix invariant |
| PdfConverter.DrawEquipmentText | src/services/PdfConverter.js:55-75 | drawEquipmentText appends exactly StickerText: nothing for an empty cell, otherwise the record's wrapped lines from one line height below the top, clipped to the cell height |
| PdfConverter.StickerTopFormula | src/services/PdfConverter.js:96 | the top of row r is MARGIN + r * (rowHeight + GAP) |
| PdfConverter.RowHeight | src/services/PdfConverter.js:21-23 | rows row heights plus the rows - 1 gaps between them take up exactly the page height less both margins |
| PdfConverter.RowsFillPage | src/services/PdfConverter.js:21-96 | with rowHeight from calculateLayout, the first row starts at the top margin, each row starts one row height and one gap below the previous one, and the last row ends at the bottom margin |
| PdfConverter.RowFirstFormula | src/services/PdfConverter.js:92 | the first record of row r is pageStart + r * cols |
| PdfConverter.CellPosition | src/services/PdfConverter.js:92-96 | the index and y drawPage computes for a cell are the row's first index plus col, and the row's top |
| PdfConverter.DrawCell | src/services/PdfConverter.js:92-98 | a cell places the record pageStart + row * cols + col and draws its text, or draws nothing past the end of the list |
| PdfConverter.DrawRow | src/services/PdfConverter.js:91-99 | the inner loop appends the cells of a row, left to right |
| PdfConverter.DrawPage | src/services/PdfConverter.js:86-101 | drawPage appends the cells of the grid row by row, top to bottom |
| PdfConverter.ClippedInside | src/services/PdfConverter.js:59-74 | the clipped lines of a sticker lie inside it |
| PdfConverter.StickerTextInside | src/services/PdfConverter.js:55-75 | every line drawEquipmentText draws lies between the sticker's top plus one line height and its bottom |
| PdfConverter.CellTextInsideSticker | src/services/PdfConverter.js:92-98 | every line drawn for a cell lies inside its sticker |
| PdfConverter.NewPagesAppend | src/services/PdfConverter.js:120-126 | the addPage calls of two traces add up |
| PdfConverter.SlotsAppend | src/services/PdfConverter.js:120-126 | the records placed by two traces, one after the other, are those of the first, then those of the second on the pages that follow |
| PdfConverter.NoSaves | src/services/PdfConverter.js:128 | a trace with no save has no Saved call |
| PdfConverter.TextsPlaceNothing | src/services/PdfConverter.js:70 | text calls place no record, add no page and do not save |
| PdfConverter.CellSlots | src/services/PdfConverter.js:92-98 | a cell places its record if the index is below n and nothing otherwise. It adds no page and does not save |
| PdfConverter.RowSlots | src/services/PdfConverter.js:91-99 | the first k cells of a row place the records from the row's first index on, one per column in order, as far as there are records |
| PdfConverter.GridSlots | src/services/PdfConverter.js:90-100 | the first r rows place the records from pageStart on, cell number j being (j / cols, j % cols), as far as there are records |
| PdfConverter.PageSlots | src/services/PdfConverter.js:86-101 | a page places the records from pageStart on, as many as fit (cols * rows) or as there are, row-major. It adds no page and does not save |
| PdfConverter.PageCountFormula | src/services/PdfConverter.js:120 | the number of pages is (n + stickersPerPage - 1) / stickersPerPage: n over the capacity, rounded up |
| PdfConverter.PageCount | src/services/PdfConverter.js:120 | from 1 up to stickersPerPage records take exactly one page; PageCountIsCeiling and PageCountUnique pin the count down for every n |
| PdfConverter.PageCountIsCeiling | src/services/PdfConverter.js:120 | there are zero pages iff n = 0. The pages hold all n records, and with one page fewer they would not |
| PdfConverter.PageCountUnique | src/services/PdfConverter.js:120 | any page count with those properties is PageCount |
| PdfConverter.GeneratePdf | src/services/PdfConverter.js:111-129 | the page loop, with addPage before every page but the first, then save, produces RunEvents. The file name is the one given, or DEFAULT_FILENAME when it is omitted. The loop terminates because the capacity is at least 1 |
| PdfConverter.RunRunFormula | src/services/PdfConverter.js:92-120 | record i lands on page i / stickersPerPage, in cell (c / cols, c % cols) with c = i % stickersPerPage |
| PdfConverter.PagesSlots | src/services/PdfConverter.js:120-126 | the first p pages place the first min(n, p * stickersPerPage) records in run order, add p - 1 pages and do not save |
| PdfConverter.RunOfLayout | src/services/PdfConverter.js:120-128 | a run places each record exactly once in order, adds pages - 1 pages (none for n = 0), and its last call, and only that one, is the save |
| PdfConverter.RunLayout | src/services/PdfConverter.js:111-129 | for every well-formed template, generatePdf places record i on page i / stickersPerPage at cell (c / cols, c % cols), every record exactly once and in order. It calls addPage PageCount - 1 times (0 for no records) and saves once, last, also when there are no records |
| PdfConverter.EveryPageUsed | src/services/PdfConverter.js:120-126 | every record is on one of the PageCount pages, and every page starts with a record |
| PdfConverter.LastPageFill | src/services/PdfConverter.js:92-120 | the last page holds n - (pages - 1) * stickersPerPage records, between 1 and stickersPerPage. It is full iff n is a multiple of stickersPerPage |
| PdfConverter.LastPageRecords | src/services/PdfConverter.js:92-120 | record i is on the last page iff i >= (pages - 1) * stickersPerPage |

## Left out

- **File reading and decoding are outside the model.** This covers the
  `File` check, `FileReader`, the Promise, `XLSX.read` and `sheet_to_json`.
  The model starts from the sheet count and the decoded rows of the first
  sheet.
- **jsPDF drawing is abstract.** The font setup (`setupDocumentStyles`) and
  the x coordinate are left out. The x coordinate
  (`src/services/PdfConverter.js:95`) adds `PDF_SETTINGS.LEFT_OFFSET`, which
  `constants.js` does not define, so every `doc.text` call gets x = NaN. The
  model assumes the renderer accepts such a call and records only the line
  and its y. If jsPDF rejects a NaN coordinate, the source never completes a
  run once it draws a record, which the traced run does not show. The text
  width (`colWidth`, `TEXT_MARGIN`) only reaches
  `splitTextToSize`, which is the parameter `wrap`. The page height is a
  parameter.
- **Page geometry is exact.** Coordinates are `real`, so floating-point
  rounding is not modelled.
- **The line height is a constant.** It is `FONT_SIZE + LINE_HEIGHT_OFFSET`,
  as in `drawEquipmentText`. The clipping lemmas (`FitCount…`, `LineY…`,
  `ClippedFits`) hold for any positive line height.
- **`PdfConverter.GeneratePdf` requires a well-formed template.** It demands
  `cols >= 1` and `rows >= 1`. The source has no such check: with a capacity
  of 0 and at least one record, its page loop never ends. The callers in
  `src/components/App/App.js:65` and `ti-stickers/src/App.js:65` pass the
  file name where the template belongs. These callers are not part of this
  model.
- **The older flow layout in `src/PdfConverter.js` is not part of this
  model.** Its page breaks come from an external table library. The UI
  components and `src/index.js` are not part of this model either.
- **`DateEngine.ParseDate` treats the month table as a plain map.** In the
  source, `MONTH_MAP` (`src/config/constants.js:76-89`) and `monthMap`
  (`ti-stickers/src/Parser.js:4-17`) are object literals, so a lookup also
  finds the keys they inherit. After trim and lower-case, only two inherited
  keys can be met: "constructor" and "__proto__". For these the source's
  lookup is not `undefined`, `new Date(year, NaN, 1)` gives an Invalid Date,
  and `processRow` stores "undefined NaN г." as both the done and the next
  date. The model returns None for these two month cells and stores "".
- **`DateEngine.ParseDate`, `DateEngine.AddPeriod` and `DateEngine.FormatDate`
  use unbounded years.** A JavaScript `Date` ends 8.64e15 ms from 1970, in the
  year 275760. Past that range, the source has an Invalid Date and the model
  an ordinary date. This happens for a year cell beyond that range, or for a
  period that moves the date past it: "300000 лет" from 2024 gives year
  302024. `formatDate` then shows "undefined NaN г." in the source and, for
  example, "Январь 302024 г." in the model. The host time zone plays no part,
  since the day is always 1.
- **`JsText.ToLower` maps a limited set of capitals.** It covers Basic
  Latin, Latin-1 and the basic Cyrillic capitals (U+0400..U+042F). Other
  scripts are left as they are, which is enough for every text the
  application compares.
- **`EquipmentModel.TruncateName` counts characters, not UTF-16 code
  units.** The source's `name.length` and `substring` count UTF-16 code
  units; a string here counts Unicode characters. For a name with characters
  outside the Basic Multilingual Plane, the source sees a greater length and
  may cut it inside a surrogate pair. An example is 99 Cyrillic letters
  followed by an emoji, with maxLength 100: the source keeps the letters and
  half of the emoji, and the model keeps the whole name. The same holds for
  `NewEquipment` and `Parser.ProcessRow`, which use it.
- **`JsText.ParseInt` uses unbounded integers.** Digit runs too long for a
  double keep every digit here.
- **`Parser.HeaderErrorMessage` shows an absent header cell as "".** The
  source shows "undefined", because an absent cell is modelled as "".
- **Multiplication and division in the layout are repeated addition.**
  `LineY`, `StickerTop`, `Counting.Multiple`, `Counting.Quot` and
  `Counting.Rem` are defined that way. `LineYFormula`, `StickerTopFormula`,
  `MultipleFormula` and `QuotRemFormula` tie them to `*`, `/` and `%`.
- **Template descriptions are written in three pieces.** Each is the
  catalog's text split around "= <capacity> ". The concatenation is the
  same text.
- **`maxNameLength` is not clamped to [50, 500].** `MIN_NAME_LENGTH` and
  `MAX_NAME_LENGTH_LIMIT` exist, but no code enforces them.
