/**
 * The sticker sheet writer of src/services/PdfConverter.js. The jsPDF
 * document is modelled by the trace of calls made on it: addPage, text with
 * its y coordinate, and save, plus a marker where a record is handed to the
 * sticker renderer. splitTextToSize is a parameter: any function from a line
 * to its wrapped lines, the column width being fixed for a document.
 */
module PdfConverter {
  import opened Wrappers
  import opened JsText
  import opened EquipmentModel
  import opened Templates
  import opened Counting

  // PDF_SETTINGS.MARGIN, PDF_SETTINGS.GAP, PDF_SETTINGS.FONT_SIZE and
  // PDF_SETTINGS.LINE_HEIGHT_OFFSET, in points.
  const Margin: real := 20.0
  const Gap: real := 15.0
  const FontSize: real := 5.7
  const LineHeightOffset: real := 2.0

  /** The distance between two text lines of a sticker. */
  const LineHeight: real := FontSize + LineHeightOffset

  /** PDF_SETTINGS.DEFAULT_FILENAME, generatePdf's default file name. */
  const DefaultFileName: string := "equipment_report.pdf"

  datatype Event =
    | NewPage
    | Placed(index: nat, row: nat, col: nat)
    | TextAt(line: string, y: real)
    | Saved(fileName: string)

  /** The document as the calls made on it. */
  class Document {
    var events: seq<Event>

    constructor ()
      ensures events == []
    {
      events := [];
    }

    /** doc.addPage() */
    method AddPage()
      modifies this
      ensures events == old(events) + [NewPage]
    {
      events := events + [NewPage];
    }

    /** doc.text(line, x, y); x is not modelled. */
    method Text(line: string, y: real)
      modifies this
      ensures events == old(events) + [TextAt(line, y)]
    {
      events := events + [TextAt(line, y)];
    }

    /** The record at index is drawn into cell (row, col). */
    method Place(index: nat, row: nat, col: nat)
      modifies this
      ensures events == old(events) + [Placed(index, row, col)]
    {
      events := events + [Placed(index, row, col)];
    }

    /** doc.save(fileName) */
    method Save(fileName: string)
      modifies this
      ensures events == old(events) + [Saved(fileName)]
    {
      events := events + [Saved(fileName)];
    }
  }

  // ---------------------------------------------------------------------------
  // drawEquipmentText: wrapped lines clipped to the sticker height
  // ---------------------------------------------------------------------------

  /** The wrapped lines of the given lines, one after the other. */
  function Wrapped(lines: seq<string>, wrap: string -> seq<string>): seq<string>
    decreases |lines|
  {
    if lines == [] then []
    else Wrapped(lines[..|lines| - 1], wrap) + wrap(lines[|lines| - 1])
  }

  /** The baseline of the k-th line below startY: each line one line height
      below the one before. */
  function LineY(startY: real, k: nat, lineHeight: real): real
    decreases k
  {
    if k == 0 then startY else LineY(startY, k - 1, lineHeight) + lineHeight
  }

  /** The k-th baseline is k line heights below startY. */
  lemma {:induction false} LineYFormula(startY: real, k: nat, lineHeight: real)
    ensures LineY(startY, k, lineHeight) == startY + (k as real) * lineHeight
    decreases k
  {
    if k > 0 {
      LineYFormula(startY, k - 1, lineHeight);
      assert (k as real) * lineHeight == ((k - 1) as real) * lineHeight + lineHeight;
    }
  }

  lemma LineYStep(startY: real, k: nat, lineHeight: real)
    ensures LineY(startY, k + 1, lineHeight) == LineY(startY, k, lineHeight) + lineHeight
  {
  }

  /** Text calls for the given lines, one line height apart from startY down. */
  function TextsFrom(lines: seq<string>, startY: real, lineHeight: real): (r: seq<Event>)
    ensures |r| == |lines|
  {
    seq(|lines|, k requires 0 <= k < |lines| => TextAt(lines[k], LineY(startY, k, lineHeight)))
  }

  /** How many of n lines, placed one line height apart from startY, end
      within limit before the first one that does not. */
  function FitCount(n: nat, startY: real, limit: real, lineHeight: real): (d: nat)
    ensures d <= n
    decreases n
  {
    if n == 0 || startY + lineHeight > limit then 0
    else 1 + FitCount(n - 1, startY + lineHeight, limit, lineHeight)
  }

  /** The text calls of lines clipped at limit. */
  function Clipped(lines: seq<string>, startY: real, limit: real, lineHeight: real): seq<Event> {
    TextsFrom(lines[..FitCount(|lines|, startY, limit, lineHeight)], startY, lineHeight)
  }

  /** What drawEquipmentText draws for a cell whose top edge is at y: nothing
      for an empty cell, otherwise the wrapped lines of the record's text,
      starting one line height below the edge, clipped to the cell height. */
  function StickerText(equipment: Option<Equipment>, y: real, rowHeight: real,
                       wrap: string -> seq<string>): seq<Event> {
    if equipment.None? then []
    else Clipped(Wrapped(Split(ToString(equipment.value), '\n'), wrap), y + LineHeight, y + rowHeight, LineHeight)
  }

  /** FitCount is the longest run that fits: the last counted line ends within
      the limit and the first one left out does not. */
  lemma {:induction false} FitCountIsLongest(n: nat, startY: real, limit: real, lineHeight: real)
    requires lineHeight > 0.0
    ensures var d := FitCount(n, startY, limit, lineHeight);
      && (d > 0 ==> LineY(startY, d, lineHeight) <= limit)
      && (d < n ==> LineY(startY, d, lineHeight) + lineHeight > limit)
    decreases n
  {
    if n > 0 && startY + lineHeight <= limit {
      var d' := FitCount(n - 1, startY + lineHeight, limit, lineHeight);
      FitCountIsLongest(n - 1, startY + lineHeight, limit, lineHeight);
      LineYShift(startY, d', lineHeight);
    }
  }

  lemma {:induction false} LineYShift(startY: real, k: nat, lineHeight: real)
    ensures LineY(startY + lineHeight, k, lineHeight) == LineY(startY, k + 1, lineHeight)
    decreases k
  {
    if k > 0 {
      LineYShift(startY, k - 1, lineHeight);
    }
  }

  /** Any count with the two properties of FitCountIsLongest is FitCount. */
  lemma {:induction false} FitCountUnique(n: nat, startY: real, limit: real, lineHeight: real, d: nat)
    requires lineHeight > 0.0 && d <= n
    requires d > 0 ==> LineY(startY, d, lineHeight) <= limit
    requires d < n ==> LineY(startY, d, lineHeight) + lineHeight > limit
    ensures d == FitCount(n, startY, limit, lineHeight)
    decreases n
  {
    if n > 0 {
      if d == 0 {
        assert startY + lineHeight > limit;
      } else {
        LineYShift(startY, d - 1, lineHeight);
        LineYGrows(startY, 1, d, lineHeight);
        FitCountUnique(n - 1, startY + lineHeight, limit, lineHeight, d - 1);
      }
    }
  }

  /** Lines further down have larger baselines. */
  lemma {:induction false} LineYGrows(startY: real, j: nat, k: nat, lineHeight: real)
    requires j <= k && lineHeight > 0.0
    ensures LineY(startY, j, lineHeight) <= LineY(startY, k, lineHeight)
    decreases k
  {
    if j < k {
      LineYGrows(startY, j, k - 1, lineHeight);
    }
  }

  /** Every drawn line ends within the cell, the drawn lines are the first
      lines of the text in order, one line height apart, and drawing stops
      only at a line that would cross the bottom edge. */
  lemma ClippedFits(lines: seq<string>, startY: real, limit: real, lineHeight: real)
    requires lineHeight > 0.0
    ensures var r := Clipped(lines, startY, limit, lineHeight);
      && |r| <= |lines|
      && (forall k :: 0 <= k < |r| ==> r[k] == TextAt(lines[k], LineY(startY, k, lineHeight)))
      && (forall k :: 0 <= k < |r| ==> r[k].y + lineHeight <= limit)
      && (|r| < |lines| ==> LineY(startY, |r|, lineHeight) + lineHeight > limit)
  {
    var d := FitCount(|lines|, startY, limit, lineHeight);
    FitCountIsLongest(|lines|, startY, limit, lineHeight);
    var r := Clipped(lines, startY, limit, lineHeight);
    forall k | 0 <= k < |r| ensures r[k].y + lineHeight <= limit {
      assert r[k].y == LineY(startY, k, lineHeight);
      LineYGrows(startY, k + 1, d, lineHeight);
      LineYStep(startY, k, lineHeight);
    }
  }

  lemma TextsFromSnoc(lines: seq<string>, line: string, startY: real, lineHeight: real)
    ensures TextsFrom(lines + [line], startY, lineHeight)
      == TextsFrom(lines, startY, lineHeight) + [TextAt(line, LineY(startY, |lines|, lineHeight))]
  {
  }

  /** Where drawing stands after the lines of flat were considered: the
      document is base followed by the drawn lines, the next baseline is
      currentY, and once a line was left out no later one was drawn. */
  ghost predicate Progress(events: seq<Event>, base: seq<Event>, flat: seq<string>, drawn: nat,
                           currentY: real, startY: real, limit: real) {
    && drawn <= |flat|
    && currentY == LineY(startY, drawn, LineHeight)
    && (drawn > 0 ==> currentY <= limit)
    && (drawn < |flat| ==> currentY + LineHeight > limit)
    && events == base + TextsFrom(flat[..drawn], startY, LineHeight)
  }

  lemma ProgressDraw(events: seq<Event>, base: seq<Event>, flat: seq<string>, drawn: nat,
                     currentY: real, startY: real, limit: real, line: string)
    requires Progress(events, base, flat, drawn, currentY, startY, limit) && currentY + LineHeight <= limit
    ensures Progress(events + [TextAt(line, currentY)], base, flat + [line], drawn + 1, currentY + LineHeight, startY, limit)
  {
    assert flat[..drawn] == flat;
    assert (flat + [line])[..drawn + 1] == flat + [line];
    TextsFromSnoc(flat, line, startY, LineHeight);
    LineYStep(startY, drawn, LineHeight);
  }

  lemma ProgressSkip(events: seq<Event>, base: seq<Event>, flat: seq<string>, drawn: nat,
                     currentY: real, startY: real, limit: real, more: seq<string>)
    requires Progress(events, base, flat, drawn, currentY, startY, limit) && currentY + LineHeight > limit
    ensures Progress(events, base, flat + more, drawn, currentY, startY, limit)
  {
    assert (flat + more)[..drawn] == flat[..drawn];
  }

  lemma ProgressDone(events: seq<Event>, base: seq<Event>, flat: seq<string>, drawn: nat,
                     currentY: real, startY: real, limit: real)
    requires Progress(events, base, flat, drawn, currentY, startY, limit)
    ensures events == base + Clipped(flat, startY, limit, LineHeight)
  {
    FitCountUnique(|flat|, startY, limit, LineHeight, drawn);
  }

  /** The callback drawEquipmentText runs for one line of the record's text:
      nothing once a line no longer fits, otherwise the line's wrapped lines
      while each still ends within the cell. */
  method DrawLine(doc: Document, line: string, currentY: real, limit: real, wrap: string -> seq<string>,
                  ghost base: seq<Event>, ghost flat: seq<string>, ghost drawn: nat, ghost startY: real)
    returns (nextY: real, ghost drawn': nat)
    requires Progress(doc.events, base, flat, drawn, currentY, startY, limit)
    modifies doc
    ensures Progress(doc.events, base, flat + wrap(line), drawn', nextY, startY, limit)
  {
    nextY, drawn' := currentY, drawn;
    if currentY + LineHeight > limit {
      ProgressSkip(doc.events, base, flat, drawn, currentY, startY, limit, wrap(line));
      return;
    }
    var wrappedLines := wrap(line);
    for j := 0 to |wrappedLines|
      invariant Progress(doc.events, base, flat + wrappedLines[..j], drawn', nextY, startY, limit)
    {
      assert flat + wrappedLines[..j + 1] == (flat + wrappedLines[..j]) + [wrappedLines[j]];
      if nextY + LineHeight <= limit {
        ProgressDraw(doc.events, base, flat + wrappedLines[..j], drawn', nextY, startY, limit, wrappedLines[j]);
        doc.Text(wrappedLines[j], nextY);
        nextY := nextY + LineHeight;
        drawn' := drawn' + 1;
      } else {
        ProgressSkip(doc.events, base, flat + wrappedLines[..j], drawn', nextY, startY, limit, [wrappedLines[j]]);
      }
    }
    assert wrappedLines[..|wrappedLines|] == wrappedLines;
  }

  /** drawEquipmentText: the lines of the record's text, each wrapped, drawn
      while the next line still ends within the cell. */
  method DrawEquipmentText(doc: Document, equipment: Option<Equipment>, y: real, rowHeight: real,
                           wrap: string -> seq<string>)
    modifies doc
    ensures doc.events == old(doc.events) + StickerText(equipment, y, rowHeight, wrap)
  {
    if equipment.None? {
      assert StickerText(equipment, y, rowHeight, wrap) == [];
      return;
    }
    var lines := Split(ToString(equipment.value), '\n');
    var limit := y + rowHeight;
    var startY := y + LineHeight;
    var currentY := startY;
    ghost var drawn: nat := 0;
    ghost var flat: seq<string> := [];
    for i := 0 to |lines|
      invariant flat == Wrapped(lines[..i], wrap)
      invariant Progress(doc.events, old(doc.events), flat, drawn, currentY, startY, limit)
    {
      assert lines[..i + 1][..i] == lines[..i];
      currentY, drawn := DrawLine(doc, lines[i], currentY, limit, wrap, old(doc.events), flat, drawn, startY);
      flat := flat + wrap(lines[i]);
    }
    assert lines[..|lines|] == lines;
    ProgressDone(doc.events, old(doc.events), flat, drawn, currentY, startY, limit);
  }

  // ---------------------------------------------------------------------------
  // calculateLayout and drawPage: the sticker grid of one page
  // ---------------------------------------------------------------------------

  /** The height of one sticker row: the page height less both margins and
      the gaps between rows, shared by the rows. */
  function RowHeight(pageHeight: real, rows: int): (h: real)
    requires rows >= 1
    ensures h * (rows as real) + Gap * ((rows - 1) as real) == pageHeight - Margin * 2.0
  {
    (pageHeight - Margin * 2.0 - Gap * ((rows - 1) as real)) / (rows as real)
  }

  /** The top edge of the stickers of a row: the top margin for the first
      row, each further row one row height and one gap lower. */
  function StickerTop(row: nat, rowHeight: real): real
    decreases row
  {
    if row == 0 then Margin else StickerTop(row - 1, rowHeight) + rowHeight + Gap
  }

  /** The top edge of row r is MARGIN + r * (rowHeight + GAP), as drawPage
      computes it. */
  lemma {:induction false} StickerTopFormula(row: nat, rowHeight: real)
    ensures StickerTop(row, rowHeight) == Margin + (row as real) * (rowHeight + Gap)
    decreases row
  {
    if row > 0 {
      StickerTopFormula(row - 1, rowHeight);
      assert (row as real) * (rowHeight + Gap) == ((row - 1) as real) * (rowHeight + Gap) + rowHeight + Gap;
    }
  }

  /** The rows of a grid fill the page exactly: the last row ends at the
      bottom margin, each row starts one row height and one gap below the
      previous one, and the first one at the top margin. */
  lemma RowsFillPage(pageHeight: real, rows: int, row: nat)
    requires rows >= 1
    ensures var h := RowHeight(pageHeight, rows);
      && StickerTop(0, h) == Margin
      && StickerTop(row + 1, h) == StickerTop(row, h) + h + Gap
      && StickerTop(rows - 1, h) + h == pageHeight - Margin
  {
    var h := RowHeight(pageHeight, rows);
    var r := rows as real;
    StickerTopFormula(rows - 1, h);
    assert h * r == pageHeight - Margin * 2.0 - Gap * (r - 1.0);
    assert StickerTop(rows - 1, h) + h == Margin + (r - 1.0) * (h + Gap) + h;
    assert (r - 1.0) * (h + Gap) + h == h * r + Gap * (r - 1.0);
  }

  /** The index of the record shown in the first cell of a row: cols
      records on for every row above it. */
  function RowFirst(pageStart: nat, row: nat, cols: int): nat
    requires cols >= 1
  {
    pageStart + Multiple(row, cols)
  }

  /** The first record of row r is pageStart + r * cols, as drawPage computes
      it. */
  lemma RowFirstFormula(pageStart: nat, row: nat, cols: int)
    requires cols >= 1
    ensures RowFirst(pageStart, row, cols) == pageStart + row * cols
  {
    MultipleFormula(row, cols);
  }

  /** The calls drawPage makes for a cell showing the record at index, if
      there is one, with top edge y: the record is placed there and its text
      drawn. */
  function CellAt(equipments: seq<Equipment>, index: nat, row: nat, col: nat, y: real,
                  rowHeight: real, wrap: string -> seq<string>): seq<Event>
  {
    if index < |equipments| then
      [Placed(index, row, col)] + StickerText(Some(equipments[index]), y, rowHeight, wrap)
    else []
  }

  /** The calls drawPage makes for the cell (row, col) of the page starting
      at pageStart: the cell stands for the record cols records on for every
      row above it and col records on in its row, and its top edge is the
      row's. */
  function CellEvents(equipments: seq<Equipment>, cols: int, pageStart: nat, row: nat, col: nat,
                      rowHeight: real, wrap: string -> seq<string>): seq<Event>
    requires cols >= 1
  {
    CellAt(equipments, RowFirst(pageStart, row, cols) + col, row, col, StickerTop(row, rowHeight), rowHeight, wrap)
  }

  /** The calls for each cell of a grid, by row and column. */
  type Cells = (nat, nat) -> seq<Event>

  /** The cells of the page starting at pageStart. */
  function PageCells(equipments: seq<Equipment>, cols: int, pageStart: nat,
                     rowHeight: real, wrap: string -> seq<string>): Cells
    requires cols >= 1
  {
    (row: nat, col: nat) => CellEvents(equipments, cols, pageStart, row, col, rowHeight, wrap)
  }

  /** The calls for the first k cells of a row, left to right. */
  function RowOf(cells: Cells, row: nat, k: nat): seq<Event>
    decreases k
  {
    if k == 0 then [] else RowOf(cells, row, k - 1) + cells(row, k - 1)
  }

  /** The calls for the first r rows of a grid of cols columns, top to
      bottom. */
  function GridOf(cells: Cells, cols: nat, r: nat): seq<Event>
    decreases r
  {
    if r == 0 then [] else GridOf(cells, cols, r - 1) + RowOf(cells, r - 1, cols)
  }

  /** One more cell continues a row. */
  lemma RowOfSnoc(base: seq<Event>, cells: Cells, row: nat, col: nat)
    ensures base + RowOf(cells, row, col) + cells(row, col) == base + RowOf(cells, row, col + 1)
  {
  }

  /** One more row continues a grid. */
  lemma GridOfSnoc(base: seq<Event>, cells: Cells, cols: nat, row: nat)
    ensures base + GridOf(cells, cols, row) + RowOf(cells, row, cols) == base + GridOf(cells, cols, row + 1)
  {
  }

  /** The record index and top edge drawPage computes for a cell are its
      RowFirst index plus the column and its StickerTop. */
  lemma CellPosition(pageStart: nat, row: nat, col: nat, cols: int, rowHeight: real, index: int, y: real)
    requires cols >= 1
    requires index == pageStart + row * cols + col && y == Margin + (row as real) * (rowHeight + Gap)
    ensures index == RowFirst(pageStart, row, cols) + col && y == StickerTop(row, rowHeight)
  {
    RowFirstFormula(pageStart, row, cols);
    StickerTopFormula(row, rowHeight);
  }

  lemma AppendAssociates(a: seq<Event>, b: seq<Event>, c: seq<Event>)
    ensures a + b + c == a + (b + c)
  {
  }

  /** The body of drawPage's loops: the record the cell stands for, or
      nothing past the end of the list, drawn at the row's top edge. */
  method DrawCell(doc: Document, equipments: seq<Equipment>, cols: int, pageStart: nat, row: nat, col: nat,
                  rowHeight: real, wrap: string -> seq<string>)
    requires cols >= 1
    modifies doc
    ensures doc.events == old(doc.events) + CellEvents(equipments, cols, pageStart, row, col, rowHeight, wrap)
  {
    var equipmentIndex := pageStart + row * cols + col;
    var equipment := if equipmentIndex < |equipments| then Some(equipments[equipmentIndex]) else None;
    var y := Margin + (row as real) * (rowHeight + Gap);
    CellPosition(pageStart, row, col, cols, rowHeight, equipmentIndex, y);
    if equipment.Some? {
      doc.Place(equipmentIndex, row, col);
    }
    DrawEquipmentText(doc, equipment, y, rowHeight, wrap);
    if equipment.Some? {
      AppendAssociates(old(doc.events), [Placed(equipmentIndex, row, col)], StickerText(equipment, y, rowHeight, wrap));
    } else {
      assert old(doc.events) + [] == old(doc.events);
    }
  }

  /** One pass of drawPage's outer loop: the cells of a row, left to right. */
  method DrawRow(doc: Document, equipments: seq<Equipment>, cols: int, pageStart: nat, row: nat,
                 rowHeight: real, wrap: string -> seq<string>)
    requires cols >= 1
    modifies doc
    ensures doc.events == old(doc.events) + RowOf(PageCells(equipments, cols, pageStart, rowHeight, wrap), row, cols)
  {
    ghost var cells := PageCells(equipments, cols, pageStart, rowHeight, wrap);
    for col := 0 to cols
      invariant doc.events == old(doc.events) + RowOf(cells, row, col)
    {
      DrawCell(doc, equipments, cols, pageStart, row, col, rowHeight, wrap);
      assert cells(row, col) == CellEvents(equipments, cols, pageStart, row, col, rowHeight, wrap);
      RowOfSnoc(old(doc.events), cells, row, col);
    }
  }

  /** drawPage: the rows of the grid, top to bottom, each cell showing the
      record pageStart + row * cols + col, or nothing past the end of the
      list. */
  method DrawPage(doc: Document, equipments: seq<Equipment>, t: Template, pageStart: nat,
                  rowHeight: real, wrap: string -> seq<string>)
    requires WellFormed(t)
    modifies doc
    ensures doc.events == old(doc.events) + GridOf(PageCells(equipments, t.cols, pageStart, rowHeight, wrap), t.cols, t.rows)
  {
    ghost var cells := PageCells(equipments, t.cols, pageStart, rowHeight, wrap);
    for row := 0 to t.rows
      invariant doc.events == old(doc.events) + GridOf(cells, t.cols, row)
    {
      DrawRow(doc, equipments, t.cols, pageStart, row, rowHeight, wrap);
      GridOfSnoc(old(doc.events), cells, t.cols, row);
    }
  }

  /** Every text call among events draws a line inside the sticker whose
      top edge is at top: at least one line height below the top edge and
      ending above the bottom edge. */
  predicate Inside(events: seq<Event>, top: real, rowHeight: real) {
    forall k :: 0 <= k < |events| && events[k].TextAt? ==>
      top + LineHeight <= events[k].y && events[k].y + LineHeight <= top + rowHeight
  }

  /** The clipped lines of a sticker lie inside it. */
  lemma ClippedInside(lines: seq<string>, top: real, rowHeight: real)
    ensures Inside(Clipped(lines, top + LineHeight, top + rowHeight, LineHeight), top, rowHeight)
  {
    ClippedFits(lines, top + LineHeight, top + rowHeight, LineHeight);
    var r := Clipped(lines, top + LineHeight, top + rowHeight, LineHeight);
    forall k | 0 <= k < |r| ensures top + LineHeight <= r[k].y {
      LineYGrows(top + LineHeight, 0, k, LineHeight);
    }
  }

  /** What drawEquipmentText draws lies inside the sticker. */
  lemma StickerTextInside(equipment: Option<Equipment>, top: real, rowHeight: real, wrap: string -> seq<string>)
    ensures Inside(StickerText(equipment, top, rowHeight, wrap), top, rowHeight)
  {
    if equipment.Some? {
      ClippedInside(Wrapped(Split(ToString(equipment.value), '\n'), wrap), top, rowHeight);
    }
  }

  lemma InsidePrepend(e: Event, events: seq<Event>, top: real, rowHeight: real)
    requires !e.TextAt? && Inside(events, top, rowHeight)
    ensures Inside([e] + events, top, rowHeight)
  {
    forall k | 0 <= k < |[e] + events| && ([e] + events)[k].TextAt?
      ensures top + LineHeight <= ([e] + events)[k].y && ([e] + events)[k].y + LineHeight <= top + rowHeight
    {
      assert ([e] + events)[k] == events[k - 1];
    }
  }

  /** Every line drawn for a cell lies inside its sticker. */
  lemma CellTextInsideSticker(equipments: seq<Equipment>, cols: int, pageStart: nat, row: nat, col: nat,
                              rowHeight: real, wrap: string -> seq<string>)
    requires cols >= 1
    ensures Inside(CellEvents(equipments, cols, pageStart, row, col, rowHeight, wrap), StickerTop(row, rowHeight), rowHeight)
  {
    var index := RowFirst(pageStart, row, cols) + col;
    if index < |equipments| {
      var top := StickerTop(row, rowHeight);
      StickerTextInside(Some(equipments[index]), top, rowHeight, wrap);
      InsidePrepend(Placed(index, row, col), StickerText(Some(equipments[index]), top, rowHeight, wrap), top, rowHeight);
    }
  }

  // ---------------------------------------------------------------------------
  // Where each record lands
  // ---------------------------------------------------------------------------

  /** A record placed in cell (row, col) of a page, pages counted from 0. */
  datatype Slot = Slot(page: nat, index: nat, row: nat, col: nat)

  /** The number of pages added. */
  function NewPages(events: seq<Event>): nat {
    if events == [] then 0
    else (if events[0].NewPage? then 1 else 0) + NewPages(events[1..])
  }

  /** The number of saves. */
  function Saves(events: seq<Event>): nat {
    if events == [] then 0
    else (if events[0].Saved? then 1 else 0) + Saves(events[1..])
  }

  /** The records placed, in order, with the page they are placed on, the
      first event being on the given page. */
  function Slots(events: seq<Event>, page: nat): seq<Slot> {
    if events == [] then []
    else match events[0]
      case NewPage => Slots(events[1..], page + 1)
      case Placed(index, row, col) => [Slot(page, index, row, col)] + Slots(events[1..], page)
      case _ => Slots(events[1..], page)
  }

  /** Calls that add no page and do not save. */
  predicate Quiet(events: seq<Event>) {
    NewPages(events) == 0 && Saves(events) == 0
  }

  lemma {:induction false} NewPagesAppend(a: seq<Event>, b: seq<Event>)
    ensures NewPages(a + b) == NewPages(a) + NewPages(b)
    decreases |a|
  {
    if a != [] {
      assert (a + b)[1..] == a[1..] + b;
      NewPagesAppend(a[1..], b);
    } else {
      assert a + b == b;
    }
  }

  lemma {:induction false} SavesAppend(a: seq<Event>, b: seq<Event>)
    ensures Saves(a + b) == Saves(a) + Saves(b)
    decreases |a|
  {
    if a != [] {
      assert (a + b)[1..] == a[1..] + b;
      SavesAppend(a[1..], b);
    } else {
      assert a + b == b;
    }
  }

  lemma {:induction false} SlotsAppend(a: seq<Event>, b: seq<Event>, page: nat)
    ensures Slots(a + b, page) == Slots(a, page) + Slots(b, page + NewPages(a))
    decreases |a|
  {
    if a != [] {
      assert (a + b)[1..] == a[1..] + b;
      match a[0]
      case NewPage => SlotsAppend(a[1..], b, page + 1);
      case Placed(_, _, _) => SlotsAppend(a[1..], b, page);
      case _ => SlotsAppend(a[1..], b, page);
    } else {
      assert a + b == b;
    }
  }

  /** Events with no save among them. */
  lemma {:induction false} NoSaves(events: seq<Event>)
    requires Saves(events) == 0
    ensures forall k :: 0 <= k < |events| ==> !events[k].Saved?
    decreases |events|
  {
    if events != [] {
      NoSaves(events[1..]);
      forall k | 1 <= k < |events| ensures !events[k].Saved? {
        assert events[k] == events[1..][k - 1];
      }
    }
  }

  /** Text calls place nothing, add no page and do not save. */
  lemma {:induction false} TextsPlaceNothing(events: seq<Event>, page: nat)
    requires forall k :: 0 <= k < |events| ==> events[k].TextAt?
    ensures Slots(events, page) == [] && Quiet(events)
    decreases |events|
  {
    if events != [] {
      TextsPlaceNothing(events[1..], page);
    }
  }

  /** What a cell of a page places: its record, if there is one. */
  function CellSlot(n: nat, cols: int, pageStart: nat, row: nat, col: nat, page: nat): seq<Slot>
    requires cols >= 1
  {
    var index := RowFirst(pageStart, row, cols) + col;
    if index < n then [Slot(page, index, row, col)] else []
  }

  /** A cell places its record, if it has one, adds no page and does not
      save. */
  lemma CellSlots(equipments: seq<Equipment>, cols: int, pageStart: nat, row: nat, col: nat,
                  rowHeight: real, wrap: string -> seq<string>, page: nat)
    requires cols >= 1
    ensures var events := CellEvents(equipments, cols, pageStart, row, col, rowHeight, wrap);
      && Slots(events, page) == CellSlot(|equipments|, cols, pageStart, row, col, page)
      && Quiet(events)
  {
    var index := RowFirst(pageStart, row, cols) + col;
    if index < |equipments| {
      var texts := StickerText(Some(equipments[index]), StickerTop(row, rowHeight), rowHeight, wrap);
      TextsPlaceNothing(texts, page);
      var events := CellEvents(equipments, cols, pageStart, row, col, rowHeight, wrap);
      assert events[1..] == texts;
    }
  }

  /** Every cell of a grid places what CellSlot says, on the given page, adds
      no page and does not save. */
  ghost predicate CellsPlace(cells: Cells, n: nat, cols: int, pageStart: nat, page: nat)
    requires cols >= 1
  {
    forall row: nat, col: nat ::
      Slots(cells(row, col), page) == CellSlot(n, cols, pageStart, row, col, page) && Quiet(cells(row, col))
  }

  /** The cells of a page place their records. */
  lemma PageCellsPlace(equipments: seq<Equipment>, cols: int, pageStart: nat,
                       rowHeight: real, wrap: string -> seq<string>, page: nat)
    requires cols >= 1
    ensures CellsPlace(PageCells(equipments, cols, pageStart, rowHeight, wrap), |equipments|, cols, pageStart, page)
  {
    var cells := PageCells(equipments, cols, pageStart, rowHeight, wrap);
    forall row: nat, col: nat
      ensures Slots(cells(row, col), page) == CellSlot(|equipments|, cols, pageStart, row, col, page)
              && Quiet(cells(row, col))
    {
      CellSlots(equipments, cols, pageStart, row, col, rowHeight, wrap, page);
    }
  }

  /** How many of the records from first on there are, up to k. */
  function Filled(n: nat, first: nat, k: nat): (f: nat)
    ensures f <= k && (first + f <= n || f == 0)
    ensures f < k ==> first + f >= n
  {
    if first >= n then 0 else if n - first < k then n - first else k
  }

  /** The records first, first + 1, ... placed in the first f columns of a
      row of a page. */
  function RowRun(page: nat, first: nat, row: nat, f: nat): (r: seq<Slot>)
    ensures |r| == f
  {
    seq(f, j requires 0 <= j < f => Slot(page, first + j, row, j))
  }

  /** Appending calls that place tail on the same page. */
  lemma SlotsSnoc(front: seq<Event>, cell: seq<Event>, page: nat, run: seq<Slot>, tail: seq<Slot>)
    requires Slots(front, page) == run && Quiet(front)
    requires Slots(cell, page) == tail && Quiet(cell)
    ensures Slots(front + cell, page) == run + tail && Quiet(front + cell)
  {
    SlotsAppend(front, cell, page);
    NewPagesAppend(front, cell);
    SavesAppend(front, cell);
  }

  lemma RowRunStep(n: nat, cols: int, pageStart: nat, page: nat, row: nat, j: nat)
    requires cols >= 1
    ensures var first := RowFirst(pageStart, row, cols);
      RowRun(page, first, row, Filled(n, first, j)) + CellSlot(n, cols, pageStart, row, j, page)
      == RowRun(page, first, row, Filled(n, first, j + 1))
  {
    var first := RowFirst(pageStart, row, cols);
    if first + j < n {
      assert RowRun(page, first, row, j + 1) == RowRun(page, first, row, j) + [Slot(page, first + j, row, j)];
    }
  }

  /** The first k cells of a row place the records from the row's first
      index on, in order, one per column, as far as there are records. */
  lemma {:induction false} RowSlots(cells: Cells, n: nat, cols: int, pageStart: nat, row: nat, k: nat, page: nat)
    requires cols >= 1 && CellsPlace(cells, n, cols, pageStart, page)
    ensures var first := RowFirst(pageStart, row, cols);
      && Slots(RowOf(cells, row, k), page) == RowRun(page, first, row, Filled(n, first, k))
      && Quiet(RowOf(cells, row, k))
    decreases k
  {
    var first := RowFirst(pageStart, row, cols);
    if k > 0 {
      var j := k - 1;
      RowSlots(cells, n, cols, pageStart, row, j, page);
      SlotsSnoc(RowOf(cells, row, j), cells(row, j), page, RowRun(page, first, row, Filled(n, first, j)),
                CellSlot(n, cols, pageStart, row, j, page));
      RowRunStep(n, cols, pageStart, page, row, j);
    } else {
      assert RowRun(page, first, row, 0) == [];
    }
  }

  /** The records from pageStart on placed in the first f cells of a page,
      row by row. */
  function PageRun(page: nat, pageStart: nat, cols: int, f: nat): (r: seq<Slot>)
    requires cols >= 1
    ensures |r| == f
  {
    seq(f, j requires 0 <= j < f => Slot(page, pageStart + j, Quot(j, cols), Rem(j, cols)))
  }

  /** A full row appended to the rows above it continues the page's run. */
  lemma GridRunStep(n: nat, page: nat, pageStart: nat, cols: int, q: nat, a: nat)
    requires cols >= 1 && a == Multiple(q, cols)
    ensures PageRun(page, pageStart, cols, Filled(n, pageStart, a))
              + RowRun(page, pageStart + a, q, Filled(n, pageStart + a, cols))
            == PageRun(page, pageStart, cols, Filled(n, pageStart, a + cols))
  {
    var left := PageRun(page, pageStart, cols, Filled(n, pageStart, a));
    var right := RowRun(page, pageStart + a, q, Filled(n, pageStart + a, cols));
    var whole := PageRun(page, pageStart, cols, Filled(n, pageStart, a + cols));
    if pageStart + a < n {
      assert |left| == a;
      forall x | 0 <= x < |whole| ensures (left + right)[x] == whole[x] {
        if x >= a {
          QuotRemOf(x, q, x - a, cols);
        }
      }
    }
  }

  /** The rows above and one more row continue the page's run. */
  lemma GridStep(front: seq<Event>, row: seq<Event>, page: nat, n: nat, pageStart: nat, cols: int, q: nat)
    requires cols >= 1
    requires Slots(front, page) == PageRun(page, pageStart, cols, Filled(n, pageStart, Multiple(q, cols))) && Quiet(front)
    requires Slots(row, page) == RowRun(page, RowFirst(pageStart, q, cols), q, Filled(n, RowFirst(pageStart, q, cols), cols))
    requires Quiet(row)
    ensures Slots(front + row, page) == PageRun(page, pageStart, cols, Filled(n, pageStart, Multiple(q, cols) + cols))
    ensures Quiet(front + row)
  {
    var a := Multiple(q, cols);
    SlotsSnoc(front, row, page, PageRun(page, pageStart, cols, Filled(n, pageStart, a)),
              RowRun(page, pageStart + a, q, Filled(n, pageStart + a, cols)));
    GridRunStep(n, page, pageStart, cols, q, a);
  }

  /** The first r rows of a grid place the records from pageStart on, row by
      row, cell number j being the cell (j / cols, j % cols), as far as there
      are records. */
  lemma {:induction false} GridSlots(cells: Cells, n: nat, cols: int, pageStart: nat, r: nat, page: nat)
    requires cols >= 1 && CellsPlace(cells, n, cols, pageStart, page)
    ensures Slots(GridOf(cells, cols, r), page) == PageRun(page, pageStart, cols, Filled(n, pageStart, Multiple(r, cols)))
    ensures Quiet(GridOf(cells, cols, r))
    decreases r
  {
    if r > 0 {
      var q: nat := r - 1;
      GridSlots(cells, n, cols, pageStart, q, page);
      RowSlots(cells, n, cols, pageStart, q, cols, page);
      GridStep(GridOf(cells, cols, q), RowOf(cells, q, cols), page, n, pageStart, cols, q);
    } else {
      assert PageRun(page, pageStart, cols, 0) == [];
    }
  }

  /** A page places the records from pageStart on, as many as fit or as there
      are, row by row, adds no page and does not save. */
  lemma PageSlots(equipments: seq<Equipment>, t: Template, pageStart: nat,
                  rowHeight: real, wrap: string -> seq<string>, page: nat)
    requires WellFormed(t)
    ensures Slots(GridOf(PageCells(equipments, t.cols, pageStart, rowHeight, wrap), t.cols, t.rows), page)
            == PageRun(page, pageStart, t.cols, Filled(|equipments|, pageStart, Capacity(t)))
    ensures Quiet(GridOf(PageCells(equipments, t.cols, pageStart, rowHeight, wrap), t.cols, t.rows))
  {
    PageCellsPlace(equipments, t.cols, pageStart, rowHeight, wrap, page);
    GridSlots(PageCells(equipments, t.cols, pageStart, rowHeight, wrap), |equipments|, t.cols, pageStart, t.rows, page);
    MultipleFormula(t.rows, t.cols);
    assert t.rows * t.cols == Capacity(t);
  }

  // ---------------------------------------------------------------------------
  // generatePdf: the page loop
  // ---------------------------------------------------------------------------

  /** The index of the first record of page p (pages counted from 0):
      stickersPerPage records on for every page before it. */
  function PageStart(p: nat, stickersPerPage: int): nat
    requires stickersPerPage >= 1
  {
    Multiple(p, stickersPerPage)
  }

  lemma PageStartStep(p: nat, stickersPerPage: int)
    requires stickersPerPage >= 1 && p >= 1
    ensures PageStart(p, stickersPerPage) == PageStart(p - 1, stickersPerPage) + stickersPerPage
  {
  }

  /** The number of pages generatePdf writes for n records: n divided by the
      page capacity, rounded up. */
  function PageCount(n: nat, stickersPerPage: int): (p: nat)
    requires stickersPerPage >= 1
    ensures 0 < n <= stickersPerPage ==> p == 1
  {
    assert 0 < n <= stickersPerPage ==> Quot(n - 1, stickersPerPage) == 0;
    Quot(n + stickersPerPage - 1, stickersPerPage)
  }

  /** The page count is (n + stickersPerPage - 1) / stickersPerPage. */
  lemma PageCountFormula(n: nat, stickersPerPage: int)
    requires stickersPerPage >= 1
    ensures PageCount(n, stickersPerPage) == (n + stickersPerPage - 1) / stickersPerPage
  {
    QuotRemFormula(n + stickersPerPage - 1, stickersPerPage);
  }

  /** The page count is the least number of pages that hold every record:
      they hold all n, and with one page fewer the last page's start would
      already be past the records. */
  lemma PageCountIsCeiling(n: nat, stickersPerPage: int)
    requires stickersPerPage >= 1
    ensures var p := PageCount(n, stickersPerPage);
      && (p == 0 <==> n == 0)
      && n <= PageStart(p, stickersPerPage)
      && (p > 0 ==> PageStart(p - 1, stickersPerPage) < n)
  {
    QuotRemSplit(n + stickersPerPage - 1, stickersPerPage);
  }

  /** Any page count with the two properties of PageCountIsCeiling is the
      page count. */
  lemma PageCountUnique(n: nat, stickersPerPage: int, p: nat)
    requires stickersPerPage >= 1
    requires n <= PageStart(p, stickersPerPage)
    requires p > 0 ==> PageStart(p - 1, stickersPerPage) < n
    ensures p == PageCount(n, stickersPerPage)
  {
    var c := stickersPerPage;
    QuotRemOf(n + c - 1, p, n + c - 1 - Multiple(p, c), c);
  }

  /** The calls for each page of a document, by page number. */
  type Pages = nat -> seq<Event>

  /** The pages of a run, page q starting at record PageStart(q). */
  function DocPages(equipments: seq<Equipment>, t: Template, rowHeight: real,
                    wrap: string -> seq<string>): Pages
    requires WellFormed(t)
  {
    (q: nat) => GridOf(PageCells(equipments, t.cols, PageStart(q, Capacity(t)), rowHeight, wrap), t.cols, t.rows)
  }

  /** The calls of the first p pages: a new page before every page but the
      first, then the page. */
  function PagesOf(pages: Pages, p: nat): seq<Event>
    decreases p
  {
    if p == 0 then [] else PagesOf(pages, p - 1) + (if p > 1 then [NewPage] else []) + pages(p - 1)
  }

  /** The pages of a run, PageCount of them, then the save. */
  function RunOf(pages: Pages, n: nat, stickersPerPage: int, fileName: string): seq<Event>
    requires stickersPerPage >= 1
  {
    PagesOf(pages, PageCount(n, stickersPerPage)) + [Saved(fileName)]
  }

  /** What generatePdf writes: its pages, then the save. */
  function RunEvents(equipments: seq<Equipment>, t: Template, pageHeight: real, fileName: string,
                     wrap: string -> seq<string>): seq<Event>
    requires WellFormed(t)
  {
    RunOf(DocPages(equipments, t, RowHeight(pageHeight, t.rows), wrap), |equipments|, Capacity(t), fileName)
  }

  /** generatePdf: a page of the template's grid for every stickersPerPage
      records, a new page added before every page but the first, then the
      document saved under fileName, or under DEFAULT_FILENAME when the
      argument is omitted (None). */
  method GeneratePdf(equipments: seq<Equipment>, t: Template, fileName: Option<string>, pageHeight: real,
                     wrap: string -> seq<string>) returns (doc: Document)
    requires WellFormed(t)
    ensures fresh(doc)
    ensures doc.events == RunEvents(equipments, t, pageHeight, fileName.GetOr(DefaultFileName), wrap)
  {
    doc := new Document();
    var stickersPerPage := t.cols * t.rows;
    var rowHeight := RowHeight(pageHeight, t.rows);
    ghost var docPages := DocPages(equipments, t, rowHeight, wrap);
    var pageStart := 0;
    ghost var pages: nat := 0;
    while pageStart < |equipments|
      invariant pageStart == PageStart(pages, stickersPerPage)
      invariant pageStart == 0 <==> pages == 0
      invariant pages > 0 ==> PageStart(pages - 1, stickersPerPage) < |equipments|
      invariant doc.events == PagesOf(docPages, pages)
      decreases |equipments| - pageStart
    {
      if pageStart > 0 {
        doc.AddPage();
      }
      DrawPage(doc, equipments, t, pageStart, rowHeight, wrap);
      assert docPages(pages) == GridOf(PageCells(equipments, t.cols, pageStart, rowHeight, wrap), t.cols, t.rows);
      pageStart := pageStart + stickersPerPage;
      pages := pages + 1;
      PageStartStep(pages, stickersPerPage);
    }
    PageCountUnique(|equipments|, stickersPerPage, pages);
    doc.Save(fileName.GetOr(DefaultFileName));
  }

  // ---------------------------------------------------------------------------
  // The layout of a whole run
  // ---------------------------------------------------------------------------

  /** Where a run places its first m records: record i on the page and in
      the cell that counting i off stickersPerPage records per page and cols
      records per row gives. */
  function RunRun(stickersPerPage: int, cols: int, m: nat): (r: seq<Slot>)
    requires stickersPerPage >= 1 && cols >= 1
    ensures |r| == m
  {
    seq(m, i requires 0 <= i < m =>
      var c := Rem(i, stickersPerPage);
      Slot(Quot(i, stickersPerPage), i, Quot(c, cols), Rem(c, cols)))
  }

  /** Record i is on page i / stickersPerPage, in the cell numbered
      i % stickersPerPage of that page, counted row by row. */
  lemma RunRunFormula(stickersPerPage: int, cols: int, m: nat)
    requires stickersPerPage >= 1 && cols >= 1
    ensures forall i :: 0 <= i < m ==>
      var c := i % stickersPerPage;
      RunRun(stickersPerPage, cols, m)[i] == Slot(i / stickersPerPage, i, c / cols, c % cols)
  {
    forall i | 0 <= i < m
      ensures var c := i % stickersPerPage;
        RunRun(stickersPerPage, cols, m)[i] == Slot(i / stickersPerPage, i, c / cols, c % cols)
    {
      QuotRemFormula(i, stickersPerPage);
      QuotRemFormula(Rem(i, stickersPerPage), cols);
    }
  }

  /** A page appended to the pages before it continues the run's placement. */
  lemma RunRunStep(n: nat, stickersPerPage: int, cols: int, q: nat, start: nat)
    requires stickersPerPage >= 1 && cols >= 1
    requires start == PageStart(q, stickersPerPage) && start < n
    ensures RunRun(stickersPerPage, cols, start)
              + PageRun(q, start, cols, Filled(n, start, stickersPerPage))
            == RunRun(stickersPerPage, cols, Filled(n, 0, start + stickersPerPage))
  {
    var left := RunRun(stickersPerPage, cols, start);
    var right := PageRun(q, start, cols, Filled(n, start, stickersPerPage));
    var whole := RunRun(stickersPerPage, cols, Filled(n, 0, start + stickersPerPage));
    assert |whole| == start + |right|;
    forall i | 0 <= i < |whole| ensures (left + right)[i] == whole[i] {
      if i >= start {
        QuotRemOf(i, q, i - start, stickersPerPage);
      }
    }
  }

  /** The new page before page q, q > 0, moves the placement to page q. */
  lemma SeparatorStep(front: seq<Event>, sep: seq<Event>, q: nat, run: seq<Slot>)
    requires Slots(front, 0) == run && NewPages(front) == (if q == 0 then 0 else q - 1) && Saves(front) == 0
    requires sep == (if q > 0 then [NewPage] else [])
    ensures Slots(front + sep, 0) == run && NewPages(front + sep) == q && Saves(front + sep) == 0
  {
    SlotsAppend(front, sep, 0);
    NewPagesAppend(front, sep);
    SavesAppend(front, sep);
    if q > 0 {
      assert Slots(sep, q - 1) == Slots([], q);
    } else {
      assert front + sep == front;
    }
  }

  /** Appending a page to the pages before it. */
  lemma PagesStep(front: seq<Event>, sep: seq<Event>, page: seq<Event>, q: nat,
                  run: seq<Slot>, tail: seq<Slot>)
    requires Slots(front, 0) == run && NewPages(front) == (if q == 0 then 0 else q - 1) && Saves(front) == 0
    requires sep == (if q > 0 then [NewPage] else [])
    requires Slots(page, q) == tail && Quiet(page)
    ensures Slots(front + sep + page, 0) == run + tail
    ensures NewPages(front + sep + page) == q && Saves(front + sep + page) == 0
  {
    SeparatorStep(front, sep, q, run);
    SlotsAppend(front + sep, page, 0);
    NewPagesAppend(front + sep, page);
    SavesAppend(front + sep, page);
  }

  /** Page q places the records from PageStart(q) on, as many as fit or as
      there are, on page q, adds no page and does not save. */
  ghost predicate PagesPlace(pages: Pages, n: nat, stickersPerPage: int, cols: int)
    requires stickersPerPage >= 1 && cols >= 1
  {
    forall q: nat ::
      && Slots(pages(q), q) == PageRun(q, PageStart(q, stickersPerPage), cols,
                                       Filled(n, PageStart(q, stickersPerPage), stickersPerPage))
      && Quiet(pages(q))
  }

  /** The pages of a run place their records. */
  lemma DocPagesPlace(equipments: seq<Equipment>, t: Template, rowHeight: real, wrap: string -> seq<string>)
    requires WellFormed(t)
    ensures PagesPlace(DocPages(equipments, t, rowHeight, wrap), |equipments|, Capacity(t), t.cols)
  {
    var pages := DocPages(equipments, t, rowHeight, wrap);
    var cap := Capacity(t);
    forall q: nat
      ensures Slots(pages(q), q) == PageRun(q, PageStart(q, cap), t.cols, Filled(|equipments|, PageStart(q, cap), cap))
              && Quiet(pages(q))
    {
      PageSlots(equipments, t, PageStart(q, cap), rowHeight, wrap, q);
    }
  }

  /** The first p pages place the records in run order, page q holding the
      records from PageStart(q) on, add a page before all but the first and
      do not save. (p pages are only written while the last one starts before
      the end of the records.) */
  lemma {:induction false} PagesSlots(pages: Pages, n: nat, stickersPerPage: int, cols: int, p: nat)
    requires stickersPerPage >= 1 && cols >= 1 && PagesPlace(pages, n, stickersPerPage, cols)
    requires p > 0 ==> PageStart(p - 1, stickersPerPage) < n
    ensures Slots(PagesOf(pages, p), 0) == RunRun(stickersPerPage, cols, Filled(n, 0, PageStart(p, stickersPerPage)))
    ensures NewPages(PagesOf(pages, p)) == (if p == 0 then 0 else p - 1)
    ensures Saves(PagesOf(pages, p)) == 0
    decreases p
  {
    if p > 0 {
      var q: nat := p - 1;
      var start := PageStart(q, stickersPerPage);
      if q > 0 {
        PageStartStep(q, stickersPerPage);
      }
      PagesSlots(pages, n, stickersPerPage, cols, q);
      PagesStep(PagesOf(pages, q), if q > 0 then [NewPage] else [], pages(q), q,
                RunRun(stickersPerPage, cols, start), PageRun(q, start, cols, Filled(n, start, stickersPerPage)));
      RunRunStep(n, stickersPerPage, cols, q, start);
      PageStartStep(p, stickersPerPage);
    }
  }

  /** Pages that place their records make a run that places every record
      exactly once, in run order, adds a page for every page but the first
      and saves last and only last. */
  lemma RunOfLayout(pages: Pages, n: nat, stickersPerPage: int, cols: int, fileName: string)
    requires stickersPerPage >= 1 && cols >= 1 && PagesPlace(pages, n, stickersPerPage, cols)
    ensures var events := RunOf(pages, n, stickersPerPage, fileName);
      && Slots(events, 0) == RunRun(stickersPerPage, cols, n)
      && NewPages(events) == (if n == 0 then 0 else PageCount(n, stickersPerPage) - 1)
      && events[|events| - 1] == Saved(fileName)
      && forall k :: 0 <= k < |events| - 1 ==> !events[k].Saved?
  {
    var p := PageCount(n, stickersPerPage);
    PageCountIsCeiling(n, stickersPerPage);
    PagesSlots(pages, n, stickersPerPage, cols, p);
    RunTail(PagesOf(pages, p), fileName);
  }

  /** A run places every record exactly once, in order, record i on page
      i / stickersPerPage at the cell numbered i % stickersPerPage; it adds a
      page for every page but the first of PageCount; and its last call, and
      only that one, saves the document under the given name. */
  lemma RunLayout(equipments: seq<Equipment>, t: Template, pageHeight: real, fileName: string,
                  wrap: string -> seq<string>)
    requires WellFormed(t)
    ensures var events := RunEvents(equipments, t, pageHeight, fileName, wrap);
      var n := |equipments|;
      && Slots(events, 0) == RunRun(Capacity(t), t.cols, n)
      && NewPages(events) == (if n == 0 then 0 else PageCount(n, Capacity(t)) - 1)
      && events[|events| - 1] == Saved(fileName)
      && forall k :: 0 <= k < |events| - 1 ==> !events[k].Saved?
  {
    var pages := DocPages(equipments, t, RowHeight(pageHeight, t.rows), wrap);
    DocPagesPlace(equipments, t, RowHeight(pageHeight, t.rows), wrap);
    RunOfLayout(pages, |equipments|, Capacity(t), t.cols, fileName);
  }

  /** Saving after the pages places nothing more and adds no page. */
  lemma RunTail(front: seq<Event>, fileName: string)
    requires Saves(front) == 0
    ensures var events := front + [Saved(fileName)];
      && Slots(events, 0) == Slots(front, 0)
      && NewPages(events) == NewPages(front)
      && events[|events| - 1] == Saved(fileName)
      && forall k :: 0 <= k < |events| - 1 ==> !events[k].Saved?
  {
    SlotsAppend(front, [Saved(fileName)], 0);
    NewPagesAppend(front, [Saved(fileName)]);
    NoSaves(front);
  }

  /** Every page a run writes holds at least one record and at most
      stickersPerPage: the records sit on pages 0 to PageCount - 1, and page k
      begins with record PageStart(k). */
  lemma EveryPageUsed(n: nat, stickersPerPage: int, cols: int)
    requires stickersPerPage >= 1 && cols >= 1
    ensures forall i :: 0 <= i < n ==> RunRun(stickersPerPage, cols, n)[i].page < PageCount(n, stickersPerPage)
    ensures forall k: nat :: k < PageCount(n, stickersPerPage) ==>
      && PageStart(k, stickersPerPage) < n
      && RunRun(stickersPerPage, cols, n)[PageStart(k, stickersPerPage)].page == k
  {
    var c := stickersPerPage;
    var p := PageCount(n, c);
    PageCountIsCeiling(n, c);
    forall i | 0 <= i < n ensures RunRun(c, cols, n)[i].page < p {
      var q := Quot(i, c);
      QuotRemSplit(i, c);
      if q >= p {
        MultipleMonotone(p, q, c);
      }
    }
    forall k: nat | k < p ensures PageStart(k, c) < n && RunRun(c, cols, n)[PageStart(k, c)].page == k {
      MultipleMonotone(k, p - 1, c);
      QuotRemOf(PageStart(k, c), k, 0, c);
    }
  }

  /** The last page holds the records from PageStart(PageCount - 1) on: at
      least one and at most stickersPerPage of them, and exactly
      stickersPerPage when n is a multiple of stickersPerPage. */
  lemma LastPageFill(n: nat, stickersPerPage: int)
    requires stickersPerPage >= 1 && n > 0
    ensures var last := PageStart(PageCount(n, stickersPerPage) - 1, stickersPerPage);
      && 0 < n - last <= stickersPerPage
      && (n - last == stickersPerPage <==> n % stickersPerPage == 0)
  {
    var c := stickersPerPage;
    var p := PageCount(n, c);
    var last := PageStart(p - 1, c);
    PageCountIsCeiling(n, c);
    PageStartStep(p, c);
    QuotRemFormula(n, c);
    if n - last < c {
      QuotRemOf(n, p - 1, n - last, c);
    } else {
      QuotRemOf(n, p, 0, c);
    }
  }

  /** Record i is on the last page exactly when it comes at or after the
      last page's first record. */
  lemma LastPageRecords(n: nat, stickersPerPage: int, cols: int)
    requires stickersPerPage >= 1 && cols >= 1 && n > 0
    ensures var p := PageCount(n, stickersPerPage);
      forall i :: 0 <= i < n ==>
        (RunRun(stickersPerPage, cols, n)[i].page == p - 1 <==> PageStart(p - 1, stickersPerPage) <= i)
  {
    var c := stickersPerPage;
    var p := PageCount(n, c);
    var last := PageStart(p - 1, c);
    PageCountIsCeiling(n, c);
    PageStartStep(p, c);
    forall i | 0 <= i < n ensures RunRun(c, cols, n)[i].page == p - 1 <==> last <= i {
      var q := Quot(i, c);
      QuotRemSplit(i, c);
      if q >= p {
        MultipleMonotone(p, q, c);
      } else if q < p - 1 {
        MultipleMonotone(q + 1, p - 1, c);
      }
    }
  }
}
