/**
 * The equipment record (src/models/Equipment.js): six text fields, the name
 * truncated when the record is built, and the six-line text the sticker
 * renderer splits on line breaks.
 */
module EquipmentModel {
  import opened Wrappers
  import opened JsText

  datatype Equipment = Equipment(
    name: string,
    inventoryNumber: string,
    maintenancePeriod: string,
    maintenanceDone: string,
    maintenanceNext: string,
    engineer: string)

  /** The constructor's default for maxLength. */
  const DefaultMaxLength: int := 100

  /** truncateName: the name cut to maxLength characters; substring clamps a
      negative length to 0. */
  function TruncateName(name: string, maxLength: int): (r: string)
    ensures r <= name
    ensures maxLength >= 0 ==> |r| <= maxLength
    ensures |name| <= maxLength ==> r == name
    ensures |name| > maxLength ==> |r| == (if maxLength < 0 then 0 else maxLength)
  {
    if name == "" then ""
    else if |name| > maxLength then name[..if maxLength < 0 then 0 else maxLength]
    else name
  }

  /** Truncating an already truncated name with the same limit changes nothing. */
  lemma TruncateNameIdempotent(name: string, maxLength: int)
    ensures TruncateName(TruncateName(name, maxLength), maxLength) == TruncateName(name, maxLength)
  {
  }

  /** new Equipment(...): maxLength None is the omitted argument. The name is
      the truncated name, the other fields are stored as given. */
  function NewEquipment(name: string, inventoryNumber: string, maintenancePeriod: string,
                        maintenanceDone: string, maintenanceNext: string, engineer: string,
                        maxLength: Option<int>): (e: Equipment)
    ensures maxLength.GetOr(DefaultMaxLength) >= 0 ==> |e.name| <= maxLength.GetOr(DefaultMaxLength)
    ensures e.name <= name
    ensures |name| <= maxLength.GetOr(DefaultMaxLength) ==> e.name == name
    ensures |name| > maxLength.GetOr(DefaultMaxLength) ==>
      e.name == name[..if maxLength.GetOr(DefaultMaxLength) < 0 then 0 else maxLength.GetOr(DefaultMaxLength)]
    ensures e.inventoryNumber == inventoryNumber && e.maintenancePeriod == maintenancePeriod
    ensures e.maintenanceDone == maintenanceDone && e.maintenanceNext == maintenanceNext
    ensures e.engineer == engineer
  {
    Equipment(TruncateName(name, maxLength.GetOr(DefaultMaxLength)), inventoryNumber,
              maintenancePeriod, maintenanceDone, maintenanceNext, engineer)
  }

  /** The labels of toString, in order. */
  const Labels: seq<string> := [
    "Наименование", "Инв. №", "Периодичность ТО", "Проведено ТО", "Следующее ТО", "Инженер ОЭиРМО"
  ]

  function Fields(e: Equipment): seq<string> {
    [e.name, e.inventoryNumber, e.maintenancePeriod, e.maintenanceDone, e.maintenanceNext, e.engineer]
  }

  /** "label: value" for each field, in the order of Labels. */
  function LabelledLines(labels: seq<string>, fields: seq<string>): (lines: seq<string>)
    requires |labels| == |fields|
    ensures |lines| == |labels|
  {
    seq(|labels|, i requires 0 <= i < |labels| => labels[i] + ": " + fields[i])
  }

  /** toString: the six labelled lines joined by line breaks. */
  function ToString(e: Equipment): (r: string)
    ensures "Наименование: " + e.name + "\n" <= r
  {
    Join(LabelledLines(Labels, Fields(e)), '\n')
  }

  predicate SingleLine(s: string) {
    '\n' !in s
  }

  /** A labelled line has no break when neither its label nor its value has one. */
  lemma LabelledLinesSingle(labels: seq<string>, fields: seq<string>)
    requires |labels| == |fields|
    requires forall i :: 0 <= i < |labels| ==> SingleLine(labels[i]) && SingleLine(fields[i])
    ensures forall i :: 0 <= i < |labels| ==> SingleLine(LabelledLines(labels, fields)[i])
  {
    forall i | 0 <= i < |labels| ensures SingleLine(LabelledLines(labels, fields)[i]) {
      var line := LabelledLines(labels, fields)[i];
      assert line == labels[i] + ": " + fields[i];
    }
  }

  /** When no field holds a line break, splitting toString on line breaks gives
      exactly the six labelled lines, name first and engineer last. */
  lemma ToStringLines(e: Equipment)
    requires forall i :: 0 <= i < 6 ==> SingleLine(Fields(e)[i])
    ensures Split(ToString(e), '\n') == LabelledLines(Labels, Fields(e))
    ensures |Split(ToString(e), '\n')| == 6
    ensures Split(ToString(e), '\n')[0] == "Наименование: " + e.name
    ensures Split(ToString(e), '\n')[5] == "Инженер ОЭиРМО: " + e.engineer
  {
    LabelledLinesSingle(Labels, Fields(e));
    SplitJoin(LabelledLines(Labels, Fields(e)), '\n');
  }
}
