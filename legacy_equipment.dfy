/**
 * The older equipment record (ti-stickers/src/Equipment.js): the same six
 * fields stored exactly as given, with no name truncation, and a toString with
 * the long labels for the first two lines.
 */
module LegacyEquipmentModel {
  import opened JsText
  import EquipmentModel

  /** The constructor stores each argument unchanged. */
  datatype LegacyEquipment = LegacyEquipment(
    name: string,
    inventoryNumber: string,
    maintenancePeriod: string,
    maintenanceDone: string,
    maintenanceNext: string,
    engineer: string)

  const LegacyLabels: seq<string> := [
    "Наименование оборудования", "Инвентарный номер", "Периодичность ТО", "Проведено ТО", "Следующее ТО", "Инженер ОЭиРМО"
  ]

  function LegacyFields(e: LegacyEquipment): seq<string> {
    [e.name, e.inventoryNumber, e.maintenancePeriod, e.maintenanceDone, e.maintenanceNext, e.engineer]
  }

  /** toString: six labelled lines joined by line breaks. */
  function LegacyToString(e: LegacyEquipment): (r: string)
    ensures "Наименование оборудования: " + e.name + "\n" <= r
  {
    Join(EquipmentModel.LabelledLines(LegacyLabels, LegacyFields(e)), '\n')
  }

  /** The older labels differ from the newer ones only in the first two lines,
      which spell out the name and inventory-number labels in full. */
  lemma LegacyLabelsAgreeAfterSecond()
    ensures |LegacyLabels| == |EquipmentModel.Labels| == 6
    ensures LegacyLabels[2..] == EquipmentModel.Labels[2..]
    ensures LegacyLabels[0] == "Наименование оборудования" && LegacyLabels[0] != EquipmentModel.Labels[0]
    ensures LegacyLabels[1] == "Инвентарный номер" && LegacyLabels[1] != EquipmentModel.Labels[1]
  {
  }

  /** When no field holds a line break, splitting toString on line breaks gives
      the six labelled lines in order. */
  lemma LegacyToStringLines(e: LegacyEquipment)
    requires forall i :: 0 <= i < 6 ==> EquipmentModel.SingleLine(LegacyFields(e)[i])
    ensures Split(LegacyToString(e), '\n') == EquipmentModel.LabelledLines(LegacyLabels, LegacyFields(e))
    ensures |Split(LegacyToString(e), '\n')| == 6
    ensures Split(LegacyToString(e), '\n')[0] == "Наименование оборудования: " + e.name
  {
    EquipmentModel.LabelledLinesSingle(LegacyLabels, LegacyFields(e));
    SplitJoin(EquipmentModel.LabelledLines(LegacyLabels, LegacyFields(e)), '\n');
  }
}
