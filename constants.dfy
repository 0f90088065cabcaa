/**
 * The application's constant tables (src/config/constants.js) and the facts
 * about them that the parser relies on.
 */
module Constants {
  import opened JsText

  // FILE_CONSTRAINTS
  const MaxNameLengthDefault: int := 100
  const MinNameLength: int := 50
  const MaxNameLengthLimit: int := 500

  // ERROR_MESSAGES used by the parser
  const NoSheetsMessage: string := "Файл не содержит ни одного листа."
  const EmptySheetMessage: string := "Первый лист пустой."
  const InvalidHeadersMessage: string := "Заголовки отсутствуют или неполные."
  const ProcessingErrorPrefix: string := "Ошибка при обработке файла: "

  /** REQUIRED_HEADERS: the labels that must open the first row, in order. */
  const RequiredHeaders: seq<string> := [
    "Наименование оборудования",
    "Инвентарный номер",
    "Периодичность ТО",
    "График ТО",
    "Год сейчас"
  ]

  // EXCEL_COLUMNS
  const ColName: nat := 0
  const ColInventoryNumber: nat := 1
  const ColMaintenancePeriod: nat := 2
  const ColMonth: nat := 3
  const ColYear: nat := 4
  const ColEngineer: nat := 6

  const ExcelColumns: seq<nat> := [ColName, ColInventoryNumber, ColMaintenancePeriod, ColMonth, ColYear, ColEngineer]

  /** The row-length guard of processRow: a data row needs this many cells. */
  const MinRowLength: nat := 7

  /** MONTH_MAP: lower-case month name to month index. */
  const MonthMap: map<string, int> := map[
    "январь" := 0, "февраль" := 1, "март" := 2, "апрель" := 3,
    "май" := 4, "июнь" := 5, "июль" := 6, "август" := 7,
    "сентябрь" := 8, "октябрь" := 9, "ноябрь" := 10, "декабрь" := 11
  ]

  /** The keys of MONTH_MAP in the order of their values. */
  const MonthKeys: seq<string> := [
    "январь", "февраль", "март", "апрель", "май", "июнь",
    "июль", "август", "сентябрь", "октябрь", "ноябрь", "декабрь"
  ]

  /** MONTH_NAMES: the display name of each month index. */
  const MonthNames: seq<string> := [
    "Январь", "Февраль", "Март", "Апрель", "Май", "Июнь",
    "Июль", "Август", "Сентябрь", "Октябрь", "Ноябрь", "Декабрь"
  ]

  /** The alternatives of PERIOD_PATTERN's unit group, in the pattern's order. */
  const PeriodUnits: seq<string> := ["год", "года", "лет", "месяц", "месяцев", "месяца"]

  /** TIME_UNITS.YEARS and TIME_UNITS.MONTHS. */
  const YearUnits: seq<string> := ["год", "года", "лет"]
  const MonthUnits: seq<string> := ["месяц", "месяцев", "месяца"]

  /** MONTH_MAP maps twelve distinct keys onto 0..11, and MonthKeys lists them
      by value. */
  lemma MonthMapIsBijection()
    ensures |MonthKeys| == 12 && MonthMap.Keys == set i | 0 <= i < 12 :: MonthKeys[i]
    ensures forall i :: 0 <= i < 12 ==> MonthKeys[i] in MonthMap && MonthMap[MonthKeys[i]] == i
    ensures forall i, j :: 0 <= i < j < 12 ==> MonthKeys[i] != MonthKeys[j]
    ensures forall v :: v in MonthMap.Values <==> 0 <= v < 12
    ensures "" !in MonthMap
  {
    MonthKeysIndexMonthMap();
    MonthMapKeys();
    MonthMapValues();
  }

  /** MonthKeys[i] is a key of MONTH_MAP, sent to i. */
  lemma MonthKeysIndexMonthMap()
    ensures forall i :: 0 <= i < 12 ==> MonthKeys[i] in MonthMap && MonthMap[MonthKeys[i]] == i
  {
  }

  lemma MonthMapKeys()
    ensures MonthMap.Keys == set i | 0 <= i < 12 :: MonthKeys[i]
  {
    var keys := set i | 0 <= i < 12 :: MonthKeys[i];
    forall k | k in MonthMap.Keys ensures k in keys {
      assert k == MonthKeys[MonthMap[k]];
    }
  }

  lemma MonthMapValues()
    ensures forall v :: v in MonthMap.Values <==> 0 <= v < 12
  {
    forall v | 0 <= v < 12 ensures v in MonthMap.Values {
      assert MonthMap[MonthKeys[v]] == v;
    }
  }

  /** Lower-casing MONTH_NAMES[i] gives the key that MONTH_MAP sends to i, so
      a displayed month name is read back as the same month. */
  lemma MonthNamesMatchMonthMap()
    ensures |MonthNames| == 12
    ensures forall i :: 0 <= i < 12 ==> ToLower(MonthNames[i]) == MonthKeys[i]
    ensures forall i :: 0 <= i < 12 ==> Trim(MonthNames[i]) == MonthNames[i]
  {
    forall i | 0 <= i < 12 ensures ToLower(MonthNames[i]) == MonthKeys[i] {
      MonthNameLowerCase(i);
    }
    MonthNamesAreTrimmed();
  }

  lemma MonthNameLowerCase(i: nat)
    requires i < 12
    ensures ToLower(MonthNames[i]) == MonthKeys[i]
  {
    var name, key := MonthNames[i], MonthKeys[i];
    assert name[1..] == key[1..];
    LowerCaseFirstLetter(name, key);
  }

  lemma MonthNamesAreTrimmed()
    ensures forall i :: 0 <= i < 12 ==> Trim(MonthNames[i]) == MonthNames[i]
  {
    forall i | 0 <= i < 12 ensures Trim(MonthNames[i]) == MonthNames[i] {
      TrimUnchanged(MonthNames[i]);
    }
  }

  /** A capitalised word lower-cases to its key when only the first letter differs. */
  lemma LowerCaseFirstLetter(name: string, key: string)
    requires |name| == |key| > 0 && name[1..] == key[1..]
    requires ToLowerChar(name[0]) == key[0]
    requires forall k :: 0 <= k < |key| ==> 'а' <= key[k] <= 'я'
    ensures ToLower(name) == key
  {
    forall k | 0 <= k < |name| ensures ToLower(name)[k] == key[k] {
      if k > 0 {
        assert name[k] == name[1..][k - 1];
      }
    }
  }

  /** REQUIRED_HEADERS holds five distinct labels. */
  lemma RequiredHeadersDistinct()
    ensures |RequiredHeaders| == 5
    ensures forall i, j :: 0 <= i < j < 5 ==> RequiredHeaders[i] != RequiredHeaders[j]
  {
  }

  /** EXCEL_COLUMNS are distinct and all below 7, so every cell read exists once
      a row passes the length guard; index 5 is read by nobody. */
  lemma ExcelColumnsFitRowGuard()
    ensures forall i, j :: 0 <= i < j < |ExcelColumns| ==> ExcelColumns[i] != ExcelColumns[j]
    ensures forall i :: 0 <= i < |ExcelColumns| ==> ExcelColumns[i] < MinRowLength
    ensures 5 !in ExcelColumns
  {
  }

  /** TIME_UNITS splits the unit alternatives of PERIOD_PATTERN in two. */
  lemma TimeUnitsPartitionPeriodUnits()
    ensures forall u :: u in YearUnits ==> u !in MonthUnits
    ensures forall u :: u in PeriodUnits <==> u in YearUnits || u in MonthUnits
  {
  }

  lemma NameLengthBoundsOrdered()
    ensures MinNameLength <= MaxNameLengthDefault <= MaxNameLengthLimit
  {
  }
}
