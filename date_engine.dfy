/**
 * parseDate, formatDate and addPeriod of src/services/Parser.js (the older
 * ti-stickers/src/Parser.js has the same three functions with the same tables
 * written inline). A date is a month of a year: the parser always builds day
 * 1 and addPeriod only moves the year or the month, so the day never changes.
 */
module DateEngine {
  import opened Wrappers
  import opened JsText
  import opened Constants

  type Month = m: int | 0 <= m < 12

  /** A Date as the parser builds it: day 1 of a month of a year, local time. */
  datatype Date = Date(year: int, month: Month)

  /** Months since the start of year 0, an independent measure of a date. */
  function MonthIndex(d: Date): int {
    d.year * 12 + d.month
  }

  // ---------------------------------------------------------------------------
  // parseDate and formatDate
  // ---------------------------------------------------------------------------

  /** The year argument of the Date constructor (MakeFullYear, section 21.4.2.1
      of ECMA-262): 0..99 stand for 1900..1999. */
  function ConstructorYear(y: int): int {
    if 0 <= y <= 99 then 1900 + y else y
  }

  /** The key parseDate looks a month name up under. */
  function MonthKey(monthStr: string): string {
    ToLower(Trim(monthStr))
  }

  /** parseDate: None for an empty argument, an unknown month name or a year
      with no leading integer; otherwise day 1 of that month and year. */
  function ParseDate(monthStr: string, yearStr: string): (r: Option<Date>)
    ensures r.Some? <==> monthStr != "" && yearStr != "" && MonthKey(monthStr) in MonthMap && ParseInt(yearStr).Some?
    ensures r.Some? ==> r.value.month == MonthMap[MonthKey(monthStr)]
    ensures r.Some? ==> r.value.year == ConstructorYear(ParseInt(yearStr).value)
  {
    if monthStr == "" || yearStr == "" then None
    else
      var key := MonthKey(monthStr);
      var year := ParseInt(yearStr);
      if key !in MonthMap || year.None? then None
      else
        MonthMapIsBijection();
        Some(Date(ConstructorYear(year.value), MonthMap[key]))
  }

  /** formatDate: "<month name> <year> г.", or "" for a missing date. */
  function FormatDate(date: Option<Date>): (r: string)
    ensures r == "" <==> date.None?
    ensures date.Some? ==> MonthNames[date.value.month] + " " <= r
  {
    if date.None? then ""
    else MonthNames[date.value.month] + " " + IntToString(date.value.year) + " г."
  }

  /** A month name in any capitalisation and with any surrounding white space,
      and a year cell that starts with an integer, give day 1 of that month,
      displayed with the canonical month name. */
  lemma ParseDateOfMonthName(monthStr: string, yearStr: string, i: Month, year: int)
    requires MonthKey(monthStr) == MonthKeys[i]
    requires ParseInt(yearStr) == Some(year)
    ensures ParseDate(monthStr, yearStr) == Some(Date(ConstructorYear(year), i))
    ensures FormatDate(ParseDate(monthStr, yearStr)) == MonthNames[i] + " " + IntToString(ConstructorYear(year)) + " г."
  {
    MonthMapIsBijection();
    assert MonthKeys[i] in MonthMap && MonthMap[MonthKeys[i]] == i;
    assert MonthKey("") == "";
  }

  /** A displayed date reads back as itself, also with text after the year such
      as the " г." formatDate writes, unless its year is in 0..99. */
  lemma FormatParseRoundTrip(d: Date, suffix: string)
    requires !(0 <= d.year <= 99)
    requires suffix == [] || !IsDigit(suffix[0])
    ensures ParseDate(MonthNames[d.month], IntToString(d.year) + suffix) == Some(d)
  {
    MonthNamesMatchMonthMap();
    ParseIntOfIntToString(d.year, suffix);
    ParseDateOfMonthName(MonthNames[d.month], IntToString(d.year) + suffix, d.month, d.year);
  }

  /** Years 0..99 do not survive the round trip: the Date constructor reads
      them as 1900..1999. */
  lemma TwoDigitYearsShift(m: Month, year: int)
    requires 0 <= year <= 99
    ensures ParseDate(MonthNames[m], IntToString(year)) == Some(Date(1900 + year, m))
  {
    MonthNamesMatchMonthMap();
    ParseIntRoundTrip(year);
    ParseDateOfMonthName(MonthNames[m], IntToString(year), m, year);
  }

  // ---------------------------------------------------------------------------
  // PERIOD_PATTERN: /(\d+)\s*(год|года|лет|месяц|месяцев|месяца)/
  // ---------------------------------------------------------------------------

  /** A match of the period pattern: where it starts, group 1 and group 2. */
  datatype PeriodMatch = PeriodMatch(start: nat, digits: string, unit: string)

  /** The ordered alternation: the first alternative the text starts with. */
  function FirstUnit(rest: string, alternatives: seq<string>): (r: Option<string>)
    ensures r.Some? ==> r.value in alternatives && r.value <= rest
    ensures r.None? ==> forall u :: u in alternatives ==> !(u <= rest)
    decreases |alternatives|
  {
    if alternatives == [] then None
    else if alternatives[0] <= rest then Some(alternatives[0])
    else
      assert alternatives == [alternatives[0]] + alternatives[1..];
      FirstUnit(rest, alternatives[1..])
  }

  /** The alternation is an ordered choice: when the text starts with some
      alternative, the result is the first such one in the list; when it
      starts with none, there is no result. */
  lemma {:induction false} FirstUnitIsOrderedChoice(rest: string, alternatives: seq<string>, j: nat)
    requires j < |alternatives| && alternatives[j] <= rest
    requires forall k :: 0 <= k < j ==> !(alternatives[k] <= rest)
    ensures FirstUnit(rest, alternatives) == Some(alternatives[j])
    decreases j
  {
    if j > 0 {
      assert !(alternatives[0] <= rest);
      var tail := alternatives[1..];
      assert tail[j - 1] == alternatives[j];
      forall k | 0 <= k < j - 1 ensures !(tail[k] <= rest) {
        assert tail[k] == alternatives[k + 1];
      }
      FirstUnitIsOrderedChoice(rest, tail, j - 1);
    }
  }

  /** The pattern tried at position i: \d+ and \s* take as much as they can,
      then the alternation is tried in order. */
  function MatchAt(s: string, i: nat): (r: Option<PeriodMatch>)
    requires i <= |s|
    ensures r.Some? ==> r.value.start == i && |r.value.digits| > 0 && AllDigits(r.value.digits)
    ensures r.Some? ==> r.value.unit in PeriodUnits && r.value.digits == s[i..DigitRunEnd(s, i)]
    ensures r.Some? ==> var k := WhiteSpaceRunEnd(s, DigitRunEnd(s, i));
      r.value.unit <= s[k..] && FirstUnit(s[k..], PeriodUnits) == Some(r.value.unit)
  {
    if i == |s| || !IsDigit(s[i]) then None
    else
      var j := DigitRunEnd(s, i);
      var k := WhiteSpaceRunEnd(s, j);
      DigitRunIsLongest(s, i);
      match FirstUnit(s[k..], PeriodUnits)
      case None => None
      case Some(u) => Some(PeriodMatch(i, s[i..j], u))
  }

  /** String.prototype.match with a non-global pattern: the first match at or
      after position from. */
  function FindPeriod(s: string, from: nat): (r: Option<PeriodMatch>)
    requires from <= |s|
    ensures r.Some? ==> from <= r.value.start < |s| && MatchAt(s, r.value.start) == r
    decreases |s| - from
  {
    if from == |s| then None
    else
      match MatchAt(s, from)
      case Some(m) => Some(m)
      case None => FindPeriod(s, from + 1)
  }

  /** The match FindPeriod returns is the leftmost one, and None means the
      pattern matches nowhere. */
  lemma {:induction false} FindPeriodIsLeftmost(s: string, from: nat)
    requires from <= |s|
    ensures FindPeriod(s, from).Some? ==> forall p: nat :: from <= p < FindPeriod(s, from).value.start ==> MatchAt(s, p).None?
    ensures FindPeriod(s, from).None? ==> forall p: nat :: from <= p <= |s| ==> MatchAt(s, p).None?
    decreases |s| - from
  {
    if from == |s| {
      assert MatchAt(s, from).None?;
    } else if MatchAt(s, from).None? {
      var r := FindPeriod(s, from + 1);
      assert FindPeriod(s, from) == r;
      FindPeriodIsLeftmost(s, from + 1);
      var end := if r.Some? then r.value.start else |s| + 1;
      forall p: nat | from <= p < end ensures MatchAt(s, p).None? {
        if p > from {
          assert from + 1 <= p < end;
        }
      }
    }
  }

  /** Backtracking cannot find another reading: whenever some split of the text
      at i into digits, white space and a unit exists, the digits and the white
      space are the longest runs, which is the reading MatchAt takes. */
  lemma GreedyReadingIsTheOnlyOne(s: string, i: nat, a: nat, b: nat, u: string)
    requires i < a <= b <= |s|
    requires forall k :: i <= k < a ==> IsDigit(s[k])
    requires forall k :: a <= k < b ==> IsWhiteSpace(s[k])
    requires u in PeriodUnits && u <= s[b..]
    ensures a == DigitRunEnd(s, i) && b == WhiteSpaceRunEnd(s, a)
    ensures MatchAt(s, i).Some?
  {
    UnitsStartWithALetter();
    assert b < |s| && s[b] == u[0];
    assert !IsDigit(s[a]) by {
      if a < b {
        assert IsWhiteSpace(s[a]);
      }
    }
    var j := DigitRunEnd(s, i);
    DigitRunIsLongest(s, i);
    assert j == a;
    var k := WhiteSpaceRunEnd(s, a);
    WhiteSpaceRunIsLongest(s, a);
    assert k == b;
    assert FirstUnit(s[k..], PeriodUnits).Some?;
  }

  /** What MatchAt finds is a reading of the text: a digit run, then a white
      space run, then the unit, which is the first alternative the rest of
      the text starts with. */
  lemma MatchIsAReading(s: string, i: nat)
    requires i <= |s| && MatchAt(s, i).Some?
    ensures var m := MatchAt(s, i).value;
      var a := DigitRunEnd(s, i);
      var b := WhiteSpaceRunEnd(s, a);
      && i < a <= b <= |s|
      && (forall k :: i <= k < a ==> IsDigit(s[k]))
      && (forall k :: a <= k < b ==> IsWhiteSpace(s[k]))
      && m.unit in PeriodUnits && m.unit <= s[b..]
      && FirstUnit(s[b..], PeriodUnits) == Some(m.unit)
      && m.digits == s[i..a]
  {
    DigitRunIsLongest(s, i);
    WhiteSpaceRunIsLongest(s, DigitRunEnd(s, i));
  }

  /** Every unit starts with one of the letters г, л and м, which are neither
      digits nor white space. */
  lemma UnitsStartWithALetter()
    ensures forall u :: u in PeriodUnits ==> |u| > 0 && (u[0] == 'г' || u[0] == 'л' || u[0] == 'м')
  {
  }

  /** "год" comes first in the alternation. */
  lemma YearUnitFirst(rest: string)
    requires "год" <= rest
    ensures FirstUnit(rest, PeriodUnits) == Some("год")
  {
  }

  /** "месяц" comes before the longer month forms, and the year forms cannot
      match a text that starts with м. */
  lemma MonthUnitFirst(rest: string)
    requires "месяц" <= rest
    ensures FirstUnit(rest, PeriodUnits) == Some("месяц")
  {
    assert rest[0] == 'м';
    assert FirstUnit(rest, PeriodUnits) == FirstUnit(rest, PeriodUnits[3..]);
  }

  /** Ordered alternation never captures the longer forms: "года" starts with
      "год", "месяцев" and "месяца" with "месяц". */
  lemma CapturedUnitIsShortForm(rest: string)
    requires FirstUnit(rest, PeriodUnits).Some?
    ensures FirstUnit(rest, PeriodUnits).value in ["год", "лет", "месяц"]
  {
  }

  /** A digit just before a match starts a match of its own, with the same
      white space and unit. */
  lemma MatchExtendsLeft(s: string, p: nat)
    requires 0 < p <= |s| && IsDigit(s[p - 1]) && MatchAt(s, p).Some?
    ensures MatchAt(s, p - 1).Some?
  {
    assert DigitRunEnd(s, p - 1) == DigitRunEnd(s, p);
  }

  /** The leftmost match starts at the first digit of a run of digits, its
      number is that whole run, and its unit is a short form. */
  lemma LeftmostMatchShape(s: string)
    requires FindPeriod(s, 0).Some?
    ensures var m := FindPeriod(s, 0).value;
      && (m.start == 0 || !IsDigit(s[m.start - 1]))
      && m.digits == s[m.start..DigitRunEnd(s, m.start)]
      && m.unit in ["год", "лет", "месяц"]
  {
    var m := FindPeriod(s, 0).value;
    var p := m.start;
    FindPeriodIsLeftmost(s, 0);
    if p > 0 && IsDigit(s[p - 1]) {
      MatchExtendsLeft(s, p);
      assert false;
    }
    var k := WhiteSpaceRunEnd(s, DigitRunEnd(s, p));
    CapturedUnitIsShortForm(s[k..]);
  }

  // ---------------------------------------------------------------------------
  // addPeriod
  // ---------------------------------------------------------------------------

  /** The text addPeriod matches the pattern against. */
  function PeriodText(periodStr: string): string {
    ToLower(Trim(periodStr))
  }

  /** String.prototype.match of PERIOD_PATTERN on the trimmed, lower-cased
      period: group 1 is a run of digits and group 2 one of the units. */
  function MatchPeriod(periodStr: string): (r: Option<PeriodMatch>)
    ensures r.Some? ==> |r.value.digits| > 0 && AllDigits(r.value.digits) && r.value.unit in PeriodUnits
  {
    FindPeriod(PeriodText(periodStr), 0)
  }

  /** The month of a year given a month number that may lie outside 0..11,
      carried into the year as MakeDay does (section 21.4.1 of ECMA-262). */
  function MakeMonth(year: int, month: int): (r: Date)
    ensures MonthIndex(r) == year * 12 + month
  {
    Date(year + month / 12, month % 12)
  }

  /** The date moved by amount units: a year unit adds whole years and keeps
      the month, a month unit adds months and carries into the year, and any
      other unit leaves the date alone. */
  function Advance(d: Date, unit: string, amount: nat): (r: Date)
    ensures unit in YearUnits ==> r.month == d.month && MonthIndex(r) == MonthIndex(d) + 12 * amount
    ensures unit !in YearUnits && unit in MonthUnits ==> MonthIndex(r) == MonthIndex(d) + amount
    ensures unit !in YearUnits && unit !in MonthUnits ==> r == d
  {
    if unit in YearUnits then Date(d.year + amount, d.month)
    else if unit in MonthUnits then MakeMonth(d.year, d.month + amount)
    else d
  }

  /** addPeriod: the leftmost "<digits><white space><unit>" in the trimmed,
      lower-cased period moves the date by that many years or months; no match
      leaves it as it was. */
  function AddPeriod(date: Option<Date>, periodStr: string): (r: Option<Date>)
    ensures r.Some? <==> date.Some?
  {
    if date.None? || periodStr == "" then date
    else
      match MatchPeriod(periodStr)
      case None => date
      case Some(m) => Some(Advance(date.value, m.unit, DigitsValue(m.digits)))
  }

  /** An empty period, or one the pattern does not match, leaves the date alone. */
  lemma AddPeriodWithoutMatch(date: Option<Date>, periodStr: string)
    requires periodStr == "" || FindPeriod(PeriodText(periodStr), 0).None?
    ensures AddPeriod(date, periodStr) == date
  {
  }

  /** A matched period moves the date by exactly its amount: a year unit adds
      that many years and keeps the month, a month unit adds that many months
      and carries into the year. */
  lemma AddPeriodMovesDate(d: Date, periodStr: string)
    requires periodStr != "" && FindPeriod(PeriodText(periodStr), 0).Some?
    ensures var m := FindPeriod(PeriodText(periodStr), 0).value;
      && AddPeriod(Some(d), periodStr) == Some(Advance(d, m.unit, DigitsValue(m.digits)))
      && (m.unit in YearUnits || m.unit in MonthUnits)
    ensures var m := FindPeriod(PeriodText(periodStr), 0).value;
      var r := AddPeriod(Some(d), periodStr).value;
      && (m.unit in YearUnits ==> r.year == d.year + DigitsValue(m.digits) && r.month == d.month)
      && (m.unit in MonthUnits ==> MonthIndex(r) == MonthIndex(d) + DigitsValue(m.digits))
  {
    TimeUnitsPartitionPeriodUnits();
  }

  /** The text after the number in a period such as "12 месяцев": one space,
      then a lower-case unit text that starts with a unit and does not end in
      white space. */
  predicate IsUnitTail(tail: string, u: string) {
    && |tail| >= 2 && tail[0] == ' ' && !IsWhiteSpace(tail[|tail| - 1])
    && FirstUnit(tail[1..], PeriodUnits) == Some(u)
    && IsLowerCase(tail)
  }

  /** A number followed by such a tail is its own trimmed, lower-cased form. */
  lemma PeriodTextOfAmount(digits: string, tail: string, u: string)
    requires |digits| > 0 && AllDigits(digits) && IsUnitTail(tail, u)
    ensures PeriodText(digits + tail) == digits + tail
  {
    var s := digits + tail;
    assert s[0] == digits[0] && s[|s| - 1] == tail[|tail| - 1];
    TrimUnchanged(s);
    forall k | 0 <= k < |s| ensures ToLower(s)[k] == s[k] {
      if k < |digits| {
        assert s[k] == digits[k];
      } else {
        assert s[k] == tail[k - |digits|];
      }
    }
  }

  /** The white space after the number is the one space when the character
      after it is not white space. */
  lemma OneSpaceRun(s: string, j: nat)
    requires j + 1 < |s| && s[j] == ' ' && !IsWhiteSpace(s[j + 1])
    ensures WhiteSpaceRunEnd(s, j) == j + 1
  {
  }

  /** A tail goes on with a letter after its space. */
  lemma TailLetter(tail: string, u: string)
    requires IsUnitTail(tail, u)
    ensures !IsDigit(tail[0]) && !IsWhiteSpace(tail[1])
  {
    UnitsStartWithALetter();
    assert tail[1] == tail[1..][0] == u[0];
  }

  /** The pattern tried at the start of a number followed by such a tail reads
      that number and the unit the tail starts with. */
  lemma MatchAtAmount(digits: string, tail: string, u: string)
    requires |digits| > 0 && AllDigits(digits) && IsUnitTail(tail, u)
    ensures MatchAt(digits + tail, 0) == Some(PeriodMatch(0, digits, u))
  {
    var s := digits + tail;
    var j := |digits|;
    TailLetter(tail, u);
    DigitRunEndOfDigits(digits, tail, 0);
    assert s[j] == ' ' && s[j + 1] == tail[1];
    OneSpaceRun(s, j);
    assert s[j + 1..] == tail[1..];
    assert s[0..j] == digits;
  }

  /** "<n><tail>" moves a date by n of the unit the tail starts with. */
  lemma AddPeriodOfAmount(d: Date, n: nat, tail: string, u: string)
    requires IsUnitTail(tail, u)
    ensures AddPeriod(Some(d), NatToString(n) + tail) == Some(Advance(d, u, n))
  {
    var digits := NatToString(n);
    var s := digits + tail;
    PeriodTextOfAmount(digits, tail, u);
    MatchAtAmount(digits, tail, u);
    assert FindPeriod(s, 0) == Some(PeriodMatch(0, digits, u));
    assert MatchPeriod(s) == Some(PeriodMatch(0, digits, u));
  }

  /** Every character of the text is its own lower case. */
  predicate IsLowerCase(t: string) {
    forall k :: 0 <= k < |t| ==> ToLowerChar(t[k]) == t[k]
  }

  lemma MonthsTailIsLowerCase()
    ensures IsLowerCase(" месяцев")
  {
  }

  lemma MonthsTailUnit()
    ensures FirstUnit(" месяцев"[1..], PeriodUnits) == Some("месяц")
  {
    assert " месяцев"[1..] == "месяцев";
    MonthUnitFirst("месяцев");
  }

  /** " месяцев" is a tail whose unit is "месяц". */
  lemma MonthsTail()
    ensures IsUnitTail(" месяцев", "месяц")
  {
    MonthsTailIsLowerCase();
    MonthsTailUnit();
  }

  lemma YearTailIsLowerCase()
    ensures IsLowerCase(" год")
  {
  }

  lemma YearTailUnit()
    ensures FirstUnit(" год"[1..], PeriodUnits) == Some("год")
  {
    assert " год"[1..] == "год";
    YearUnitFirst("год");
  }

  /** " год" is a tail whose unit is "год". */
  lemma YearTail()
    ensures IsUnitTail(" год", "год")
  {
    YearTailIsLowerCase();
    YearTailUnit();
  }

  /** "<n> месяцев" adds n months, carrying into the year. */
  lemma AddMonths(d: Date, n: nat)
    ensures AddPeriod(Some(d), NatToString(n) + " месяцев") == Some(MakeMonth(d.year, d.month + n))
    ensures MonthIndex(AddPeriod(Some(d), NatToString(n) + " месяцев").value) == MonthIndex(d) + n
  {
    calc {
      AddPeriod(Some(d), NatToString(n) + " месяцев");
      { MonthsTail(); AddPeriodOfAmount(d, n, " месяцев", "месяц"); }
      Some(Advance(d, "месяц", n));
      { assert "месяц" !in YearUnits && "месяц" in MonthUnits; }
      Some(MakeMonth(d.year, d.month + n));
    }
  }

  /** "<n> год" adds n years and keeps the month. */
  lemma AddYears(d: Date, n: nat)
    ensures AddPeriod(Some(d), NatToString(n) + " год") == Some(Date(d.year + n, d.month))
  {
    calc {
      AddPeriod(Some(d), NatToString(n) + " год");
      { YearTail(); AddPeriodOfAmount(d, n, " год", "год"); }
      Some(Advance(d, "год", n));
      { assert "год" in YearUnits; }
      Some(Date(d.year + n, d.month));
    }
  }

  /** "12 месяцев" from March 2024 gives March 2025. */
  lemma TwelveMonthsFromMarch()
    ensures AddPeriod(Some(Date(2024, 2)), "12 месяцев") == Some(Date(2025, 2))
  {
    calc {
      AddPeriod(Some(Date(2024, 2)), "12 месяцев");
      { assert NatToString(12) + " месяцев" == "12 месяцев"; }
      AddPeriod(Some(Date(2024, 2)), NatToString(12) + " месяцев");
      { AddMonths(Date(2024, 2), 12); }
      Some(MakeMonth(2024, 2 + 12));
    }
  }

  /** "1 год" from March 2024 gives March 2025 as well. */
  lemma OneYearFromMarch()
    ensures AddPeriod(Some(Date(2024, 2)), "1 год") == Some(Date(2025, 2))
  {
    calc {
      AddPeriod(Some(Date(2024, 2)), "1 год");
      { assert NatToString(1) + " год" == "1 год"; }
      AddPeriod(Some(Date(2024, 2)), NatToString(1) + " год");
      { AddYears(Date(2024, 2), 1); }
      Some(Date(2024 + 1, 2));
    }
  }

  /** Where the pattern does not match, the search moves one position on. */
  lemma FindPeriodStep(s: string, from: nat)
    requires from < |s| && MatchAt(s, from).None?
    ensures FindPeriod(s, from) == FindPeriod(s, from + 1)
  {
  }

  /** Positions where the pattern does not match are passed over. */
  lemma {:induction false} FindPeriodSkips(s: string, from: nat, to: nat)
    requires from <= to <= |s|
    requires forall p: nat :: from <= p < to ==> MatchAt(s, p).None?
    ensures FindPeriod(s, from) == FindPeriod(s, to)
    decreases |s| - from
  {
    if from < to {
      assert MatchAt(s, from).None?;
      FindPeriodStep(s, from);
      FindPeriodSkips(s, from + 1, to);
    }
  }

  /** "1 раз в 12 месяцев" is its own trimmed, lower-cased form. */
  lemma RepeatedPeriodText()
    ensures PeriodText("1 раз в 12 месяцев") == "1 раз в 12 месяцев"
  {
    var s := "1 раз в 12 месяцев";
    TrimUnchanged(s);
    assert IsLowerCase(s);
    forall k | 0 <= k < |s| ensures ToLower(s)[k] == s[k] {
    }
  }

  /** The "1" is not followed by a unit, and nothing before "12" is a digit. */
  lemma RepeatedPeriodFirstNumber()
    ensures forall p: nat :: p < 8 ==> MatchAt("1 раз в 12 месяцев", p).None?
  {
    var s := "1 раз в 12 месяцев";
    NoUnitAfterOne(s);
    NoDigitBeforeTwelve(s);
  }

  lemma NoUnitAfterOne(s: string)
    requires s == "1 раз в 12 месяцев"
    ensures MatchAt(s, 0).None?
  {
    assert DigitRunEnd(s, 0) == 1 && WhiteSpaceRunEnd(s, 1) == 2;
    assert s[2] == 'р';
  }

  lemma NoDigitBeforeTwelve(s: string)
    requires s == "1 раз в 12 месяцев"
    ensures forall p: nat :: 0 < p < 8 ==> MatchAt(s, p).None?
  {
    forall p: nat | 0 < p < 8 ensures MatchAt(s, p).None? {
      assert !IsDigit(s[p]);
    }
  }

  /** At "12 месяцев" the pattern reads 12 and the unit "месяц". */
  lemma RepeatedPeriodSecondNumber()
    ensures MatchAt("1 раз в 12 месяцев", 8) == Some(PeriodMatch(8, "12", "месяц"))
  {
    assert "1 раз в " + ("12" + " месяцев") == "1 раз в 12 месяцев";
    TwelveMonthsAfterLead("1 раз в ");
  }

  lemma TwelveMonthsAfterLead(lead: string)
    ensures MatchAt(lead + ("12" + " месяцев"), |lead|) == Some(PeriodMatch(|lead|, "12", "месяц"))
  {
    MonthsTail();
    assert AllDigits("12");
    MatchAtAfterLead(lead, "12", " месяцев", "месяц");
  }

  /** The match at i once its three parts are known. */
  lemma MatchAtParts(s: string, i: nat, j: nat, k: nat, rest: string, u: string)
    requires i < |s| && IsDigit(s[i])
    requires j <= |s| && DigitRunEnd(s, i) == j && WhiteSpaceRunEnd(s, j) == k
    requires k <= |s| && s[k..] == rest && FirstUnit(rest, PeriodUnits) == Some(u)
    ensures MatchAt(s, i) == Some(PeriodMatch(i, s[i..j], u))
  {
  }

  /** A number followed by a unit tail is matched where the number starts,
      whatever text comes before it. */
  lemma MatchAtAfterLead(lead: string, digits: string, tail: string, u: string)
    requires |digits| > 0 && AllDigits(digits) && IsUnitTail(tail, u)
    ensures MatchAt(lead + (digits + tail), |lead|) == Some(PeriodMatch(|lead|, digits, u))
  {
    var s := lead + (digits + tail);
    var j := |lead| + |digits|;
    RunsAfterLead(lead, digits, tail, u);
    PartsAfterLead(lead, digits, tail);
    MatchAtParts(s, |lead|, j, j + 1, tail[1..], u);
  }

  /** The digit run of the number, then the single space before the unit. */
  lemma RunsAfterLead(lead: string, digits: string, tail: string, u: string)
    requires |digits| > 0 && AllDigits(digits) && IsUnitTail(tail, u)
    ensures DigitRunEnd(lead + (digits + tail), |lead|) == |lead| + |digits|
    ensures WhiteSpaceRunEnd(lead + (digits + tail), |lead| + |digits|) == |lead| + |digits| + 1
  {
    var rest := digits + tail;
    TailLetter(tail, u);
    DigitRunEndOfDigits(digits, tail, 0);
    DigitRunEndShift(lead, rest, 0);
    assert rest[|digits|] == ' ' && rest[|digits| + 1] == tail[1];
    OneSpaceRun(rest, |digits|);
    WhiteSpaceRunEndShift(lead, rest, |digits|);
  }

  /** Where the number and the unit sit in the text. */
  lemma PartsAfterLead(lead: string, digits: string, tail: string)
    requires |digits| > 0 && |tail| > 0
    ensures (lead + (digits + tail))[|lead|] == digits[0]
    ensures (lead + (digits + tail))[|lead|..|lead| + |digits|] == digits
    ensures (lead + (digits + tail))[|lead| + |digits| + 1..] == tail[1..]
  {
  }

  /** A number no unit follows is passed over: in "1 раз в 12 месяцев" the
      pattern first matches at "12 месяцев", so the period is twelve months. */
  lemma LaterNumberCounts(d: Date, period: string)
    requires period == "1 раз в 12 месяцев"
    ensures AddPeriod(Some(d), period) == Some(MakeMonth(d.year, d.month + 12))
  {
    RepeatedPeriodMatch(period);
    AddPeriodOfMatch(d, period, PeriodMatch(8, "12", "месяц"));
    assert DigitsValue("12") == 12;
    AdvanceByMonthUnit(d, 12);
  }

  lemma AddPeriodOfMatch(d: Date, periodStr: string, m: PeriodMatch)
    requires periodStr != "" && MatchPeriod(periodStr) == Some(m)
    ensures AddPeriod(Some(d), periodStr) == Some(Advance(d, m.unit, DigitsValue(m.digits)))
  {
  }

  /** The leftmost match in "1 раз в 12 месяцев" is "12 месяцев". */
  lemma RepeatedPeriodMatch(period: string)
    requires period == "1 раз в 12 месяцев"
    ensures MatchPeriod(period) == Some(PeriodMatch(8, "12", "месяц"))
  {
    RepeatedPeriodText();
    RepeatedPeriodFirstNumber();
    RepeatedPeriodSecondNumber();
    FindPeriodSkips(period, 0, 8);
  }

  lemma AdvanceByMonthUnit(d: Date, n: nat)
    ensures Advance(d, "месяц", n) == MakeMonth(d.year, d.month + n)
  {
    assert "месяц" !in YearUnits && "месяц" in MonthUnits;
  }


  // ---------------------------------------------------------------------------
  // addPeriod as the source runs it: a copy of the Date, mutated in place
  // ---------------------------------------------------------------------------

  /** A JavaScript Date object that is only ever on day 1. */
  class CalendarDate {
    var year: int
    var month: Month

    /** new Date(date.getTime()) */
    constructor Copy(d: Date)
      ensures Value() == d
    {
      year := d.year;
      month := d.month;
    }

    function Value(): Date
      reads this
    {
      Date(year, month)
    }

    /** setFullYear(y): the year is taken as given, 0..99 included. */
    method SetFullYear(y: int)
      modifies this
      ensures Value() == Date(y, old(month))
    {
      year := y;
    }

    /** setMonth(m) on day 1: a month outside 0..11 carries into the year
        (MakeDay, section 21.4.1 of ECMA-262). */
    method SetMonth(m: int)
      modifies this
      ensures Value() == MakeMonth(old(year), m)
    {
      var moved := MakeMonth(year, m);
      year, month := moved.year, moved.month;
    }
  }

  /** The mutation at the end of addPeriod: copy the date, then set its year
      or its month. */
  method MoveCopy(d: Date, unit: string, value: nat) returns (moved: Date)
    ensures moved == Advance(d, unit, value)
  {
    var newDate := new CalendarDate.Copy(d);
    if unit in YearUnits {
      newDate.SetFullYear(newDate.year + value);
    } else if unit in MonthUnits {
      newDate.SetMonth(newDate.month + value);
    }
    moved := newDate.Value();
  }

  /** addPeriod step by step, with the date moved on a copy. */
  method AddPeriodToCopy(date: Option<Date>, periodStr: string) returns (r: Option<Date>)
    ensures r == AddPeriod(date, periodStr)
  {
    if date.None? || periodStr == "" {
      return date;
    }
    var found := MatchPeriod(periodStr);
    if found.None? {
      return date;
    }
    var moved := MoveCopy(date.value, found.value.unit, DigitsValue(found.value.digits));
    r := Some(moved);
  }
}
