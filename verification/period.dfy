/**
 * The upstream dataset's period vocabulary: `MONTH_MAP` from a two-digit month
 * code to a three-letter month name, and the Indian April-to-March financial
 * year a calendar month falls in, written `start-(start+1)`.
 */
module Period {
  import opened Wrappers
  import opened Decimal

  /** `MONTH_MAP`. */
  const MonthMap: map<string, string> := map[
    "01" := "Jan", "02" := "Feb", "03" := "Mar", "04" := "Apr", "05" := "May", "06" := "Jun",
    "07" := "Jul", "08" := "Aug", "09" := "Sep", "10" := "Oct", "11" := "Nov", "12" := "Dec"
  ]

  /** The calendar's month abbreviations, January first: the reference the table is checked against. */
  const CalendarMonths: seq<string> :=
    ["Jan", "Feb", "Mar", "Apr", "May", "Jun", "Jul", "Aug", "Sep", "Oct", "Nov", "Dec"]

  /** A two-digit code that numbers a calendar month, 01 to 12. */
  predicate IsMonthCode(code: string) {
    IsDigits(code, 2) && 1 <= Value(code) <= 12
  }

  /**
   * `MONTH_MAP[month]`: defined exactly for the codes of the twelve calendar
   * months, where it is that month's abbreviation.
   */
  function MonthName(code: string): (r: Option<string>)
    ensures r.Some? <==> IsMonthCode(code)
    ensures r.Some? ==> r.value == CalendarMonths[Value(code) - 1]
  {
    if code in MonthMap then
      MonthCodesAreNumbered(code);
      Some(MonthMap[code])
    else
      MonthCodeIsKey(code);
      None
  }

  lemma TwoDigits(code: string)
    requires IsDigits(code, 2)
    ensures code == [code[0], code[1]]
    ensures Value(code) == 10 * DigitValue(code[0]) + DigitValue(code[1])
  {
    var first := code[..1];
    assert first[..0] == [] && first[0] == code[0];
    assert Value(first) == DigitValue(code[0]);
  }

  lemma MonthCodesAreNumbered(code: string)
    requires code in MonthMap
    ensures IsMonthCode(code) && MonthMap[code] == CalendarMonths[Value(code) - 1]
  {
    if code[0] == '0' {
      EarlyMonthCodes(code);
    } else {
      LateMonthCodes(code);
    }
  }

  lemma EarlyMonthCodes(code: string)
    requires code in MonthMap && code[0] == '0'
    ensures IsMonthCode(code) && MonthMap[code] == CalendarMonths[Value(code) - 1]
  {
    if code[1] == '1' {
      JanCode(code);
    } else if code[1] == '2' {
      FebCode(code);
    } else if code[1] == '3' {
      MarCode(code);
    } else if code[1] == '4' {
      AprCode(code);
    } else if code[1] == '5' {
      MayCode(code);
    } else if code[1] == '6' {
      JunCode(code);
    } else if code[1] == '7' {
      JulCode(code);
    } else if code[1] == '8' {
      AugCode(code);
    } else if code[1] == '9' {
      SepCode(code);
    }
  }

  lemma LateMonthCodes(code: string)
    requires code in MonthMap && code[0] != '0'
    ensures IsMonthCode(code) && MonthMap[code] == CalendarMonths[Value(code) - 1]
  {
    if code[1] == '0' {
      OctCode(code);
    } else if code[1] == '1' {
      NovCode(code);
    } else if code[1] == '2' {
      DecCode(code);
    }
  }

  lemma JanCode(code: string)
    requires code == "01"
    ensures IsMonthCode(code) && MonthMap[code] == CalendarMonths[Value(code) - 1]
  {
    TwoDigits(code);
  }

  lemma FebCode(code: string)
    requires code == "02"
    ensures IsMonthCode(code) && MonthMap[code] == CalendarMonths[Value(code) - 1]
  {
    TwoDigits(code);
  }

  lemma MarCode(code: string)
    requires code == "03"
    ensures IsMonthCode(code) && MonthMap[code] == CalendarMonths[Value(code) - 1]
  {
    TwoDigits(code);
  }

  lemma AprCode(code: string)
    requires code == "04"
    ensures IsMonthCode(code) && MonthMap[code] == CalendarMonths[Value(code) - 1]
  {
    TwoDigits(code);
  }

  lemma MayCode(code: string)
    requires code == "05"
    ensures IsMonthCode(code) && MonthMap[code] == CalendarMonths[Value(code) - 1]
  {
    TwoDigits(code);
  }

  lemma JunCode(code: string)
    requires code == "06"
    ensures IsMonthCode(code) && MonthMap[code] == CalendarMonths[Value(code) - 1]
  {
    TwoDigits(code);
  }

  lemma JulCode(code: string)
    requires code == "07"
    ensures IsMonthCode(code) && MonthMap[code] == CalendarMonths[Value(code) - 1]
  {
    TwoDigits(code);
  }

  lemma AugCode(code: string)
    requires code == "08"
    ensures IsMonthCode(code) && MonthMap[code] == CalendarMonths[Value(code) - 1]
  {
    TwoDigits(code);
  }

  lemma SepCode(code: string)
    requires code == "09"
    ensures IsMonthCode(code) && MonthMap[code] == CalendarMonths[Value(code) - 1]
  {
    TwoDigits(code);
  }

  lemma OctCode(code: string)
    requires code == "10"
    ensures IsMonthCode(code) && MonthMap[code] == CalendarMonths[Value(code) - 1]
  {
    TwoDigits(code);
  }

  lemma NovCode(code: string)
    requires code == "11"
    ensures IsMonthCode(code) && MonthMap[code] == CalendarMonths[Value(code) - 1]
  {
    TwoDigits(code);
  }

  lemma DecCode(code: string)
    requires code == "12"
    ensures IsMonthCode(code) && MonthMap[code] == CalendarMonths[Value(code) - 1]
  {
    TwoDigits(code);
  }

  lemma MonthCodeIsKey(code: string)
    ensures IsMonthCode(code) ==> code in MonthMap
  {
    if !IsMonthCode(code) {
      return;
    }
    TwoDigits(code);
    var d0, d1 := code[0], code[1];
    if d0 == '0' {
      assert code == ['0', d1];
    } else {
      assert d0 == '1' && code == ['1', d1];
    }
  }

  /** The codes of January, February and March, the months that close a financial year. */
  predicate ClosesFinYear(code: string) {
    code == "01" || code == "02" || code == "03"
  }

  /** The label of the financial year that starts in April of `start`. */
  function FinYearLabel(start: int): string {
    ShowInt(start) + "-" + ShowInt(start + 1)
  }

  /** The financial year that starts in April of `start` holds April to December of `start` and January to March of `start + 1`. */
  predicate InFinYear(monthNumber: int, year: int, start: int) {
    (4 <= monthNumber <= 12 && year == start) || (1 <= monthNumber <= 3 && year == start + 1)
  }

  /**
   * `fin_year` for month code `code` of year `y`: the financial year the month
   * falls in. A two-digit code that numbers no month (00, 13 to 99) is treated
   * like April to December.
   */
  function FinYear(code: string, y: int): (r: string)
    ensures IsMonthCode(code) ==> forall start :: InFinYear(Value(code), y, start) ==> r == FinYearLabel(start)
    ensures IsDigits(code, 2) && !IsMonthCode(code) ==> r == FinYearLabel(y)
  {
    MonthNumberOfCode(code);
    if ClosesFinYear(code) then FinYearLabel(y - 1) else FinYearLabel(y)
  }

  lemma MonthNumberOfCode(code: string)
    ensures IsDigits(code, 2) ==> (ClosesFinYear(code) <==> 1 <= Value(code) <= 3)
  {
    if IsDigits(code, 2) {
      TwoDigits(code);
    }
  }

  /** A string of digits followed by a hyphen can be split at that hyphen in only one way. */
  lemma DigitsBeforeHyphen(x1: string, y1: string, x2: string, y2: string)
    requires AllDigits(x1) && AllDigits(x2)
    requires x1 + "-" + y1 == x2 + "-" + y2
    ensures x1 == x2
  {
    var s := x1 + "-" + y1;
    if |x1| == |x2| {
      assert x1 == s[..|x1|] == x2;
    } else if |x1| < |x2| {
      HyphenAfter(x1, y1);
      assert false;
    } else {
      HyphenAfter(x2, y2);
      assert false;
    }
  }

  lemma HyphenAfter(x: string, y: string)
    ensures (x + "-" + y)[|x|] == '-'
  {
  }

  lemma LabelOfNegative(a: int)
    requires a < 0
    ensures FinYearLabel(a)[0] == '-'
    ensures FinYearLabel(a)[1..] == ShowNat(-a) + "-" + ShowInt(a + 1)
  {
  }

  lemma LabelOfNonNegative(a: int)
    requires a >= 0
    ensures IsDigit(FinYearLabel(a)[0])
    ensures FinYearLabel(a) == ShowNat(a) + "-" + ShowInt(a + 1)
  {
  }

  /** Different start years give different financial-year labels. */
  lemma FinYearLabelInjective(a: int, b: int)
    requires FinYearLabel(a) == FinYearLabel(b)
    ensures a == b
  {
    if a < 0 && b < 0 {
      LabelOfNegative(a);
      LabelOfNegative(b);
      DigitsBeforeHyphen(ShowNat(-a), ShowInt(a + 1), ShowNat(-b), ShowInt(b + 1));
      assert ShowInt(a) == ShowInt(b);
    } else if a >= 0 && b >= 0 {
      LabelOfNonNegative(a);
      LabelOfNonNegative(b);
      DigitsBeforeHyphen(ShowNat(a), ShowInt(a + 1), ShowNat(b), ShowInt(b + 1));
      assert ShowInt(a) == ShowInt(b);
    } else if a < 0 {
      LabelOfNegative(a);
      LabelOfNonNegative(b);
    } else {
      LabelOfNonNegative(a);
      LabelOfNegative(b);
    }
    ShowIntInjective(a, b);
  }

  /**
   * For a calendar month, `fin_year` names exactly the financial year the
   * month falls in, and no other.
   */
  lemma FinYearCoversMonth(code: string, y: int, start: int)
    requires IsMonthCode(code)
    ensures FinYear(code, y) == FinYearLabel(start) <==> InFinYear(Value(code), y, start)
  {
    var own := if Value(code) <= 3 then y - 1 else y;
    assert InFinYear(Value(code), y, own);
    if FinYear(code, y) == FinYearLabel(start) {
      FinYearLabelInjective(start, own);
    }
  }

  /** February 2024 is in 2023-2024, April 2024 opens 2024-2025, and January of year 0000 gives -1-0. */
  lemma FinYearExamples()
    ensures FinYear("02", 2024) == "2023-2024"
    ensures FinYear("04", 2024) == "2024-2025"
    ensures FinYear("01", 0) == "-1-0"
  {
    FebruaryOf2024("02", 2024);
    AprilOf2024("04", 2024);
    JanuaryOfYearZero("01", 0);
  }

  lemma FebruaryOf2024(code: string, y: int)
    requires code == "02" && y == 2024
    ensures FinYear(code, y) == "2023-2024"
  {
    assert ClosesFinYear(code);
    assert ShowNat(202) == "202";
    assert ShowInt(2023) == "2023" && ShowInt(2024) == "2024";
  }

  lemma AprilOf2024(code: string, y: int)
    requires code == "04" && y == 2024
    ensures FinYear(code, y) == "2024-2025"
  {
    assert !ClosesFinYear(code);
    assert ShowNat(202) == "202";
    assert ShowInt(2024) == "2024" && ShowInt(2025) == "2025";
  }

  lemma JanuaryOfYearZero(code: string, y: int)
    requires code == "01" && y == 0
    ensures FinYear(code, y) == "-1-0"
  {
    assert ClosesFinYear(code);
    assert ShowNat(1) == "1" && ShowNat(0) == "0";
    assert ShowInt(-1) == "-1" && ShowInt(0) == "0";
  }
}
