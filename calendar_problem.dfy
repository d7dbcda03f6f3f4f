/** The next-day calendar exercise: validate a date of the years 1900-2100
    and print the following day as "Y/M/D". */
module CalendarProblem {
  import opened PyText

  const YearError := "年份数值越界"
  const MonthError := "月份数值越界"
  const DayError := "日期数值越界"

  /** Gregorian leap years. */
  predicate IsLeap(year: int) {
    year % 400 == 0 || (year % 100 != 0 && year % 4 == 0)
  }

  /** Days of each month of the year, February adjusted for leap years. */
  function MonthDays(year: int): (ds: seq<int>)
    ensures |ds| == 12
    ensures ds[1] == (if IsLeap(year) then 29 else 28)
    ensures forall k :: 0 <= k < 12 && k != 1 ==>
      ds[k] == (if k == 3 || k == 5 || k == 8 || k == 10 then 30 else 31)
  {
    [31, if IsLeap(year) then 29 else 28, 31, 30, 31, 30, 31, 31, 30, 31, 30, 31]
  }

  function DaysIn(year: int, month: int): int
    requires 1 <= month <= 12
  {
    MonthDays(year)[month - 1]
  }

  datatype Date = Date(year: int, month: int, day: int)

  /** A day that exists in the given month (any year). */
  predicate ValidDay(d: Date) {
    1 <= d.month <= 12 && 1 <= d.day <= DaysIn(d.year, d.month)
  }

  /** The day after a valid date. */
  function NextDay(d: Date): (n: Date)
    requires ValidDay(d)
    ensures ValidDay(n)
  {
    if d.day < DaysIn(d.year, d.month) then d.(day := d.day + 1)
    else if d.month < 12 then Date(d.year, d.month + 1, 1)
    else Date(d.year + 1, 1, 1)
  }

  /** "Y/M/D" with no zero padding, as `f"{y}/{m}/{d}"` prints it. */
  function FormatDate(d: Date): string {
    IntToString(d.year) + "/" + IntToString(d.month) + "/" + IntToString(d.day)
  }

  /** What `calendar_problem(year, month, day)` returns: the year is checked
      first, then the month, then the day; a valid date gives its successor. */
  function Calendar(year: int, month: int, day: int): (msg: string)
    ensures msg == YearError <==> year < 1900 || year > 2100
    ensures msg == MonthError <==> 1900 <= year <= 2100 && (month < 1 || month > 12)
    ensures msg == DayError <==>
      1900 <= year <= 2100 && 1 <= month <= 12 && (day < 1 || day > DaysIn(year, month))
    ensures 1900 <= year <= 2100 && ValidDay(Date(year, month, day)) ==>
      msg == FormatDate(NextDay(Date(year, month, day)))
  {
    if year < 1900 || year > 2100 then YearError
    else if month <= 0 || month > 12 then MonthError
    else if day <= 0 || day > DaysIn(year, month) then DayError
    else
      var n := NextDay(Date(year, month, day));
      FormatIsNoError(n);
      FormatDate(n)
  }

  /** A formatted date carries a '/', which no error message has. */
  lemma FormatIsNoError(d: Date)
    ensures FormatDate(d) != YearError && FormatDate(d) != MonthError && FormatDate(d) != DayError
  {
    var f := FormatDate(d);
    assert f[|IntToString(d.year)|] == '/';
    assert '/' !in YearError && '/' !in MonthError && '/' !in DayError;
  }

  /** The exercise as written: a local month table whose February entry is
      bumped in place, and a three-slot result that is carried over. */
  method CalendarProblem(year: int, month: int, day: int) returns (msg: string)
    ensures msg == Calendar(year, month, day)
  {
    if year < 1900 || year > 2100 {
      return YearError;
    }
    if month <= 0 || month > 12 {
      return MonthError;
    }
    var monthDays := new int[12] [31, 28, 31, 30, 31, 30, 31, 31, 30, 31, 30, 31];
    var isLeap := 0;
    if year % 400 == 0 {
      isLeap := 1;
    } else if year % 100 != 0 && year % 4 == 0 {
      isLeap := 1;
    }
    monthDays[1] := monthDays[1] + isLeap;
    assert monthDays[..] == MonthDays(year);
    var maxDays := monthDays[month - 1];
    if day <= 0 || day > maxDays {
      return DayError;
    }
    var result := new int[3] [year, month, day + 1];
    if day == maxDays {
      result[2] := 1;
      result[1] := result[1] + 1;
    }
    if result[1] > 12 {
      result[1] := 1;
      result[0] := result[0] + 1;
    }
    assert Date(result[0], result[1], result[2]) == NextDay(Date(year, month, day));
    msg := IntToString(result[0]) + "/" + IntToString(result[1]) + "/" + IntToString(result[2]);
  }

  // ---------------------------------------------------------------------
  // Reference: day numbers counted from 1 January 1900

  function YearLength(year: int): int {
    if IsLeap(year) then 366 else 365
  }

  function DaysBeforeYear(year: int): int
    requires year >= 1900
    decreases year
  {
    if year == 1900 then 0 else DaysBeforeYear(year - 1) + YearLength(year - 1)
  }

  function DaysBeforeMonth(year: int, month: int): int
    requires 1 <= month <= 13
    decreases month
  {
    if month == 1 then 0 else DaysBeforeMonth(year, month - 1) + DaysIn(year, month - 1)
  }

  function DayNumber(d: Date): int
    requires d.year >= 1900 && 1 <= d.month <= 12
  {
    DaysBeforeYear(d.year) + DaysBeforeMonth(d.year, d.month) + d.day - 1
  }

  lemma WholeYear(year: int)
    ensures DaysBeforeMonth(year, 13) == YearLength(year)
  {
    assert DaysBeforeMonth(year, 2) == 31;
    assert DaysBeforeMonth(year, 4) == 31 + DaysIn(year, 2) + 31;
    assert DaysBeforeMonth(year, 7) == DaysBeforeMonth(year, 4) + 30 + 31 + 30;
    assert DaysBeforeMonth(year, 10) == DaysBeforeMonth(year, 7) + 31 + 31 + 30;
    assert DaysBeforeMonth(year, 13) == DaysBeforeMonth(year, 10) + 31 + 30 + 31;
  }

  /** The successor is exactly one day later: `NextDay` agrees with counting
      days, across month and year ends and leap Februaries. */
  lemma NextDayIsSuccessor(d: Date)
    requires d.year >= 1900 && ValidDay(d)
    ensures DayNumber(NextDay(d)) == DayNumber(d) + 1
  {
    if d.day == DaysIn(d.year, d.month) && d.month == 12 {
      WholeYear(d.year);
    }
  }

  /** The calendar answer for a valid date reads back, split at '/', as the
      unpadded decimal fields of the next day. */
  lemma FormatReadsBack(d: Date)
    requires d.year >= 0 && d.month >= 0 && d.day >= 0
    ensures Split(FormatDate(d), "/") ==
      [NatToString(d.year), NatToString(d.month), NatToString(d.day)]
    ensures ParseNat(NatToString(d.year)) == d.year
    ensures ParseNat(NatToString(d.month)) == d.month
    ensures ParseNat(NatToString(d.day)) == d.day
  {
    var parts := [NatToString(d.year), NatToString(d.month), NatToString(d.day)];
    forall k | 0 <= k < 3 ensures '/' !in parts[k] {
      assert AllDigits(parts[k]);
    }
    assert Join(parts, "/") == FormatDate(d) by {
      assert Join(parts[2..], "/") == parts[2];
      assert Join(parts[1..], "/") == parts[1] + "/" + parts[2] by { assert parts[1..][1..] == parts[2..]; }
    }
    SplitJoinChar(parts, '/');
    ParseNatToString(d.year);
    ParseNatToString(d.month);
    ParseNatToString(d.day);
  }

  /** 31 December gives 1 January of the following year, even for 2100. */
  lemma YearRollover(year: int)
    requires 1900 <= year <= 2100
    ensures Calendar(year, 12, 31) == FormatDate(Date(year + 1, 1, 1))
  {
  }

  /** 29 February exists exactly in leap years: 1900 is not one, 2000 is. */
  lemma LeapFebruary()
    ensures Calendar(1900, 2, 29) == DayError
    ensures Calendar(2000, 2, 29) == FormatDate(Date(2000, 3, 1))
  {
  }
}
