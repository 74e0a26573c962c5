/**
 * The calendar-date validator of the booking form (`isValidDate`).
 *
 * The validator first matches `^(\d{1,2})\.(\d{1,2})\.(\d{4})$`, then builds
 * `new Date(year, month - 1, day)` from the three captured groups and accepts
 * only if the date's own day, month and full year read back equal to the
 * groups. This module models both steps the way ECMAScript defines them:
 * the Date constructor maps the years 0..99 to 1900..1999 (MakeFullYear,
 * section 21.4.2.1 of ECMA-262), normalises the month with floor division
 * and a non-negative remainder, and counts the day from the first of that
 * month, rolling over into neighbouring months (MakeDay, section 21.4.1.28).
 * The main result, `ValidDateOfGroups`, says that the round trip succeeds
 * exactly for the real Gregorian dates whose year is at least 100.
 */
module DateValidation {
  import opened Options

  /** The three groups captured by the regular expression. */
  datatype Groups = Groups(day: string, month: string, year: string)

  /** A proleptic Gregorian date; `month` is the 0-based month index as Date.getMonth returns it. */
  datatype CivilDate = CivilDate(year: int, month: int, day: int)

  // ---------------------------------------------------------------------------
  // The regular expression ^(\d{1,2})\.(\d{1,2})\.(\d{4})$

  /** `\d` without the `u` flag: the ASCII digits only. */
  predicate IsDigit(c: char) {
    '0' <= c <= '9'
  }

  predicate AllDigits(s: string) {
    forall k :: 0 <= k < |s| ==> IsDigit(s[k])
  }

  /** A capture of `\d{1,2}`. */
  predicate IsShortGroup(s: string) {
    1 <= |s| <= 2 && AllDigits(s)
  }

  /** A capture of `\d{4}`. */
  predicate IsYearGroup(s: string) {
    |s| == 4 && AllDigits(s)
  }

  /**
   * Length of the `\d{1,2}` group that a prefix of `s` forms when it is
   * directly followed by a dot, or 0 when there is none.
   */
  function ShortGroupBeforeDot(s: string): (n: nat)
    ensures n <= 2 && (n == 0 || n < |s|)
    ensures n > 0 ==> IsShortGroup(s[..n]) && s[n] == '.'
    ensures n == 0 ==> forall k :: 1 <= k <= 2 && k < |s| && AllDigits(s[..k]) ==> s[k] != '.'
  {
    if |s| >= 2 && IsDigit(s[0]) && s[1] == '.' then 1
    else if |s| >= 3 && IsDigit(s[0]) && IsDigit(s[1]) && s[2] == '.' then 2
    else 0
  }

  /** The anchored match: the captured groups, or None when the string does not match. */
  function MatchDate(s: string): (r: Option<Groups>)
    ensures r.Some? ==> IsShortGroup(r.value.day) && IsShortGroup(r.value.month) && IsYearGroup(r.value.year)
  {
    var i := ShortGroupBeforeDot(s);
    if i == 0 then None
    else
      var rest := s[i + 1..];
      var j := ShortGroupBeforeDot(rest);
      if j == 0 then None
      else
        var year := rest[j + 1..];
        if IsYearGroup(year) then Some(Groups(s[..i], rest[..j], year))
        else None
  }

  /** A dot at `i` splits `s` into the part before it, the dot and the part after. */
  lemma SplitAtDot(s: string, i: nat)
    requires i < |s| && s[i] == '.'
    ensures s == s[..i] + "." + s[i + 1..]
  {
  }

  /** Regrouping the three groups and their two dots. */
  lemma DottedAssoc(a: string, b: string, c: string)
    ensures a + "." + (b + "." + c) == a + "." + b + "." + c
  {
  }

  /** A match captures all of the string: the groups and the two dots between them. */
  lemma MatchSound(s: string)
    requires MatchDate(s).Some?
    ensures var g := MatchDate(s).value; s == g.day + "." + g.month + "." + g.year
  {
    var i := ShortGroupBeforeDot(s);
    var rest := s[i + 1..];
    var j := ShortGroupBeforeDot(rest);
    SplitAtDot(s, i);
    SplitAtDot(rest, j);
    DottedAssoc(s[..i], rest[..j], rest[j + 1..]);
  }

  /** A short group directly followed by a dot is found by ShortGroupBeforeDot, whatever follows. */
  lemma GroupThenDot(g: string, t: string)
    requires IsShortGroup(g)
    ensures ShortGroupBeforeDot(g + "." + t) == |g|
    ensures (g + "." + t)[..|g|] == g && (g + "." + t)[|g| + 1..] == t
  {
    var s := g + "." + t;
    assert s[..|g|] == g && s[|g|] == '.' && s[|g| + 1..] == t;
    assert s[0] == g[0];
    if |g| == 2 { assert s[1] == g[1]; }
  }

  /** Every string of the regular expression's shape matches, with exactly its own groups. */
  lemma MatchComplete(d: string, m: string, y: string)
    requires IsShortGroup(d) && IsShortGroup(m) && IsYearGroup(y)
    ensures MatchDate(d + "." + m + "." + y) == Some(Groups(d, m, y))
  {
    var rest := m + "." + y;
    assert d + "." + m + "." + y == d + "." + rest;
    GroupThenDot(d, rest);
    GroupThenDot(m, y);
  }

  // ---------------------------------------------------------------------------
  // Number(group): the decimal value of a digit string (leading zeros allowed)

  function DigitValue(c: char): (v: nat)
    requires IsDigit(c)
    ensures v <= 9
  {
    (c as int) - ('0' as int)
  }

  function DecimalValue(s: string): (v: nat)
    requires AllDigits(s)
    ensures |s| <= 1 ==> v <= 9
    ensures |s| <= 2 ==> v <= 99
    ensures |s| <= 3 ==> v <= 999
    ensures |s| <= 4 ==> v <= 9999
  {
    if s == [] then 0 else DecimalValue(s[..|s| - 1]) * 10 + DigitValue(s[|s| - 1])
  }

  /** `Number` of a one-, two- or four-digit group, digit by digit. */
  lemma DecimalValueOfDigits(s: string)
    requires AllDigits(s) && (|s| == 1 || |s| == 2 || |s| == 4)
    ensures |s| == 1 ==> DecimalValue(s) == DigitValue(s[0])
    ensures |s| == 2 ==> DecimalValue(s) == 10 * DigitValue(s[0]) + DigitValue(s[1])
    ensures |s| == 4 ==>
              DecimalValue(s) == 1000 * DigitValue(s[0]) + 100 * DigitValue(s[1]) + 10 * DigitValue(s[2]) + DigitValue(s[3])
  {
    if |s| == 1 {
      assert s[..0] == [];
    } else if |s| == 2 {
      assert s[..1][..0] == [];
    } else {
      assert s[..3][..2] == s[..2] && s[..2][..1] == s[..1] && s[..1][..0] == [];
    }
  }

  // ---------------------------------------------------------------------------
  // The Gregorian calendar

  predicate IsLeapYear(y: int) {
    y % 4 == 0 && (y % 100 != 0 || y % 400 == 0)
  }

  /** Days in `month` (1..12) of `year`. */
  function DaysInMonth(month: int, year: int): (n: int)
    requires 1 <= month <= 12
    ensures 28 <= n <= 31
    ensures month == 2 ==> (n == 29 <==> IsLeapYear(year))
  {
    if month == 2 then (if IsLeapYear(year) then 29 else 28)
    else if month == 4 || month == 6 || month == 9 || month == 11 then 30
    else 31
  }

  /** A real calendar date (months 1..12, days within the month). */
  predicate IsCalendarDate(day: int, month: int, year: int) {
    1 <= month <= 12 && 1 <= day <= DaysInMonth(month, year)
  }

  /** Position of a month on a single line of months, for ordering. */
  function MonthOrdinal(year: int, monthIndex: int): int {
    12 * year + monthIndex
  }

  // ---------------------------------------------------------------------------
  // The Date constructor new Date(year, monthIndex, day) and its getters

  /**
   * MakeFullYear: the two-digit years 0..99 stand for 1900..1999. So a
   * non-negative year reads back unchanged exactly when it is at least 100,
   * and the full year of a non-negative year is never below 100.
   */
  function FullYear(year: int): (r: int)
    ensures 0 <= year ==> (r == year <==> year >= 100)
    ensures 0 <= year ==> r >= 100
    ensures year < 0 ==> r == year
  {
    if 0 <= year <= 99 then 1900 + year else year
  }

  /**
   * The calendar date `day - 1` days after the first of month `monthIndex`
   * (0-based) of `year`, stepping across month ends as MakeDay does. The
   * day 0 is the last day of the previous month.
   */
  function FromMonthStart(year: int, monthIndex: int, day: nat): (r: CivilDate)
    requires 0 <= monthIndex < 12
    ensures 0 <= r.month < 12 && IsCalendarDate(r.day, r.month + 1, r.year)
    ensures 1 <= day <= DaysInMonth(monthIndex + 1, year) ==> r == CivilDate(year, monthIndex, day)
    ensures day > DaysInMonth(monthIndex + 1, year) ==>
              MonthOrdinal(r.year, r.month) > MonthOrdinal(year, monthIndex)
    ensures day == 0 ==> MonthOrdinal(r.year, r.month) == MonthOrdinal(year, monthIndex) - 1
    decreases day
  {
    var days := DaysInMonth(monthIndex + 1, year);
    if day == 0 then
      if monthIndex == 0 then CivilDate(year - 1, 11, 31)
      else CivilDate(year, monthIndex - 1, DaysInMonth(monthIndex, year))
    else if day <= days then CivilDate(year, monthIndex, day)
    else if monthIndex == 11 then FromMonthStart(year + 1, 0, day - days)
    else FromMonthStart(year, monthIndex + 1, day - days)
  }

  /**
   * The date that `new Date(year, monthIndex, day)` denotes, as read back by
   * getFullYear, getMonth and getDate. The month index is normalised with
   * floor division and the non-negative remainder (Dafny's `/` and `%` agree
   * with them for the positive divisor 12).
   */
  function ConstructDate(year: int, monthIndex: int, day: nat): (r: CivilDate)
    ensures 0 <= r.month < 12 && IsCalendarDate(r.day, r.month + 1, r.year)
  {
    FromMonthStart(FullYear(year) + monthIndex / 12, monthIndex % 12, day)
  }

  // ---------------------------------------------------------------------------
  // isValidDate

  /** The round trip: the constructed date reads back the same day, month and year. */
  predicate RoundTrips(g: Groups)
    requires IsShortGroup(g.day) && IsShortGroup(g.month) && IsYearGroup(g.year)
  {
    var day, month, year := DecimalValue(g.day), DecimalValue(g.month), DecimalValue(g.year);
    var date := ConstructDate(year, month - 1, day);
    date.day == day && date.month == month - 1 && date.year == year
  }

  predicate IsValidDate(s: string) {
    match MatchDate(s)
    case None => false
    case Some(g) => RoundTrips(g)
  }

  /**
   * The round trip of three well-formed groups succeeds exactly when they
   * name a real Gregorian date whose year is at least 100.
   */
  lemma RoundTripsIff(g: Groups)
    requires IsShortGroup(g.day) && IsShortGroup(g.month) && IsYearGroup(g.year)
    ensures RoundTrips(g) <==>
              var day, month, year := DecimalValue(g.day), DecimalValue(g.month), DecimalValue(g.year);
              IsCalendarDate(day, month, year) && year >= 100
  {
    var day, month, year := DecimalValue(g.day), DecimalValue(g.month), DecimalValue(g.year);
    var full := FullYear(year);
    if RoundTrips(g) {
      var date := ConstructDate(year, month - 1, day);
      assert 0 <= month - 1 < 12;
      assert (month - 1) / 12 == 0 && (month - 1) % 12 == month - 1;
      assert date == FromMonthStart(full, month - 1, day);
      assert full >= year;
      if day > DaysInMonth(month, full) {
        assert false;
      }
      assert date == CivilDate(full, month - 1, day);
    }
    if IsCalendarDate(day, month, year) && year >= 100 {
      assert (month - 1) / 12 == 0 && (month - 1) % 12 == month - 1;
    }
  }

  /**
   * The validator's whole meaning: `d.m.y` with one- or two-digit day and
   * month and a four-digit year is accepted exactly when it is a real date
   * of a year from 100 on.
   */
  lemma ValidDateOfGroups(d: string, m: string, y: string)
    requires IsShortGroup(d) && IsShortGroup(m) && IsYearGroup(y)
    ensures IsValidDate(d + "." + m + "." + y) <==>
              IsCalendarDate(DecimalValue(d), DecimalValue(m), DecimalValue(y)) && DecimalValue(y) >= 100
  {
    MatchComplete(d, m, y);
    RoundTripsIff(Groups(d, m, y));
  }

  /** Any accepted string has the regular expression's shape and names a real date. */
  lemma ValidDateShape(s: string)
    requires IsValidDate(s)
    ensures exists g: Groups :: s == g.day + "." + g.month + "." + g.year &&
              IsShortGroup(g.day) && IsShortGroup(g.month) && IsYearGroup(g.year) &&
              IsCalendarDate(DecimalValue(g.day), DecimalValue(g.month), DecimalValue(g.year)) &&
              DecimalValue(g.year) >= 100
  {
    var g := MatchDate(s).value;
    MatchSound(s);
    RoundTripsIff(g);
  }

  /** Every character is a digit or a dot. */
  predicate DigitsAndDots(s: string) {
    forall k :: 0 <= k < |s| ==> IsDigit(s[k]) || s[k] == '.'
  }

  lemma DigitsAndDotsConcat(a: string, b: string)
    requires DigitsAndDots(a) && DigitsAndDots(b)
    ensures DigitsAndDots(a + b)
  {
    forall k | 0 <= k < |a + b| ensures IsDigit((a + b)[k]) || (a + b)[k] == '.' {
      if k < |a| { assert (a + b)[k] == a[k]; } else { assert (a + b)[k] == b[k - |a|]; }
    }
  }

  /** Accepted strings contain only digits and dots, so never a comma or a blank. */
  lemma ValidDateCharacters(s: string)
    requires IsValidDate(s)
    ensures 8 <= |s| <= 10
    ensures forall k :: 0 <= k < |s| ==> IsDigit(s[k]) || s[k] == '.'
  {
    var g := MatchDate(s).value;
    MatchSound(s);
    DigitsAndDotsConcat(g.day, ".");
    DigitsAndDotsConcat(g.day + ".", g.month);
    DigitsAndDotsConcat(g.day + "." + g.month, ".");
    DigitsAndDotsConcat(g.day + "." + g.month + ".", g.year);
  }

  // ---------------------------------------------------------------------------
  // The rolled-over inputs the round trip rejects

  /** Day 0 rolls back into the previous month. */
  lemma RejectsDayZero(d: string, m: string, y: string)
    requires IsShortGroup(d) && IsShortGroup(m) && IsYearGroup(y)
    requires DecimalValue(d) == 0
    ensures !IsValidDate(d + "." + m + "." + y)
  {
    ValidDateOfGroups(d, m, y);
  }

  /** Month 0 rolls back into December of the year before, month 13 and above into the next year. */
  lemma RejectsMonthOutOfRange(d: string, m: string, y: string)
    requires IsShortGroup(d) && IsShortGroup(m) && IsYearGroup(y)
    requires DecimalValue(m) == 0 || DecimalValue(m) >= 13
    ensures !IsValidDate(d + "." + m + "." + y)
  {
    ValidDateOfGroups(d, m, y);
  }

  /** The years 0000..0099 are read as 1900..1999, so the year never reads back. */
  lemma RejectsTwoDigitYears(d: string, m: string, y: string)
    requires IsShortGroup(d) && IsShortGroup(m) && IsYearGroup(y)
    requires DecimalValue(y) <= 99
    ensures !IsValidDate(d + "." + m + "." + y)
  {
    ValidDateOfGroups(d, m, y);
  }
}

/** Accepted and rejected example dates, each derived from ValidDateOfGroups. */
module DateExamples {
  import opened DateValidation

  /** The first of January 2025 is accepted. */
  lemma NewYearAccepted()
    ensures IsValidDate("01.01.2025")
  {
    DecimalValueOfDigits("01");
    DecimalValueOfDigits("01");
    DecimalValueOfDigits("2025");
    assert DecimalValue("01") == 1 && DecimalValue("01") == 1 && DecimalValue("2025") == 2025;
    assert IsCalendarDate(1, 1, 2025);
    assert "01.01.2025" == "01" + "." + "01" + "." + "2025";
    ValidDateOfGroups("01", "01", "2025");
  }

  /** 29 February exists in the leap year 2024. */
  lemma LeapDayAccepted()
    ensures IsValidDate("29.02.2024")
  {
    DecimalValueOfDigits("29");
    DecimalValueOfDigits("02");
    DecimalValueOfDigits("2024");
    assert DecimalValue("29") == 29 && DecimalValue("02") == 2 && DecimalValue("2024") == 2024;
    assert IsCalendarDate(29, 2, 2024);
    assert "29.02.2024" == "29" + "." + "02" + "." + "2024";
    ValidDateOfGroups("29", "02", "2024");
  }

  /** One-digit day and month are accepted. */
  lemma OneDigitFieldsAccepted()
    ensures IsValidDate("1.1.2024")
  {
    DecimalValueOfDigits("1");
    DecimalValueOfDigits("1");
    DecimalValueOfDigits("2024");
    assert DecimalValue("1") == 1 && DecimalValue("1") == 1 && DecimalValue("2024") == 2024;
    assert IsCalendarDate(1, 1, 2024);
    assert "1.1.2024" == "1" + "." + "1" + "." + "2024";
    ValidDateOfGroups("1", "1", "2024");
  }

  /** Zero-padded day and month are accepted too (a different string from 1.1.2024). */
  lemma PaddedFieldsAccepted()
    ensures IsValidDate("01.01.2024")
  {
    DecimalValueOfDigits("01");
    DecimalValueOfDigits("01");
    DecimalValueOfDigits("2024");
    assert DecimalValue("01") == 1 && DecimalValue("01") == 1 && DecimalValue("2024") == 2024;
    assert IsCalendarDate(1, 1, 2024);
    assert "01.01.2024" == "01" + "." + "01" + "." + "2024";
    ValidDateOfGroups("01", "01", "2024");
  }

  /** 31 February rolls over into March and is rejected. */
  lemma FebruaryThirtyFirstRejected()
    ensures !IsValidDate("31.02.2024")
  {
    DecimalValueOfDigits("31");
    DecimalValueOfDigits("02");
    DecimalValueOfDigits("2024");
    assert DecimalValue("31") == 31 && DecimalValue("02") == 2 && DecimalValue("2024") == 2024;
    assert !IsCalendarDate(31, 2, 2024);
    assert "31.02.2024" == "31" + "." + "02" + "." + "2024";
    ValidDateOfGroups("31", "02", "2024");
  }

  /** Day 32 rolls over into February and is rejected. */
  lemma DayThirtyTwoRejected()
    ensures !IsValidDate("32.01.2024")
  {
    DecimalValueOfDigits("32");
    DecimalValueOfDigits("01");
    DecimalValueOfDigits("2024");
    assert DecimalValue("32") == 32 && DecimalValue("01") == 1 && DecimalValue("2024") == 2024;
    assert !IsCalendarDate(32, 1, 2024);
    assert "32.01.2024" == "32" + "." + "01" + "." + "2024";
    ValidDateOfGroups("32", "01", "2024");
  }

  /** 29 February is rejected in the common year 2023. */
  lemma CommonYearLeapDayRejected()
    ensures !IsValidDate("29.02.2023")
  {
    DecimalValueOfDigits("29");
    DecimalValueOfDigits("02");
    DecimalValueOfDigits("2023");
    assert DecimalValue("29") == 29 && DecimalValue("02") == 2 && DecimalValue("2023") == 2023;
    assert !IsCalendarDate(29, 2, 2023);
    assert "29.02.2023" == "29" + "." + "02" + "." + "2023";
    ValidDateOfGroups("29", "02", "2023");
  }

  /** 29 February is rejected in 1900, a century year that is not a leap year. */
  lemma CenturyLeapDayRejected()
    ensures !IsValidDate("29.02.1900")
  {
    DecimalValueOfDigits("29");
    DecimalValueOfDigits("02");
    DecimalValueOfDigits("1900");
    assert DecimalValue("29") == 29 && DecimalValue("02") == 2 && DecimalValue("1900") == 1900;
    assert !IsCalendarDate(29, 2, 1900);
    assert "29.02.1900" == "29" + "." + "02" + "." + "1900";
    ValidDateOfGroups("29", "02", "1900");
  }

  /** A real date in the year 0099 is rejected, because the Date constructor reads it as 1999. */
  lemma EarlyYearRejected()
    ensures !IsValidDate("01.01.0099")
  {
    DecimalValueOfDigits("01");
    DecimalValueOfDigits("01");
    DecimalValueOfDigits("0099");
    assert DecimalValue("01") == 1 && DecimalValue("01") == 1 && DecimalValue("0099") == 99;
    assert 99 < 100;
    assert "01.01.0099" == "01" + "." + "01" + "." + "0099";
    ValidDateOfGroups("01", "01", "0099");
  }
}
