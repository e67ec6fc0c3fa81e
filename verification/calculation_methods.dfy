/** The two Pascha (Easter) algorithms of Meeus, "Astronomical Algorithms",
    chapter 8: the Julian one, whose date is converted to the Gregorian
    calendar, and the Gregorian one. Both are written with C++ truncating
    division, as the engine computes them, so that negative years give the
    engine's own results.

    Each algorithm finds a number of days after 22 March; `PaschaDate` turns
    that number into a month and a day the same way for both. */
module CalculationMethods {
  import opened Dates
  import opened CalendarConversion
  import opened CalendarRoundTrip
  import opened ConverterProperties

  /** The last two steps of both algorithms: the month and the day of the
      date `offset` days after 22 March (`114` is 22 March as `31 * month +
      day - 1`). */
  function PaschaDate(year: int, offset: int): (date: Date)
    ensures date.year == year
  {
    Date(year, TDiv(offset + 114, 31), TMod(offset + 114, 31) + 1)
  }

  /** The Julian algorithm's number of days from 22 March to Pascha, in the
      Julian calendar: `d` locates the paschal full moon in the 19-year lunar
      cycle, `e` the following Sunday. */
  function JulianPaschaOffset(year: int): int {
    JulianOffsetOfResidues(TMod(year, 4), TMod(year, 7), TMod(year, 19))
  }

  /** The Julian offset from the year's residues `a`, `b` and `c` modulo 4, 7
      and 19. */
  function JulianOffsetOfResidues(a: int, b: int, c: int): int {
    var d := TMod(19 * c + 15, 30);
    var e := TMod(2 * a + 4 * b - d + 34, 7);
    d + e
  }

  /** Pascha of `year` as a Julian calendar date, before conversion. */
  function JulianPaschaJulianDate(year: int): (date: Date)
    ensures date.year == year
  {
    PaschaDate(year, JulianPaschaOffset(year))
  }

  /** `JulianCalculationMethod::calculate`: the Julian computus, converted to
      the Gregorian calendar. It fails exactly when the conversion does. */
  function JulianCalculationMethod(year: int): (r: Result<Date>)
    ensures r.Failure? <==> !JulianYearInRange(year)
    ensures r.Failure? ==> r.error == JulianRangeError
  {
    JulianToGregorian(JulianPaschaJulianDate(year))
  }

  /** The Gregorian algorithm's full-moon term `h`: the paschal full moon
      falls `h` days after 21 March, from the place `a` of the year in the
      19-year lunar cycle and the century `b`, with the solar correction `d`
      and the lunar correction `g`. */
  function GregorianFullMoon(a: int, b: int): int {
    var d := TDiv(b, 4);
    var f := TDiv(b + 8, 25);
    var g := TDiv(b - f + 1, 3);
    TMod(19 * a + b - d - g + 15, 30)
  }

  /** The Gregorian algorithm's Sunday term `l`: the days from the full moon
      to the following Sunday, from the century's place `e` in its 400-year
      cycle and the year's place `c` in its century. */
  function GregorianSundayTerm(h: int, e: int, c: int): int {
    var i := TDiv(c, 4);
    var k := TMod(c, 4);
    TMod(32 + 2 * e + 2 * i - h - k, 7)
  }

  /** The Gregorian algorithm's number of days from 22 March to Pascha: the
      full-moon term plus the Sunday term, less a week in the two cases the
      correction `m` moves back. */
  function GregorianPaschaOffset(year: int): int {
    GregorianOffsetOfTerms(TMod(year, 19), TDiv(year, 100), TMod(year, 100))
  }

  /** The Gregorian offset from the year's place `a` in the lunar cycle, its
      century `b` and its place `c` in the century. */
  function GregorianOffsetOfTerms(a: int, b: int, c: int): int {
    var h := GregorianFullMoon(a, b);
    var l := GregorianSundayTerm(h, TMod(b, 4), c);
    var m := TDiv(a + 11 * h + 22 * l, 451);
    h + l - 7 * m
  }

  /** `GregorianCalculationMethod::calculate`: the Gregorian computus. It
      never fails and keeps the year it is given. */
  function GregorianCalculationMethod(year: int): (date: Date)
    ensures date.year == year
  {
    PaschaDate(year, GregorianPaschaOffset(year))
  }

  // ---------------------------------------------------------------------------
  // Where Pascha falls

  /** A Pascha date: from 22 March to 25 April. */
  predicate InPaschaWindow(date: Date) {
    (date.month == 3 && 22 <= date.day <= 31) || (date.month == 4 && 1 <= date.day <= 25)
  }

  /** An offset of 0 to 34 days names 22 March to 25 April, day for day. */
  lemma PaschaDateOfOffset(year: int, offset: int)
    requires 0 <= offset <= 34
    ensures var date := PaschaDate(year, offset);
      InPaschaWindow(date)
      && (offset <= 9 ==> date.month == 3 && date.day == 22 + offset)
      && (offset > 9 ==> date.month == 4 && date.day == offset - 9)
  {
  }

  /** In years from 0 on, the Julian algorithm's offset is 0 to 34 days: the
      full moon falls at most 28 days after 21 March, the Sunday at most 6
      days after it. */
  lemma JulianPaschaOffsetRange(year: int)
    requires year >= 0
    ensures 0 <= JulianPaschaOffset(year) <= 34
  {
    var a, b, c := year % 4, year % 7, year % 19;
    assert TMod(year, 4) == a && TMod(year, 7) == b && TMod(year, 19) == c;
    assert (19 * c + 15) % 30 != 29;
  }

  /** In years from 0 on, the Gregorian algorithm's offset is 0 to 34 days. */
  lemma GregorianPaschaOffsetRange(year: int)
    requires year >= 0
    ensures 0 <= GregorianPaschaOffset(year) <= 34
  {
  }

  /** In years from 0 on, the Julian computus gives a date from 22 March to
      25 April of the Julian calendar. */
  lemma JulianPaschaWindow(year: int)
    requires year >= 0
    ensures InPaschaWindow(JulianPaschaJulianDate(year))
  {
    JulianPaschaOffsetRange(year);
    PaschaDateOfOffset(year, JulianPaschaOffset(year));
  }

  /** In years from 0 on, the Gregorian computus gives a date from 22 March
      to 25 April. */
  lemma GregorianPaschaWindow(year: int)
    requires year >= 0
    ensures InPaschaWindow(GregorianCalculationMethod(year))
  {
    GregorianPaschaOffsetRange(year);
    PaschaDateOfOffset(year, GregorianPaschaOffset(year));
  }

  // ---------------------------------------------------------------------------
  // Pascha is a Sunday

  /** Day numbers count days; day number 0 fell on a Monday, so a day is a
      Sunday when the day after it is a multiple of 7. */
  predicate IsSunday(jdn: int) {
    (jdn + 1) % 7 == 0
  }

  /** From year 0 on every operand is non-negative and C++ division is
      floored division: the Julian offset is the full-moon term `d` plus the
      Sunday term. */
  lemma JulianPaschaOffsetFloor(year: int)
    requires year >= 0
    ensures var d := (19 * (year % 19) + 15) % 30;
      JulianPaschaOffset(year) == d + (2 * (year % 4) + 4 * (year % 7) - d + 34) % 7
  {
  }

  /** The day number of a date within the Pascha window, from its offset
      after 22 March. */
  lemma JulianPaschaDayNumber(year: int)
    requires year >= 0
    ensures JulianDayNumber(JulianPaschaJulianDate(year))
      == 365 * year + year / 4 + JulianPaschaOffset(year) + 1721139
  {
    JulianPaschaOffsetRange(year);
    PaschaDateOfOffset(year, JulianPaschaOffset(year));
  }

  /** The Julian Sunday term lands on a Sunday whatever the full-moon term
      `d`: the weekday of 22 March moves by `year + year / 4` and the term
      undoes that move. */
  lemma JulianSundayTerm(year: int, d: int)
    requires year >= 0
    ensures var E := 2 * (year % 4) + 4 * (year % 7) - d + 34;
      IsSunday(365 * year + year / 4 + d + E % 7 + 1721139)
  {
    var a, b := year % 4, year % 7;
    var q, p := year / 4, year / 7;
    var E := 2 * a + 4 * b - d + 34;
    assert 365 * year + year / 4 + d + E % 7 + 1721140
      == 7 * (367 * p + 53 * b - q + 245882 - E / 7);
  }

  /** In years from 0 on, the Julian computus gives a Sunday. */
  lemma JulianPaschaSunday(year: int)
    requires year >= 0
    ensures IsSunday(JulianDayNumber(JulianPaschaJulianDate(year)))
  {
    JulianPaschaOffsetFloor(year);
    JulianPaschaDayNumber(year);
    JulianSundayTerm(year, (19 * (year % 19) + 15) % 30);
  }

  /** For a non-negative century, the full-moon term in floored arithmetic;
      it lies in 0..29. */
  lemma GregorianFullMoonFloor(a: int, b: int)
    requires 0 <= a && 0 <= b
    ensures var g := (b - (b + 8) / 25 + 1) / 3;
      GregorianFullMoon(a, b) == (19 * a + b - b / 4 - g + 15) % 30
  {
    var f := (b + 8) / 25;
    assert 0 <= b - f + 1;
    var g := (b - f + 1) / 3;
    assert 0 <= b - b / 4 - g;
  }

  /** The weekday arithmetic of the Gregorian algorithm: 22 March of `year`
      plus `h` days, plus the Sunday term for `h`, plus whole weeks, is a
      Sunday, whatever `h`. */
  lemma GregorianSundayArithmetic(year: int, h: int, m: int)
    requires year >= 0
    ensures var b, c := year / 100, year % 100;
      var L := 32 + 2 * (b % 4) + 2 * (c / 4) - h - c % 4;
      IsSunday(365 * year + year / 4 - year / 100 + year / 400 + h + L % 7 - 7 * m + 1721141)
  {
    var b, c := year / 100, year % 100;
    var d, e := b / 4, b % 4;
    var i, k := c / 4, c % 4;
    var L := 32 + 2 * e + 2 * i - h - k;
    assert year == 400 * d + 100 * e + 4 * i + k;
    DivModUnique(year, 4, 25 * b + i, k);
    DivModUnique(year, 400, d, 100 * e + c);
    assert 365 * year + year / 4 - year / 100 + year / 400 + h + L % 7 - 7 * m + 1721142
      == 7 * (20871 * d + 5218 * e + 209 * i + 52 * k + 245882 - L / 7 - m);
  }

  /** A Pascha date whose offset is a full-moon term `h`, the Gregorian Sunday
      term for `h` and a whole number of weeks is a Sunday. */
  lemma GregorianSundayOfOffset(year: int, offset: int, h: int, m: int)
    requires year >= 0 && 0 <= offset <= 34 && 0 <= h < 30
    requires offset == h + GregorianSundayTerm(h, (year / 100) % 4, year % 100) - 7 * m
    ensures IsSunday(GregorianDayNumber(PaschaDate(year, offset)))
  {
    PaschaDateOfOffset(year, offset);
    assert GregorianDayNumber(PaschaDate(year, offset))
      == 365 * year + year / 4 - year / 100 + year / 400 + offset + 1721141;
    GregorianSundayTermFloor(h, (year / 100) % 4, year % 100);
    GregorianSundayArithmetic(year, h, m);
  }

  /** For a non-negative place in the century and century in the 400-year
      cycle, and a full-moon term below 30, the Sunday term in floored
      arithmetic. */
  lemma GregorianSundayTermFloor(h: int, e: int, c: int)
    requires 0 <= e && 0 <= c && h < 30
    ensures GregorianSundayTerm(h, e, c) == (32 + 2 * e + 2 * (c / 4) - h - c % 4) % 7
  {
    assert TDiv(c, 4) == c / 4 && TMod(c, 4) == c % 4;
  }

  /** From year 0 on, the Gregorian offset from its three terms, every C++
      division being floored division. */
  lemma GregorianPaschaOffsetTerms(year: int)
    requires year >= 0
    ensures var a, b := year % 19, year / 100;
      var h := GregorianFullMoon(a, b);
      var l := GregorianSundayTerm(h, b % 4, year % 100);
      0 <= h < 30 && 0 <= l < 7
      && GregorianPaschaOffset(year) == h + l - 7 * ((a + 11 * h + 22 * l) / 451)
  {
    var a, b := year % 19, year / 100;
    GregorianFullMoonFloor(a, b);
    assert TMod(year, 19) == a && TDiv(year, 100) == b;
    assert TMod(year, 100) == year % 100 && TMod(b, 4) == b % 4;
    var h := GregorianFullMoon(a, b);
    var l := GregorianSundayTerm(h, b % 4, year % 100);
    assert TDiv(a + 11 * h + 22 * l, 451) == (a + 11 * h + 22 * l) / 451;
  }

  /** In years from 0 on, the Gregorian computus gives a Sunday. */
  lemma GregorianPaschaSunday(year: int)
    requires year >= 0
    ensures IsSunday(GregorianDayNumber(GregorianCalculationMethod(year)))
  {
    GregorianPaschaOffsetRange(year);
    GregorianPaschaOffsetTerms(year);
    var a, b := year % 19, year / 100;
    var h := GregorianFullMoon(a, b);
    var l := GregorianSundayTerm(h, b % 4, year % 100);
    GregorianSundayOfOffset(year, GregorianPaschaOffset(year), h, (a + 11 * h + 22 * l) / 451);
  }

  /** From year 0 to the last Julian year the engine accepts, the Julian
      method succeeds, and its Gregorian date is a valid date and a Sunday. */
  lemma JulianMethodSunday(year: int)
    requires 0 <= year <= JulianMaxYear
    ensures JulianCalculationMethod(year).Success?
    ensures ValidGregorianDate(JulianCalculationMethod(year).value)
    ensures IsSunday(GregorianDayNumber(JulianCalculationMethod(year).value))
  {
    JulianToGregorianSameDay(JulianPaschaJulianDate(year));
    JulianPaschaSunday(year);
  }

  /** From year 0 to the last Julian year the engine accepts, the Gregorian
      date of the Julian computus lies in the Gregorian year range: the latest
      such date, 25 April of the last Julian year, comes 223 days before
      1 January of the year after the last Gregorian one. */
  lemma JulianPaschaGregorianInRange(year: int)
    requires 0 <= year <= JulianMaxYear
    ensures JulianCalculationMethod(year).Success?
    ensures GregorianYearInRange(JulianCalculationMethod(year).value.year)
  {
    var julian := JulianPaschaJulianDate(year);
    var gregorian := JulianCalculationMethod(year).value;
    var jdn := GregorianDayNumber(gregorian);
    assert ValidGregorianDate(gregorian) && jdn == 365 * year + year / 4 + JulianPaschaOffset(year) + 1721139 by {
      JulianToGregorianSameDay(julian);
      JulianPaschaDayNumber(year);
    }
    assert 1721139 <= jdn <= 365 * JulianMaxYear + JulianMaxYear / 4 + 34 + 1721139 by {
      JulianPaschaOffsetRange(year);
    }
    GregorianDayNumberInYear(gregorian);
  }

  // ---------------------------------------------------------------------------
  // Test vectors of the repository, and negative years

  /** Pascha in 2019 by the Julian computus: 15 April in the Julian calendar,
      which is 28 April in the Gregorian calendar. */
  lemma JulianPascha2019()
    ensures JulianPaschaJulianDate(2019) == Date(2019, 4, 15)
    ensures JulianCalculationMethod(2019) == Success(Date(2019, 4, 28))
  {
    assert TMod(2019, 4) == 3 && TMod(2019, 7) == 3 && TMod(2019, 19) == 5;
    assert JulianOffsetOfResidues(3, 3, 5) == 24;
    JulianToGregorianVector(Date(2019, 4, 15), Date(2019, 4, 28));
  }

  /** Pascha in 2019 by the Gregorian computus: 21 April. */
  lemma GregorianPascha2019()
    ensures GregorianCalculationMethod(2019) == Date(2019, 4, 21)
  {
    assert TMod(2019, 19) == 5 && TDiv(2019, 100) == 20 && TMod(2019, 100) == 19;
    assert GregorianFullMoon(5, 20) == 29;
    assert GregorianSundayTerm(29, 0, 19) == 1;
    assert GregorianOffsetOfTerms(5, 20, 19) == 30;
  }

  /** Pascha in year 0 (1 BC) by the Julian computus: 11 April in the Julian
      calendar, 9 April in the Gregorian. */
  lemma JulianPaschaYearZero()
    ensures JulianPaschaJulianDate(0) == Date(0, 4, 11)
    ensures JulianCalculationMethod(0) == Success(Date(0, 4, 9))
  {
    assert TMod(0, 4) == 0 && TMod(0, 7) == 0 && TMod(0, 19) == 0;
    assert JulianOffsetOfResidues(0, 0, 0) == 20;
    JulianToGregorianVector(Date(0, 4, 11), Date(0, 4, 9));
  }

  /** Pascha in year 0 (1 BC) by the Gregorian computus: 9 April. */
  lemma GregorianPaschaYearZero()
    ensures GregorianCalculationMethod(0) == Date(0, 4, 9)
  {
    assert TMod(0, 19) == 0 && TDiv(0, 100) == 0 && TMod(0, 100) == 0;
    assert GregorianFullMoon(0, 0) == 15;
    assert GregorianSundayTerm(15, 0, 0) == 3;
    assert GregorianOffsetOfTerms(0, 0, 0) == 18;
  }

  /** Pascha in year -1 (2 BC) by the Julian computus: 22 March in the Julian
      calendar, 20 March in the Gregorian; the residues of -1 are taken with
      C++ truncating division. */
  lemma JulianPaschaNegativeYear()
    ensures JulianPaschaJulianDate(-1) == Date(-1, 3, 22)
    ensures JulianCalculationMethod(-1) == Success(Date(-1, 3, 20))
  {
    assert TMod(-1, 4) == -1 && TMod(-1, 7) == -1 && TMod(-1, 19) == -1;
    assert JulianOffsetOfResidues(-1, -1, -1) == 0;
    JulianToGregorianVector(Date(-1, 3, 22), Date(-1, 3, 20));
  }

  /** Pascha in year -1 (2 BC) by the Gregorian computus: 20 March. */
  lemma GregorianPaschaNegativeYear()
    ensures GregorianCalculationMethod(-1) == Date(-1, 3, 20)
  {
    assert TMod(-1, 19) == -1 && TDiv(-1, 100) == 0 && TMod(-1, 100) == -1;
    assert GregorianFullMoon(-1, 0) == -4;
    assert GregorianSundayTerm(-4, 0, -1) == 2;
    assert GregorianOffsetOfTerms(-1, 0, -1) == -2;
  }

  /** For negative years C++ division truncates toward zero, the residues of
      the algorithm go negative, and the date can leave the Pascha window:
      the Gregorian computus gives 31 February for year -2. */
  lemma GregorianPaschaFebruary()
    ensures GregorianCalculationMethod(-2) == Date(-2, 2, 31)
  {
    assert TMod(-2, 19) == -2 && TDiv(-2, 100) == 0 && TMod(-2, 100) == -2;
    assert GregorianFullMoon(-2, 0) == -23;
    assert GregorianSundayTerm(-23, 0, -2) == 1;
    assert GregorianOffsetOfTerms(-2, 0, -2) == -22;
  }

  /** Likewise the Julian computus gives 31 February (Julian) for year -45. */
  lemma JulianPaschaFebruary()
    ensures JulianPaschaJulianDate(-45) == Date(-45, 2, 31)
  {
    assert TMod(-45, 4) == -1 && TMod(-45, 7) == -3 && TMod(-45, 19) == -7;
    assert JulianOffsetOfResidues(-1, -3, -7) == -22;
  }
}
