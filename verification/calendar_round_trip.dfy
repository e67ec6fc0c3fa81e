/** Why the day-number engine is a fixed point between calendars: for the
    Gregorian and the Julian calendar, turning a valid date into its day number
    and back gives the date again, and turning any day number into a date gives
    a valid date whose day number is the one started from.

    The proofs count days from 1 March of year 0 in "March-based" years, whose
    last day is the leap day, so that a year is a start offset plus a day offset
    and a month is `MonthStart` plus a day. */
module CalendarRoundTrip {
  import opened Dates
  import opened CalendarConversion

  // ---------------------------------------------------------------------------
  // Calendar rules

  predicate GregorianLeap(year: int) {
    year % 4 == 0 && (year % 100 != 0 || year % 400 == 0)
  }

  predicate JulianLeap(year: int) {
    year % 4 == 0
  }

  function MonthLength(leap: bool, month: int): int
    requires 1 <= month <= 12
  {
    if month == 2 then (if leap then 29 else 28)
    else if month == 4 || month == 6 || month == 9 || month == 11 then 30
    else 31
  }

  predicate ValidGregorianDate(date: Date) {
    1 <= date.month <= 12 && 1 <= date.day <= MonthLength(GregorianLeap(date.year), date.month)
  }

  predicate ValidJulianDate(date: Date) {
    1 <= date.month <= 12 && 1 <= date.day <= MonthLength(JulianLeap(date.year), date.month)
  }

  // ---------------------------------------------------------------------------
  // March-based coordinates

  /** Days from 1 March of year 0 to 1 March of year `y`, Gregorian rule. */
  function GregorianYearStart(y: int): int {
    365 * y + y / 4 - y / 100 + y / 400
  }

  /** Days from 1 March of year 0 to 1 March of year `y`, Julian rule. */
  function JulianYearStart(y: int): int {
    365 * y + y / 4
  }

  /** Days from 1 March to the first day of the month `mi` months later. */
  function MonthStart(mi: int): int {
    (153 * mi + 2) / 5
  }

  /** The date `offset` days after 1 March of year `y`, for an offset within a
      March-based year; January and February belong to the next calendar year. */
  function MarchDate(y: int, offset: int): Date {
    var mi := (5 * offset + 2) / 153;
    var day := offset - MonthStart(mi) + 1;
    if mi + 3 > 12 then Date(y + 1, mi + 3 - 12, day) else Date(y, mi + 3, day)
  }

  // ---------------------------------------------------------------------------
  // Floors

  /** Stepping `x` by one raises its floored quotient exactly when `x + 1` is a
      multiple of `b`. */
  lemma FloorStep(x: int, b: int)
    requires b > 0
    ensures (x + 1) / b - x / b == if (x + 1) % b == 0 then 1 else 0
  {
    var q, r := x / b, x % b;
    if r == b - 1 {
      DivModUnique(x + 1, b, q + 1, 0);
    } else {
      DivModUnique(x + 1, b, q, r + 1);
    }
  }

  /** The length of the March-based Gregorian year `y`, which ends with the
      leap day of calendar year `y + 1`. */
  lemma {:induction false} GregorianYearLength(y: int)
    ensures GregorianYearStart(y + 1) - GregorianYearStart(y)
      == if GregorianLeap(y + 1) then 366 else 365
  {
    FloorStep(y, 4);
    FloorStep(y, 100);
    FloorStep(y, 400);
    var x := y + 1;
    if x % 400 == 0 {
      DivModUnique(x, 100, 4 * (x / 400), 0);
      DivModUnique(x, 4, 100 * (x / 400), 0);
    } else if x % 100 == 0 {
      DivModUnique(x, 4, 25 * (x / 100), 0);
    }
  }

  lemma {:induction false} JulianYearLength(y: int)
    ensures JulianYearStart(y + 1) - JulianYearStart(y)
      == if JulianLeap(y + 1) then 366 else 365
  {
    FloorStep(y, 4);
  }

  /** Later March-based years start later: year `y` ends no later than any
      later year starts. */
  lemma GregorianYearStartIncreasing(y: int, z: int)
    requires y < z
    ensures GregorianYearStart(y + 1) <= GregorianYearStart(z)
  {
    if z > y + 1 {
      assert 146097 * (y + 1) - 800 < 400 * GregorianYearStart(y + 1) < 146097 * (y + 1) + 400;
      assert 146097 * z - 800 < 400 * GregorianYearStart(z) < 146097 * z + 400;
    }
  }

  lemma JulianYearStartIncreasing(y: int, z: int)
    requires y < z
    ensures JulianYearStart(y + 1) <= JulianYearStart(z)
  {
  }

  /** `(4e + 3) / 1461` is the Julian March-based year holding day `e`. */
  lemma JulianYearOfDay(e: int)
    ensures var y := (4 * e + 3) / 1461;
      JulianYearStart(y) <= e < JulianYearStart(y + 1)
      && (1461 * y) / 4 == JulianYearStart(y)
  {
    var y := (4 * e + 3) / 1461;
    DivAddMultiple(y, 4, 365 * y);
    assert (1461 * y) / 4 == JulianYearStart(y);
    DivAddMultiple(y + 1, 4, 365 * (y + 1));
  }

  // ---------------------------------------------------------------------------
  // Months

  /** The month term of the engine, for a March-based month `m` in 3..14, is
      `MonthStart` of the months elapsed since March, less one. */
  lemma MonthTerm(m: int)
    requires 3 <= m <= 14
    ensures TDiv(153 * (m + 1), 5) - 123 == MonthStart(m - 3) - 1
  {
    DivAddMultiple(153 * (m - 3) + 2, 5, 122);
  }

  /** The month and day that an offset into a March-based year falls on. */
  lemma MonthOfOffset(r: int)
    requires 0 <= r <= 365
    ensures var mi := (5 * r + 2) / 153;
      0 <= mi <= 11 && MonthStart(mi) <= r < MonthStart(mi + 1)
  {
  }

  /** A day inside month `mi` is mapped back to month `mi`. */
  lemma OffsetOfMonth(mi: int, offset: int)
    requires 0 <= mi <= 11
    requires MonthStart(mi) <= offset < MonthStart(mi + 1)
    ensures (5 * offset + 2) / 153 == mi
  {
  }

  /** Month `mi` after March spans as many days as its calendar month has; the
      slot for February (the last one) spans 30. */
  lemma MonthSpan(mi: int)
    requires 0 <= mi <= 11
    ensures var month := if mi + 3 > 12 then mi + 3 - 12 else mi + 3;
      mi < 11 ==> MonthStart(mi + 1) - MonthStart(mi) == MonthLength(false, month)
    ensures mi == 11 ==> MonthStart(mi) == 337 && MonthStart(mi + 1) == 367
  {
  }

  /** The date at an offset into a March-based year has a month in 1..12 and
      a day within that month; only February, the last month of the March-based
      year, depends on whether the year is long. */
  lemma MarchDateValid(leap: bool, y: int, offset: int)
    requires 0 <= offset < if leap then 366 else 365
    ensures var date := MarchDate(y, offset);
      1 <= date.month <= 12 && 1 <= date.day <= MonthLength(leap, date.month)
      && (date.month == 2 ==> date.year == y + 1)
      && date.day <= 31
  {
    MonthOfOffset(offset);
    MonthSpan((5 * offset + 2) / 153);
  }

  /** The date at an offset into a March-based year lies in that year, and its
      month start plus its day is the offset again. */
  lemma MarchDateOffset(y: int, offset: int)
    requires 0 <= offset <= 365
    ensures var date := MarchDate(y, offset);
      1 <= date.month <= 12 && MarchYear(date) == y
      && MonthStart(MarchMonth(date) - 3) + date.day - 1 == offset
  {
    MonthOfOffset(offset);
  }

  // ---------------------------------------------------------------------------
  // Gregorian

  /** The Gregorian day number of a date with a month in 1..12, in March-based
      coordinates. */
  lemma GregorianMarchForm(date: Date)
    requires 1 <= date.month <= 12
    ensures GregorianDayNumber(date)
      == 1721120 + GregorianYearStart(MarchYear(date)) + MonthStart(MarchMonth(date) - 3) + date.day - 1
  {
    MonthTerm(MarchMonth(date));
  }

  /** Inside one 400-year cycle the engine's century estimate `c` is the
      century of the March-based year `y` it finally finds, and day `n` lies in
      that year. */
  lemma GregorianCentury(n: int)
    requires 0 <= n < 146097
    ensures var c := (4 * n + 3) / 146097;
      var y := (4 * (n + c) + 3) / 1461;
      0 <= c <= 3 && 0 <= y < 400 && y / 100 == c
      && GregorianYearStart(y) <= n < GregorianYearStart(y + 1)
      && n + c - JulianYearStart(y) == n - GregorianYearStart(y)
  {
    var c := (4 * n + 3) / 146097;
    var e := n + c;
    var y := (4 * e + 3) / 1461;
    JulianYearOfDay(e);
    if c == 0 {
      assert 0 <= y < 100;
    } else if c == 1 {
      assert 100 <= y < 200;
    } else if c == 2 {
      assert 200 <= y < 300;
    } else {
      assert 300 <= y < 400;
    }
  }

  /** The engine's steps inside a 400-year cycle, with the century and year
      estimates named. */
  lemma GregorianYearOfCycleSteps(n: int)
    requires 0 <= n < 146097
    ensures var c := (4 * n + 3) / 146097;
      var y := (4 * (n + c) + 3) / 1461;
      GregorianYearOfCycle(n) == (y, n + c - JulianYearStart(y))
  {
    var c := (4 * n + 3) / 146097;
    assert c / 4 == 0;
    JulianYearOfDay(n + c);
  }

  /** The engine's month split agrees with `MarchDate` on offsets within a year. */
  lemma MonthAndDayOfOffset(y: int, offset: int)
    requires 0 <= offset <= 365
    ensures MonthAndDay(y, offset) == MarchDate(y, offset)
  {
    MonthOfOffset(offset);
  }

  /** Within a 400-year cycle, the engine's century, 4-year and year steps
      find the March-based year holding day `n` of the cycle and the offset of
      `n` into that year. */
  lemma GregorianDayOfCycle(n: int)
    requires 0 <= n < 146097
    ensures var y, offset := GregorianYearOfCycle(n).0, GregorianYearOfCycle(n).1;
      0 <= y < 400 && n == GregorianYearStart(y) + offset
      && 0 <= offset < GregorianYearStart(y + 1) - GregorianYearStart(y) <= 366
  {
    GregorianCentury(n);
    GregorianYearOfCycleSteps(n);
    var c := (4 * n + 3) / 146097;
    GregorianYearLength((4 * (n + c) + 3) / 1461);
  }

  /** The March-based Gregorian year holding day number `jdn`, and the
      offset of `jdn` into it: the engine's steps with the cycle split done by
      floored division. */
  function GregorianYearOffset(jdn: int): (int, int)
  {
    var n := jdn - 1721120;
    var yd := GregorianYearOfCycle(n % 146097);
    (yd.0 + 400 * (n / 146097), yd.1)
  }

  /** `jdnToGregorian` splits the month off `GregorianYearOffset`. */
  lemma JdnToGregorianFloor(jdn: int)
    ensures JdnToGregorian(jdn)
      == MonthAndDay(GregorianYearOffset(jdn).0, GregorianYearOffset(jdn).1)
  {
  }

  /** `GregorianYearOffset` is the year and offset: the offset lies within
      the year, and the year start plus the offset is the day number. */
  lemma GregorianYearOffsetMeaning(jdn: int)
    ensures var y, offset := GregorianYearOffset(jdn).0, GregorianYearOffset(jdn).1;
      0 <= offset < GregorianYearStart(y + 1) - GregorianYearStart(y) <= 366
      && jdn == 1721120 + GregorianYearStart(y) + offset
  {
    var n := jdn - 1721120;
    var cycles, day1 := n / 146097, n % 146097;
    var y0, offset := GregorianYearOfCycle(day1).0, GregorianYearOfCycle(day1).1;
    assert GregorianYearOffset(jdn) == (y0 + 400 * cycles, offset);
    GregorianDayOfCycle(day1);
    assert 0 <= offset < GregorianYearStart(y0 + 1) - GregorianYearStart(y0) <= 366;
    assert day1 == GregorianYearStart(y0) + offset;
    GregorianYearsOfCycles(y0, cycles);
    var y := y0 + 400 * cycles;
    assert GregorianYearOffset(jdn).0 == y && GregorianYearOffset(jdn).1 == offset;
    assert 0 <= offset < GregorianYearStart(y + 1) - GregorianYearStart(y) <= 366;
    assert jdn == 1721120 + GregorianYearStart(y) + offset;
  }

  /** Every day number is an offset into one March-based Gregorian year, and
      `jdnToGregorian` returns the date at that offset. */
  lemma JdnToGregorianSplit(jdn: int) returns (y: int, offset: int)
    ensures 0 <= offset < GregorianYearStart(y + 1) - GregorianYearStart(y)
    ensures jdn == 1721120 + GregorianYearStart(y) + offset
    ensures JdnToGregorian(jdn) == MarchDate(y, offset)
  {
    GregorianYearOffsetMeaning(jdn);
    JdnToGregorianFloor(jdn);
    y, offset := GregorianYearOffset(jdn).0, GregorianYearOffset(jdn).1;
    MonthAndDayOfOffset(y, offset);
  }

  /** Whole 400-year cycles shift year starts by whole cycles of days. */
  lemma GregorianYearsOfCycles(y: int, cycles: int)
    ensures GregorianYearStart(y + 400 * cycles) == GregorianYearStart(y) + 146097 * cycles
    ensures GregorianYearStart(y + 400 * cycles + 1) == GregorianYearStart(y + 1) + 146097 * cycles
  {
    GregorianCycleShift(y, cycles);
    GregorianCycleShift(y + 1, cycles);
    assert y + 400 * cycles + 1 == (y + 1) + 400 * cycles;
  }

  /** `jdnToGregorian` always yields a valid Gregorian date. */
  lemma JdnToGregorianValid(jdn: int)
    ensures ValidGregorianDate(JdnToGregorian(jdn))
    ensures 1 <= JdnToGregorian(jdn).month <= 12 && 1 <= JdnToGregorian(jdn).day <= 31
  {
    var y, offset := JdnToGregorianSplit(jdn);
    GregorianYearLength(y);
    MarchDateValid(GregorianLeap(y + 1), y, offset);
  }

  /** Day number to date and back is the identity, on every day number. */
  lemma JdnToGregorianRoundTrip(jdn: int)
    ensures GregorianDayNumber(JdnToGregorian(jdn)) == jdn
  {
    var y, offset := JdnToGregorianSplit(jdn);
    GregorianYearLength(y);
    MarchDateOffset(y, offset);
    GregorianMarchForm(MarchDate(y, offset));
  }

  /** A valid date is an offset into its March-based year. */
  lemma GregorianDateOffset(date: Date)
    requires ValidGregorianDate(date)
    ensures var mi := MarchMonth(date) - 3;
      var offset := MonthStart(mi) + date.day - 1;
      0 <= mi <= 11 && MonthStart(mi) <= offset < MonthStart(mi + 1)
      && offset < GregorianYearStart(MarchYear(date) + 1) - GregorianYearStart(MarchYear(date))
  {
    var mi := MarchMonth(date) - 3;
    MonthSpan(mi);
    GregorianYearLength(MarchYear(date));
  }

  /** A day number determines its March-based Gregorian year and offset. */
  lemma GregorianOffsetUnique(y: int, offset: int, y': int, offset': int)
    requires 0 <= offset < GregorianYearStart(y + 1) - GregorianYearStart(y)
    requires 0 <= offset' < GregorianYearStart(y' + 1) - GregorianYearStart(y')
    requires GregorianYearStart(y) + offset == GregorianYearStart(y') + offset'
    ensures y == y' && offset == offset'
  {
    if y < y' {
      GregorianYearStartIncreasing(y, y');
    } else if y' < y {
      GregorianYearStartIncreasing(y', y);
    }
  }

  /** The date at the offset of a day of month `date.month` is `date` again. */
  lemma MarchDateOfDate(date: Date)
    requires 1 <= date.month <= 12
    requires var mi := MarchMonth(date) - 3;
      MonthStart(mi) <= MonthStart(mi) + date.day - 1 < MonthStart(mi + 1)
    ensures MarchDate(MarchYear(date), MonthStart(MarchMonth(date) - 3) + date.day - 1) == date
  {
    OffsetOfMonth(MarchMonth(date) - 3, MonthStart(MarchMonth(date) - 3) + date.day - 1);
  }

  /** `jdnToGregorian` of the day at a given offset into a March-based year
      is the date at that offset. */
  lemma JdnToGregorianOfOffset(jdn: int, y: int, offset: int)
    requires 0 <= offset < GregorianYearStart(y + 1) - GregorianYearStart(y)
    requires jdn == 1721120 + GregorianYearStart(y) + offset
    ensures JdnToGregorian(jdn) == MarchDate(y, offset)
  {
    var y', offset' := JdnToGregorianSplit(jdn);
    GregorianOffsetUnique(y, offset, y', offset');
  }

  /** A valid Gregorian date is the date at its offset into its March-based
      year, and its day number is that year's start plus the offset. */
  lemma GregorianDateAsOffset(date: Date)
    requires ValidGregorianDate(date)
    ensures var y, offset := MarchYear(date), MonthStart(MarchMonth(date) - 3) + date.day - 1;
      0 <= offset < GregorianYearStart(y + 1) - GregorianYearStart(y)
      && GregorianDayNumber(date) == 1721120 + GregorianYearStart(y) + offset
      && MarchDate(y, offset) == date
  {
    GregorianDateOffset(date);
    GregorianMarchForm(date);
    MarchDateOfDate(date);
  }

  /** A valid date's day number lies from 1 January of its year up to, not
      including, 1 January of the next year. */
  lemma GregorianDayNumberInYear(date: Date)
    requires ValidGregorianDate(date)
    ensures GregorianDayNumber(Date(date.year, 1, 1)) <= GregorianDayNumber(date)
      < GregorianDayNumber(Date(date.year + 1, 1, 1))
  {
    GregorianDateAsOffset(date);
    GregorianMarchForm(Date(date.year, 1, 1));
    GregorianMarchForm(Date(date.year + 1, 1, 1));
    GregorianYearLength(date.year - 1);
    GregorianYearLength(date.year);
  }


  /** Date to day number and back is the identity on valid Gregorian dates. */
  lemma GregorianDateRoundTrip(date: Date)
    requires ValidGregorianDate(date)
    ensures JdnToGregorian(GregorianDayNumber(date)) == date
  {
    var y, offset := MarchYear(date), MonthStart(MarchMonth(date) - 3) + date.day - 1;
    var jdn := GregorianDayNumber(date);
    assert 0 <= offset < GregorianYearStart(y + 1) - GregorianYearStart(y)
      && jdn == 1721120 + GregorianYearStart(y) + offset && MarchDate(y, offset) == date by {
      GregorianDateAsOffset(date);
    }
    JdnToGregorianOfOffset(jdn, y, offset);
  }

  // ---------------------------------------------------------------------------
  // Julian

  lemma JulianMarchForm(date: Date)
    requires 1 <= date.month <= 12
    ensures JulianDayNumber(date)
      == 1721118 + JulianYearStart(MarchYear(date)) + MonthStart(MarchMonth(date) - 3) + date.day - 1
  {
    MonthTerm(MarchMonth(date));
  }

  /** Within a 4-year cycle, the engine's year step finds the March-based
      year holding day `n` of the cycle and the offset of `n` into it. */
  lemma JulianDayOfCycle(n: int)
    requires 0 <= n < 1461
    ensures var y, offset := JulianYearOfCycle(n).0, JulianYearOfCycle(n).1;
      0 <= y < 4 && n == JulianYearStart(y) + offset
      && 0 <= offset < JulianYearStart(y + 1) - JulianYearStart(y) <= 366
  {
    JulianYearOfDay(n);
    var y := (4 * n + 3) / 1461;
    assert (1461 * y) / 4 == JulianYearStart(y);
    JulianYearLength(y);
  }

  /** Whole 4-year cycles shift year starts by whole cycles of days. */
  lemma JulianYearsOfCycles(y: int, cycles: int)
    ensures JulianYearStart(y + 4 * cycles) == JulianYearStart(y) + 1461 * cycles
    ensures JulianYearStart(y + 4 * cycles + 1) == JulianYearStart(y + 1) + 1461 * cycles
  {
    JulianCycleShift(y, cycles);
    JulianCycleShift(y + 1, cycles);
    assert y + 4 * cycles + 1 == (y + 1) + 4 * cycles;
  }

  /** Every day number is an offset into one March-based Julian year, and
      `jdnToJulian` returns the date at that offset. */
  lemma JdnToJulianSplit(jdn: int) returns (y: int, offset: int)
    ensures 0 <= offset < JulianYearStart(y + 1) - JulianYearStart(y)
    ensures jdn == 1721118 + JulianYearStart(y) + offset
    ensures JdnToJulian(jdn) == MarchDate(y, offset)
  {
    var day0 := jdn - 1721118;
    var cycles := CycleCount(day0, 1461);
    var day1 := CycleResidue(day0, 1461);
    JulianDayOfCycle(day1);
    var yd := JulianYearOfCycle(day1);
    y, offset := yd.0 + 4 * cycles, yd.1;
    MonthAndDayOfOffset(y, offset);
    JulianYearsOfCycles(yd.0, cycles);
  }

  /** `jdnToJulian` always yields a valid Julian date. */
  lemma JdnToJulianValid(jdn: int)
    ensures ValidJulianDate(JdnToJulian(jdn))
    ensures 1 <= JdnToJulian(jdn).month <= 12 && 1 <= JdnToJulian(jdn).day <= 31
  {
    var y, offset := JdnToJulianSplit(jdn);
    JulianYearLength(y);
    MarchDateValid(JulianLeap(y + 1), y, offset);
  }

  lemma JdnToJulianRoundTrip(jdn: int)
    ensures JulianDayNumber(JdnToJulian(jdn)) == jdn
  {
    var y, offset := JdnToJulianSplit(jdn);
    JulianYearLength(y);
    MarchDateOffset(y, offset);
    JulianMarchForm(MarchDate(y, offset));
  }

  lemma JulianDateOffset(date: Date)
    requires ValidJulianDate(date)
    ensures var mi := MarchMonth(date) - 3;
      var offset := MonthStart(mi) + date.day - 1;
      0 <= mi <= 11 && MonthStart(mi) <= offset < MonthStart(mi + 1)
      && offset < JulianYearStart(MarchYear(date) + 1) - JulianYearStart(MarchYear(date))
  {
    var mi := MarchMonth(date) - 3;
    MonthSpan(mi);
    JulianYearLength(MarchYear(date));
  }

  /** A day number determines its March-based Julian year and offset. */
  lemma JulianOffsetUnique(y: int, offset: int, y': int, offset': int)
    requires 0 <= offset < JulianYearStart(y + 1) - JulianYearStart(y)
    requires 0 <= offset' < JulianYearStart(y' + 1) - JulianYearStart(y')
    requires JulianYearStart(y) + offset == JulianYearStart(y') + offset'
    ensures y == y' && offset == offset'
  {
    if y < y' {
      JulianYearStartIncreasing(y, y');
    } else if y' < y {
      JulianYearStartIncreasing(y', y);
    }
  }

  /** `jdnToJulian` of the day at a given offset into a March-based year
      is the date at that offset. */
  lemma JdnToJulianOfOffset(jdn: int, y: int, offset: int)
    requires 0 <= offset < JulianYearStart(y + 1) - JulianYearStart(y)
    requires jdn == 1721118 + JulianYearStart(y) + offset
    ensures JdnToJulian(jdn) == MarchDate(y, offset)
  {
    var y', offset' := JdnToJulianSplit(jdn);
    JulianOffsetUnique(y, offset, y', offset');
  }

  /** A valid Julian date is the date at its offset into its March-based
      year, and its day number is that year's start plus the offset. */
  lemma JulianDateAsOffset(date: Date)
    requires ValidJulianDate(date)
    ensures var y, offset := MarchYear(date), MonthStart(MarchMonth(date) - 3) + date.day - 1;
      0 <= offset < JulianYearStart(y + 1) - JulianYearStart(y)
      && JulianDayNumber(date) == 1721118 + JulianYearStart(y) + offset
      && MarchDate(y, offset) == date
  {
    JulianDateOffset(date);
    JulianMarchForm(date);
    MarchDateOfDate(date);
  }

  /** Date to day number and back is the identity on valid Julian dates. */
  lemma JulianDateRoundTrip(date: Date)
    requires ValidJulianDate(date)
    ensures JdnToJulian(JulianDayNumber(date)) == date
  {
    var y, offset := MarchYear(date), MonthStart(MarchMonth(date) - 3) + date.day - 1;
    var jdn := JulianDayNumber(date);
    assert 0 <= offset < JulianYearStart(y + 1) - JulianYearStart(y)
      && jdn == 1721118 + JulianYearStart(y) + offset && MarchDate(y, offset) == date by {
      JulianDateAsOffset(date);
    }
    JdnToJulianOfOffset(jdn, y, offset);
  }
}
