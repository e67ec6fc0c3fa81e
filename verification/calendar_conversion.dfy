/** The Julian Day Number engine: calendar dates of the proleptic Gregorian,
    Julian and Revised Julian (Milankovic) calendars to and from a day count, and
    the four public converters that pass through that count.

    Each conversion is written the way the engine computes it, with C++ integer
    division (`TDiv`, `TMod`) and the engine's own corrections for negative
    operands. Beside each stands a closed form in floored arithmetic, and a
    lemma proves the two agree. */
module CalendarConversion {
  import opened Dates

  // Year limits beyond which a 64-bit day count would overflow.
  const GregorianMaxYear: int := 25252734927761841
  const JulianMaxYear: int := 25252216391110347
  const RevJulianMaxYear: int := 25252754133231976
  const RevJulianMaxJdn: int := 2305837553489651559

  // The earliest year accepted, so that a Byzantine year is never below 0.
  const GregorianMinYear: int := -5508
  const JulianMinYear: int := -5508
  const RevJulianMinYear: int := -5508

  const GregorianRangeError: string := "Gregorian year out of range"
  const JulianRangeError: string := "Julian year out of range"
  const RevJulianRangeError: string := "Revised Julian year out of range"
  const RevJulianJdnError: string := "JDN out of range to convert to Revised Julian"

  predicate GregorianYearInRange(year: int) {
    GregorianMinYear <= year <= GregorianMaxYear
  }

  predicate JulianYearInRange(year: int) {
    JulianMinYear <= year <= JulianMaxYear
  }

  predicate RevJulianYearInRange(year: int) {
    RevJulianMinYear <= year <= RevJulianMaxYear
  }

  /** Dates in January and February count as months 13 and 14 of the year
      before, so that a leap day is the last day of its year. */
  function MarchYear(date: Date): int {
    if date.month < 3 then date.year - 1 else date.year
  }

  function MarchMonth(date: Date): int {
    if date.month < 3 then date.month + 12 else date.month
  }

  // ---------------------------------------------------------------------------
  // Closed forms

  /** The Gregorian day number of a date: days before its March-based year,
      then the month and day contribution (C++ truncating division for the month
      term, which is the floor for every month from -13 up). */
  function GregorianDayNumber(date: Date): int {
    var y, m := MarchYear(date), MarchMonth(date);
    365 * y + y / 4 - y / 100 + y / 400 + TDiv(153 * (m + 1), 5) + date.day - 123 + 1721120
  }

  /** The Julian day number of a Julian calendar date. */
  function JulianDayNumber(date: Date): int {
    var y, m := MarchYear(date), MarchMonth(date);
    365 * y + y / 4 + TDiv(153 * (m + 1), 5) + date.day - 123 + 1721118
  }

  /** The day number the engine assigns to a Revised Julian date. The two
      900-year terms take the calendar year itself, not the March-based year. */
  function RevJulianDayNumber(date: Date): int {
    var y, m := MarchYear(date), MarchMonth(date);
    365 * y + y / 4 - y / 100 + (date.year + 300) / 900 + (date.year + 700) / 900
      + (153 * (m + 1)) / 5 + date.day - 123 + 1721120
  }

  // ---------------------------------------------------------------------------
  // Date to day number, as the engine computes it

  /** Days in `y` whole years of 365 days plus one leap day every fourth year,
      with the engine's correction when `y` is negative: the floored count. */
  function LeapYearDays(y: int): (days: int)
    ensures days == 365 * y + y / 4
  {
    if y < 0 && TMod(y, 4) != 0 then 365 * y + (TDiv(y, 4) - 1) else 365 * y + TDiv(y, 4)
  }

  /** Removes the centurial leap days the Gregorian calendar skips and restores
      every fourth one, with the engine's four-way correction for a negative
      year: it subtracts the floored count of centuries and adds the floored
      count of 400-year periods. */
  function CenturyCorrection(y: int, jdn: int): (r: int)
    ensures r == jdn - y / 100 + y / 400
  {
    assert FlooredQuotient(y, 100) == y / 100 && FlooredQuotient(y, 400) == y / 400;
    if y < 0 then
      if TMod(y, 100) != 0 then
        if TMod(y, 400) != 0 then jdn - (TDiv(y, 100) - 1) + (TDiv(y, 400) - 1)
        else jdn - (TDiv(y, 100) - 1) + TDiv(y, 400)
      else
        if TMod(y, 400) != 0 then jdn - TDiv(y, 100) + (TDiv(y, 400) - 1)
        else jdn - TDiv(y, 100) + TDiv(y, 400)
    else jdn - TDiv(y, 100) + TDiv(y, 400)
  }

  /** Gregorian date to JDN: whole 400-year cycles are split off first so that
      the leap-year arithmetic only sees a year in [-1, 399]. */
  function GregorianToJdn(date: Date): (r: Result<int>)
    ensures r.Failure? <==> !GregorianYearInRange(date.year)
    ensures r.Failure? ==> r.error == GregorianRangeError
  {
    if date.year > GregorianMaxYear || date.year < GregorianMinYear then
      Failure(GregorianRangeError)
    else
      var cycles := CycleCount(date.year, 400);
      var y0 := CycleResidue(date.year, 400);
      var m := if date.month < 3 then date.month + 12 else date.month;
      var y := if date.month < 3 then y0 - 1 else y0;
      var jdn := LeapYearDays(y) + TDiv(153 * (m + 1), 5) + date.day - 123;
      var century := CenturyCorrection(y, jdn);
      Success(century + 1721120 + 146097 * cycles)
  }

  /** Julian date to JDN, with 4-year cycles split off first. */
  function JulianToJdn(date: Date): (r: Result<int>)
    ensures r.Failure? <==> !JulianYearInRange(date.year)
    ensures r.Failure? ==> r.error == JulianRangeError
  {
    if date.year > JulianMaxYear || date.year < JulianMinYear then
      Failure(JulianRangeError)
    else
      var cycles := CycleCount(date.year, 4);
      var y0 := CycleResidue(date.year, 4);
      var m := if date.month < 3 then date.month + 12 else date.month;
      var y := if date.month < 3 then y0 - 1 else y0;
      var jdn := LeapYearDays(y) + TDiv(153 * (m + 1), 5) + date.day - 123;
      Success(jdn + 1721118 + 1461 * cycles)
  }

  /** Revised Julian date to JDN, with every division corrected to a floor. */
  function RevJulianToJdn(date: Date): (r: Result<int>)
    ensures r.Failure? <==> !RevJulianYearInRange(date.year)
    ensures r.Failure? ==> r.error == RevJulianRangeError
  {
    if date.year > RevJulianMaxYear || date.year < RevJulianMinYear then
      Failure(RevJulianRangeError)
    else
      var m := if date.month < 3 then date.month + 12 else date.month;
      var y := if date.month < 3 then date.year - 1 else date.year;
      var leap := LeapYearDays(y);
      var skipped := FlooredQuotient(y, 100);
      var retained200 := FlooredQuotient(date.year + 300, 900);
      var retained600 := FlooredQuotient(date.year + 700, 900);
      var months := FlooredQuotient(153 * (m + 1), 5);
      Success(leap - skipped + retained200 + retained600 + months + date.day - 123 + 1721120)
  }

  // ---------------------------------------------------------------------------
  // Day number to date, as the engine computes it

  /** The last steps of `jdnToGregorian` and `jdnToJulian`: the day of the
      March-based `year` is split into a month counted from March and a day,
      and January and February are moved to the next calendar year. The day of
      the year is never negative here, so C++ division is Dafny's `/`. */
  function MonthAndDay(year: int, dayOfYear: int): (date: Date)
    requires 0 <= dayOfYear
  {
    var month0 := (5 * dayOfYear + 2) / 153;
    var day := dayOfYear - (153 * month0 + 2) / 5 + 1;
    var month1 := month0 + 3;
    if month1 > 12 then Date(year + 1, month1 - 12, day) else Date(year, month1, day)
  }

  /** Inside one 400-year Gregorian cycle: the century, 4-year and year steps
      of `jdnToGregorian`, giving the March-based year counted from the cycle
      start and the day within that year. `day1` is a remainder, so every
      dividend is non-negative and C++ division is Dafny's `/`. */
  function GregorianYearOfCycle(day1: int): (yd: (int, int))
    requires 0 <= day1
    ensures 0 <= yd.0 && 0 <= yd.1
  {
    var a := (4 * day1 + 3) / 146097;
    var day2 := day1 + a - a / 4;
    var year0 := (4 * day2 + 3) / 1461;
    (year0, day2 - (1461 * year0) / 4)
  }

  /** JDN to Gregorian date: 400-year cycles, then centuries, 4-year cycles
      and years, then months and days; the March-based month is moved back to
      a January year start at the end. Never fails. */
  function JdnToGregorian(jdn: int): (date: Date)
  {
    var day0 := jdn - 1721120;
    var cycles := CycleCount(day0, 146097);
    var yd := GregorianYearOfCycle(CycleResidue(day0, 146097));
    MonthAndDay(yd.0 + 400 * cycles, yd.1)
  }

  /** Inside one 4-year Julian cycle: the year step of `jdnToJulian`, on a
      non-negative remainder `day1`. */
  function JulianYearOfCycle(day1: int): (yd: (int, int))
    requires 0 <= day1
    ensures 0 <= yd.0 && 0 <= yd.1
  {
    var year0 := (4 * day1 + 3) / 1461;
    (year0, day1 - (1461 * year0) / 4)
  }

  /** JDN to Julian date: 4-year cycles, years, months and days. Never fails. */
  function JdnToJulian(jdn: int): (date: Date)
  {
    var day0 := jdn - 1721118;
    var cycles := CycleCount(day0, 1461);
    var yd := JulianYearOfCycle(CycleResidue(day0, 1461));
    MonthAndDay(yd.0 + 4 * cycles, yd.1)
  }

  /** The first step of `jdnToRevJulian`: the number of leap days the
      Revised Julian calendar drops against the Julian one up to day `day0`
      (counted from 1 March of year 0), less the centurial leap days it keeps
      in years 200 and 600 after a multiple of 900. Every quotient is
      corrected to a floor. */
  function RevJulianSkippedDays(day0: int): (skipped: int)
  {
    var a := FlooredQuotient(9 * day0 + 2, 328718);
    var a2 := if a < -3 && TMod(a, 9) != -3 then TDiv(a + 3, 9) - 1 else TDiv(a + 3, 9);
    var a3 := if a < -7 && TMod(a, 9) != -7 then TDiv(a + 7, 9) - 1 else TDiv(a + 7, 9);
    a - a2 - a3
  }

  /** The remaining steps of `jdnToRevJulian`: a day count on the Julian
      pattern of leap years is split into years, months and days with floored
      division, and January and February are moved to the next calendar year. */
  function JulianPatternDate(day1: int): (date: Date)
  {
    var year0 := FlooredQuotient(4 * day1 + 3, 1461);
    var day2 := day1 - FlooredQuotient(1461 * year0, 4);
    var month0 := FlooredQuotient(5 * day2 + 2, 153);
    var day := day2 - FlooredQuotient(153 * month0 + 2, 5) + 1;
    var month1 := month0 + 3;
    if month1 > 12 then Date(year0 + 1, month1 - 12, day) else Date(year0, month1, day)
  }

  /** JDN to Revised Julian date: the skipped and retained centurial leap days
      are added back first, then years, months and days are split off with
      floored division. Fails above `RevJulianMaxJdn`. */
  function JdnToRevJulian(jdn: int): (r: Result<Date>)
    ensures r.Failure? <==> jdn > RevJulianMaxJdn
    ensures r.Failure? ==> r.error == RevJulianJdnError
  {
    if jdn > RevJulianMaxJdn then Failure(RevJulianJdnError)
    else
      var day0 := jdn - 1721120;
      Success(JulianPatternDate(day0 + RevJulianSkippedDays(day0)))
  }

  // ---------------------------------------------------------------------------
  // The public converters

  function GregorianToJulian(date: Date): (r: Result<Date>)
    ensures r.Failure? <==> !GregorianYearInRange(date.year)
  {
    match GregorianToJdn(date)
    case Failure(e) => Failure(e)
    case Success(jdn) => Success(JdnToJulian(jdn))
  }

  function JulianToGregorian(date: Date): (r: Result<Date>)
    ensures r.Failure? <==> !JulianYearInRange(date.year)
  {
    match JulianToJdn(date)
    case Failure(e) => Failure(e)
    case Success(jdn) => Success(JdnToGregorian(jdn))
  }

  function GregorianToRevJulian(date: Date): (r: Result<Date>)
    ensures r.Failure? <==> !GregorianYearInRange(date.year) || GregorianDayNumber(date) > RevJulianMaxJdn
    ensures !GregorianYearInRange(date.year) ==> r == Failure(GregorianRangeError)
    ensures GregorianYearInRange(date.year) ==> r == JdnToRevJulian(GregorianDayNumber(date))
  {
    GregorianToJdnClosedForm(date);
    match GregorianToJdn(date)
    case Failure(e) => Failure(e)
    case Success(jdn) => JdnToRevJulian(jdn)
  }

  function RevJulianToGregorian(date: Date): (r: Result<Date>)
    ensures r.Failure? <==> !RevJulianYearInRange(date.year)
    ensures r.Failure? ==> r.error == RevJulianRangeError
    ensures RevJulianYearInRange(date.year) ==> r == Success(JdnToGregorian(RevJulianDayNumber(date)))
  {
    RevJulianToJdnClosedForm(date);
    match RevJulianToJdn(date)
    case Failure(e) => Failure(e)
    case Success(jdn) => Success(JdnToGregorian(jdn))
  }

  // ---------------------------------------------------------------------------
  // The engine's conversions agree with the closed forms

  /** Adding `k` whole multiples of `b` adds `k` to the floored quotient. */
  lemma DivAddMultiple(x: int, b: int, k: int)
    requires b > 0
    ensures (x + b * k) / b == x / b + k
  {
    DivModUnique(x + b * k, b, x / b + k, x % b);
  }

  /** The Gregorian day number is additive over whole 400-year cycles. */
  lemma GregorianCycleShift(y: int, q: int)
    ensures var Y := y + 400 * q;
      365 * Y + Y / 4 - Y / 100 + Y / 400
        == 365 * y + y / 4 - y / 100 + y / 400 + 146097 * q
  {
    DivAddMultiple(y, 4, 100 * q);
    DivAddMultiple(y, 100, 4 * q);
    DivAddMultiple(y, 400, q);
  }

  /** `gregorianToJdn` fails exactly outside the Gregorian year range and
      otherwise equals the closed form: its cycle split and its corrections for
      a negative March-based year reduce to floored division. */
  lemma GregorianToJdnClosedForm(date: Date)
    ensures GregorianToJdn(date)
      == if GregorianYearInRange(date.year) then Success(GregorianDayNumber(date))
         else Failure(GregorianRangeError)
  {
    if GregorianYearInRange(date.year) {
      GregorianToJdnFloors(date);
      GregorianDayNumberByCycles(date);
    }
  }

  /** The Gregorian day number, computed from the year's place in its
      400-year cycle. */
  lemma GregorianDayNumberByCycles(date: Date)
    ensures var q := date.year / 400;
      var y := if date.month < 3 then date.year % 400 - 1 else date.year % 400;
      GregorianDayNumber(date) == 365 * y + y / 4 - y / 100 + y / 400
        + TDiv(153 * (MarchMonth(date) + 1), 5) + date.day - 123 + 1721120 + 146097 * q
  {
    var q := date.year / 400;
    var y := if date.month < 3 then date.year % 400 - 1 else date.year % 400;
    GregorianCycleShift(y, q);
    assert MarchYear(date) == y + 400 * q;
  }

  /** Inside the year range, `gregorianToJdn`'s corrected divisions are floors. */
  lemma GregorianToJdnFloors(date: Date)
    requires GregorianYearInRange(date.year)
    ensures var q := date.year / 400;
      var y := if date.month < 3 then date.year % 400 - 1 else date.year % 400;
      GregorianToJdn(date) == Success(365 * y + y / 4 - y / 100 + y / 400
        + TDiv(153 * (MarchMonth(date) + 1), 5) + date.day - 123 + 1721120 + 146097 * q)
  {
  }

  /** The Julian day number is additive over whole 4-year cycles. */
  lemma JulianCycleShift(y: int, q: int)
    ensures var Y := y + 4 * q;
      365 * Y + Y / 4 == 365 * y + y / 4 + 1461 * q
  {
    DivAddMultiple(y, 4, q);
  }

  /** `julianToJdn` fails exactly outside the Julian year range and otherwise
      equals the closed form. */
  lemma JulianToJdnClosedForm(date: Date)
    ensures JulianToJdn(date)
      == if JulianYearInRange(date.year) then Success(JulianDayNumber(date))
         else Failure(JulianRangeError)
  {
    if JulianYearInRange(date.year) {
      var q, y0 := date.year / 4, date.year % 4;
      var y := if date.month < 3 then y0 - 1 else y0;
      assert -1 <= y < 4;
      JulianCycleShift(y, q);
      assert MarchYear(date) == y + 4 * q;
    }
  }

  /** `revJulianToJdn` fails exactly outside the Revised Julian year range and
      otherwise equals its closed form, every corrected division being a floor. */
  lemma RevJulianToJdnClosedForm(date: Date)
    ensures RevJulianToJdn(date)
      == if RevJulianYearInRange(date.year) then Success(RevJulianDayNumber(date))
         else Failure(RevJulianRangeError)
  {

  }
}
