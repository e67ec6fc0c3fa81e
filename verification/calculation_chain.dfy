/** The calculation methods as a chain of decorators. A chain starts from one
    of the two computus algorithms; every decorator around it evaluates the
    method it wraps once and transforms that result: a target date shifts it
    by a fixed number of days, an output calendar converts it, the Byzantine
    option renumbers its year. A `std::overflow_error` raised anywhere inside
    passes through every decorator unchanged, since none of them catches it;
    here that is a `Failure` handed up unchanged. */
module CalculationChain {
  import opened Dates
  import opened CalendarConversion
  import opened CalendarRoundTrip
  import opened ConverterProperties
  import opened RevJulianRoundTrip
  import opened CalculationMethods

  /** A calculation method: an algorithm, or a decorator around the method it
      owns. */
  datatype Method =
    | JulianMethod
    | GregorianMethod
    | TargetDate(inner: Method, shiftAmount: int)
    | JulianOutputCalendar(inner: Method)
    | GregorianOutputCalendar(inner: Method)
    | RevisedJulianOutputCalendar(inner: Method)
    | ByzantineDate(inner: Method)

  // ---------------------------------------------------------------------------
  // Target dates

  /** `TargetDate::shift`: the day `days` after `date` (before it, for a
      negative count). The engine adds the count to the day of the month and
      lets `mktime` carry the overflow across months and years; for a month
      in 1..12 that lands on the Gregorian day whose day number is that of
      `date` plus `days`, and the result is a valid date. */
  function Shift(days: int, date: Date): (shifted: Date)
    ensures ValidGregorianDate(shifted)
    ensures GregorianDayNumber(shifted) == GregorianDayNumber(date) + days
  {
    var jdn := GregorianDayNumber(date) + days;
    JdnToGregorianValid(jdn);
    JdnToGregorianRoundTrip(jdn);
    JdnToGregorian(jdn)
  }

  /** Shifting a valid date by no days leaves it as it is. */
  lemma ShiftByZero(date: Date)
    requires ValidGregorianDate(date)
    ensures Shift(0, date) == date
  {
    GregorianDateRoundTrip(date);
  }

  /** Two shifts in a row are one shift by their sum. */
  lemma ShiftTwice(first: int, second: int, date: Date)
    ensures Shift(second, Shift(first, date)) == Shift(first + second, date)
  {
  }

  /** The fixed offsets of the seven feasts from Pascha. */
  datatype Feast =
    | Meatfare
    | Cheesefare
    | AshWednesday
    | MidfeastPentecost
    | LeavetakingPascha
    | Ascension
    | Pentecost

  /** The shift each feast's constructor hands to `TargetDate`. */
  function FeastShift(feast: Feast): int {
    match feast
    case Meatfare => -56
    case Cheesefare => -49
    case AshWednesday => -46
    case MidfeastPentecost => 24
    case LeavetakingPascha => 38
    case Ascension => 39
    case Pentecost => 49
  }

  /** A feast's decorator: a target date around `inner` with the feast's
      shift, and no behaviour of its own. */
  function FeastMethod(feast: Feast, inner: Method): Method {
    TargetDate(inner, FeastShift(feast))
  }

  // ---------------------------------------------------------------------------
  // The Byzantine option

  /** `ByzantineDate::calculate` on the date its inner method returned: the
      year from the creation of the world (Anno Mundi), 5508 years ahead,
      and one more from September, when the Byzantine year begins. */
  function ByzantineOf(date: Date): Date {
    var year := date.year + 5508;
    Date(if date.month > 8 then year + 1 else year, date.month, date.day)
  }

  // ---------------------------------------------------------------------------
  // Evaluation

  /** `ICalculationMethod::calculate` on a chain: the algorithm at its base,
      then each decorator from the inside out. Every error that reaches the
      caller is one of the range errors of the calendar conversions. */
  function Calculate(chain: Method, year: int): (r: Result<Date>)
    ensures r.Failure? ==>
      r.error == JulianRangeError || r.error == GregorianRangeError || r.error == RevJulianJdnError
  {
    match chain
    case JulianMethod => JulianCalculationMethod(year)
    case GregorianMethod => Success(GregorianCalculationMethod(year))
    case TargetDate(inner, shiftAmount) =>
      (match Calculate(inner, year)
       case Failure(e) => Failure(e)
       case Success(date) => Success(Shift(shiftAmount, date)))
    case JulianOutputCalendar(inner) =>
      (match Calculate(inner, year)
       case Failure(e) => Failure(e)
       case Success(date) => GregorianToJulian(date))
    case GregorianOutputCalendar(inner) => Calculate(inner, year)
    case RevisedJulianOutputCalendar(inner) =>
      (match Calculate(inner, year)
       case Failure(e) => Failure(e)
       case Success(date) => GregorianToRevJulian(date))
    case ByzantineDate(inner) =>
      (match Calculate(inner, year)
       case Failure(e) => Failure(e)
       case Success(date) => Success(ByzantineOf(date)))
  }

  /** `TargetDate::calculate`: the inner method's error is passed on; its date
      is moved by exactly the shift given to the constructor, to a valid
      Gregorian date. */
  lemma TargetDateCalculate(inner: Method, shiftAmount: int, year: int)
    ensures var r := Calculate(TargetDate(inner, shiftAmount), year);
      var innerResult := Calculate(inner, year);
      (innerResult.Failure? ==> r == innerResult)
      && (innerResult.Success? ==>
            r.Success? && ValidGregorianDate(r.value)
            && GregorianDayNumber(r.value) == GregorianDayNumber(innerResult.value) + shiftAmount)
  {
  }

  /** `JulianOutputCalendar::calculate`: it fails exactly when the inner
      method fails or returns a year outside the Gregorian range; otherwise
      it returns the valid Julian date of the same day. */
  lemma JulianOutputCalendarCalculate(inner: Method, year: int)
    ensures var r := Calculate(JulianOutputCalendar(inner), year);
      var innerResult := Calculate(inner, year);
      (innerResult.Failure? ==> r == innerResult)
      && (r.Success? <==> innerResult.Success? && GregorianYearInRange(innerResult.value.year))
      && (r.Success? ==>
            ValidJulianDate(r.value) && JulianDayNumber(r.value) == GregorianDayNumber(innerResult.value))
  {
    var innerResult := Calculate(inner, year);
    if innerResult.Success? && GregorianYearInRange(innerResult.value.year) {
      GregorianToJulianSameDay(innerResult.value);
    }
  }

  /** `GregorianOutputCalendar::calculate`: the inner method's result, as it
      is, since the algorithms already work in the Gregorian calendar. */
  lemma GregorianOutputCalendarCalculate(inner: Method, year: int)
    ensures Calculate(GregorianOutputCalendar(inner), year) == Calculate(inner, year)
  {
  }

  /** `RevisedJulianOutputCalendar::calculate`: the inner method's error is
      passed on; a year outside the Gregorian range, or a day past the largest
      one `jdnToRevJulian` accepts, is an error; otherwise it returns the valid
      Revised Julian date of the same day. */
  lemma RevisedJulianOutputCalendarCalculate(inner: Method, year: int)
    ensures var r := Calculate(RevisedJulianOutputCalendar(inner), year);
      var innerResult := Calculate(inner, year);
      (innerResult.Failure? ==> r == innerResult)
      && (r.Success? <==>
            innerResult.Success? && GregorianYearInRange(innerResult.value.year)
            && GregorianDayNumber(innerResult.value) <= RevJulianMaxJdn)
      && (innerResult.Success? && !GregorianYearInRange(innerResult.value.year)
          ==> r == Failure(GregorianRangeError))
      && (innerResult.Success? && GregorianYearInRange(innerResult.value.year)
            && GregorianDayNumber(innerResult.value) > RevJulianMaxJdn
          ==> r == Failure(RevJulianJdnError))
      && (r.Success? ==>
            ValidRevJulianDate(r.value)
            && IntendedRevJulianDayNumber(r.value) == GregorianDayNumber(innerResult.value))
  {
    var innerResult := Calculate(inner, year);
    if innerResult.Success? && GregorianYearInRange(innerResult.value.year)
      && GregorianDayNumber(innerResult.value) <= RevJulianMaxJdn {
      GregorianToRevJulianSameDay(innerResult.value);
    }
  }

  /** `ByzantineDate::calculate`: the inner method's error is passed on; its
      date keeps month and day, and its year moves 5508 years ahead through
      August and 5509 from September on. */
  lemma ByzantineDateCalculate(inner: Method, year: int)
    ensures var r := Calculate(ByzantineDate(inner), year);
      var innerResult := Calculate(inner, year);
      (innerResult.Failure? ==> r == innerResult)
      && (innerResult.Success? ==>
            r.Success?
            && r.value.month == innerResult.value.month && r.value.day == innerResult.value.day
            && (innerResult.value.month <= 8 ==> r.value.year == innerResult.value.year + 5508)
            && (innerResult.value.month > 8 ==> r.value.year == innerResult.value.year + 5509))
  {
  }

  /** The Byzantine year runs from 1 September to 31 August: a date from
      September on and a date up to August of the next year share it, and
      the year changes exactly between August and September. */
  lemma ByzantineYearFromSeptember(autumn: Date, spring: Date)
    requires 9 <= autumn.month <= 12 && 1 <= spring.month <= 8
    ensures ByzantineOf(autumn).year == ByzantineOf(spring).year <==> spring.year == autumn.year + 1
    ensures ByzantineOf(autumn).year == ByzantineOf(spring).year + 1 <==> spring.year == autumn.year
  {
  }

  /** A Pascha date is in March or April, so its Byzantine year is 5508
      years ahead. */
  lemma ByzantinePascha(inner: Method, year: int)
    requires Calculate(inner, year).Success? && InPaschaWindow(Calculate(inner, year).value)
    ensures Calculate(ByzantineDate(inner), year).Success?
    ensures Calculate(ByzantineDate(inner), year).value.year == Calculate(inner, year).value.year + 5508
  {
  }

  // ---------------------------------------------------------------------------
  // Whole chains

  /** The Julian computus read back in the Julian calendar is the raw Julian
      computus date, from year 0 to the last Julian year the engine accepts:
      the Julian output calendar undoes the conversion inside the Julian
      method. */
  lemma JulianOutputOfJulianMethod(year: int)
    requires 0 <= year <= JulianMaxYear
    ensures Calculate(JulianOutputCalendar(JulianMethod), year) == Success(JulianPaschaJulianDate(year))
  {
    var julian := JulianPaschaJulianDate(year);
    JulianPaschaWindow(year);
    JulianPaschaGregorianInRange(year);
    JulianToGregorianSameDay(julian);
    JulianGregorianRoundTrip(julian);
  }

  /** The day of the week of a day number: 0 for Sunday, 1 for Monday, up to
      6 for Saturday. */
  function Weekday(jdn: int): int {
    (jdn + 1) % 7
  }

  /** The day of the week each feast falls on when Pascha is a Sunday:
      Sundays for Meatfare, Cheesefare and Pentecost, a Thursday for the
      Ascension, a Wednesday for the others. */
  function FeastWeekday(feast: Feast): int {
    match feast
    case Meatfare => 0
    case Cheesefare => 0
    case AshWednesday => 3
    case MidfeastPentecost => 3
    case LeavetakingPascha => 3
    case Ascension => 4
    case Pentecost => 0
  }

  /** A feast is its fixed number of days from Pascha, so whenever the method
      it wraps returns a Sunday, the feast falls on its own day of the week. */
  lemma FeastWeekdayOfSunday(feast: Feast, inner: Method, year: int)
    requires Calculate(inner, year).Success?
    requires IsSunday(GregorianDayNumber(Calculate(inner, year).value))
    ensures Calculate(FeastMethod(feast, inner), year).Success?
    ensures Weekday(GregorianDayNumber(Calculate(FeastMethod(feast, inner), year).value)) == FeastWeekday(feast)
  {
    var jdn := GregorianDayNumber(Calculate(inner, year).value);
    var shift := FeastShift(feast);
    var r := Calculate(FeastMethod(feast, inner), year);
    assert r.Success? && GregorianDayNumber(r.value) == jdn + shift by {
      TargetDateCalculate(inner, shift, year);
    }
    assert Weekday(jdn + shift) == FeastWeekday(feast) by {
      WeekdayAfterSunday(jdn, shift);
      FeastShiftWeekday(feast);
    }
  }

  /** Each feast's shift, in whole weeks and days. */
  lemma FeastShiftWeekday(feast: Feast)
    ensures FeastShift(feast) % 7 == FeastWeekday(feast)
  {
  }

  /** `days` days after a Sunday is weekday `days % 7`. */
  lemma WeekdayAfterSunday(jdn: int, days: int)
    requires IsSunday(jdn)
    ensures Weekday(jdn + days) == days % 7
  {
    DivModUnique(jdn + days + 1, 7, (jdn + 1) / 7 + days / 7, days % 7);
  }

  /** From year 0 on, each feast computed from either algorithm, as the
      controller chains it, falls on its own day of the week. */
  lemma FeastWeekdays(feast: Feast, base: Method, year: int)
    requires base == JulianMethod || base == GregorianMethod
    requires 0 <= year <= JulianMaxYear
    ensures Calculate(FeastMethod(feast, base), year).Success?
    ensures Weekday(GregorianDayNumber(Calculate(FeastMethod(feast, base), year).value)) == FeastWeekday(feast)
  {
    if base == JulianMethod {
      JulianMethodSunday(year);
    } else {
      GregorianPaschaSunday(year);
    }
    FeastWeekdayOfSunday(feast, base, year);
  }

  // ---------------------------------------------------------------------------
  // Examples

  /** Pascha 2019 by the Gregorian computus, 21 April, is 21 April 7527 in
      the Byzantine numbering. */
  lemma ByzantinePascha2019()
    ensures Calculate(ByzantineDate(GregorianMethod), 2019) == Success(Date(7527, 4, 21))
  {
    GregorianPascha2019();
  }

  /** The Julian computus for 2019 read in the Julian calendar is its raw date,
      15 April. */
  lemma JulianOutputOfJulianMethod2019()
    ensures Calculate(JulianOutputCalendar(JulianMethod), 2019) == Success(Date(2019, 4, 15))
  {
    JulianPascha2019();
    JulianOutputOfJulianMethod(2019);
  }

  /** `n` Byzantine decorators around `inner`. */
  function Byzantines(n: nat, inner: Method): Method {
    if n == 0 then inner else ByzantineDate(Byzantines(n - 1, inner))
  }

  /** `n` Byzantine year conversions of one date. */
  function ByzantineYears(n: nat, date: Date): Date {
    if n == 0 then date else ByzantineOf(ByzantineYears(n - 1, date))
  }

  /** Repeated conversions add 5508 years each, or 5509 for a date from
      September on, and keep month and day. */
  lemma {:induction false} ByzantineYearsClosedForm(n: nat, date: Date)
    ensures ByzantineYears(n, date)
      == Date(date.year + n * (if date.month > 8 then 5509 else 5508), date.month, date.day)
  {
    if n > 0 {
      ByzantineYearsClosedForm(n - 1, date);
      var step := if date.month > 8 then 5509 else 5508;
      assert (n - 1) * step + step == n * step;
    }
  }

  /** A result after `n` Byzantine year conversions: an error is passed
      through, a date converted `n` times. */
  function ByzantineResult(n: nat, r: Result<Date>): Result<Date> {
    match r
    case Failure(e) => Failure(e)
    case Success(date) => Success(ByzantineYears(n, date))
  }



  /** `n` conversions of a result pass an error through and move a date's
      year on by `n` steps. */
  lemma ByzantineResultClosedForm(n: nat, r: Result<Date>)
    ensures r.Failure? ==> ByzantineResult(n, r) == r
    ensures r.Success? ==> var date := r.value;
      ByzantineResult(n, r) == Success(Date(date.year + n * (if date.month > 8 then 5509 else 5508), date.month, date.day))
  {
    if r.Success? {
      ByzantineYearsClosedForm(n, r.value);
    }
  }

  /** One Byzantine year conversion of a result. */
  function ByzantineStep(r: Result<Date>): Result<Date> {
    match r
    case Failure(e) => Failure(e)
    case Success(date) => Success(ByzantineOf(date))
  }

  /** `n + 1` conversions are one more conversion after `n`. */
  lemma ByzantineResultStep(n: nat, r: Result<Date>)
    ensures ByzantineResult(n + 1, r) == ByzantineStep(ByzantineResult(n, r))
  {
  }

  /** One Byzantine decorator converts the inner result once. */
  lemma ByzantineDateStep(inner: Method, year: int)
    ensures Calculate(ByzantineDate(inner), year) == ByzantineStep(Calculate(inner, year))
  {
  }

  /** `n` Byzantine decorators pass an error through and convert a date `n`
      times. */
  lemma {:induction false} ByzantinesSteps(n: nat, inner: Method, year: int)
    ensures Calculate(Byzantines(n, inner), year) == ByzantineResult(n, Calculate(inner, year))
  {
    if n > 0 {
      var wrapped, innerResult := Byzantines(n - 1, inner), Calculate(inner, year);
      assert Calculate(wrapped, year) == ByzantineResult(n - 1, innerResult) by {
        ByzantinesSteps(n - 1, inner, year);
      }
      assert Calculate(Byzantines(n, inner), year) == ByzantineStep(Calculate(wrapped, year)) by {
        ByzantineDateStep(wrapped, year);
      }
      ByzantineResultStep(n - 1, innerResult);
    }
  }

  /** Each Byzantine decorator moves the year on by 5508 years, or 5509 for
      a date from September on, and keeps month and day; errors pass
      through. */
  lemma ByzantinesCalculate(n: nat, inner: Method, year: int)
    ensures Calculate(inner, year).Failure? ==>
      Calculate(Byzantines(n, inner), year) == Calculate(inner, year)
    ensures Calculate(inner, year).Success? ==>
      var date := Calculate(inner, year).value;
      Calculate(Byzantines(n, inner), year)
        == Success(Date(date.year + n * (if date.month > 8 then 5509 else 5508), date.month, date.day))
  {
    var innerResult := Calculate(inner, year);
    assert Calculate(Byzantines(n, inner), year) == ByzantineResult(n, innerResult) by {
      ByzantinesSteps(n, inner, year);
    }
    // The two cases are proved apart, each from its own clause of the closed form.
    if innerResult.Success? {
      ByzantineResultClosedForm(n, innerResult);
    } else {
      ByzantineResultClosedForm(n, innerResult);
    }
  }
}
