/** What the four public converters promise: a converted date names the same
    day, is a valid date of the target calendar, and converting back returns
    the date started from. The repository's own test vectors are stated as
    lemmas at the end. */
module ConverterProperties {
  import opened Dates
  import opened CalendarConversion
  import opened CalendarRoundTrip
  import opened RevJulianRoundTrip

  /** Inside the Gregorian year range, `gregorianToJulian` succeeds with a
      valid Julian date on the same day. */
  lemma GregorianToJulianSameDay(date: Date)
    requires GregorianYearInRange(date.year)
    ensures GregorianToJulian(date).Success?
    ensures JulianDayNumber(GregorianToJulian(date).value) == GregorianDayNumber(date)
    ensures ValidJulianDate(GregorianToJulian(date).value)
  {
    GregorianToJdnClosedForm(date);
    JdnToJulianRoundTrip(GregorianDayNumber(date));
    JdnToJulianValid(GregorianDayNumber(date));
  }

  /** Inside the Julian year range, `julianToGregorian` succeeds with a valid
      Gregorian date on the same day. */
  lemma JulianToGregorianSameDay(date: Date)
    requires JulianYearInRange(date.year)
    ensures JulianToGregorian(date).Success?
    ensures GregorianDayNumber(JulianToGregorian(date).value) == JulianDayNumber(date)
    ensures ValidGregorianDate(JulianToGregorian(date).value)
  {
    JulianToJdnClosedForm(date);
    JdnToGregorianRoundTrip(JulianDayNumber(date));
    JdnToGregorianValid(JulianDayNumber(date));
  }

  /** A valid Gregorian date converted to Julian and back is the date again,
      whenever the Julian year is itself in range. */
  lemma GregorianJulianRoundTrip(date: Date)
    requires ValidGregorianDate(date)
    ensures GregorianToJulian(date).Success? && JulianYearInRange(GregorianToJulian(date).value.year)
      ==> JulianToGregorian(GregorianToJulian(date).value) == Success(date)
  {
    if GregorianToJulian(date).Success? && JulianYearInRange(GregorianToJulian(date).value.year) {
      var julian := GregorianToJulian(date).value;
      GregorianToJulianSameDay(date);
      JulianToJdnClosedForm(julian);
      GregorianDateRoundTrip(date);
    }
  }

  /** A valid Julian date converted to Gregorian and back is the date again,
      whenever the Gregorian year is itself in range. */
  lemma JulianGregorianRoundTrip(date: Date)
    requires ValidJulianDate(date)
    ensures JulianToGregorian(date).Success? && GregorianYearInRange(JulianToGregorian(date).value.year)
      ==> GregorianToJulian(JulianToGregorian(date).value) == Success(date)
  {
    if JulianToGregorian(date).Success? && GregorianYearInRange(JulianToGregorian(date).value.year) {
      var gregorian := JulianToGregorian(date).value;
      JulianToGregorianSameDay(date);
      GregorianToJdnClosedForm(gregorian);
      JulianDateRoundTrip(date);
    }
  }

  /** `gregorianToRevJulian` succeeds exactly inside the Gregorian year range
      and up to the largest day number `jdnToRevJulian` accepts, and then gives
      a valid Revised Julian date on the same day. */
  lemma GregorianToRevJulianSameDay(date: Date)
    requires GregorianYearInRange(date.year) && GregorianDayNumber(date) <= RevJulianMaxJdn
    ensures GregorianToRevJulian(date).Success?
    ensures IntendedRevJulianDayNumber(GregorianToRevJulian(date).value) == GregorianDayNumber(date)
    ensures ValidRevJulianDate(GregorianToRevJulian(date).value)
  {
    JdnToRevJulianRoundTrip(GregorianDayNumber(date));
    JdnToRevJulianValid(GregorianDayNumber(date));
  }

  /** Inside the Revised Julian year range, `revJulianToGregorian` succeeds with
      a valid Gregorian date whose day number is the one `revJulianToJdn`
      computes, which is one day late for January and February of the years
      that leave 200 or 600 after division by 900. */
  lemma RevJulianToGregorianSameDay(date: Date)
    requires RevJulianYearInRange(date.year)
    ensures RevJulianToGregorian(date).Success?
    ensures GregorianDayNumber(RevJulianToGregorian(date).value) == RevJulianDayNumber(date)
    ensures ValidGregorianDate(RevJulianToGregorian(date).value)
    ensures GregorianDayNumber(RevJulianToGregorian(date).value) == IntendedRevJulianDayNumber(date)
      <==> !(date.month < 3 && (date.year % 900 == 200 || date.year % 900 == 600))
  {
    JdnToGregorianRoundTrip(RevJulianDayNumber(date));
    JdnToGregorianValid(RevJulianDayNumber(date));
    RevJulianDayNumberLate(date);
  }

  /** A valid Gregorian date converted to Revised Julian and back with the
      intended day number is the date again, whenever the Revised Julian year
      is in range. */
  lemma GregorianRevJulianRoundTrip(date: Date)
    requires ValidGregorianDate(date)
    ensures GregorianToRevJulian(date).Success? && RevJulianYearInRange(GregorianToRevJulian(date).value.year)
      ==> IntendedRevJulianToGregorian(GregorianToRevJulian(date).value) == Success(date)
  {
    if GregorianToRevJulian(date).Success? && RevJulianYearInRange(GregorianToRevJulian(date).value.year) {
      var rj := GregorianToRevJulian(date).value;
      assert IntendedRevJulianDayNumber(rj) == GregorianDayNumber(date) by {
        GregorianToRevJulianSameDay(date);
      }
      GregorianDateRoundTrip(date);
    }
  }

  /** With the engine's `revJulianToGregorian` the round trip from a valid
      Gregorian date holds exactly when the Revised Julian date is off January
      and February of the years that leave 200 or 600 after division by 900. */
  lemma GregorianRevJulianRoundTripAsWritten(date: Date)
    requires ValidGregorianDate(date)
    ensures GregorianToRevJulian(date).Success? && RevJulianYearInRange(GregorianToRevJulian(date).value.year)
      ==> var rj := GregorianToRevJulian(date).value;
          (RevJulianToGregorian(rj) == Success(date)
           <==> !(rj.month < 3 && (rj.year % 900 == 200 || rj.year % 900 == 600)))
  {
    if GregorianToRevJulian(date).Success? && RevJulianYearInRange(GregorianToRevJulian(date).value.year) {
      var rj := GregorianToRevJulian(date).value;
      var jdn := GregorianDayNumber(date);
      assert IntendedRevJulianDayNumber(rj) == jdn by {
        GregorianToRevJulianSameDay(date);
      }
      assert GregorianDayNumber(RevJulianToGregorian(rj).value) == RevJulianDayNumber(rj)
        && RevJulianToGregorian(rj).Success? by {
        RevJulianToGregorianSameDay(rj);
      }
      assert RevJulianDayNumber(rj) == jdn
        <==> !(rj.month < 3 && (rj.year % 900 == 200 || rj.year % 900 == 600)) by {
        RevJulianDayNumberLate(rj);
      }
      if RevJulianDayNumber(rj) == jdn {
        assert RevJulianToGregorian(rj) == Success(JdnToGregorian(jdn));
        GregorianDateRoundTrip(date);
      }
    }
  }

  /** A valid Revised Julian date converted to Gregorian with the intended day
      number and back is the date again, whenever the Gregorian year and the
      day number are in range. */
  lemma RevJulianGregorianRoundTrip(date: Date)
    requires ValidRevJulianDate(date) && IntendedRevJulianDayNumber(date) <= RevJulianMaxJdn
    ensures IntendedRevJulianToGregorian(date).Success?
      && GregorianYearInRange(IntendedRevJulianToGregorian(date).value.year)
      ==> GregorianToRevJulian(IntendedRevJulianToGregorian(date).value) == Success(date)
  {
    if IntendedRevJulianToGregorian(date).Success? && GregorianYearInRange(IntendedRevJulianToGregorian(date).value.year) {
      RevJulianDateRoundTrip(date);
    }
  }

  /** With the engine's `revJulianToGregorian` the round trip from a valid
      Revised Julian date holds exactly off January and February of the years
      that leave 200 or 600 after division by 900. */
  lemma RevJulianGregorianRoundTripAsWritten(date: Date)
    requires ValidRevJulianDate(date) && RevJulianDayNumber(date) <= RevJulianMaxJdn
    ensures RevJulianToGregorian(date).Success? && GregorianYearInRange(RevJulianToGregorian(date).value.year)
      ==> (GregorianToRevJulian(RevJulianToGregorian(date).value) == Success(date)
           <==> !(date.month < 3 && (date.year % 900 == 200 || date.year % 900 == 600)))
  {
    if RevJulianToGregorian(date).Success? && GregorianYearInRange(RevJulianToGregorian(date).value.year) {
      RevJulianToGregorianSameDay(date);
      RevJulianDayNumberRoundTrip(date);
    }
  }

  // ---------------------------------------------------------------------------
  // Test vectors of the repository

  /** `gregorianToJdn` of `date` is `jdn`, shown through the closed form. */
  lemma GregorianToJdnVector(date: Date, jdn: int)
    requires GregorianYearInRange(date.year) && GregorianDayNumber(date) == jdn
    ensures GregorianToJdn(date) == Success(jdn)
  {
    GregorianToJdnClosedForm(date);
  }

  /** `gregorianToJdn` on the repository's test dates of a positive year. */
  lemma GregorianToJdnPositiveYear()
    ensures GregorianToJdn(Date(2019, 1, 1)) == Success(2458485)
    ensures GregorianToJdn(Date(2020, 2, 29)) == Success(2458909)
  {
    GregorianToJdnVector(Date(2019, 1, 1), 2458485);
    GregorianToJdnVector(Date(2020, 2, 29), 2458909);
  }

  /** `gregorianToJdn` on the repository's test dates of year 0 (1 BC). */
  lemma GregorianToJdnYearZero()
    ensures GregorianToJdn(Date(0, 1, 1)) == Success(1721060)
  {
    GregorianToJdnVector(Date(0, 1, 1), 1721060);
  }

  lemma GregorianToJdnYearZeroLeapDay()
    ensures GregorianToJdn(Date(0, 2, 29)) == Success(1721119)
  {
    GregorianToJdnVector(Date(0, 2, 29), 1721119);
  }

  /** `gregorianToJdn` on the repository's test dates of year -1 (2 BC). */
  lemma GregorianToJdnNegativeYear()
    ensures GregorianToJdn(Date(-1, 1, 1)) == Success(1720695)
    ensures GregorianToJdn(Date(-1, 2, 29)) == Success(1720754)
  {
    GregorianToJdnVector(Date(-1, 1, 1), 1720695);
    GregorianToJdnVector(Date(-1, 2, 29), 1720754);
  }

  /** `gregorianToJulian` of `from` is `to`, shown through the day number
      both share. */
  lemma GregorianToJulianVector(from: Date, to: Date)
    requires GregorianYearInRange(from.year) && ValidJulianDate(to)
    requires GregorianDayNumber(from) == JulianDayNumber(to)
    ensures GregorianToJulian(from) == Success(to)
  {
    GregorianToJdnClosedForm(from);
    JulianDateRoundTrip(to);
  }

  /** `julianToGregorian` of `from` is `to`, shown through the day number
      both share. */
  lemma JulianToGregorianVector(from: Date, to: Date)
    requires JulianYearInRange(from.year) && ValidGregorianDate(to)
    requires JulianDayNumber(from) == GregorianDayNumber(to)
    ensures JulianToGregorian(from) == Success(to)
  {
    JulianToJdnClosedForm(from);
    GregorianDateRoundTrip(to);
  }

  /** `revJulianToGregorian` of `from` is `to`, shown through the day number
      both share. */
  lemma RevJulianToGregorianVector(from: Date, to: Date)
    requires RevJulianYearInRange(from.year) && ValidGregorianDate(to)
    requires RevJulianDayNumber(from) == GregorianDayNumber(to)
    ensures RevJulianToGregorian(from) == Success(to)
  {
    RevJulianToJdnClosedForm(from);
    GregorianDateRoundTrip(to);
  }

  lemma GregorianToJulian2019()
    ensures GregorianToJulian(Date(2019, 1, 1)) == Success(Date(2018, 12, 19))
  {
    GregorianToJulianVector(Date(2019, 1, 1), Date(2018, 12, 19));
  }

  /** 2100 is a Julian leap year but not a Gregorian one. */
  lemma GregorianToJulian2100()
    ensures GregorianToJulian(Date(2100, 3, 1)) == Success(Date(2100, 2, 16))
  {
    GregorianToJulianVector(Date(2100, 3, 1), Date(2100, 2, 16));
  }

  lemma JulianToGregorian2100()
    ensures JulianToGregorian(Date(2100, 2, 16)) == Success(Date(2100, 3, 1))
  {
    JulianToGregorianVector(Date(2100, 2, 16), Date(2100, 3, 1));
  }

  /** `gregorianToRevJulian` of `from` is `to`, through the day number of
      `from`. */
  lemma GregorianToRevJulianVector(from: Date, jdn: int, to: Date)
    requires GregorianYearInRange(from.year) && GregorianDayNumber(from) == jdn
    requires JdnToRevJulian(jdn) == Success(to)
    ensures GregorianToRevJulian(from) == Success(to)
  {
    GregorianToJdnClosedForm(from);
  }

  /** 2800 is a Gregorian leap year but not a Revised Julian one. */
  lemma GregorianToRevJulian2800()
    ensures GregorianToRevJulian(Date(2800, 2, 29)) == Success(Date(2800, 3, 1))
  {
    assert FlooredQuotient(9 * 1022678 + 2, 328718) == 28;
    assert RevJulianSkippedDays(1022678) == 22;
    assert FlooredQuotient(4 * 1022700 + 3, 1461) == 2800;
    assert FlooredQuotient(1461 * 2800, 4) == 1022700;
    assert JulianPatternDate(1022700) == Date(2800, 3, 1);
    GregorianToRevJulianVector(Date(2800, 2, 29), 2743798, Date(2800, 3, 1));
  }

  /** By 10019 the two calendars have drifted three days apart. */
  lemma GregorianToRevJulian10019()
    ensures GregorianToRevJulian(Date(10019, 1, 1)) == Success(Date(10019, 1, 4))
  {
    assert FlooredQuotient(9 * 3659305 + 2, 328718) == 100;
    assert RevJulianSkippedDays(3659305) == 78;
    assert FlooredQuotient(4 * 3659383 + 3, 1461) == 10018;
    assert FlooredQuotient(1461 * 10018, 4) == 3659074;
    assert JulianPatternDate(3659383) == Date(10019, 1, 4);
    GregorianToRevJulianVector(Date(10019, 1, 1), 5380425, Date(10019, 1, 4));
  }

  /** The engine maps Revised Julian 2900-02-29 to Gregorian 2900-03-01, one
      day after the true 2900-02-28 that the repository's test expects: 2900
      leaves 200 after division by 900, and for January and February of such a
      year the engine's day number is one day late. */
  lemma RevJulianToGregorian2900()
    ensures RevJulianToGregorian(Date(2900, 2, 29)) == Success(Date(2900, 3, 1))
  {
    RevJulianToGregorianVector(Date(2900, 2, 29), Date(2900, 3, 1));
  }
}
