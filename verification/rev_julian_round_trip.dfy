/** The Revised Julian calendar behind `jdnToRevJulian` and `revJulianToJdn`.

    `jdnToRevJulian` first finds the century of the day from the average
    century length of 36524 2/9 days, puts back the leap days the Revised
    Julian rule drops in that many centuries, and then splits the day like a
    Julian one. The lemmas below show that this yields exactly the date at the
    day's offset into its March-based Revised Julian year, so that every date
    produced is valid and names the day it came from.

    `revJulianToJdn` takes the two 900-year terms from the calendar year
    instead of the March-based year. `RevJulianDayNumberLate` shows the effect:
    for January and February of a year that leaves 200 or 600 after division
    by 900 its day number is one day late, and everywhere else it is the
    intended one. The intended day number is defined here next to it, with its
    round trips. */
module RevJulianRoundTrip {
  import opened Dates
  import opened CalendarConversion
  import opened CalendarRoundTrip

  // ---------------------------------------------------------------------------
  // Calendar rule

  /** Every fourth year is a leap year, except century years that do not leave
      200 or 600 after division by 900. */
  predicate RevJulianLeap(year: int) {
    year % 4 == 0 && (year % 100 != 0 || year % 900 == 200 || year % 900 == 600)
  }

  predicate ValidRevJulianDate(date: Date) {
    1 <= date.month <= 12 && 1 <= date.day <= MonthLength(RevJulianLeap(date.year), date.month)
  }

  /** Days from 1 March of year 0 to 1 March of year `y`, Revised Julian rule. */
  function RevJulianYearStart(y: int): int {
    365 * y + y / 4 - y / 100 + (y + 300) / 900 + (y + 700) / 900
  }

  /** Days from 1 March of year 0 to 1 March of year `100 * c`: 36524 days a
      century, and one more for each century year that leaves 200 or 600 after
      division by 900. */
  function RevJulianCenturyStart(c: int): int {
    36524 * c + (c + 3) / 9 + (c + 7) / 9
  }

  // ---------------------------------------------------------------------------
  // Year lengths

  /** `x + s` is a multiple of `b` exactly when `x` leaves `b - s`. */
  lemma ShiftedMultiple(x: int, s: int, b: int)
    requires 0 < s < b
    ensures (x + s) % b == 0 <==> x % b == b - s
  {
    var q, r := x / b, x % b;
    if r + s < b {
      DivModUnique(x + s, b, q, r + s);
    } else {
      DivModUnique(x + s, b, q + 1, r + s - b);
    }
  }

  /** A year that leaves 200 or 600 after division by 900 is a century year. */
  lemma RetainedCentury(x: int)
    requires x % 900 == 200 || x % 900 == 600
    ensures x % 100 == 0 && x % 4 == 0
  {
    var k := x / 900;
    var c := if x % 900 == 200 then 9 * k + 2 else 9 * k + 6;
    DivModUnique(x, 100, c, 0);
    DivModUnique(x, 4, 25 * c, 0);
  }

  /** The length of the March-based Revised Julian year `y`, which ends with the
      leap day of calendar year `y + 1`. */
  lemma {:induction false} RevJulianYearLength(y: int)
    ensures RevJulianYearStart(y + 1) - RevJulianYearStart(y)
      == if RevJulianLeap(y + 1) then 366 else 365
  {
    var x := y + 1;
    FloorStep(y, 4);
    FloorStep(y, 100);
    FloorStep(y + 300, 900);
    FloorStep(y + 700, 900);
    ShiftedMultiple(x, 300, 900);
    ShiftedMultiple(x, 700, 900);
    if x % 900 == 200 || x % 900 == 600 {
      RetainedCentury(x);
    } else if x % 100 == 0 {
      DivModUnique(x, 4, 25 * (x / 100), 0);
    }
  }

  /** Later March-based years start later: year `y` ends no later than any
      later year starts. */
  lemma RevJulianYearStartIncreasing(y: int, z: int)
    requires y < z
    ensures RevJulianYearStart(y + 1) <= RevJulianYearStart(z)
  {
    if z > y + 1 {
      assert 328718 * (y + 1) - 1473 <= 900 * RevJulianYearStart(y + 1) <= 328718 * (y + 1) + 1891;
      assert 328718 * z - 1473 <= 900 * RevJulianYearStart(z) <= 328718 * z + 1891;
    }
  }

  // ---------------------------------------------------------------------------
  // Centuries

  /** Inside a century the Revised Julian years start at the Julian offsets
      from the century's start. */
  lemma RevJulianYearInCentury(c: int, r: int)
    requires 0 <= r < 100
    ensures RevJulianYearStart(100 * c + r) == RevJulianCenturyStart(c) + JulianYearStart(r)
  {
    var y := 100 * c + r;
    DivAddMultiple(r, 4, 25 * c);
    DivModUnique(y, 100, c, r);
    var q2, s2 := (c + 3) / 9, (c + 3) % 9;
    DivModUnique(y + 300, 900, q2, 100 * s2 + r);
    var q6, s6 := (c + 7) / 9, (c + 7) % 9;
    DivModUnique(y + 700, 900, q6, 100 * s6 + r);
  }

  /** The engine's century estimate `(9 * day0 + 2) / 328718` is the century
      holding day `day0`, and a century has at most 36525 days. */
  lemma RevJulianCenturyOfDay(day0: int)
    ensures var c := (9 * day0 + 2) / 328718;
      RevJulianCenturyStart(c) <= day0 < RevJulianCenturyStart(c + 1)
      && RevJulianCenturyStart(c + 1) - RevJulianCenturyStart(c) <= 36525
  {
    var c := (9 * day0 + 2) / 328718;
    var q, s := c / 9, c % 9;
    DivModUnique(c + 3, 9, if s >= 6 then q + 1 else q, if s >= 6 then s - 6 else s + 3);
    DivModUnique(c + 7, 9, if s >= 2 then q + 1 else q, if s >= 2 then s - 2 else s + 7);
    DivModUnique(c + 4, 9, if s >= 5 then q + 1 else q, if s >= 5 then s - 5 else s + 4);
    DivModUnique(c + 8, 9, if s >= 1 then q + 1 else q, if s >= 1 then s - 1 else s + 8);
    assert 328718 * c <= 9 * day0 + 2 < 328718 * c + 328718;
  }

  /** The engine's corrected quotient `(a + k) / 9`, for a shift `k` of 3 or 7,
      is the floored one. */
  lemma ShiftedQuotient(a: int, k: int)
    requires k == 3 || k == 7
    ensures (if a < -k && TMod(a, 9) != -k then TDiv(a + k, 9) - 1 else TDiv(a + k, 9)) == (a + k) / 9
  {
    if a < -k {
      var t, m := (-a) / 9, (-a) % 9;
      if m == k {
        DivModUnique(-a - k, 9, t, 0);
      } else if m > k {
        DivModUnique(-a - k, 9, t, m - k);
      } else {
        DivModUnique(-a - k, 9, t - 1, m - k + 9);
      }
      assert TMod(a + k, 9) != 0 <==> TMod(a, 9) != -k;
      assert FlooredQuotient(a + k, 9) == (a + k) / 9;
    }
  }

  /** The leap days `jdnToRevJulian` puts back: one a century, less the
      century years the Revised Julian rule keeps as leap years. */
  lemma RevJulianSkippedDaysFloor(day0: int)
    ensures var c := (9 * day0 + 2) / 328718;
      RevJulianSkippedDays(day0) == c - (c + 3) / 9 - (c + 7) / 9
  {
    var c := FlooredQuotient(9 * day0 + 2, 328718);
    ShiftedQuotient(c, 3);
    ShiftedQuotient(c, 7);
  }

  // ---------------------------------------------------------------------------
  // Day number to date

  /** The date `jdnToRevJulian`'s Julian split gives for a day count at a given
      offset into a Julian March-based year. */
  lemma JulianPatternDateOfOffset(day1: int, y: int, offset: int)
    requires 0 <= offset < JulianYearStart(y + 1) - JulianYearStart(y)
    requires day1 == JulianYearStart(y) + offset
    ensures JulianPatternDate(day1) == MarchDate(y, offset)
  {
    var year0 := (4 * day1 + 3) / 1461;
    JulianYearOfDay(day1);
    JulianYearLength(year0);
    JulianOffsetUnique(y, offset, year0, day1 - JulianYearStart(year0));
  }

  /** Day `e` of century `c` lies in a year of that century, at an offset
      that is the same in the Revised Julian and the Julian year: the year
      starts of a century follow the Julian pattern, and only the last year of
      a century may be shorter. */
  lemma RevJulianDayInCentury(c: int, e: int) returns (y: int, offset: int)
    requires 0 <= e < RevJulianCenturyStart(c + 1) - RevJulianCenturyStart(c) <= 36525
    ensures 100 * c <= y < 100 * c + 100
    ensures 0 <= offset < RevJulianYearStart(y + 1) - RevJulianYearStart(y)
    ensures RevJulianCenturyStart(c) + e == RevJulianYearStart(y) + offset
    ensures 0 <= offset < JulianYearStart(y + 1) - JulianYearStart(y)
    ensures JulianYearStart(y) + offset == 36525 * c + e
  {
    var r := (4 * e + 3) / 1461;
    assert 0 <= r < 100 && JulianYearStart(r) <= e < JulianYearStart(r + 1) by {
      JulianYearOfDay(e);
    }
    y, offset := 100 * c + r, e - JulianYearStart(r);
    assert RevJulianYearStart(y) == RevJulianCenturyStart(c) + JulianYearStart(r) by {
      RevJulianYearInCentury(c, r);
    }
    if r < 99 {
      assert RevJulianYearStart(y + 1) == RevJulianCenturyStart(c) + JulianYearStart(r + 1) by {
        RevJulianYearInCentury(c, r + 1);
      }
    } else {
      assert RevJulianYearStart(y + 1) == RevJulianCenturyStart(c + 1) by {
        RevJulianYearInCentury(c + 1, 0);
        assert y + 1 == 100 * (c + 1) + 0;
      }
    }
    assert JulianYearStart(y) == JulianYearStart(r) + 36525 * c by {
      JulianCycleShift(r, 25 * c);
    }
    assert JulianYearStart(y + 1) == JulianYearStart(r + 1) + 36525 * c by {
      JulianCycleShift(r + 1, 25 * c);
    }
  }

  /** Every day is an offset into one March-based Revised Julian year, and the
      engine's steps after the range test give the date at that offset. */
  lemma RevJulianPatternDay(day0: int) returns (y: int, offset: int)
    ensures 0 <= offset < RevJulianYearStart(y + 1) - RevJulianYearStart(y)
    ensures day0 == RevJulianYearStart(y) + offset
    ensures JulianPatternDate(day0 + RevJulianSkippedDays(day0)) == MarchDate(y, offset)
  {
    var c := (9 * day0 + 2) / 328718;
    var e := day0 - RevJulianCenturyStart(c);
    RevJulianCenturyOfDay(day0);
    y, offset := RevJulianDayInCentury(c, e);
    var day1 := day0 + RevJulianSkippedDays(day0);
    assert day1 == JulianYearStart(y) + offset by {
      RevJulianSkippedDaysFloor(day0);
    }
    JulianPatternDateOfOffset(day1, y, offset);
  }

  /** Below the largest day number it accepts, `jdnToRevJulian` returns the date
      at the day's offset into its March-based Revised Julian year. */
  lemma JdnToRevJulianSplit(jdn: int) returns (y: int, offset: int)
    requires jdn <= RevJulianMaxJdn
    ensures 0 <= offset < RevJulianYearStart(y + 1) - RevJulianYearStart(y)
    ensures jdn == 1721120 + RevJulianYearStart(y) + offset
    ensures JdnToRevJulian(jdn) == Success(MarchDate(y, offset))
  {
    var day0 := jdn - 1721120;
    y, offset := RevJulianPatternDay(day0);
    assert JdnToRevJulian(jdn) == Success(JulianPatternDate(day0 + RevJulianSkippedDays(day0)));
  }

  /** Whenever `jdnToRevJulian` succeeds it yields a valid Revised Julian date. */
  lemma JdnToRevJulianValid(jdn: int)
    ensures JdnToRevJulian(jdn).Success? ==> ValidRevJulianDate(JdnToRevJulian(jdn).value)
  {
    if jdn <= RevJulianMaxJdn {
      var y, offset := JdnToRevJulianSplit(jdn);
      RevJulianYearLength(y);
      MarchDateValid(RevJulianLeap(y + 1), y, offset);
    }
  }

  /** `jdnToRevJulian` of the day at a given offset into a March-based year is
      the date at that offset. */
  lemma JdnToRevJulianOfOffset(jdn: int, y: int, offset: int)
    requires jdn <= RevJulianMaxJdn
    requires 0 <= offset < RevJulianYearStart(y + 1) - RevJulianYearStart(y)
    requires jdn == 1721120 + RevJulianYearStart(y) + offset
    ensures JdnToRevJulian(jdn) == Success(MarchDate(y, offset))
  {
    var y', offset' := JdnToRevJulianSplit(jdn);
    RevJulianOffsetUnique(y, offset, y', offset');
  }

  // ---------------------------------------------------------------------------
  // Date to day number

  /** The day number `revJulianToJdn` is meant to compute: its closed form with
      every term, the two 900-year terms included, taken from the March-based
      year. */
  function IntendedRevJulianDayNumber(date: Date): int {
    var y, m := MarchYear(date), MarchMonth(date);
    365 * y + y / 4 - y / 100 + (y + 300) / 900 + (y + 700) / 900
      + (153 * (m + 1)) / 5 + date.day - 123 + 1721120
  }

  /** The intended day number of a date with a month in 1..12, in March-based
      coordinates. */
  lemma IntendedRevJulianMarchForm(date: Date)
    requires 1 <= date.month <= 12
    ensures IntendedRevJulianDayNumber(date)
      == 1721120 + RevJulianYearStart(MarchYear(date)) + MonthStart(MarchMonth(date) - 3) + date.day - 1
  {
    MonthTerm(MarchMonth(date));
  }

  /** The day number `revJulianToJdn` computes is one day late for January and
      February of a year that leaves 200 or 600 after division by 900, and the
      intended one for every other date. */
  lemma RevJulianDayNumberLate(date: Date)
    ensures RevJulianDayNumber(date) == IntendedRevJulianDayNumber(date)
      + if date.month < 3 && (date.year % 900 == 200 || date.year % 900 == 600) then 1 else 0
  {
    if date.month < 3 {
      var y := date.year - 1;
      FloorStep(y + 300, 900);
      FloorStep(y + 700, 900);
      ShiftedMultiple(date.year, 300, 900);
      ShiftedMultiple(date.year, 700, 900);
    }
  }

  /** Whenever `jdnToRevJulian` succeeds, the intended day number of its date
      is the day number it started from. */
  lemma JdnToRevJulianRoundTrip(jdn: int)
    ensures JdnToRevJulian(jdn).Success? ==> IntendedRevJulianDayNumber(JdnToRevJulian(jdn).value) == jdn
  {
    if jdn <= RevJulianMaxJdn {
      var y, offset := JdnToRevJulianSplit(jdn);
      RevJulianYearLength(y);
      MarchDateOffset(y, offset);
      IntendedRevJulianMarchForm(MarchDate(y, offset));
    }
  }

  /** A valid date is an offset into its March-based year. */
  lemma RevJulianDateOffset(date: Date)
    requires ValidRevJulianDate(date)
    ensures var mi := MarchMonth(date) - 3;
      var offset := MonthStart(mi) + date.day - 1;
      0 <= mi <= 11 && MonthStart(mi) <= offset < MonthStart(mi + 1)
      && offset < RevJulianYearStart(MarchYear(date) + 1) - RevJulianYearStart(MarchYear(date))
  {
    var mi := MarchMonth(date) - 3;
    MonthSpan(mi);
    RevJulianYearLength(MarchYear(date));
  }

  /** A day number determines its March-based Revised Julian year and offset. */
  lemma RevJulianOffsetUnique(y: int, offset: int, y': int, offset': int)
    requires 0 <= offset < RevJulianYearStart(y + 1) - RevJulianYearStart(y)
    requires 0 <= offset' < RevJulianYearStart(y' + 1) - RevJulianYearStart(y')
    requires RevJulianYearStart(y) + offset == RevJulianYearStart(y') + offset'
    ensures y == y' && offset == offset'
  {
    if y < y' {
      RevJulianYearStartIncreasing(y, y');
    } else if y' < y {
      RevJulianYearStartIncreasing(y', y);
    }
  }

  /** A valid Revised Julian date is the date at its offset into its
      March-based year, and its intended day number is that year's start plus
      the offset. */
  lemma RevJulianDateAsOffset(date: Date)
    requires ValidRevJulianDate(date)
    ensures var y, offset := MarchYear(date), MonthStart(MarchMonth(date) - 3) + date.day - 1;
      0 <= offset < RevJulianYearStart(y + 1) - RevJulianYearStart(y)
      && IntendedRevJulianDayNumber(date) == 1721120 + RevJulianYearStart(y) + offset
      && MarchDate(y, offset) == date
  {
    RevJulianDateOffset(date);
    IntendedRevJulianMarchForm(date);
    MarchDateOfDate(date);
  }

  /** Intended day number and back is the identity on valid Revised Julian
      dates, up to the largest day number `jdnToRevJulian` accepts. */
  lemma RevJulianDateRoundTrip(date: Date)
    requires ValidRevJulianDate(date) && IntendedRevJulianDayNumber(date) <= RevJulianMaxJdn
    ensures JdnToRevJulian(IntendedRevJulianDayNumber(date)) == Success(date)
  {
    var y, offset := MarchYear(date), MonthStart(MarchMonth(date) - 3) + date.day - 1;
    var jdn := IntendedRevJulianDayNumber(date);
    assert 0 <= offset < RevJulianYearStart(y + 1) - RevJulianYearStart(y)
      && jdn == 1721120 + RevJulianYearStart(y) + offset && MarchDate(y, offset) == date by {
      RevJulianDateAsOffset(date);
    }
    JdnToRevJulianOfOffset(jdn, y, offset);
  }

  /** Off January and February of the years that leave 200 or 600 after
      division by 900, the day number `revJulianToJdn` computes comes back to
      the date. */
  lemma RevJulianDayNumberHits(date: Date)
    requires ValidRevJulianDate(date) && RevJulianDayNumber(date) <= RevJulianMaxJdn
    requires !(date.month < 3 && (date.year % 900 == 200 || date.year % 900 == 600))
    ensures JdnToRevJulian(RevJulianDayNumber(date)) == Success(date)
  {
    assert RevJulianDayNumber(date) == IntendedRevJulianDayNumber(date) by {
      RevJulianDayNumberLate(date);
    }
    RevJulianDateRoundTrip(date);
  }

  /** On January and February of the years that leave 200 or 600 after
      division by 900, the day number `revJulianToJdn` computes comes back to
      the day after the date. */
  lemma RevJulianDayNumberMisses(date: Date)
    requires ValidRevJulianDate(date) && RevJulianDayNumber(date) <= RevJulianMaxJdn
    requires date.month < 3 && (date.year % 900 == 200 || date.year % 900 == 600)
    ensures JdnToRevJulian(RevJulianDayNumber(date)).Success?
    ensures IntendedRevJulianDayNumber(JdnToRevJulian(RevJulianDayNumber(date)).value)
      == IntendedRevJulianDayNumber(date) + 1
    ensures JdnToRevJulian(RevJulianDayNumber(date)) != Success(date)
  {
    var jdn := RevJulianDayNumber(date);
    assert jdn == IntendedRevJulianDayNumber(date) + 1 by {
      RevJulianDayNumberLate(date);
    }
    JdnToRevJulianRoundTrip(jdn);
  }

  /** With the day number `revJulianToJdn` computes, the round trip holds
      exactly off January and February of the years that leave 200 or 600
      after division by 900. */
  lemma RevJulianDayNumberRoundTrip(date: Date)
    requires ValidRevJulianDate(date) && RevJulianDayNumber(date) <= RevJulianMaxJdn
    ensures JdnToRevJulian(RevJulianDayNumber(date)) == Success(date)
      <==> !(date.month < 3 && (date.year % 900 == 200 || date.year % 900 == 600))
  {
    if date.month < 3 && (date.year % 900 == 200 || date.year % 900 == 600) {
      RevJulianDayNumberMisses(date);
    } else {
      RevJulianDayNumberHits(date);
    }
  }

  // ---------------------------------------------------------------------------
  // Revised Julian to Gregorian, as intended

  /** `revJulianToGregorian` with the intended day number: it fails outside the
      Revised Julian year range, as the engine does, and otherwise gives a
      valid Gregorian date on the intended day. */
  function IntendedRevJulianToGregorian(date: Date): (r: Result<Date>)
    ensures r.Failure? <==> !RevJulianYearInRange(date.year)
    ensures r.Failure? ==> r.error == RevJulianRangeError
    ensures r.Success? ==>
      ValidGregorianDate(r.value) && GregorianDayNumber(r.value) == IntendedRevJulianDayNumber(date)
  {
    if !RevJulianYearInRange(date.year) then Failure(RevJulianRangeError)
    else
      var jdn := IntendedRevJulianDayNumber(date);
      JdnToGregorianRoundTrip(jdn);
      JdnToGregorianValid(jdn);
      Success(JdnToGregorian(jdn))
  }
}
