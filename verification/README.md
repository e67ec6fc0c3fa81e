# pascha-gui calendar engine in Dafny

This project models the calculation core of pascha-gui, a desktop calculator
for the date of Pascha (Orthodox Easter) and the feasts that hang on it. The
model covers these parts:

- **Calendar conversions** (`calendar_conversion.dfy`, `calendar_round_trip.dfy`,
  `rev_julian_round_trip.dfy`, `converter_properties.dfy`):
  - three maps from a date to a Julian Day Number (JDN): Gregorian, Julian and
    Revised Julian;
  - three maps from a JDN back to a date;
  - the four public converters that go through the JDN.

  Each is written as the C++ computes it, with truncating `/` and `%`, the
  hand-written floor corrections for negative years, and the same range errors
  and messages. Each is then proved equal to a closed form with floored
  division.
  - For the Gregorian and Julian calendars, the closed forms give the round
    trips, the validity of every date produced and the repository's test
    vectors.
  - For the Revised Julian calendar, `jdnToRevJulian` is proved to produce
    only valid dates, each with the intended day number.
  - `revJulianToJdn` is one day late for January and February of years that
    leave 200 or 600 after division by 900 (see "## Findings"). Its round
    trip is proved exactly for the other dates. The corrected day number
    `IntendedRevJulianDayNumber` round-trips everywhere.
- **The two computus algorithms** (`calculation_methods.dfy`): Meeus's Julian
  and Gregorian Easter algorithms, with C++ truncating arithmetic.
  - From year 0 on, both land between 22 March and 25 April, and both give a
    Sunday.
  - The repository's vectors for 2019, 0 and -1 are proved.
  - Negative years whose arithmetic leaves the window are shown concretely.
- **The decorator chain** (`calculation_chain.dfy`): a method is an
  algorithm wrapped in decorators:
  - `TargetDate` with the seven feast offsets;
  - the three output calendars;
  - the Byzantine year.

  `Calculate` evaluates the chain from the inside out and passes errors
  through unchanged.
- **`PaschaCalculatorModel`** (`calculator_model.dfy`): a class holding the
  installed method, the observer list and a log of the `update` calls made
  on observers. `notify` is a loop proved to send one update per
  registration, in order.
- **`GuiController`**, in both the library copy (`gui_controller.dfy`) and the
  application copy (`app_gui_controller.dfy`): classes that build the chain
  step by step, including the loop over the output options. They are proved
  to install exactly the chain that `RequestFor` describes and to make the
  model send exactly the replies specified for it.

`Date`, `Result` and C++ division (`TDiv`, `TMod`) live in `dates.dfy`.

The interface declares `notify(const Date&)`
(include/pascha/i_observable.h:19), but `calculate` computes the date and
drops it (src/pascha_calculator_model.cpp:27-31). So only errors reach the
observers. The model follows the code: `CalculatorModel.CalculateReply`
is `None` on success.

## Model

| member | source | states |
|---|---|---|
| Dates.TDiv | src/calculation_methods.cpp:24-29 | C++ `/` truncates toward zero: the remainder left over has the sign of the dividend and is smaller than the divisor |
| Dates.TMod | src/calculation_methods.cpp:11-15 | C++ `%` keeps the sign of the dividend and lies strictly between `-b` and `b` |
| Dates.FlooredQuotient | src/calendar_conversion.cpp:324-328 | the "`q = a / b`, then decrement when `a` is negative and not a multiple" idiom is floored division |
| Dates.CycleCount | src/calendar_conversion.cpp:37-47 | the negative-year cycle count (`y / n - 1`, undone for exact multiples) is floored division |
| Dates.CycleResidue | src/calendar_conversion.cpp:43 | `(n - (-1 * y % n)) % n` is the floored residue, in `0..n-1` |
| CalendarConversion.LeapYearDays | src/calendar_conversion.cpp:56-60 | the leap-day count with its negative-year correction is `365y + floor(y/4)` |
| CalendarConversion.CenturyCorrection | src/calendar_conversion.cpp:69-85 | the four-way negative-year century branch equals `- floor(y/100) + floor(y/400)` |
| CalendarConversion.GregorianToJdn | src/calendar_conversion.cpp:26-92 | fails exactly outside -5508..25252734927761841, with "Gregorian year out of range" |
| CalendarConversion.JulianToJdn | src/calendar_conversion.cpp:94-138 | fails exactly outside -5508..25252216391110347, with "Julian year out of range" |
| CalendarConversion.RevJulianToJdn | src/calendar_conversion.cpp:140-198 | fails exactly outside -5508..25252754133231976, with "Revised Julian year out of range" |
| CalendarConversion.JdnToRevJulian | src/calendar_conversion.cpp:309-382 | fails exactly above JDN 2305837553489651559, with its own message |
| CalendarConversion.GregorianToJulian | src/calendar_conversion.cpp:389-395 | fails exactly when the Gregorian year is out of range |
| CalendarConversion.JulianToGregorian | src/calendar_conversion.cpp:397-403 | fails exactly when the Julian year is out of range |
| CalendarConversion.GregorianToRevJulian | src/calendar_conversion.cpp:405-411 | fails exactly when the Gregorian year is out of range (the Gregorian range error) or its day number is past the Revised Julian limit; otherwise the Revised Julian date of its Gregorian day number |
| CalendarConversion.RevJulianToGregorian | src/calendar_conversion.cpp:413-419 | fails exactly when the Revised Julian year is out of range, with its range error; otherwise the Gregorian date of `revJulianToJdn`'s day number |
| CalendarConversion.GregorianToJdnClosedForm | src/calendar_conversion.cpp:32-91 | in range, `gregorianToJdn` is `365Y + floor(Y/4) - floor(Y/100) + floor(Y/400) + (153(M+1))/5 + day - 123 + 1721120` with the March-based Y and M; outside, the range error |
| CalendarConversion.GregorianCycleShift | src/calendar_conversion.cpp:36-47 | moving a year by whole 400-year cycles moves its day count by 146097 days per cycle |
| CalendarConversion.GregorianToJdnFloors | src/calendar_conversion.cpp:36-89 | the engine's cycle split computes the day count of the year's place in its 400-year cycle plus 146097 days per cycle |
| CalendarConversion.JulianToJdnClosedForm | src/calendar_conversion.cpp:100-137 | in range, `julianToJdn` is `365Y + floor(Y/4) + (153(M+1))/5 + day - 123 + 1721118`; outside, the range error |
| CalendarConversion.JulianCycleShift | src/calendar_conversion.cpp:104-115 | moving a year by whole 4-year cycles moves its day count by 1461 days per cycle |
| CalendarRoundTrip.JdnToGregorianValid | src/calendar_conversion.cpp:203-256 | every JDN maps to a valid Gregorian date: month 1..12, day within the month's length, leap years included |
| CalendarRoundTrip.JdnToGregorianRoundTrip | src/calendar_conversion.cpp:203-256 | the date produced from a JDN has that JDN as its day number |
| CalendarRoundTrip.GregorianDateRoundTrip | src/calendar_conversion.cpp:203-256 | a valid Gregorian date's day number maps back to the date |
| CalendarRoundTrip.JdnToJulianValid | src/calendar_conversion.cpp:258-307 | every JDN maps to a valid Julian date |
| CalendarRoundTrip.JdnToJulianRoundTrip | src/calendar_conversion.cpp:258-307 | the Julian date produced from a JDN has that JDN as its day number |
| CalendarRoundTrip.JulianDateRoundTrip | src/calendar_conversion.cpp:258-307 | a valid Julian date's day number maps back to the date |
| CalendarRoundTrip.GregorianYearLength | src/calendar_conversion.cpp:227-233 | a March-based Gregorian year has 366 days when the next calendar year is a leap year, else 365 |
| CalendarRoundTrip.JulianYearLength | src/calendar_conversion.cpp:283-284 | a March-based Julian year has 366 days when the next calendar year is divisible by 4, else 365 |
| CalendarRoundTrip.MarchDateValid | src/calendar_conversion.cpp:237-247 | the month and day split of a day within a March-based year gives a month in 1..12 and a day within it |
| ConverterProperties.GregorianToJulianSameDay | src/calendar_conversion.cpp:389-395 | in range, `gregorianToJulian` succeeds with a valid Julian date on the same day |
| ConverterProperties.JulianToGregorianSameDay | src/calendar_conversion.cpp:397-403 | in range, `julianToGregorian` succeeds with a valid Gregorian date on the same day |
| ConverterProperties.GregorianJulianRoundTrip | src/calendar_conversion.cpp:389-403 | Gregorian to Julian and back returns a valid date, when both years are in range |
| ConverterProperties.JulianGregorianRoundTrip | src/calendar_conversion.cpp:389-403 | Julian to Gregorian and back returns a valid date, when both years are in range |
| CalendarRoundTrip.GregorianDayNumberInYear | src/calendar_conversion.cpp:26-92 | a valid Gregorian date's day number lies between those of 1 January of its year and of the next year |
| RevJulianRoundTrip.RevJulianYearLength | src/calendar_conversion.cpp:156-184 | a March-based Revised Julian year has 366 days exactly when the next calendar year is a Revised Julian leap year (divisible by 4, and not a century year unless it leaves 200 or 600 after division by 900) |
| RevJulianRoundTrip.RevJulianYearStartIncreasing | src/calendar_conversion.cpp:156-184 | the start of every later March-based year comes no earlier than the end of this one |
| RevJulianRoundTrip.RevJulianYearInCentury | src/calendar_conversion.cpp:164-184 | within a century, years start at the century's start plus the Julian year pattern |
| RevJulianRoundTrip.RevJulianCenturyOfDay | src/calendar_conversion.cpp:322-328 | the estimate `(9 day + 2) / 328718` is exactly the century the day lies in, and a century has at most 36525 days |
| RevJulianRoundTrip.ShiftedQuotient | src/calendar_conversion.cpp:330-341 | the two corrected quotients `(a + 3) / 9` and `(a + 7) / 9` are floored division |
| RevJulianRoundTrip.RevJulianSkippedDaysFloor | src/calendar_conversion.cpp:320-342 | the days put back are the century count minus the retained century leap days |
| RevJulianRoundTrip.RevJulianDayInCentury | src/calendar_conversion.cpp:344-376 | a day within a century splits, by the Julian pattern, into the year of the century and the offset into it |
| RevJulianRoundTrip.RevJulianPatternDay | src/calendar_conversion.cpp:318-376 | after the day correction, the Julian split gives the date at the day's offset into its March-based Revised Julian year |
| RevJulianRoundTrip.JdnToRevJulianSplit | src/calendar_conversion.cpp:309-382 | below the limit, `jdnToRevJulian` succeeds with the date at the JDN's offset into its March-based year |
| RevJulianRoundTrip.JdnToRevJulianOfOffset | src/calendar_conversion.cpp:309-382 | a JDN given as a year start plus an offset within that year converts to the date at that offset |
| RevJulianRoundTrip.JdnToRevJulianValid | src/calendar_conversion.cpp:309-382 | every Revised Julian date produced is valid under the Revised Julian leap rule |
| RevJulianRoundTrip.IntendedRevJulianMarchForm | src/calendar_conversion.cpp:146-197 | the intended day number is the year start of the March-based year plus the day's offset into it |
| RevJulianRoundTrip.RevJulianDayNumberLate | src/calendar_conversion.cpp:146-197 | `revJulianToJdn` is one more than the intended day number for January and February of years that leave 200 or 600 after division by 900, and equal to it everywhere else |
| RevJulianRoundTrip.JdnToRevJulianRoundTrip | src/calendar_conversion.cpp:309-382 | every date produced from a JDN has that JDN as its intended day number |
| RevJulianRoundTrip.RevJulianDateOffset | src/calendar_conversion.cpp:146-197 | a valid date's offset into its March-based year lies within that year's length |
| RevJulianRoundTrip.RevJulianOffsetUnique | src/calendar_conversion.cpp:309-382 | a day has only one March-based year and offset |
| RevJulianRoundTrip.RevJulianDateAsOffset | src/calendar_conversion.cpp:309-382 | a valid date is the date at its own offset into its March-based year |
| RevJulianRoundTrip.RevJulianDateRoundTrip | src/calendar_conversion.cpp:309-382 | a valid Revised Julian date's intended day number maps back to the date |
| RevJulianRoundTrip.RevJulianDayNumberHits | src/calendar_conversion.cpp:140-382 | away from the late dates, `revJulianToJdn` followed by `jdnToRevJulian` returns the date |
| RevJulianRoundTrip.RevJulianDayNumberMisses | src/calendar_conversion.cpp:140-382 | on the late dates, the same round trip returns the next day instead of the date |
| RevJulianRoundTrip.RevJulianDayNumberRoundTrip | src/calendar_conversion.cpp:140-382 | for a valid date, the round trip through `revJulianToJdn` returns the date exactly when it is not one of the late dates |
| RevJulianRoundTrip.IntendedRevJulianToGregorian | src/calendar_conversion.cpp:413-419 | the corrected converter fails exactly when the year is out of range, and otherwise gives a valid Gregorian date with the intended day number |
| ConverterProperties.GregorianToRevJulianSameDay | src/calendar_conversion.cpp:405-411 | in range, `gregorianToRevJulian` succeeds with a valid Revised Julian date on the same day |
| ConverterProperties.RevJulianToGregorianSameDay | src/calendar_conversion.cpp:413-419 | in range, `revJulianToGregorian` succeeds with a valid Gregorian date; it is the same day exactly when the date is not one of the late dates |
| ConverterProperties.GregorianRevJulianRoundTrip | src/calendar_conversion.cpp:405-419 | Gregorian to Revised Julian and back through the corrected converter returns a valid date |
| ConverterProperties.GregorianRevJulianRoundTripAsWritten | src/calendar_conversion.cpp:405-419 | Gregorian to Revised Julian and back through `revJulianToGregorian` returns the date exactly when the Revised Julian date is not one of the late dates |
| ConverterProperties.RevJulianGregorianRoundTrip | src/calendar_conversion.cpp:405-419 | a valid Revised Julian date sent to Gregorian by the corrected converter and back returns |
| ConverterProperties.RevJulianGregorianRoundTripAsWritten | src/calendar_conversion.cpp:405-419 | a valid Revised Julian date sent to Gregorian by `revJulianToGregorian` and back returns exactly when it is not one of the late dates |
| ConverterProperties.GregorianToJdnPositiveYear | test/calendar_conversion_test.cpp:9-31 | 2019-01-01 is JDN 2458485; 2020-02-29 is 2458909 |
| ConverterProperties.GregorianToJdnYearZero | test/calendar_conversion_test.cpp:15-19 | 0-01-01 is JDN 1721060 |
| ConverterProperties.GregorianToJdnYearZeroLeapDay | test/calendar_conversion_test.cpp:33-37 | 0-02-29 is JDN 1721119 |
| ConverterProperties.GregorianToJdnNegativeYear | test/calendar_conversion_test.cpp:21-43 | -1-01-01 is JDN 1720695; -1-02-29 is 1720754 |
| ConverterProperties.GregorianToJulian2019 | test/calendar_conversion_test.cpp:50-57 | Gregorian 2019-01-01 is Julian 2018-12-19 |
| ConverterProperties.GregorianToJulian2100 | test/calendar_conversion_test.cpp:104-111 | Gregorian 2100-03-01 is Julian 2100-02-16 |
| ConverterProperties.JulianToGregorian2100 | test/calendar_conversion_test.cpp:172-179 | Julian 2100-02-16 is Gregorian 2100-03-01 |
| ConverterProperties.GregorianToRevJulian2800 | test/calendar_conversion_test.cpp:267-274 | Gregorian 2800-02-29 is Revised Julian 2800-03-01 |
| ConverterProperties.GregorianToRevJulian10019 | test/calendar_conversion_test.cpp:195-202 | Gregorian 10019-01-01 is Revised Julian 10019-01-04 |
| ConverterProperties.RevJulianToGregorian2900 | test/calendar_conversion_test.cpp:362-369 | the code maps Revised Julian 2900-02-29 to Gregorian 2900-03-01, not to the 2900-02-28 the test expects |
| CalculationMethods.JulianCalculationMethod | src/calculation_methods.cpp:9-19 | fails exactly when the Julian year is out of range, with the Julian range error |
| CalculationMethods.GregorianCalculationMethod | src/calculation_methods.cpp:21-38 | never fails, and keeps the year it is given |
| CalculationMethods.PaschaDateOfOffset | src/calculation_methods.cpp:16-17 | the month and day formula turns 0..34 days into 22 March .. 25 April, day for day |
| CalculationMethods.JulianPaschaOffsetRange | src/calculation_methods.cpp:11-15 | from year 0 on, the Julian offset `d + e` lies in 0..34 |
| CalculationMethods.GregorianPaschaOffsetRange | src/calculation_methods.cpp:23-34 | from year 0 on, the Gregorian offset `h + l - 7m` lies in 0..34 |
| CalculationMethods.JulianPaschaWindow | src/calculation_methods.cpp:11-17 | from year 0 on, the Julian date before conversion is in March or April, 22 March to 25 April |
| CalculationMethods.GregorianPaschaWindow | src/calculation_methods.cpp:23-37 | from year 0 on, the Gregorian date is in March or April, 22 March to 25 April |
| CalculationMethods.JulianPaschaSunday | src/calculation_methods.cpp:11-17 | from year 0 on, the Julian computus date is a Sunday |
| CalculationMethods.GregorianPaschaSunday | src/calculation_methods.cpp:23-37 | from year 0 on, the Gregorian computus date is a Sunday |
| CalculationMethods.JulianPaschaGregorianInRange | src/calculation_methods.cpp:9-19 | from year 0 to the last Julian year, the Julian method succeeds with a Gregorian year inside the Gregorian range |
| CalculationMethods.JulianMethodSunday | src/calculation_methods.cpp:9-19 | from year 0 to the last Julian year, the Julian method succeeds with a valid Gregorian Sunday |
| CalculationMethods.GregorianPaschaOffsetTerms | src/calculation_methods.cpp:30-34 | from year 0 on, `h` is in 0..29, `l` in 0..6, and the offset is `h + l - 7m` with floored division |
| CalculationMethods.JulianPascha2019 | test/calculation_methods_test.cpp:11-18 | 2019 gives Julian 15 April, which is Gregorian 28 April |
| CalculationMethods.GregorianPascha2019 | test/calculation_methods_test.cpp:20-27 | 2019 gives 21 April |
| CalculationMethods.JulianPaschaYearZero | test/calculation_methods_test.cpp:36-43 | year 0 gives Gregorian 9 April |
| CalculationMethods.GregorianPaschaYearZero | test/calculation_methods_test.cpp:45-52 | year 0 gives 9 April |
| CalculationMethods.JulianPaschaNegativeYear | test/calculation_methods_test.cpp:61-68 | year -1 gives Gregorian 20 March, from Julian 22 March, with truncating arithmetic |
| CalculationMethods.GregorianPaschaNegativeYear | test/calculation_methods_test.cpp:70-77 | year -1 gives 20 March with truncating arithmetic |
| CalculationMethods.GregorianPaschaFebruary | src/calculation_methods.cpp:35-36 | for year -2 the truncating arithmetic yields the month-2 day-31 date -2-02-31 |
| CalculationMethods.JulianPaschaFebruary | src/calculation_methods.cpp:16-17 | for year -45 the Julian date before conversion is -45-02-31 |
| CalculationChain.Shift | src/target_date.cpp:11-20 | the shifted date is a valid Gregorian date whose day number is the input's plus `days` |
| CalculationChain.ShiftByZero | src/target_date.cpp:11-20 | shifting a valid date by 0 days returns it |
| CalculationChain.ShiftTwice | src/target_date.cpp:11-20 | two shifts in a row are one shift by the sum |
| CalculationChain.Calculate | include/pascha/i_calculation_method.h:34 | any error a chain returns is one of the three range errors of the converters |
| CalculationChain.TargetDateCalculate | src/target_date.cpp:23-28 | errors pass through; otherwise a valid Gregorian date exactly the constructor's shift amount after the inner result |
| CalculationChain.JulianOutputCalendarCalculate | src/output_calendars.cpp:8-11 | errors pass through; succeeds exactly when the inner result's year is in range, with a valid Julian date on the same day |
| CalculationChain.GregorianOutputCalendarCalculate | src/output_calendars.cpp:13-16 | the inner result, unchanged |
| CalculationChain.RevisedJulianOutputCalendarCalculate | src/output_calendars.cpp:18-21 | errors pass through; succeeds exactly when the inner year is in range and its day number is within the Revised Julian limit, otherwise the Gregorian range error or the JDN error; a result is a valid Revised Julian date on the same day |
| CalculationChain.ByzantineDateCalculate | src/output_options.cpp:6-14 | errors pass through; month and day are kept; the year moves 5508 ahead through August and 5509 from September |
| CalculationChain.ByzantineYearFromSeptember | src/output_options.cpp:9-12 | the Byzantine year changes exactly between August and September |
| CalculationChain.ByzantinePascha | src/output_options.cpp:9-12 | a Pascha date's Byzantine year is exactly 5508 ahead |
| CalculationChain.ByzantinePascha2019 | src/output_options.cpp:6-14 | Gregorian Pascha 2019 is Byzantine 7527-04-21 |
| CalculationChain.JulianOutputOfJulianMethod | src/output_calendars.cpp:8-11 | the Julian method read in the Julian calendar is the raw Julian computus date, from year 0 to the last Julian year |
| CalculationChain.JulianOutputOfJulianMethod2019 | src/calculation_methods.cpp:16-18 | the Julian method in the Julian calendar gives 2019-04-15 |
| CalculationChain.FeastWeekdayOfSunday | include/pascha/target_dates.h:12-63 | when the inner date is a Sunday, each feast falls on its own weekday (Meatfare, Cheesefare and Pentecost on Sunday; Ascension on Thursday; the others on Wednesday) |
| CalculationChain.FeastShiftWeekday | include/pascha/target_dates.h:12-63 | each feast's offset from Pascha, modulo 7, is its weekday |
| CalculationChain.FeastWeekdays | include/pascha/target_dates.h:12-63 | from year 0 on, each feast from either algorithm falls on its own weekday |
| CalculatorModel.Broadcast | src/pascha_calculator_model.cpp:93-119 | one update per registration, in list order, each with the message |
| CalculatorModel.Without | src/pascha_calculator_model.cpp:88-91 | the erased observer is gone; every other observer keeps all its registrations |
| CalculatorModel.WithoutAbsent | src/pascha_calculator_model.cpp:88-91 | erasing an unregistered observer changes nothing |
| CalculatorModel.WithoutConcat | src/pascha_calculator_model.cpp:88-91 | erasing keeps the others in their order: erasing from a joined list is joining the erased parts |
| CalculatorModel.CalculateReply | src/pascha_calculator_model.cpp:17-32 | no reply exactly when a method is set and succeeds; otherwise a text that is either "No calculation method set!" or a range error |
| CalculatorModel.DaysFromCounts | src/pascha_calculator_model.cpp:44-55 | shifting `today` by the days sent lands on the computed date |
| CalculatorModel.DaysFromErrors | src/pascha_calculator_model.cpp:44-57 | the method's error comes first; once the date is in range, `today` out of range is the only failure |
| CalculatorModel.WeeksApartTruncates | src/pascha_calculator_model.cpp:73-77 | the weeks sent are the day difference over 7, truncated toward zero |
| CalculatorModel.WeeksApartDays | src/pascha_calculator_model.cpp:73-77 | for two dates in range, the reply is the truncated quotient by 7 of their day difference |
| CalculatorModel.WeeksApartErrors | src/pascha_calculator_model.cpp:73-80 | the first failure in evaluation order is the one reported |
| CalculatorModel.WeeksBetweenPaschasExact | src/pascha_calculator_model.cpp:61-81 | from year 0 to the last Julian year, the weeks between the Julian and Gregorian Paschas are exact: 7 times the weeks is the day difference |
| CalculatorModel.PaschaCalculatorModel.constructor | include/pascha/pascha_calculator_model.h:54-56 | no method, no observers, no updates |
| CalculatorModel.PaschaCalculatorModel.SetCalculationMethod | src/pascha_calculator_model.cpp:11-15 | the new method replaces the old one; observers and updates are unchanged |
| CalculatorModel.PaschaCalculatorModel.Notify | src/pascha_calculator_model.cpp:93-119 | the updates grow by the broadcast of the message; the list and the method are unchanged |
| CalculatorModel.PaschaCalculatorModel.Calculate | src/pascha_calculator_model.cpp:17-32 | observers receive the reply of `CalculateReply`, if any |
| CalculatorModel.PaschaCalculatorModel.DaysUntil | src/pascha_calculator_model.cpp:34-59 | observers receive the days reply, with `today` as a parameter |
| CalculatorModel.PaschaCalculatorModel.WeeksBetween | src/pascha_calculator_model.cpp:61-81 | observers receive the weeks reply; the installed method is untouched |
| CalculatorModel.PaschaCalculatorModel.AddObserver | src/pascha_calculator_model.cpp:83-86 | appends, duplicates included |
| CalculatorModel.PaschaCalculatorModel.RemoveObserver | src/pascha_calculator_model.cpp:88-91 | erases every registration of the observer |
| GuiController.FeastTargetCodes | include/pascha/calculation_options.h:40-52 | the target codes of the feasts are 3 to 9, one per feast |
| GuiController.WithOptionsByzantines | src/gui_controller.cpp:123-131 | the option loop adds one Byzantine decorator per Byzantine entry, repeats included, and nothing else |
| CalculationChain.ByzantinesCalculate | src/gui_controller.cpp:123-131 | n Byzantine decorators move the year by n times 5508, or 5509 from September; errors pass through |
| CalculationChain.ByzantineDateStep | src/output_options.cpp:6-14 | one Byzantine decorator passes an error through and otherwise converts the inner date once |
| CalculationChain.ByzantineResultClosedForm | src/output_options.cpp:6-14 | n Byzantine conversions of a result pass an error through and otherwise keep month and day and add n times 5508 years, or 5509 from September |
| CalculationChain.ByzantinesSteps | src/output_options.cpp:6-14 | n Byzantine decorators pass an error through and otherwise convert the date n times |
| CalculationChain.ByzantineYearsClosedForm | src/output_options.cpp:9-12 | n Byzantine conversions keep month and day and add n times 5508 years, or 5509 from September |
| GuiController.DefaultOptionsJulianPascha | src/gui_controller.cpp:41-135 | the default options give the raw Julian computus date, from year 0 to the last Julian year |
| GuiController.FeastRequestWeekday | src/gui_controller.cpp:56-120 | a feast in the Gregorian calendar falls on its own weekday, from year 0 on |
| GuiController.OutputCalendarsSameDay | src/gui_controller.cpp:105-120 | the Julian and Gregorian output calendars of the same request name the same day |
| GuiController.RequestIgnores | src/gui_controller.cpp:27-61 | daysUntil ignores the output calendar and options; weeksBetween ignores every option |
| GuiController.GuiController.constructor | src/gui_controller.cpp:11-12 | holds its model, with no views |
| GuiController.GuiController.ValidateYear | src/gui_controller.cpp:153-157 | every year is accepted |
| GuiController.GuiController.Calculate | src/gui_controller.cpp:14-136 | the model ends up holding the chain `RequestFor` gives, and its observers receive that request's reply |
| GuiController.GuiController.AddView | src/gui_controller.cpp:138-141 | appends the view |
| GuiController.GuiController.RemoveView | src/gui_controller.cpp:143-146 | erases every entry of the view |
| GuiController.GuiController.Start | src/gui_controller.cpp:148-151 | each view, in order, is asked to draw itself |
| AppGuiController.AppRequestFront | app/gui_controller.cpp:47-81 | only the first target output is read |
| AppGuiController.GuiController.constructor | app/gui_controller.cpp:31-32 | holds its model, with no views |
| AppGuiController.GuiController.ValidateYear | app/gui_controller.cpp:173-177 | every year is accepted |
| AppGuiController.GuiController.Calculate | app/gui_controller.cpp:34-156 | the library controller's request for the first target: the same chain and the same replies |
| AppGuiController.GuiController.AddView | app/gui_controller.cpp:158-161 | appends the view |
| AppGuiController.GuiController.RemoveView | app/gui_controller.cpp:163-166 | erases every entry of the view |
| AppGuiController.GuiController.Start | app/gui_controller.cpp:168-171 | each view, in order, is asked to draw itself |

## Left out

- `TargetDate::shift` (src/target_date.cpp:11-20) goes through `std::tm` and `mktime`. The model shifts by Gregorian day numbers, which is what `mktime` does for months 1..12. It does not model:
  - the `int` narrowing of `tm_year`;
  - the `time_t` range;
  - the ignored return value of `mktime`;
  - inputs with a month outside 1..12.
- Shift: modelled as a function that returns the shifted date. The C++ writes it into the caller's local copy, and no other state is involved.
- 64-bit integers: integers here are unbounded. The range checks of the converters are kept as error results, but the model does not prove that intermediate values fit in 64 bits.
- The Revised Julian round trip through `revJulianToJdn` is claimed only away from the late dates (January and February of years that leave 200 or 600 after division by 900). On those dates it fails by one day, as "## Findings" records.
- JdnToRevJulian: its own contract states only when it fails. Validity, the day number and the round trip of what it produces are the lemmas `JdnToRevJulianValid`, `JdnToRevJulianRoundTrip` and `RevJulianDateRoundTrip`.
- RevJulianToGregorian: its own contract states the failure set and the value as the Gregorian date of `revJulianToJdn`'s day number. Validity and the same-day property, with its exception, are `ConverterProperties.RevJulianToGregorianSameDay`.
- CalculationMethods.JulianPaschaWindow: proved from year 0 on only. For negative years the truncating arithmetic can leave the window, as `GregorianPaschaFebruary` and `JulianPaschaFebruary` show. The Sunday lemmas are limited to year 0 on for the same reason.
- CalculationMethods.GregorianPaschaWindow: proved from year 0 on only, for the same reason.
- CalculatorModel.WeeksBetweenPaschasExact: stated from year 0 to the last Julian year only. Beyond that year the Julian method fails, and for negative years the window lemmas it relies on are not proved.
- `daysUntil` reads the wall clock (src/pascha_calculator_model.cpp:47-52). Here the current date is the parameter `today`.
- Observers and views are identified by integers. What they do with an update, or with `createView`, is not modelled. The calls themselves are recorded in `updates` and `createdViews`.
- The "Invalid year" branch of both controllers' `calculate` is not modelled. `validateYear` always returns true, so that branch cannot run.
- The widgets, the application entry point and the configuration files (`app/wxGuiView.cpp`, `app/app.cpp`, `app/config_io.cpp`) are not part of this model. They are display and file I/O.
- Determinism of the calculation methods (equal years give equal dates) holds because every method is a function. No lemma states it.
- `std::unique_ptr` ownership and moves are not modelled. A chain is a value, and the model holds `None` for the null pointer.
- Target codes: the controller switches on `e_target_date::weeksBetween`, `e_target_date::daysUntil` and the feast names (src/gui_controller.cpp:27,57-92). The header declares the enumeration in namespace `e_target_output` (include/pascha/calculation_options.h:37-54), so no `e_target_date` is defined. The model takes the codes from that header.

## Findings

| source | as written | input that shows it | evidently intended | confidence | as-written member | corrected member |
|---|---|---|---|---|---|---|
| src/calendar_conversion.cpp:169-181 | the two 900-year terms of `revJulianToJdn` add 300 and 700 to the calendar year `date.year`, while every other term uses the March-based year | Revised Julian 2900-02-29: its day number comes out one too large, so `revJulianToGregorian` gives 2900-03-01, where test/calendar_conversion_test.cpp:362-369 expects 2900-02-28 | use the March-based year `y` in both terms, so the day number of every valid date maps back to it | high; not executed | RevJulianRoundTrip.RevJulianDayNumberMisses | RevJulianRoundTrip.IntendedRevJulianToGregorian |
