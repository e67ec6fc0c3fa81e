/** `PaschaCalculatorModel`: the model of the model-view-controller design. It
    holds the calculation method the controller installed and the observers
    (the views) registered with it, and answers each request by sending every
    observer the same update. What the observers are sent is kept here as a
    log of `update` calls, in the order they are made. */
module CalculatorModel {
  import opened Dates
  import opened CalendarConversion
  import opened CalendarRoundTrip
  import opened CalculationMethods
  import opened CalculationChain

  datatype Option<T> = None | Some(value: T)

  /** An observer, identified by its address. */
  type ObserverId = int

  /** The argument of one of the four `update` overloads of an observer. */
  datatype Message =
    | DateMessage(date: Date)
    | WeeksMessage(weeks: int)
    | DaysMessage(days: int)
    | TextMessage(text: string)

  /** One `update` call: which observer was called, with what. */
  datatype Event = Event(observer: ObserverId, message: Message)

  const NoMethodMessage: string := "No calculation method set!"

  // ---------------------------------------------------------------------------
  // Observer lists

  /** The `update` calls of one notification: one per registration, in the
      order of the list, so an observer registered twice is called twice. */
  function Broadcast(observers: seq<ObserverId>, message: Message): (events: seq<Event>)
    ensures |events| == |observers|
    ensures forall i :: 0 <= i < |events| ==> events[i] == Event(observers[i], message)
  {
    if observers == [] then []
    else Broadcast(observers[..|observers| - 1], message) + [Event(observers[|observers| - 1], message)]
  }

  /** The `update` calls for a reply that may be absent. */
  function Notification(observers: seq<ObserverId>, reply: Option<Message>): seq<Event> {
    match reply
    case None => []
    case Some(message) => Broadcast(observers, message)
  }

  /** The observer list after `std::erase` of `observer`: every registration
      of it goes, and every other observer keeps all its registrations. */
  function Without(observers: seq<ObserverId>, observer: ObserverId): (rest: seq<ObserverId>)
    ensures observer !in rest
    ensures forall other :: other != observer ==> multiset(rest)[other] == multiset(observers)[other]
  {
    if observers == [] then []
    else
      var last := observers[|observers| - 1];
      var front := observers[..|observers| - 1];
      assert observers == front + [last];
      if last == observer then Without(front, observer) else Without(front, observer) + [last]
  }

  /** Erasing an observer that is not registered leaves the list as it was. */
  lemma {:induction false} WithoutAbsent(observers: seq<ObserverId>, observer: ObserverId)
    requires observer !in observers
    ensures Without(observers, observer) == observers
  {
    if observers != [] {
      WithoutAbsent(observers[..|observers| - 1], observer);
    }
  }

  /** Erasing keeps the remaining observers in their order: erasing from two
      lists joined is erasing from each. */
  lemma {:induction false} WithoutConcat(front: seq<ObserverId>, back: seq<ObserverId>, observer: ObserverId)
    ensures Without(front + back, observer) == Without(front, observer) + Without(back, observer)
  {
    if back == [] {
      assert front + back == front;
    } else {
      var init, last := back[..|back| - 1], back[|back| - 1];
      assert front + back == (front + init) + [last];
      assert (front + back)[..|front + back| - 1] == front + init;
      WithoutConcat(front, init, observer);
    }
  }

  // ---------------------------------------------------------------------------
  // Replies

  /** What `calculate` sends: the message that no method is set, or the text
      of the error the method raised. A successful calculation sends nothing:
      the date is computed and dropped. */
  function CalculateReply(calculationMethod: Option<Method>, year: int): (reply: Option<Message>)
    ensures reply.None? <==> calculationMethod.Some? && Calculate(calculationMethod.value, year).Success?
    ensures reply.Some? ==>
      (reply.value.TextMessage?
       && (reply.value.text == NoMethodMessage || reply.value.text == JulianRangeError
           || reply.value.text == GregorianRangeError || reply.value.text == RevJulianJdnError))
  {
    match calculationMethod
    case None => Some(TextMessage(NoMethodMessage))
    case Some(m) =>
      match Calculate(m, year)
      case Failure(e) => Some(TextMessage(e))
      case Success(_) => None
  }

  /** What `daysUntil` sends: the number of days from `today` to the date the
      method computes, or the first error met on the way. */
  function DaysUntilReply(calculationMethod: Option<Method>, year: int, today: Date): Message {
    match calculationMethod
    case None => TextMessage(NoMethodMessage)
    case Some(m) => DaysFrom(today, Calculate(m, year))
  }

  /** The days from `today` to a computed date: its error, else the error of
      converting it, else the error of converting `today`, else the
      difference of their day numbers. */
  function DaysFrom(today: Date, computed: Result<Date>): Message {
    match computed
    case Failure(e) => TextMessage(e)
    case Success(date) =>
      match GregorianToJdn(date)
      case Failure(e) => TextMessage(e)
      case Success(dateJdn) =>
        match GregorianToJdn(today)
        case Failure(e) => TextMessage(e)
        case Success(nowJdn) => DaysMessage(dateJdn - nowJdn)
  }

  /** What `weeksBetween` sends: the days from the second method's date to the
      first's, divided by 7 with C++ truncation, or the first error met. */
  function WeeksBetweenReply(year: int, first: Option<Method>, second: Option<Method>): Message {
    if first.None? || second.None? then TextMessage(NoMethodMessage)
    else WeeksApart(Calculate(first.value, year), Calculate(second.value, year))
  }

  /** The weeks from one computed date to another, or the first error met:
      the first date and its conversion come before the second. */
  function WeeksApart(first: Result<Date>, second: Result<Date>): Message {
    match first
    case Failure(e) => TextMessage(e)
    case Success(date1) =>
      match GregorianToJdn(date1)
      case Failure(e) => TextMessage(e)
      case Success(date1Jdn) =>
        match second
        case Failure(e) => TextMessage(e)
        case Success(date2) =>
          match GregorianToJdn(date2)
          case Failure(e) => TextMessage(e)
          case Success(date2Jdn) => WeeksMessage(TDiv(date1Jdn - date2Jdn, 7))
  }

  /** The number of days `daysUntil` sends counts from `today` to the computed
      date: shifting `today` by it lands on that date. */
  lemma DaysFromCounts(today: Date, date: Date)
    requires ValidGregorianDate(date)
    requires DaysFrom(today, Success(date)).DaysMessage?
    ensures Shift(DaysFrom(today, Success(date)).days, today) == date
  {
    var days := DaysFrom(today, Success(date)).days;
    assert GregorianDayNumber(today) + days == GregorianDayNumber(date) by {
      GregorianToJdnClosedForm(date);
      GregorianToJdnClosedForm(today);
    }
    GregorianDateRoundTrip(date);
    assert Shift(days, today) == JdnToGregorian(GregorianDayNumber(date));
  }

  /** `daysUntil` reports the method's own error first; once the method
      succeeds within the Gregorian range, only `today` can fail, and then
      with the Gregorian range error. */
  lemma DaysFromErrors(today: Date, computed: Result<Date>)
    ensures computed.Failure? ==> DaysFrom(today, computed) == TextMessage(computed.error)
    ensures computed.Success? && GregorianYearInRange(computed.value.year) ==>
      (DaysFrom(today, computed).DaysMessage? <==> GregorianYearInRange(today.year))
      && (!GregorianYearInRange(today.year) ==> DaysFrom(today, computed) == TextMessage(GregorianRangeError))
  {
    GregorianToJdnClosedForm(today);
  }

  /** The weeks `weeksBetween` sends are the day difference divided by 7 and
      truncated toward zero: at most six days are dropped, on the side of
      zero. */
  lemma WeeksApartTruncates(date1: Date, date2: Date)
    requires GregorianYearInRange(date1.year) && GregorianYearInRange(date2.year)
    ensures var days := GregorianDayNumber(date1) - GregorianDayNumber(date2);
      var reply := WeeksApart(Success(date1), Success(date2));
      reply.WeeksMessage?
      && (days >= 0 ==> 0 <= days - 7 * reply.weeks < 7)
      && (days < 0 ==> -7 < days - 7 * reply.weeks <= 0)
  {
    GregorianToJdnClosedForm(date1);
    GregorianToJdnClosedForm(date2);
  }

  /** `weeksBetween` reports the first failure in the order the engine meets
      them: the first method, its conversion, then the second method. */
  lemma WeeksApartErrors(first: Result<Date>, second: Result<Date>)
    ensures first.Failure? ==> WeeksApart(first, second) == TextMessage(first.error)
    ensures first.Success? && GregorianYearInRange(first.value.year) && second.Failure? ==>
      WeeksApart(first, second) == TextMessage(second.error)
    ensures first.Success? && !GregorianYearInRange(first.value.year) ==>
      WeeksApart(first, second) == TextMessage(GregorianRangeError)
  {
    if first.Success? {
      GregorianToJdnClosedForm(first.value);
    }
  }

  /** From year 0 on, both computus dates are Sundays, so the weeks
      `weeksBetween` sends from the Gregorian Pascha to the Julian one are
      exact: no day is dropped. */
  lemma WeeksBetweenPaschasExact(year: int)
    requires 0 <= year <= JulianMaxYear
    ensures var reply := WeeksBetweenReply(year, Some(JulianMethod), Some(GregorianMethod));
      reply.WeeksMessage?
      && 7 * reply.weeks == GregorianDayNumber(JulianCalculationMethod(year).value)
                            - GregorianDayNumber(GregorianCalculationMethod(year))
  {
    var julian, gregorian := JulianCalculationMethod(year).value, GregorianCalculationMethod(year);
    assert GregorianYearInRange(julian.year) by { JulianPaschaGregorianInRange(year); }
    assert IsSunday(GregorianDayNumber(julian)) by { JulianMethodSunday(year); }
    assert IsSunday(GregorianDayNumber(gregorian)) by { GregorianPaschaSunday(year); }
    WeeksApartSundays(julian, gregorian);
    WeeksBetweenOfBaseMethods(year);
  }

  /** `weeksBetween` with the two computus methods compares their dates. */
  lemma WeeksBetweenOfBaseMethods(year: int)
    ensures WeeksBetweenReply(year, Some(JulianMethod), Some(GregorianMethod))
      == WeeksApart(JulianCalculationMethod(year), Success(GregorianCalculationMethod(year)))
  {
  }

  /** Between two Sundays in range, `weeksBetween` sends the exact number of
      weeks. */
  lemma WeeksApartSundays(date1: Date, date2: Date)
    requires GregorianYearInRange(date1.year) && GregorianYearInRange(date2.year)
    requires IsSunday(GregorianDayNumber(date1)) && IsSunday(GregorianDayNumber(date2))
    ensures var reply := WeeksApart(Success(date1), Success(date2));
      reply.WeeksMessage? && 7 * reply.weeks == GregorianDayNumber(date1) - GregorianDayNumber(date2)
  {
    WeeksApartDays(date1, date2);
    SundaysWholeWeeksApart(GregorianDayNumber(date1), GregorianDayNumber(date2));
  }

  /** Between two dates in range, `weeksBetween` truncates their day
      difference. */
  lemma WeeksApartDays(date1: Date, date2: Date)
    requires GregorianYearInRange(date1.year) && GregorianYearInRange(date2.year)
    ensures WeeksApart(Success(date1), Success(date2))
      == WeeksMessage(TDiv(GregorianDayNumber(date1) - GregorianDayNumber(date2), 7))
  {
    GregorianToJdnClosedForm(date1);
    GregorianToJdnClosedForm(date2);
  }

  /** Two Sundays lie a whole number of weeks apart, which truncation keeps. */
  lemma SundaysWholeWeeksApart(jdn1: int, jdn2: int)
    requires IsSunday(jdn1) && IsSunday(jdn2)
    ensures (jdn1 - jdn2) % 7 == 0 && TDiv(jdn1 - jdn2, 7) == (jdn1 - jdn2) / 7
  {
    var k := (jdn1 + 1) / 7 - (jdn2 + 1) / 7;
    assert jdn1 - jdn2 == 7 * k;
    DivModUnique(jdn1 - jdn2, 7, k, 0);
    if jdn1 - jdn2 < 0 {
      DivModUnique(jdn2 - jdn1, 7, -k, 0);
    }
  }

  // ---------------------------------------------------------------------------
  // The model

  class PaschaCalculatorModel {
    /** `m_calculation_method`; `None` is the null pointer. */
    var calculationMethod: Option<Method>
    /** `m_observers`, in registration order. */
    var observers: seq<ObserverId>
    /** Every `update` call made on an observer so far, oldest first. */
    var updates: seq<Event>

    /** A model starts with no method and no observers. */
    constructor ()
      ensures calculationMethod == None && observers == [] && updates == []
    {
      calculationMethod := None;
      observers := [];
      updates := [];
    }

    /** `setCalculationMethod`: the new method replaces the old one,
        whatever it was. */
    method SetCalculationMethod(m: Method)
      modifies this
      ensures calculationMethod == Some(m)
      ensures observers == old(observers) && updates == old(updates)
    {
      calculationMethod := Some(m);
    }

    /** The four `notify` overloads: each observer, in list order, is sent
        `message`; the list and the method stay as they are. */
    method Notify(message: Message)
      modifies this
      ensures updates == old(updates) + Broadcast(observers, message)
      ensures observers == old(observers) && calculationMethod == old(calculationMethod)
    {
      var i := 0;
      while i < |observers|
        invariant 0 <= i <= |observers|
        invariant updates == old(updates) + Broadcast(observers[..i], message)
        invariant observers == old(observers) && calculationMethod == old(calculationMethod)
      {
        assert observers[..i + 1][..i] == observers[..i];
        updates := updates + [Event(observers[i], message)];
        i := i + 1;
      }
      assert observers[..|observers|] == observers;
    }

    /** `calculate`: evaluates the installed method once, and sends its error,
        if any, or the message that no method is set. */
    method Calculate(year: int)
      modifies this
      ensures updates == old(updates) + Notification(observers, CalculateReply(old(calculationMethod), year))
      ensures observers == old(observers) && calculationMethod == old(calculationMethod)
    {
      var reply := CalculateReply(calculationMethod, year);
      if reply.Some? {
        Notify(reply.value);
      }
    }

    /** `daysUntil`, with the wall-clock date `today` as an argument. */
    method DaysUntil(year: int, today: Date)
      modifies this
      ensures updates == old(updates) + Broadcast(observers, DaysUntilReply(old(calculationMethod), year, today))
      ensures observers == old(observers) && calculationMethod == old(calculationMethod)
    {
      Notify(DaysUntilReply(calculationMethod, year, today));
    }

    /** `weeksBetween`: compares two methods handed over for this call only;
        the installed method is neither used nor changed. */
    method WeeksBetween(year: int, first: Option<Method>, second: Option<Method>)
      modifies this
      ensures updates == old(updates) + Broadcast(observers, WeeksBetweenReply(year, first, second))
      ensures observers == old(observers) && calculationMethod == old(calculationMethod)
    {
      Notify(WeeksBetweenReply(year, first, second));
    }

    /** `addObserver`: appends, even an observer already registered. */
    method AddObserver(observer: ObserverId)
      modifies this
      ensures observers == old(observers) + [observer]
      ensures updates == old(updates) && calculationMethod == old(calculationMethod)
    {
      observers := observers + [observer];
    }

    /** `removeObserver`: erases every registration of `observer`. */
    method RemoveObserver(observer: ObserverId)
      modifies this
      ensures observers == Without(old(observers), observer)
      ensures updates == old(updates) && calculationMethod == old(calculationMethod)
    {
      observers := Without(observers, observer);
    }
  }
}
