/** `GuiController`: the controller of the model-view-controller design. From
    the options a view hands over it builds a chain of calculation methods
    (an algorithm, then a feast, then an output calendar, then the output
    options), installs it in the model and asks the model to calculate. It
    also keeps the list of views and asks each to draw itself on start. */
module GuiController {
  import opened Dates
  import opened CalendarConversion
  import opened CalendarRoundTrip
  import opened CalculationMethods
  import opened CalculationChain
  import opened CalculatorModel

  // ---------------------------------------------------------------------------
  // Options

  /** The integer codes of the options a view hands over. */
  const JulianCode: int := 0
  const GregorianCode: int := 1

  const PaschaTarget: int := 0
  const DaysUntilTarget: int := 1
  const WeeksBetweenTarget: int := 2
  const MeatfareTarget: int := 3
  const CheesefareTarget: int := 4
  const AshWednesdayTarget: int := 5
  const MidfeastPentecostTarget: int := 6
  const LeavetakingPaschaTarget: int := 7
  const AscensionTarget: int := 8
  const PentecostTarget: int := 9

  const JulianCalendarCode: int := 0
  const GregorianCalendarCode: int := 1
  const RevJulianCalendarCode: int := 2

  const ByzantineOption: int := 0

  /** `CalculationOptions`: what to compute, for which year. Every field is
      a plain integer, so any value may arrive. */
  datatype CalculationOptions = CalculationOptions(
    calculationMethod: int,
    targetOutput: int,
    outputCalendar: int,
    options: seq<int>,
    year: int)

  /** A view, identified by its address. */
  type ViewId = int

  // ---------------------------------------------------------------------------
  // The chain the controller builds

  /** Step 1: the algorithm; any code but Gregorian gives the Julian one. */
  function BaseMethod(calculationMethod: int): Method {
    if calculationMethod == GregorianCode then GregorianMethod else JulianMethod
  }

  /** The feast a target code names, if it names one. */
  function FeastOfTarget(targetOutput: int): Option<Feast> {
    if targetOutput == MeatfareTarget then Some(Meatfare)
    else if targetOutput == CheesefareTarget then Some(Cheesefare)
    else if targetOutput == AshWednesdayTarget then Some(AshWednesday)
    else if targetOutput == MidfeastPentecostTarget then Some(MidfeastPentecost)
    else if targetOutput == LeavetakingPaschaTarget then Some(LeavetakingPascha)
    else if targetOutput == AscensionTarget then Some(Ascension)
    else if targetOutput == PentecostTarget then Some(Pentecost)
    else None
  }

  /** The target code of each feast. */
  function TargetOfFeast(feast: Feast): int {
    match feast
    case Meatfare => MeatfareTarget
    case Cheesefare => CheesefareTarget
    case AshWednesday => AshWednesdayTarget
    case MidfeastPentecost => MidfeastPentecostTarget
    case LeavetakingPascha => LeavetakingPaschaTarget
    case Ascension => AscensionTarget
    case Pentecost => PentecostTarget
  }

  /** Each feast has one target code and it is the one that names it; the
      codes that name a feast are 3 to 9. */
  lemma FeastTargetCodes(feast: Feast, targetOutput: int)
    ensures FeastOfTarget(TargetOfFeast(feast)) == Some(feast)
    ensures FeastOfTarget(targetOutput) == Some(feast) ==> targetOutput == TargetOfFeast(feast)
    ensures FeastOfTarget(targetOutput).Some? <==> MeatfareTarget <= targetOutput <= PentecostTarget
  {
  }

  /** Step 2: the feast's decorator, when the target names a feast; Pascha
      and every other code leave the method as it is. */
  function WithTarget(targetOutput: int, inner: Method): Method {
    match FeastOfTarget(targetOutput)
    case Some(feast) => FeastMethod(feast, inner)
    case None => inner
  }

  /** Step 3: the output calendar. Gregorian adds nothing, since the
      algorithms already answer in it; any code but Gregorian and Revised
      Julian gives the Julian calendar. */
  function WithOutputCalendar(outputCalendar: int, inner: Method): Method {
    if outputCalendar == GregorianCalendarCode then inner
    else if outputCalendar == RevJulianCalendarCode then RevisedJulianOutputCalendar(inner)
    else JulianOutputCalendar(inner)
  }

  /** Step 4: each Byzantine entry of the option list, in order, wraps the
      method once more; other codes are passed over. */
  function WithOptions(options: seq<int>, inner: Method): Method {
    if options == [] then inner
    else
      var chain := WithOptions(options[..|options| - 1], inner);
      if options[|options| - 1] == ByzantineOption then ByzantineDate(chain) else chain
  }

  /** What the controller asks of the model. */
  datatype Request =
    | WeeksBetweenRequest
    | DaysUntilRequest(base: Method)
    | CalculateRequest(chain: Method)

  /** `GuiController::calculate` as a request to the model: the weeks
      between the two algorithms, the days until the chosen algorithm's
      Pascha, or a calculation with the chain of the four steps. */
  function RequestFor(calculationMethod: int, targetOutput: int, outputCalendar: int, options: seq<int>): Request {
    if targetOutput == WeeksBetweenTarget then WeeksBetweenRequest
    else if targetOutput == DaysUntilTarget then DaysUntilRequest(BaseMethod(calculationMethod))
    else
      CalculateRequest(WithOptions(options,
        WithOutputCalendar(outputCalendar, WithTarget(targetOutput, BaseMethod(calculationMethod)))))
  }

  /** What the model sends its observers for a request. */
  function RequestUpdates(request: Request, year: int, today: Date, observers: seq<ObserverId>): seq<Event> {
    match request
    case WeeksBetweenRequest =>
      Broadcast(observers, WeeksBetweenReply(year, Some(JulianMethod), Some(GregorianMethod)))
    case DaysUntilRequest(base) => Broadcast(observers, DaysUntilReply(Some(base), year, today))
    case CalculateRequest(chain) => Notification(observers, CalculateReply(Some(chain), year))
  }

  /** The calculation method the model holds after a request. */
  function InstalledMethod(request: Request, previous: Option<Method>): Option<Method> {
    match request
    case WeeksBetweenRequest => previous
    case DaysUntilRequest(base) => Some(base)
    case CalculateRequest(chain) => Some(chain)
  }

  // ---------------------------------------------------------------------------
  // Properties of the chain

  /** The number of Byzantine entries in an option list. */
  function ByzantineCount(options: seq<int>): nat {
    if options == [] then 0
    else ByzantineCount(options[..|options| - 1]) + (if options[|options| - 1] == ByzantineOption then 1 else 0)
  }

  /** Step 4 wraps the method once per Byzantine entry, repeated entries
      included, and nothing else. */
  lemma {:induction false} WithOptionsByzantines(options: seq<int>, inner: Method)
    ensures WithOptions(options, inner) == Byzantines(ByzantineCount(options), inner)
  {
    if options != [] {
      WithOptionsByzantines(options[..|options| - 1], inner);
    }
  }

  /** With the default options (Julian algorithm, Pascha, Julian calendar, no
      option) the controller computes the raw Julian computus date, from
      year 0 to the last Julian year the engine accepts. */
  lemma DefaultOptionsJulianPascha(year: int)
    requires 0 <= year <= JulianMaxYear
    ensures RequestFor(JulianCode, PaschaTarget, JulianCalendarCode, [])
      == CalculateRequest(JulianOutputCalendar(JulianMethod))
    ensures Calculate(JulianOutputCalendar(JulianMethod), year) == Success(JulianPaschaJulianDate(year))
  {
    JulianOutputOfJulianMethod(year);
  }

  /** A feast asked for in the Gregorian calendar, with no Byzantine option,
      falls on its own day of the week from year 0 on, for either
      algorithm. */
  lemma FeastRequestWeekday(calculationMethod: int, feast: Feast, options: seq<int>, year: int)
    requires 0 <= year <= JulianMaxYear
    requires ByzantineOption !in options
    ensures var request := RequestFor(calculationMethod, TargetOfFeast(feast), GregorianCalendarCode, options);
      request.CalculateRequest?
      && Calculate(request.chain, year).Success?
      && Weekday(GregorianDayNumber(Calculate(request.chain, year).value)) == FeastWeekday(feast)
  {
    var base := BaseMethod(calculationMethod);
    assert RequestFor(calculationMethod, TargetOfFeast(feast), GregorianCalendarCode, options)
        == CalculateRequest(FeastMethod(feast, base)) by {
      FeastTargetCodes(feast, TargetOfFeast(feast));
      NoByzantineCount(options);
      WithOptionsByzantines(options, FeastMethod(feast, base));
    }
    FeastWeekdays(feast, base, year);
  }

  /** An option list without a Byzantine entry counts none. */
  lemma {:induction false} NoByzantineCount(options: seq<int>)
    requires ByzantineOption !in options
    ensures ByzantineCount(options) == 0
  {
    if options != [] {
      assert options[..|options| - 1] <= options;
      NoByzantineCount(options[..|options| - 1]);
    }
  }

  /** The Julian and the Gregorian output calendars of the same request name
      the same day. */
  lemma OutputCalendarsSameDay(calculationMethod: int, targetOutput: int, options: seq<int>, year: int)
    requires targetOutput != WeeksBetweenTarget && targetOutput != DaysUntilTarget
    requires ByzantineOption !in options
    ensures var julian := RequestFor(calculationMethod, targetOutput, JulianCalendarCode, options).chain;
      var gregorian := RequestFor(calculationMethod, targetOutput, GregorianCalendarCode, options).chain;
      Calculate(julian, year).Success? ==>
        Calculate(gregorian, year).Success?
        && JulianDayNumber(Calculate(julian, year).value) == GregorianDayNumber(Calculate(gregorian, year).value)
  {
    var inner := WithTarget(targetOutput, BaseMethod(calculationMethod));
    NoByzantineCount(options);
    WithOptionsByzantines(options, JulianOutputCalendar(inner));
    WithOptionsByzantines(options, inner);
    JulianOutputCalendarCalculate(inner, year);
  }

  /** `daysUntil` ignores the output calendar and the options: it always
      counts to the algorithm's Pascha in the Gregorian calendar. The
      weeks between the algorithms ignore every option. */
  lemma RequestIgnores(options1: CalculationOptions, options2: CalculationOptions)
    ensures (options1.targetOutput == DaysUntilTarget == options2.targetOutput
             && options1.calculationMethod == options2.calculationMethod) ==>
      RequestFor(options1.calculationMethod, DaysUntilTarget, options1.outputCalendar, options1.options)
      == RequestFor(options2.calculationMethod, DaysUntilTarget, options2.outputCalendar, options2.options)
    ensures options1.targetOutput == WeeksBetweenTarget == options2.targetOutput ==>
      RequestFor(options1.calculationMethod, WeeksBetweenTarget, options1.outputCalendar, options1.options)
      == RequestFor(options2.calculationMethod, WeeksBetweenTarget, options2.outputCalendar, options2.options)
  {
  }

  // ---------------------------------------------------------------------------
  // The controller

  class GuiController {
    /** `m_model`: the model the controller drives. */
    const model: PaschaCalculatorModel
    /** `m_views`, in the order they were added. */
    var views: seq<ViewId>
    /** Every `createView` call made on a view so far, oldest first. */
    var createdViews: seq<ViewId>

    /** A controller starts with its model and no views. */
    constructor (model: PaschaCalculatorModel)
      ensures this.model == model && views == [] && createdViews == []
    {
      this.model := model;
      views := [];
      createdViews := [];
    }

    /** `validateYear`: every year is accepted. */
    function ValidateYear(year: int): (valid: bool)
      ensures valid
    {
      true
    }

    /** `calculate`, with the wall-clock date `today` as an argument: builds
        the chain step by step, installs it in the model and makes the
        request; the model's observers are sent the reply. */
    method Calculate(options: CalculationOptions, today: Date)
      modifies model
      ensures var request := RequestFor(options.calculationMethod, options.targetOutput,
                                        options.outputCalendar, options.options);
        model.calculationMethod == InstalledMethod(request, old(model.calculationMethod))
        && model.updates == old(model.updates) + RequestUpdates(request, options.year, today, model.observers)
      ensures model.observers == old(model.observers)
    {
      if options.targetOutput == WeeksBetweenTarget {
        assert RequestFor(options.calculationMethod, options.targetOutput, options.outputCalendar, options.options) == WeeksBetweenRequest;
        model.WeeksBetween(options.year, Some(JulianMethod), Some(GregorianMethod));
        return;
      }
      var chain := if options.calculationMethod == GregorianCode then GregorianMethod else JulianMethod;
      if options.targetOutput == DaysUntilTarget {
        assert RequestFor(options.calculationMethod, options.targetOutput, options.outputCalendar, options.options) == DaysUntilRequest(chain);
        model.SetCalculationMethod(chain);
        model.DaysUntil(options.year, today);
        return;
      }
      match FeastOfTarget(options.targetOutput) {
        case Some(feast) => chain := FeastMethod(feast, chain);
        case None =>
      }
      if options.outputCalendar == GregorianCalendarCode {
      } else if options.outputCalendar == RevJulianCalendarCode {
        chain := RevisedJulianOutputCalendar(chain);
      } else {
        chain := JulianOutputCalendar(chain);
      }
      ghost var decorated := chain;
      assert decorated == WithOutputCalendar(options.outputCalendar,
        WithTarget(options.targetOutput, BaseMethod(options.calculationMethod)));
      var i := 0;
      while i < |options.options|
        invariant 0 <= i <= |options.options|
        invariant chain == WithOptions(options.options[..i], decorated)
      {
        assert options.options[..i + 1][..i] == options.options[..i];
        if options.options[i] == ByzantineOption {
          chain := ByzantineDate(chain);
        }
        i := i + 1;
      }
      assert options.options[..|options.options|] == options.options;
      assert RequestFor(options.calculationMethod, options.targetOutput, options.outputCalendar, options.options) == CalculateRequest(chain);
      model.SetCalculationMethod(chain);
      model.Calculate(options.year);
    }

    /** `addView`: appends, even a view already added. */
    method AddView(view: ViewId)
      modifies this
      ensures views == old(views) + [view]
      ensures createdViews == old(createdViews)
    {
      views := views + [view];
    }

    /** `removeView`: erases every entry of `view`. */
    method RemoveView(view: ViewId)
      modifies this
      ensures views == Without(old(views), view)
      ensures createdViews == old(createdViews)
    {
      views := Without(views, view);
    }

    /** `start`: asks each view, in order, to draw itself. */
    method Start()
      modifies this
      ensures createdViews == old(createdViews) + views
      ensures views == old(views)
    {
      var i := 0;
      while i < |views|
        invariant 0 <= i <= |views|
        invariant views == old(views)
        invariant createdViews == old(createdViews) + views[..i]
      {
        assert views[..i + 1] == views[..i] + [views[i]];
        createdViews := createdViews + [views[i]];
        i := i + 1;
      }
      assert views[..|views|] == views;
    }
  }
}
