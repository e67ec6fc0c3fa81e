/** The application's own `GuiController`: the same four steps as the
    library's controller, for options that carry a list of target outputs of
    which only the first is read. */
module AppGuiController {
  import opened Dates
  import opened CalculationChain
  import opened CalculatorModel
  import Library = GuiController

  /** The application's `CalculationOptions`: a list of targets in place
      of one. */
  datatype AppCalculationOptions = AppCalculationOptions(
    calculationMethod: int,
    targetOutputs: seq<int>,
    outputCalendar: int,
    options: seq<int>,
    year: int)

  /** The request the application's controller makes: the library
      controller's request for the first target. */
  function AppRequest(options: AppCalculationOptions): Library.Request
    requires |options.targetOutputs| > 0
  {
    Library.RequestFor(options.calculationMethod, options.targetOutputs[0], options.outputCalendar, options.options)
  }

  /** Only the first target is read: targets after it change nothing, and
      the request is the one the library's controller makes for the options
      with that target alone. */
  lemma AppRequestFront(options: AppCalculationOptions, rest: seq<int>)
    requires |options.targetOutputs| > 0
    ensures AppRequest(options.(targetOutputs := [options.targetOutputs[0]] + rest)) == AppRequest(options)
    ensures var single := Library.CalculationOptions(options.calculationMethod, options.targetOutputs[0],
                                                     options.outputCalendar, options.options, options.year);
      AppRequest(options)
      == Library.RequestFor(single.calculationMethod, single.targetOutput, single.outputCalendar, single.options)
  {
  }

  class GuiController {
    /** `m_model`: the model the controller drives. */
    const model: PaschaCalculatorModel
    /** `m_views`, in the order they were added. */
    var views: seq<Library.ViewId>
    /** Every `createView` call made on a view so far, oldest first. */
    var createdViews: seq<Library.ViewId>

    /** A controller starts with its model and no views. */
    constructor (model: PaschaCalculatorModel)
      ensures this.model == model && views == [] && createdViews == []
    {
      this.model := model;
      views := [];
      createdViews := [];
    }

    /** `validateYear`: every year is accepted. */
    function ValidateYear(year: int): (valid: bool)
      ensures valid
    {
      true
    }

    /** `calculate`, with the wall-clock date `today` as an argument; the
        target list must not be empty, since its first entry is read. */
    method Calculate(options: AppCalculationOptions, today: Date)
      requires |options.targetOutputs| > 0
      modifies model
      ensures model.calculationMethod == Library.InstalledMethod(AppRequest(options), old(model.calculationMethod))
      ensures model.updates
        == old(model.updates) + Library.RequestUpdates(AppRequest(options), options.year, today, model.observers)
      ensures model.observers == old(model.observers)
    {
      var target := options.targetOutputs[0];
      if target == Library.WeeksBetweenTarget {
        assert Library.RequestFor(options.calculationMethod, target, options.outputCalendar, options.options) == Library.WeeksBetweenRequest;
        model.WeeksBetween(options.year, Some(JulianMethod), Some(GregorianMethod));
        return;
      }
      var chain := if options.calculationMethod == Library.GregorianCode then GregorianMethod else JulianMethod;
      if target == Library.DaysUntilTarget {
        assert Library.RequestFor(options.calculationMethod, target, options.outputCalendar, options.options) == Library.DaysUntilRequest(chain);
        model.SetCalculationMethod(chain);
        model.DaysUntil(options.year, today);
        return;
      }
      match Library.FeastOfTarget(target) {
        case Some(feast) => chain := FeastMethod(feast, chain);
        case None =>
      }
      if options.outputCalendar == Library.GregorianCalendarCode {
      } else if options.outputCalendar == Library.RevJulianCalendarCode {
        chain := RevisedJulianOutputCalendar(chain);
      } else {
        chain := JulianOutputCalendar(chain);
      }
      ghost var decorated := chain;
      assert decorated == Library.WithOutputCalendar(options.outputCalendar,
        Library.WithTarget(target, Library.BaseMethod(options.calculationMethod)));
      var i := 0;
      while i < |options.options|
        invariant 0 <= i <= |options.options|
        invariant chain == Library.WithOptions(options.options[..i], decorated)
      {
        assert options.options[..i + 1][..i] == options.options[..i];
        if options.options[i] == Library.ByzantineOption {
          chain := ByzantineDate(chain);
        }
        i := i + 1;
      }
      assert options.options[..|options.options|] == options.options;
      assert Library.RequestFor(options.calculationMethod, target, options.outputCalendar, options.options) == Library.CalculateRequest(chain);
      model.SetCalculationMethod(chain);
      model.Calculate(options.year);
    }

    /** `addView`: appends, even a view already added. */
    method AddView(view: Library.ViewId)
      modifies this
      ensures views == old(views) + [view]
      ensures createdViews == old(createdViews)
    {
      views := views + [view];
    }

    /** `removeView`: erases every entry of `view`. */
    method RemoveView(view: Library.ViewId)
      modifies this
      ensures views == Without(old(views), view)
      ensures createdViews == old(createdViews)
    {
      views := Without(views, view);
    }

    /** `start`: asks each view, in order, to draw itself. */
    method Start()
      modifies this
      ensures createdViews == old(createdViews) + views
      ensures views == old(views)
    {
      var i := 0;
      while i < |views|
        invariant 0 <= i <= |views|
        invariant views == old(views)
        invariant createdViews == old(createdViews) + views[..i]
      {
        assert views[..i + 1] == views[..i] + [views[i]];
        createdViews := createdViews + [views[i]];
        i := i + 1;
      }
      assert views[..|views|] == views;
    }
  }
}
