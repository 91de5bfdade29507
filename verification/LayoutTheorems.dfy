/** What the finished layout guarantees to its consumers. */
module LayoutTheorems {
  import opened Shared
  import opened Sums
  import opened LayoutMerge
  import opened LayoutPack
  import opened LayoutSearch
  import opened LayoutBalance
  import opened LayoutHeader
  import opened LayoutPlots
  import opened LayoutOrder
  import opened LayoutScreen
  import opened LayoutMain
  import opened PlotData

  // ----- No line is lost -----

  /** Every line of every device is drawn on some plot, or there is no plot at all, and then for lack of room. */
  lemma NoLineLost(sc: Screen, plan: Plan, search: Search, plotOf: seq<nat>)
    requires sc.Valid() && Planned(sc, plan, search, plotOf)
    ensures var c := Config(sc.FirstSplit().plots, sc.cols, Final(search.trace));
            || Total(plan.lines, |plan.lines|) == Total(sc.draws, |sc.draws|)
            || (plan.lines == [] && (c.rows < MIN_PLOT_ROWS || !CanFit(c.PlotWidths(), c.cols, c.MaxStacks())))
  {
    hide BudgetOk, SpaceHeaders, MoreStacks, Stacked, SplitRows, CanFit, SumIf;
    if |plan.lines| > 0 {
      PlottedShowsEverything(sc.draws, plotOf, plan.lines);
    } else {
      var c := Config(sc.FirstSplit().plots, sc.cols, Final(search.trace));
      if NothingToDraw(sc.draws) {
        TotalZero(sc.draws, |sc.draws|);
      } else if PassOutcome(c, TooWide, 0, []) {
        var i :| 0 <= i < |c.PlotWidths()| && c.PlotWidths()[i] > c.cols;
        TooWideMeansNoFit(c.PlotWidths(), c.cols, i, c.MaxStacks());
      }
    }
  }

  lemma {:induction false} LinesOfBounded(info: seq<nat>, bound: nat, k: nat)
    requires k <= |info| && forall p :: 0 <= p < |info| ==> info[p] <= bound
    ensures forall i :: 0 <= i < |Lines(info, k)| ==> Lines(info, k)[i] <= bound
  {
    if k > 0 { LinesOfBounded(info, bound, k - 1); }
  }

  /** If no device starts with more than MAX_LINES_PER_PLOT lines, no plot ends with more. */
  lemma PlotLinesBounded(sc: Screen, plan: Plan, search: Search, plotOf: seq<nat>)
    requires sc.Valid() && Planned(sc, plan, search, plotOf)
    requires forall d :: 0 <= d < |sc.draws| ==> sc.draws[d] <= MAX_LINES_PER_PLOT
    ensures forall p :: 0 <= p < |plan.lines| ==> 0 < plan.lines[p] <= MAX_LINES_PER_PLOT
  {
    if search.fewest > 0 {
      HistoryBoundsLines(sc.FirstSplit().plots, sc.cols, sc.draws, search.trace);
      LinesOfBounded(Final(search.trace), MAX_LINES_PER_PLOT, |sc.draws|);
    }
  }

  // ----- The order of the plots -----

  /** Slot k is sized for plot k, for all k. */
  ghost predicate InOrder(plan: Plan) {
    |plan.Order()| == |plan.lines| && forall k :: 0 <= k < |plan.lines| ==> plan.Order()[k] == k
  }

  /** Slots are in plot order if and only if balancing left the stacks non-decreasing along the plots. */
  lemma SlotsInPlotOrderIff(sc: Screen, plan: Plan, search: Search, plotOf: seq<nat>)
    requires sc.Valid() && Planned(sc, plan, search, plotOf)
    ensures |plan.Order()| == |plan.lines|
    ensures InOrder(plan) <==> NonDecreasing(plan.inStack)
  {
    if plan.numStacks > 0 { SlotsMatchPlotsIff(plan.inStack, plan.numStacks); }
  }

  lemma BalancedEnds(st: Stacking, st2: Stacking, cols: nat, k: nat)
    requires Balanced(st, st2, cols, k)
    ensures Allocated(st, cols) && k <= |st.alloc| && AllStuckAbove(st, cols, k, |st.lines| - 1)
  {
  }

  lemma NoMoreStacksThanPlots(numPlots: nat, fewest: nat, stacks: nat, rows: nat)
    requires MoreStacks(numPlots, fewest, stacks, rows)
    ensures stacks <= numPlots
  {
  }

  /** What balancing starts from, and where it ends. */
  lemma PlannedRun(sc: Screen, plan: Plan, search: Search, plotOf: seq<nat>) returns (st: Stacking, k: nat)
    requires sc.Valid() && Planned(sc, plan, search, plotOf) && |plan.lines| > 0
    ensures st.lines == plan.lines && st.inStack == search.start && Allocated(st, sc.cols) && k == |st.alloc| == plan.numStacks <= |plan.lines|
    ensures plan.inStack == Run(st, sc.cols, k, |plan.lines| - 1).inStack
  {
    hide Balanced, Plotted, Run, SumIf, BudgetOk, SpaceHeaders, MoreStacks, Allocated, Stuck, Searched, Arranged;
    NoMoreStacksThanPlots(|plan.lines|, search.fewest, plan.numStacks, plan.b.plots);
    k := plan.numStacks;
    ghost var st2;
    st, st2 :| BalancedFrom(st, st2, sc.cols, plan.numStacks, plan.lines, search.start, plan.inStack);
    BalancedEnds(st, st2, sc.cols, k);
  }

  lemma PlannedStart(sc: Screen, plan: Plan, search: Search, plotOf: seq<nat>)
    requires sc.Valid() && Planned(sc, plan, search, plotOf) && |plan.lines| > 0
    ensures NonDecreasing(search.start)
  {
    hide Stacked, BudgetOk, SpaceHeaders, MoreStacks, Arranged, History, SearchOutcome;
    PackedPlots(sc.FirstSplit().plots, sc.cols, sc.draws, search.trace, search.fewest, search.start);
  }

  /** Plots none of which can overtake another keep their order, whatever the screen. */
  lemma SafeLinesKeepOrder(sc: Screen, plan: Plan, search: Search, plotOf: seq<nat>)
    requires sc.Valid() && Planned(sc, plan, search, plotOf) && NoOvertaking(plan.lines)
    ensures InOrder(plan)
  {
    hide NoOvertaking, Run, Allocated, Stuck, NonDecreasing, InOrder, Searched, Stacked, BudgetOk;
    if |plan.lines| > 0 {
      var st, k := PlannedRun(sc, plan, search, plotOf);
      PlannedStart(sc, plan, search, plotOf);
      RunKeepsOrder(st, sc.cols, k, |plan.lines| - 1);
      EndsInOrder(st, sc.cols, k, |plan.lines| - 1);
    } else {
      NoPlotsOrdered(sc, plan, search, plotOf);
    }
    SlotsInPlotOrderIff(sc, plan, search, plotOf);
  }

  lemma NoPlotsOrdered(sc: Screen, plan: Plan, search: Search, plotOf: seq<nat>)
    requires sc.Valid() && Planned(sc, plan, search, plotOf) && plan.lines == []
    ensures NonDecreasing(plan.inStack)
  {
  }

  /** Plots whose line counts do not increase keep their order, whatever the screen. */
  lemma NonIncreasingLinesKeepOrder(sc: Screen, plan: Plan, search: Search, plotOf: seq<nat>)
    requires sc.Valid() && Planned(sc, plan, search, plotOf) && NonIncreasing(plan.lines)
    ensures InOrder(plan)
  {
    hide *;
    NonIncreasingIsSafe(plan.lines);
    SafeLinesKeepOrder(sc, plan, search, plotOf);
  }

  /** The search merges nothing when one chart per device fits. */
  lemma NoMergeWhenFitting(rows: nat, cols: nat, draws: seq<nat>, trace: seq<seq<nat>>)
    requires History(rows, cols, draws, trace)
    requires CanFit(Config(rows, cols, draws).PlotWidths(), cols, rows / MIN_PLOT_ROWS)
    ensures trace == [draws]
  {
  }

  /** One chart per device fits: every chart is within the columns, and packing them in order takes no more stacks than there are rows for. */
  predicate ChartsFit(sc: Screen)
    requires sc.Valid()
  {
    var ws := Widths(Lines(sc.draws, |sc.draws|));
    && (forall i :: 0 <= i < |ws| ==> ws[i] <= sc.cols)
    && (|ws| == 0 || Greedy(ws, sc.cols, |ws|).stack < sc.FirstSplit().plots / MIN_PLOT_ROWS)
  }

  /** A screen on which one chart per device fits and no device's chart can overtake another's shows the plots in order. */
  lemma FittingScreenKeepsOrder(sc: Screen, plan: Plan, search: Search, plotOf: seq<nat>)
    requires sc.Valid() && Planned(sc, plan, search, plotOf)
    requires ChartsFit(sc) && NoOvertaking(Lines(sc.draws, |sc.draws|))
    ensures InOrder(plan)
  {
    hide NoOvertaking, BudgetOk, Stacked, Arranged, MoreStacks, SpaceHeaders, SplitRows, InOrder, CanFit, Greedy;
    CanFitIff(Widths(Lines(sc.draws, |sc.draws|)), sc.cols, sc.FirstSplit().plots / MIN_PLOT_ROWS);
    NoMergeWhenFitting(sc.FirstSplit().plots, sc.cols, sc.draws, search.trace);
    TwoPlotsAreSafe([]);
    SafeLinesKeepOrder(sc, plan, search, plotOf);
  }

  lemma {:induction false} LinesDescend(draws: seq<nat>, k: nat)
    requires k <= |draws| && forall d, e :: 0 <= d < e < |draws| && draws[d] > 0 && draws[e] > 0 ==> draws[d] >= draws[e]
    ensures NonIncreasing(Lines(draws, k))
    ensures forall i, e :: 0 <= i < |Lines(draws, k)| && k <= e < |draws| && draws[e] > 0 ==> Lines(draws, k)[i] >= draws[e]
  {
    if k > 0 { LinesDescend(draws, k - 1); }
  }

  /** Devices that draw no more lines than those before them: if one chart each fits, the plots are in order. */
  lemma DescendingDevicesKeepOrder(sc: Screen, plan: Plan, search: Search, plotOf: seq<nat>)
    requires sc.Valid() && Planned(sc, plan, search, plotOf) && ChartsFit(sc)
    requires forall d, e :: 0 <= d < e < |sc.draws| && sc.draws[d] > 0 && sc.draws[e] > 0 ==> sc.draws[d] >= sc.draws[e]
    ensures InOrder(plan)
  {
    hide *;
    LinesDescend(sc.draws, |sc.draws|);
    NonIncreasingIsSafe(Lines(sc.draws, |sc.draws|));
    FittingScreenKeepsOrder(sc, plan, search, plotOf);
  }

  /** Merging never adds a plot. */
  lemma {:induction false} HistoryShrinks(rows: nat, cols: nat, draws: seq<nat>, trace: seq<seq<nat>>)
    requires History(rows, cols, draws, trace)
    ensures |Final(trace)| == |draws| && NonEmptyCount(Final(trace), |draws|) <= NonEmptyCount(draws, |draws|)
  {
    if |trace| > 1 {
      HistoryShrinks(rows, cols, draws, trace[..|trace| - 1]);
      var info := trace[|trace| - 2];
      var lo: nat, hi: nat :| BestMerge(info, MAX_LINES_PER_PLOT, lo, hi) && Final(trace) == Merged(info, lo, hi);
      MergeDropsOnePlot(info, lo, hi);
    }
  }

  /** With at most two devices that draw something the plots are in order on every screen. */
  lemma TwoDevicesKeepOrder(sc: Screen, plan: Plan, search: Search, plotOf: seq<nat>)
    requires sc.Valid() && Planned(sc, plan, search, plotOf) && NonEmptyCount(sc.draws, |sc.draws|) <= 2
    ensures InOrder(plan)
  {
    hide BudgetOk, Stacked, Arranged, MoreStacks, SpaceHeaders, SplitRows, InOrder, SearchOutcome, NoOvertaking;
    HistoryShrinks(sc.FirstSplit().plots, sc.cols, sc.draws, search.trace);
    LinesFacts(Final(search.trace), |sc.draws|);
    TwoPlotsAreSafe(plan.lines);
    SafeLinesKeepOrder(sc, plan, search, plotOf);
  }

  // ----- The asserts of the drawing code -----

  /** Plot k, drawn in slot k, meets both asserts of populate_plot_data_from_ring_buffer. */
  ghost predicate DrawsCleanly(draws: seq<nat>, plotOf: seq<nat>, slots: seq<Window>, k: nat) {
    var ids := DevicesOf(plotOf, k, |plotOf|);
    && k < |slots| && (forall i :: 0 <= i < |ids| ==> ids[i] < |draws|)
    && Divisor(draws, ids, |ids|) > 0
    && slots[k].sizeX >= BOX_COLS
    && (slots[k].sizeX - BOX_COLS) % Divisor(draws, ids, |ids|) == 0
  }

  /** A plot drawn in a slot sized for it draws cleanly. */
  lemma DrawingWidthDivides(sc: Screen, plan: Plan, search: Search, plotOf: seq<nat>, headers: seq<Window>, slots: seq<Window>, process: Window, setup: Window, k: nat)
    requires sc.Valid() && Planned(sc, plan, search, plotOf) && LayoutOk(sc, plan, headers, slots, process, setup)
    requires k < |plan.lines| && plan.Order()[k] == k
    ensures DrawsCleanly(sc.draws, plotOf, slots, k)
  {
    hide BudgetOk, Searched, Stacked, MoreStacks, SpaceHeaders, SplitRows, HeadersOk, ProcessOk, Filled, StackOrder;
    DivisorIsLines(sc.draws, plotOf, k, |sc.draws|);
    assert SlotOk(sc, slots[k], plan.lines, plan.Order()[k]);
  }

  /** Exactly when plot k draws cleanly: its lines divide the drawing width of the plot that slot k was sized for. */
  lemma DrawsCleanlyIff(sc: Screen, plan: Plan, search: Search, plotOf: seq<nat>, headers: seq<Window>, slots: seq<Window>, process: Window, setup: Window, k: nat)
    requires sc.Valid() && Planned(sc, plan, search, plotOf) && LayoutOk(sc, plan, headers, slots, process, setup)
    requires k < |plan.lines|
    ensures var a := PlotArea(sc, plan.b, plan.numStacks, plan.lines, plan.inStack);
            && Ready(a)
            && (DrawsCleanly(sc.draws, plotOf, slots, k) <==> (PlotWindow(a, plan.Order()[k]).sizeX - BOX_COLS) % plan.lines[k] == 0)
  {
    hide BudgetOk, Searched, Stacked, MoreStacks, SpaceHeaders, SplitRows, HeadersOk, ProcessOk, StackOrder, PlotWindow;
    DivisorIsLines(sc.draws, plotOf, k, |sc.draws|);
    assert SlotOk(sc, slots[k], plan.lines, plan.Order()[k]);
  }

  /** On a screen where one chart per device fits and none can overtake another, every plot draws cleanly. */
  lemma FittingScreenDrawsCleanly(sc: Screen, plan: Plan, search: Search, plotOf: seq<nat>, headers: seq<Window>, slots: seq<Window>, process: Window, setup: Window)
    requires sc.Valid() && Planned(sc, plan, search, plotOf) && LayoutOk(sc, plan, headers, slots, process, setup)
    requires ChartsFit(sc) && NoOvertaking(Lines(sc.draws, |sc.draws|))
    ensures forall k :: 0 <= k < |plan.lines| ==> DrawsCleanly(sc.draws, plotOf, slots, k)
  {
    hide Planned, LayoutOk, ChartsFit, NoOvertaking, DrawsCleanly;
    FittingScreenKeepsOrder(sc, plan, search, plotOf);
    forall k | 0 <= k < |plan.lines| ensures DrawsCleanly(sc.draws, plotOf, slots, k) {
      DrawingWidthDivides(sc, plan, search, plotOf, headers, slots, process, setup, k);
    }
  }

  /** With at most two devices that draw something, every plot draws cleanly on every screen. */
  lemma TwoDevicesDrawCleanly(sc: Screen, plan: Plan, search: Search, plotOf: seq<nat>, headers: seq<Window>, slots: seq<Window>, process: Window, setup: Window)
    requires sc.Valid() && Planned(sc, plan, search, plotOf) && LayoutOk(sc, plan, headers, slots, process, setup)
    requires NonEmptyCount(sc.draws, |sc.draws|) <= 2
    ensures forall k :: 0 <= k < |plan.lines| ==> DrawsCleanly(sc.draws, plotOf, slots, k)
  {
    hide Planned, LayoutOk, DrawsCleanly;
    TwoDevicesKeepOrder(sc, plan, search, plotOf);
    forall k | 0 <= k < |plan.lines| ensures DrawsCleanly(sc.draws, plotOf, slots, k) {
      DrawingWidthDivides(sc, plan, search, plotOf, headers, slots, process, setup, k);
    }
  }

  // ----- The device lists -----

  /** When every device draws something, at most four lines, every plot's list of devices fits its four entries. */
  lemma DeviceListsFit(sc: Screen, plan: Plan, search: Search, plotOf: seq<nat>)
    requires sc.Valid() && Planned(sc, plan, search, plotOf)
    requires forall d :: 0 <= d < |sc.draws| ==> 0 < sc.draws[d] <= MAX_LINES_PER_PLOT
    ensures forall p :: 0 <= p < |plan.lines| ==> |plotOf| == |sc.draws| && |DevicesOf(plotOf, p, |plotOf|)| <= MAX_LINES_PER_PLOT
  {
    hide BudgetOk, Searched, Stacked, MoreStacks, SpaceHeaders, SplitRows, SumIf;
    PlotLinesBounded(sc, plan, search, plotOf);
    forall p | 0 <= p < |plan.lines| ensures |plotOf| == |sc.draws| && |DevicesOf(plotOf, p, |plotOf|)| <= MAX_LINES_PER_PLOT {
      DeviceListFitsIff(sc.draws, plotOf, plan.lines, p);
    }
  }

  /** When one chart per device fits, a plot's list has one device that draws something and at most one that does not. */
  lemma FittingScreenDeviceLists(sc: Screen, plan: Plan, search: Search, plotOf: seq<nat>)
    requires sc.Valid() && Planned(sc, plan, search, plotOf) && ChartsFit(sc)
    ensures forall p :: 0 <= p < |plan.lines| ==> |plotOf| == |sc.draws| && |DevicesOf(plotOf, p, |plotOf|)| == if sc.draws[p] == 0 then 2 else 1
  {
    hide BudgetOk, Stacked, MoreStacks, SpaceHeaders, SplitRows, SumIf, CanFit, Greedy, Plotted;
    if |plan.lines| > 0 {
      CanFitIff(Widths(Lines(sc.draws, |sc.draws|)), sc.cols, sc.FirstSplit().plots / MIN_PLOT_ROWS);
      NoMergeWhenFitting(sc.FirstSplit().plots, sc.cols, sc.draws, search.trace);
      LinesFacts(sc.draws, |sc.draws|);
      PlottedLengths(sc.draws, plotOf, plan.lines);
      forall p | 0 <= p < |plan.lines| ensures |DevicesOf(plotOf, p, |plotOf|)| == if sc.draws[p] == 0 then 2 else 1 {
        UnmergedDevices(sc.draws, plotOf, plan.lines, p);
      }
    }
  }

  lemma PlottedLengths(draws: seq<nat>, plotOf: seq<nat>, lines: seq<nat>)
    requires Plotted(draws, plotOf, lines)
    ensures |lines| <= |draws| == |plotOf|
  {
  }
}
