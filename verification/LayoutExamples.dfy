/** Screens on which the layout does something its consumers do not expect. */
module LayoutExamples {
  import opened Shared
  import opened Sums
  import opened LayoutMerge
  import opened LayoutPack
  import opened LayoutSearch
  import opened LayoutBalance
  import opened LayoutHeader
  import opened LayoutPlots
  import opened LayoutOrder
  import opened LayoutScreen
  import opened LayoutMain
  import opened PlotData
  import opened LayoutTheorems

  // ----- The search is determined by the rows, the columns and the devices -----

  lemma {:induction false} HistoryAt(rows: nat, cols: nat, draws: seq<nat>, trace: seq<seq<nat>>, k: nat)
    requires History(rows, cols, draws, trace) && k + 1 < |trace|
    ensures MergeStep(Config(rows, cols, trace[k]), trace[k + 1])
  {
    if k + 2 < |trace| { HistoryAt(rows, cols, draws, trace[..|trace| - 1], k); }
  }

  lemma HistoryGrows(rows: nat, cols: nat, draws: seq<nat>, trace: seq<seq<nat>>, info2: seq<nat>)
    requires |trace| == 1 ==> trace[0] == draws
    requires |trace| > 0 && (|trace| > 1 ==> History(rows, cols, draws, trace)) && MergeStep(Config(rows, cols, Final(trace)), info2)
    ensures History(rows, cols, draws, trace + [info2])
  {
    hide MergeStep;
    assert (trace + [info2])[..|trace|] == trace;
  }

  /** Of two histories one continues the other. */
  lemma {:induction false} HistoryDetermined(rows: nat, cols: nat, draws: seq<nat>, a: seq<seq<nat>>, b: seq<seq<nat>>)
    requires History(rows, cols, draws, a) && History(rows, cols, draws, b) && |a| <= |b|
    ensures a == b[..|a|]
    decreases |b|
  {
    hide BestMerge, CanFit, Merged;
    var front := b[..|b| - 1];
    if |a| < |b| {
      HistoryDetermined(rows, cols, draws, a, front);
    } else if |a| > 1 {
      HistoryDetermined(rows, cols, draws, a[..|a| - 1], front);
      StepDetermined(Config(rows, cols, a[|a| - 2]), Final(a), Final(b));
      assert a == a[..|a| - 1] + [Final(a)] && b == front + [Final(b)];
    }
  }

  lemma StepDetermined(c: Config, x: seq<nat>, y: seq<nat>)
    requires MergeStep(c, x) && MergeStep(c, y)
    ensures x == y
  {
    hide CanFit;
    var lo: nat, hi: nat :| BestMerge(c.info, MAX_LINES_PER_PLOT, lo, hi) && x == Merged(c.info, lo, hi);
    var lo2: nat, hi2: nat :| BestMerge(c.info, MAX_LINES_PER_PLOT, lo2, hi2) && y == Merged(c.info, lo2, hi2);
    BestMergeUnique(c.info, MAX_LINES_PER_PLOT, lo, hi, lo2, hi2);
  }

  /** A history that ends with charts that fit is the one the search goes through. */
  lemma SearchEnds(rows: nat, cols: nat, draws: seq<nat>, table: seq<seq<nat>>, trace: seq<seq<nat>>, fewest: nat, start: seq<nat>, lines: seq<nat>)
    requires Searched(rows, cols, draws, trace, fewest, start, lines) && History(rows, cols, draws, table)
    requires CanFit(Config(rows, cols, Final(table)).PlotWidths(), cols, rows / MIN_PLOT_ROWS)
    requires rows >= MIN_PLOT_ROWS && !NothingToDraw(draws) && MinPlotCols(MAX_LINES_PER_PLOT) <= cols
    requires forall d :: 0 <= d < |draws| ==> draws[d] <= MAX_LINES_PER_PLOT
    ensures trace == table && fewest > 0
  {
    hide BestMerge, Fits, Lines, NothingToDraw, Merged;
    if |trace| > |table| {
      HistoryDetermined(rows, cols, draws, table, trace);
      HistoryAt(rows, cols, draws, trace, |table| - 1);
    } else {
      HistoryDetermined(rows, cols, draws, trace, table);
      ChartsNarrow(rows, cols, draws, trace);
      if |trace| < |table| {
        HistoryAt(rows, cols, draws, table, |trace| - 1);
        StepIsMergeable(Config(rows, cols, Final(trace)), table[|trace|]);
        if fewest > 0 { FitsMore(Config(rows, cols, Final(trace)).PlotWidths(), cols, fewest, rows / MIN_PLOT_ROWS, start); }
      }
    }
  }

  lemma StepIsMergeable(c: Config, info2: seq<nat>)
    requires MergeStep(c, info2)
    ensures !CanFit(c.PlotWidths(), c.cols, c.MaxStacks()) && !NoMergeLeft(c.info)
  {
    hide CanFit;
    var lo: nat, hi: nat :| BestMerge(c.info, MAX_LINES_PER_PLOT, lo, hi) && info2 == Merged(c.info, lo, hi);
    assert Mergeable(c.info, MAX_LINES_PER_PLOT, lo, hi);
  }

  /** With at most four lines a device no chart is ever wider than a chart of four lines. */
  lemma ChartsNarrow(rows: nat, cols: nat, draws: seq<nat>, trace: seq<seq<nat>>)
    requires History(rows, cols, draws, trace) && MinPlotCols(MAX_LINES_PER_PLOT) <= cols
    requires forall d :: 0 <= d < |draws| ==> draws[d] <= MAX_LINES_PER_PLOT
    ensures !PassOutcome(Config(rows, cols, Final(trace)), TooWide, 0, [])
  {
    HistoryBoundsLines(rows, cols, draws, trace);
    LinesOfBounded(Final(trace), MAX_LINES_PER_PLOT, |draws|);
  }

  // ----- Line counts 1, 4, 4 -----

  const SKEWED_LINES: seq<nat> := [1, 4, 4]

  lemma SkewedWidths()
    ensures Lines(SKEWED_LINES, 3) == SKEWED_LINES && Widths(SKEWED_LINES) == [15, 45, 45]
    ensures GreedyAssignment([15, 45, 45], 100) == [0, 0, 1]
    ensures Fits([15, 45, 45], 100, 2, [0, 0, 1])
    ensures forall s: nat :: SumIf([15, 45, 45], [0, 0, 1], s, 3) == if s == 0 then 60 else if s == 1 then 45 else 0
  {
    SkewedSums();
    var ws: seq<nat> := [15, 45, 45];
    assert Lines(SKEWED_LINES, 1) == [1] && Lines(SKEWED_LINES, 2) == [1, 4];
    assert Greedy(ws, 100, 1) == Cursor(0, 15) && Greedy(ws, 100, 2) == Cursor(0, 60) && Greedy(ws, 100, 3) == Cursor(1, 45);
  }

  lemma SkewedSums()
    ensures forall s: nat :: SumIf([15, 45, 45], [0, 0, 1], s, 3) == if s == 0 then 60 else if s == 1 then 45 else 0
  {
    var ws: seq<nat> := [15, 45, 45];
    forall s: nat ensures SumIf(ws, [0, 0, 1], s, 3) == if s == 0 then 60 else if s == 1 then 45 else 0 {
      assert SumIf(ws, [0, 0, 1], s, 1) == if s == 0 then 15 else 0;
      assert SumIf(ws, [0, 0, 1], s, 2) == if s == 0 then 60 else 0;
    }
  }

  const SKEWED_START: Stacking := Stacking(SKEWED_LINES, [0, 0, 1], [60, 45])
  const SKEWED_END: Stacking := Stacking(SKEWED_LINES, [1, 0, 1], [45, 60])

  lemma SkewedMoves()
    ensures Allocated(SKEWED_START, 100) && Allocated(SKEWED_END, 100)
    ensures Moved(SKEWED_START, 100, 0, 1) == SKEWED_END
    ensures Stuck(SKEWED_START, 100, 2, 2) && Stuck(SKEWED_START, 100, 2, 1) && !Stuck(SKEWED_START, 100, 2, 0)
    ensures Stuck(SKEWED_END, 100, 2, 2) && Stuck(SKEWED_END, 100, 2, 1) && Stuck(SKEWED_END, 100, 2, 0)
  {
    SkewedWidths();
    assert Allocated(SKEWED_START, 100);
    assert Moved(SKEWED_START, 100, 0, 1) == SKEWED_END;
    assert Moved(SKEWED_START, 100, 1, 1).alloc == [15, 90];
    assert Imbalance([60, 45], 0, 2) == 15 && Imbalance([15, 90], 0, 2) == 75 && Imbalance([45, 60], 0, 2) == 15;
    MoveKeepsAllocated(SKEWED_START, 100, 0, 1);
  }

  /** Lines 1, 4, 4 on 100 columns and two stacks: the narrow first plot is moved past the second. */
  lemma SkewedRun()
    ensures Allocated(SKEWED_START, 100) && Run(SKEWED_START, 100, 2, 2) == SKEWED_END
  {
    SkewedMoves();
    hide Allocated, Stuck, Moved;
    assert Run(SKEWED_END, 100, 2, 0) == SKEWED_END;
    assert Run(SKEWED_END, 100, 2, 1) == SKEWED_END;
    assert Run(SKEWED_START, 100, 2, 0) == Run(SKEWED_END, 100, 2, 2);
    assert Run(SKEWED_START, 100, 2, 1) == Run(SKEWED_START, 100, 2, 0);
  }

  // ----- An overtaking that never happens -----

  lemma UnrestTotals(ws: seq<nat>)
    requires ws == [35, 45, 25, 15, 15]
    ensures Total(ws, 0) == 0 && Total(ws, 2) == 80 && Total(ws, 3) == 105 && Total(ws, 4) == 120 && Total(ws, 5) == 135
  {
    assert Total(ws, 1) == 35;
    assert Total(ws, 2) == 80;
    assert Total(ws, 3) == 105;
    assert Total(ws, 4) == 120;
  }

  /** The only place to overtake. */
  lemma UnrestOvertakes(lines: seq<nat>, i: nat, p: nat, m: nat, j: nat)
    requires lines == [3, 4, 2, 1, 1] && Overtakes(lines, i, p, m, j)
    ensures m == 2 && j == 4
  {
    assert Widths(lines) == [35, 45, 25, 15, 15];
    UnrestTotals(Widths(lines));
    OvertakesWider(lines, i, p, m, j);
    OvertakesAt(lines, i, p, m, j);
    hide Overtakes, Total;
    assert p == 0 && i == 0;
    assert Gap(Widths(lines), 0, m, j) >= 35;
    assert Widths(lines)[2] == 25;
  }

  /**
   * Room to overtake is not enough. With lines 3, 4, 2, 1, 1 the first plot can overtake the second when plots 2 and 3 are on the
   * next stack, but then plot 4 is on a later one and plot 2 has moved on before; so the order is kept from every start.
   */
  lemma OvertakingNeedsRest(lines: seq<nat>)
    requires lines == [3, 4, 2, 1, 1]
    ensures Overtakes(lines, 0, 0, 2, 4) && NoOvertaking(lines)
  {
    var ws := Widths(lines);
    assert ws == [35, 45, 25, 15, 15];
    UnrestTotals(ws);
    hide Total, Widths;
    assert Gap(ws, 0, 2, 4) == 40 && Gap(ws, 2, 4, 5) == 25;
    assert !NoneMovesUp(ws, 2, 4, 5) && !Rests(ws, 2, 4);
    hide Overtakes, Rests, Gap;
    forall i, p, m, j ensures !(Overtakes(lines, i, p, m, j) && Rests(ws, m, j)) {
      if Overtakes(lines, i, p, m, j) { UnrestOvertakes(lines, i, p, m, j); }
    }
  }

  // ----- A run that leaves the order and comes back to it -----

  const RESTORED_LINES: seq<nat> := [1, 1, 2, 3, 1]

  lemma RestoredWidths()
    ensures Widths(RESTORED_LINES) == [15, 15, 25, 35, 15]
  {
  }

  /** On three stacks: the sums of a few plots. */
  lemma FiveSums(ws: seq<nat>, sel: seq<nat>, s: nat)
    requires |ws| == |sel| == 5
    ensures SumIf(ws, sel, s, 5) == (if sel[0] == s then ws[0] else 0) + (if sel[1] == s then ws[1] else 0) + (if sel[2] == s then ws[2] else 0)
                                    + (if sel[3] == s then ws[3] else 0) + (if sel[4] == s then ws[4] else 0)
  {
    assert SumIf(ws, sel, s, 1) == if sel[0] == s then ws[0] else 0;
    assert SumIf(ws, sel, s, 3) == (if sel[0] == s then ws[0] else 0) + (if sel[1] == s then ws[1] else 0) + (if sel[2] == s then ws[2] else 0);
  }

  lemma RestoredStart(st: Stacking)
    requires st == Stacking(RESTORED_LINES, [0, 0, 0, 1, 2], [55, 35, 15])
    ensures Allocated(st, 100)
  {
    RestoredWidths();
    forall s | 0 <= s < 3 ensures st.alloc[s] == SumIf(Widths(st.lines), st.inStack, s, 5) { FiveSums(Widths(st.lines), st.inStack, s); }
    hide SumIf, Widths;
  }

  /** One move of that run. */
  lemma RestoredMove(st: Stacking, p: nat, st2: Stacking)
    requires Allocated(st, 100) && |st.alloc| == 3 && st.lines == RESTORED_LINES && |st.inStack| == 5 && p < 5 && st.inStack[p] < 2
    requires forall x :: p <= x < 5 && st.inStack[x] < 2 ==>
               (st.alloc[st.inStack[x]] < st.alloc[st.inStack[x] + 1] + MinPlotCols(st.lines[x]) <==> x != p)
    requires st2 == Moved(st, 100, p, st.inStack[p] + 1)
    ensures Allocated(st2, 100) && Run(st, 100, 3, 4) == Run(st2, 100, 3, 4)
    ensures StaysInOrder(st, 100, 3, 4) ==> StaysInOrder(st2, 100, 3, 4)
  {
    hide Stuck, Allocated, Run, StaysInOrder, Moved;
    forall x | p <= x < 5 ensures Stuck(st, 100, 3, x) <==> x != p { StuckIff(st, 100, 3, x); }
    FirstMove(st, 100, p);
  }

  lemma RestoredMove1(st: Stacking, st2: Stacking)
    requires Allocated(st, 100) && st == Stacking(RESTORED_LINES, [0, 0, 0, 1, 2], [55, 35, 15])
    requires st2 == Stacking(RESTORED_LINES, [0, 1, 0, 1, 2], [40, 50, 15])
    ensures Allocated(st2, 100) && Run(st, 100, 3, 4) == Run(st2, 100, 3, 4) && !StaysInOrder(st, 100, 3, 4)
  {
    hide Allocated, Run, StaysInOrder;
    RestoredMove(st, 1, st2);
    assert st2.inStack[1] > st2.inStack[2];
    UnorderedDoesNotStay(st2, 100, 3, 4);
  }

  lemma RestoredMove2(st: Stacking, st2: Stacking)
    requires Allocated(st, 100) && st == Stacking(RESTORED_LINES, [0, 1, 0, 1, 2], [40, 50, 15])
    requires st2 == Stacking(RESTORED_LINES, [0, 1, 0, 2, 2], [40, 15, 50])
    ensures Allocated(st2, 100) && Run(st, 100, 3, 4) == Run(st2, 100, 3, 4)
  {
    hide Allocated, Run, StaysInOrder;
    RestoredMove(st, 3, st2);
  }

  lemma RestoredMove3(st: Stacking, st2: Stacking)
    requires Allocated(st, 100) && st == Stacking(RESTORED_LINES, [0, 1, 0, 2, 2], [40, 15, 50])
    requires st2 == Stacking(RESTORED_LINES, [0, 1, 1, 2, 2], [15, 40, 50])
    ensures Allocated(st2, 100) && Run(st, 100, 3, 4) == Run(st2, 100, 3, 4)
  {
    hide Allocated, Run, StaysInOrder;
    RestoredMove(st, 2, st2);
  }

  /** On its last state no plot can move. */
  lemma RestoredEnd(st: Stacking)
    requires Allocated(st, 100) && st == Stacking(RESTORED_LINES, [0, 1, 1, 2, 2], [15, 40, 50])
    ensures Run(st, 100, 3, 4) == st
  {
    hide Stuck, Allocated;
    forall x | 0 <= x < 5 ensures Stuck(st, 100, 3, x) { StuckIff(st, 100, 3, x); }
    SkipsStuck(st, 100, 3, 0, 4);
  }

  lemma RestoredRun(st: Stacking)
    requires Allocated(st, 100) && st == Stacking(RESTORED_LINES, [0, 0, 0, 1, 2], [55, 35, 15])
    ensures Run(st, 100, 3, 4).inStack == [0, 1, 1, 2, 2] && !StaysInOrder(st, 100, 3, 4)
  {
    hide *;
    var st1 := Stacking(RESTORED_LINES, [0, 1, 0, 1, 2], [40, 50, 15]);
    var st2 := Stacking(RESTORED_LINES, [0, 1, 0, 2, 2], [40, 15, 50]);
    var st3 := Stacking(RESTORED_LINES, [0, 1, 1, 2, 2], [15, 40, 50]);
    RestoredMove1(st, st1);
    RestoredMove2(st1, st2);
    RestoredMove3(st2, st3);
    RestoredEnd(st3);
  }

  /**
   * Leaving the order is not always for good. Lines 1, 1, 2, 3, 1 on three stacks: the second plot moves past the third, the
   * fourth goes up, and then the third follows the second.
   */
  lemma OrderCanBeRestored(st: Stacking)
    requires st == Stacking(RESTORED_LINES, [0, 0, 0, 1, 2], [55, 35, 15])
    ensures LeavesOrder(RESTORED_LINES, st, 100) && Run(st, 100, 3, 4).inStack == [0, 1, 1, 2, 2]
  {
    hide Allocated, Run, StaysInOrder;
    RestoredStart(st);
    RestoredRun(st);
  }

  // ----- Lines 1, 4 and 4 on a whole screen -----

  /** Three devices drawing 1, 4 and 4 lines on a screen of 40 rows and 100 columns. */
  const SKEWED_SCREEN: Screen := Screen(40, 100, 3, 55, SKEWED_LINES, 1, false)

  lemma SkewedBudget()
    ensures SKEWED_SCREEN.Valid() && SKEWED_SCREEN.HeaderGrid() == Grid(1, 3)
    ensures SKEWED_SCREEN.FirstSplit() == Budget(9, 21, 10)
    ensures SpaceHeaders(Budget(9, 21, 10), 3, 2) == (Budget(11, 19, 10), true)
  {
  }

  lemma SkewedSearch(trace: seq<seq<nat>>, fewest: nat, start: seq<nat>, lines: seq<nat>)
    requires Searched(21, 100, SKEWED_LINES, trace, fewest, start, lines)
    ensures fewest == 2 && start == [0, 0, 1] && lines == SKEWED_LINES
  {
    var c := Config(21, 100, SKEWED_LINES);
    SkewedWidths();
    assert c.PlotWidths() == [15, 45, 45];
    assert Fits(c.PlotWidths(), 100, 3, [0, 0, 1]);
    NoMergeWhenFitting(21, 100, SKEWED_LINES, trace);
    assert SKEWED_LINES[0] > 0;
    assert fewest > 0 ==> start[2] < fewest;
  }

  lemma SkewedStacks(plotOf: seq<nat>, inStack: seq<nat>)
    requires Stacked(SKEWED_LINES, plotOf, 100, 2, SKEWED_LINES, [0, 0, 1], inStack)
    ensures inStack == [1, 0, 1]
  {
    var st, st2 :| BalancedFrom(st, st2, 100, 2, SKEWED_LINES, [0, 0, 1], inStack);
    SkewedWidths();
    assert st.alloc[0] == 60 && st.alloc[1] == 45;
    assert st == SKEWED_START;
    SkewedRun();
  }

  /** On that screen every run of the layout puts plots 1, 0, 2 into slots 0, 1, 2. */
  lemma SkewedPlan(plan: Plan, search: Search, plotOf: seq<nat>)
    requires SKEWED_SCREEN.Valid() && Planned(SKEWED_SCREEN, plan, search, plotOf)
    ensures plan == Plan(Budget(11, 19, 10), true, 2, SKEWED_LINES, [1, 0, 1])
    ensures plan.Order() == [1, 0, 2] && |plan.lines| == 3
  {
    SkewedBudget();
    SkewedSearch(search.trace, search.fewest, search.start, plan.lines);
    SkewedStackCount(plan.numStacks);
    SkewedStacks(plotOf, plan.inStack);
    SkewedOrder();
  }

  lemma SkewedStackCount(stacks: nat)
    requires MoreStacks(3, 2, stacks, 19)
    ensures stacks == 2
  {
  }

  lemma SkewedOrder()
    ensures StackOrder([1, 0, 1], 2) == [1, 0, 2]
  {
    var a := [1, 0, 1];
    assert OnStack(a, 0, 1) == [] && OnStack(a, 0, 2) == [1] && OnStack(a, 0, 3) == [1];
    assert OnStack(a, 1, 1) == [0] && OnStack(a, 1, 2) == [0] && OnStack(a, 1, 3) == [0, 2];
    assert StackOrder(a, 1) == [1];
  }

  lemma SkewedWidth(a: Area)
    requires a.cols == 100 && a.lines == SKEWED_LINES && a.inStack == [1, 0, 1]
    ensures PlotWindow(a, 0).sizeX == 23
  {
    assert SumIf(a.lines, a.inStack, 1, 1) == 1 && SumIf(a.lines, a.inStack, 1, 2) == 1 && SumIf(a.lines, a.inStack, 1, 3) == 5;
    var ones := Ones(3);
    assert SumIf(ones, a.inStack, 1, 1) == 1 && SumIf(ones, a.inStack, 1, 2) == 1 && SumIf(ones, a.inStack, 1, 3) == 2;
    assert Room(a, 1) == 90;
    assert MaxCols(a, 0) == 23;
  }

  lemma SkewedSlots(plan: Plan, headers: seq<Window>, slots: seq<Window>, process: Window, setup: Window)
    requires plan.lines == SKEWED_LINES && plan.inStack == [1, 0, 1] && plan.Order() == [1, 0, 2]
    requires SKEWED_SCREEN.Valid() && LayoutOk(SKEWED_SCREEN, plan, headers, slots, process, setup)
    ensures |slots| == 3 && plan.lines[1] == 4 && slots[1].sizeX == 23 && (slots[1].sizeX - BOX_COLS) % 4 == 2
  {
    hide SlotOk, HeadersOk, ProcessOk, StackOrder, PlotWindow;
    var a := PlotArea(SKEWED_SCREEN, plan.b, plan.numStacks, plan.lines, plan.inStack);
    SkewedWidth(a);
    assert slots[1] == PlotWindow(a, plan.Order()[1]);
  }

  /** There plot 1, of four lines, is drawn in a slot of drawing width 18, so the divisibility assert fails. */
  lemma SkewedScreenBreaksDivision(plan: Plan, search: Search, plotOf: seq<nat>, headers: seq<Window>, slots: seq<Window>, process: Window, setup: Window)
    requires SKEWED_SCREEN.Valid() && Planned(SKEWED_SCREEN, plan, search, plotOf)
    requires LayoutOk(SKEWED_SCREEN, plan, headers, slots, process, setup)
    ensures |slots| == 3 && plan.lines[1] == 4 && slots[1].sizeX == 23 && (slots[1].sizeX - BOX_COLS) % plan.lines[1] == 2
  {
    hide *;
    SkewedPlan(plan, search, plotOf);
    SkewedSlots(plan, headers, slots, process, setup);
  }

  // ----- Five devices on the four-entry list of one plot -----

  /** Five devices, all but the first drawing one line, on a screen of 23 rows and 49 columns. */
  const OVERFLOW_DRAWS: seq<nat> := [0, 1, 1, 1, 1]
  const OVERFLOW_SCREEN: Screen := Screen(23, 49, 3, 49, OVERFLOW_DRAWS, 0, false)
  const OVERFLOW_TRACE: seq<seq<nat>> := [OVERFLOW_DRAWS, [0, 1, 1, 2, 0], [0, 2, 0, 2, 0], [0, 4, 0, 0, 0]]

  lemma {:induction false} OneStackSum(ws: seq<nat>, a: seq<nat>, k: nat)
    requires k <= |ws| == |a| && forall i :: 0 <= i < |a| ==> a[i] == 0
    ensures SumIf(ws, a, 0, k) == Total(ws, k)
  {
    if k > 0 { OneStackSum(ws, a, k - 1); }
  }

  lemma OneStackBound(ws: seq<nat>, cols: nat, a: seq<nat>)
    requires Fits(ws, cols, 1, a)
    ensures Total(ws, |ws|) <= cols
  {
    OneStackSum(ws, a, |ws|);
    assert SumIf(ws, a, 0, |ws|) <= cols;
  }

  lemma OneStackTooFew(ws: seq<nat>, cols: nat)
    requires Total(ws, |ws|) > cols
    ensures !CanFit(ws, cols, 1)
  {
    hide Fits;
    forall a ensures !Fits(ws, cols, 1, a) {
      if Fits(ws, cols, 1, a) { OneStackBound(ws, cols, a); }
    }
  }

  lemma OverflowLines(info: seq<nat>)
    requires |info| == 5 && info[0] == 0 && info[1] > 0
    ensures Lines(info, 5) == [info[1]] + (if info[2] > 0 then [info[2]] else []) + (if info[3] > 0 then [info[3]] else []) + (if info[4] > 0 then [info[4]] else [])
  {
    assert Lines(info, 1) == [];
    assert Lines(info, 2) == [info[1]];
    assert Lines(info, 3) == [info[1]] + (if info[2] > 0 then [info[2]] else []);
    assert Lines(info, 4) == [info[1]] + (if info[2] > 0 then [info[2]] else []) + (if info[3] > 0 then [info[3]] else []);
  }

  lemma OverflowStage(info: seq<nat>, lo: nat, hi: nat)
    requires |info| == 5 && info[0] == 0 && info[1] > 0
    requires Total(Widths(Lines(info, 5)), |Lines(info, 5)|) > 49 && BestMerge(info, MAX_LINES_PER_PLOT, lo, hi)
    ensures MergeStep(Config(8, 49, info), Merged(info, lo, hi))
  {
    OneStackTooFew(Widths(Lines(info, 5)), 49);
  }

  lemma FourTotals(ws: seq<nat>)
    ensures |ws| == 2 ==> Total(ws, 2) == ws[0] + ws[1]
    ensures |ws| == 3 ==> Total(ws, 3) == ws[0] + ws[1] + ws[2]
    ensures |ws| == 4 ==> Total(ws, 4) == ws[0] + ws[1] + ws[2] + ws[3]
  {
    if |ws| >= 2 { assert Total(ws, 2) == Total(ws, 1) + ws[1] && Total(ws, 1) == ws[0]; }
    if |ws| >= 3 { assert Total(ws, 3) == Total(ws, 2) + ws[2]; }
  }

  lemma OverflowFirst()
    ensures MergeStep(Config(8, 49, [0, 1, 1, 1, 1]), [0, 1, 1, 2, 0])
  {
    OverflowLines([0, 1, 1, 1, 1]);
    assert Lines([0, 1, 1, 1, 1], 5) == [1, 1, 1, 1];
    FourTotals(Widths([1, 1, 1, 1]));
    OverflowStage([0, 1, 1, 1, 1], 3, 4);
  }

  lemma OverflowSecond()
    ensures MergeStep(Config(8, 49, [0, 1, 1, 2, 0]), [0, 2, 0, 2, 0])
  {
    OverflowLines([0, 1, 1, 2, 0]);
    assert Lines([0, 1, 1, 2, 0], 5) == [1, 1, 2];
    FourTotals(Widths([1, 1, 2]));
    OverflowStage([0, 1, 1, 2, 0], 1, 2);
  }

  lemma OverflowThird()
    ensures MergeStep(Config(8, 49, [0, 2, 0, 2, 0]), [0, 4, 0, 0, 0])
  {
    OverflowLines([0, 2, 0, 2, 0]);
    assert Lines([0, 2, 0, 2, 0], 5) == [2, 2];
    FourTotals(Widths([2, 2]));
    assert Merged([0, 2, 0, 2, 0], 1, 3) == [0, 4, 0, 0, 0];
    OverflowStage([0, 2, 0, 2, 0], 1, 3);
  }

  lemma OverflowTrace()
    ensures History(8, 49, OVERFLOW_DRAWS, OVERFLOW_TRACE)
  {
    hide MergeStep;
    OverflowFirst();
    OverflowSecond();
    OverflowThird();
    HistoryGrows(8, 49, OVERFLOW_DRAWS, [OVERFLOW_DRAWS], [0, 1, 1, 2, 0]);
    assert [OVERFLOW_DRAWS] + [[0, 1, 1, 2, 0]] == [OVERFLOW_DRAWS, [0, 1, 1, 2, 0]];
    HistoryGrows(8, 49, OVERFLOW_DRAWS, [OVERFLOW_DRAWS, [0, 1, 1, 2, 0]], [0, 2, 0, 2, 0]);
    assert [OVERFLOW_DRAWS, [0, 1, 1, 2, 0]] + [[0, 2, 0, 2, 0]] == [OVERFLOW_DRAWS, [0, 1, 1, 2, 0], [0, 2, 0, 2, 0]];
    HistoryGrows(8, 49, OVERFLOW_DRAWS, [OVERFLOW_DRAWS, [0, 1, 1, 2, 0], [0, 2, 0, 2, 0]], [0, 4, 0, 0, 0]);
    assert [OVERFLOW_DRAWS, [0, 1, 1, 2, 0], [0, 2, 0, 2, 0]] + [[0, 4, 0, 0, 0]] == OVERFLOW_TRACE;
  }

  lemma OverflowFits()
    ensures Lines([0, 4, 0, 0, 0], 5) == [4] && CanFit(Widths([4]), 49, 1)
  {
    OverflowLines([0, 4, 0, 0, 0]);
    assert Fits(Widths([4]), 49, 1, [0]) by {
      forall s: nat ensures SumIf(Widths([4]), [0], s, 1) <= 49 { assert SumIf(Widths([4]), [0], s, 0) == 0; }
    }
  }

  lemma OverflowBudget()
    ensures OVERFLOW_SCREEN.Valid() && OVERFLOW_SCREEN.FirstSplit() == Budget(15, 8, 0)
  {
    assert OVERFLOW_SCREEN.HeaderGrid() == Grid(1, 5);
  }

  lemma {:induction false} AllDevices(plotOf: seq<nat>, p: nat, k: nat)
    requires k <= |plotOf| && forall d :: 0 <= d < |plotOf| ==> plotOf[d] == p
    ensures |DevicesOf(plotOf, p, k)| == k
  {
    if k > 0 { AllDevices(plotOf, p, k - 1); }
  }

  /** On that screen every run of the layout asks the four-entry list of plot 0 to hold five devices. */
  lemma DeviceListCanOverflow(plan: Plan, search: Search, plotOf: seq<nat>)
    requires OVERFLOW_SCREEN.Valid() && Planned(OVERFLOW_SCREEN, plan, search, plotOf)
    ensures plan.lines == [4] && |plotOf| == 5 && |DevicesOf(plotOf, 0, 5)| == 5
  {
    hide BudgetOk, MoreStacks, SpaceHeaders, Stacked, History, SearchOutcome, CanFit, Lines, Widths, SplitRows;
    OverflowBudget();
    OverflowTrace();
    OverflowFits();
    assert OVERFLOW_DRAWS[1] == 1;
    SearchEnds(8, 49, OVERFLOW_DRAWS, OVERFLOW_TRACE, search.trace, search.fewest, search.start, plan.lines);
    assert Plotted(OVERFLOW_DRAWS, plotOf, [4]);
    AllDevices(plotOf, 0, 5);
  }

  // ----- Devices that draw no more lines than those before them, out of order all the same -----

  /** 25 devices, the first drawing a lines and the others two, after k merges. */
  function Crowd(a: nat, k: nat): (info: seq<nat>)
    ensures |info| == 25
    ensures forall i :: 0 <= i < 25 ==> info[i] == if i == 0 then a else if i < 25 - 2 * k then 2 else if i % 2 == 1 then 4 else 0
  {
    seq(25, i => if i == 0 then a else if i < 25 - 2 * k then 2 else if i % 2 == 1 then 4 else 0)
  }

  /** Its charts. */
  function CrowdLines(a: nat, k: nat): (lines: seq<nat>)
    requires k <= 12
    ensures |lines| == 25 - k
    ensures forall i :: 0 <= i < 25 - k ==> lines[i] == if i == 0 then a else if i < 25 - 2 * k then 2 else 4
  {
    seq(25 - k, i => if i == 0 then a else if i < 25 - 2 * k then 2 else 4)
  }

  /** On 41 rows, of which the headers leave 14, and just as many columns as chart a and six charts of four lines take. */
  function CrowdScreen(a: nat): Screen { Screen(41, CrowdCols(a), 3, 80, Crowd(a, 0), 0, false) }

  function CrowdCols(a: nat): nat { MinPlotCols(a) + 270 }

  /** Charts among the first i devices. */
  function CrowdRank(k: nat, i: nat): nat
    requires k <= 12
  {
    if i <= 25 - 2 * k then i else 25 - 2 * k + (i - (25 - 2 * k) + 1) / 2
  }

  lemma CrowdNext(a: nat, k: nat, i: nat)
    requires 2 <= a <= 3 && k <= 12 && i < 25
    ensures CrowdRank(k, i + 1) == CrowdRank(k, i) + (if Crowd(a, k)[i] > 0 then 1 else 0)
    ensures Crowd(a, k)[i] > 0 ==> CrowdRank(k, i) < 25 - k && CrowdLines(a, k)[CrowdRank(k, i)] == Crowd(a, k)[i]
  {
  }

  lemma {:induction false} LinesOfCrowd(a: nat, k: nat, i: nat)
    requires 2 <= a <= 3 && k <= 12 && i <= 25
    ensures CrowdRank(k, i) <= 25 - k && Lines(Crowd(a, k), i) == CrowdLines(a, k)[..CrowdRank(k, i)]
  {
    if i > 0 {
      LinesOfCrowd(a, k, i - 1);
      CrowdNext(a, k, i - 1);
      hide CrowdRank, Crowd, CrowdLines;
    }
  }

  lemma CrowdChartLines(a: nat, k: nat)
    requires 2 <= a <= 3 && k <= 12
    ensures Lines(Crowd(a, k), 25) == CrowdLines(a, k)
  {
    LinesOfCrowd(a, k, 25);
  }

  lemma {:induction false} CrowdTotal(a: nat, k: nat, i: nat)
    requires k <= 12 && i <= 25 - k
    ensures Total(Widths(CrowdLines(a, k)), i)
         == if i == 0 then 0 else if i <= 25 - 2 * k then MinPlotCols(a) + 25 * (i - 1)
            else MinPlotCols(a) + 25 * (24 - 2 * k) + 45 * (i - (25 - 2 * k))
  {
    if i > 0 { CrowdTotal(a, k, i - 1); }
  }

  /** On two stacks: when the first i + 1 plots are too wide for the first, the rest must not be too wide for the second. */
  lemma TwoStackBound(ws: seq<nat>, cols: nat, b: seq<nat>, i: nat)
    requires Fits(ws, cols, 2, b) && i < |ws| && Total(ws, i + 1) > cols
    ensures Total(ws, |ws|) - Total(ws, i) <= cols
  {
    var n, m := |ws|, CountBelow(b, 1, |ws|);
    BelowSplits(b, 1, n);
    BelowIs(b, 0, n, 0);
    BelowIs(b, 2, n, n);
    StackSum(ws, b, 0, n);
    StackSum(ws, b, 1, n);
    assert SumIf(ws, b, 0, n) <= cols && SumIf(ws, b, 1, n) <= cols;
    hide SumIf, Fits;
    if i < m { TotalMonotone(ws, i + 1, m); } else { TotalMonotone(ws, m, i); }
  }

  lemma TwoStacksTooFew(ws: seq<nat>, cols: nat, i: nat)
    requires i < |ws| && Total(ws, i + 1) > cols && Total(ws, |ws|) - Total(ws, i) > cols
    ensures !CanFit(ws, cols, 2)
  {
    hide Fits, Total;
    forall b ensures !Fits(ws, cols, 2, b) {
      if Fits(ws, cols, 2, b) { TwoStackBound(ws, cols, b, i); }
    }
  }

  /** Before the twelfth merge two stacks do not suffice. */
  lemma CrowdTooWide(a: nat, k: nat)
    requires 2 <= a <= 3 && k < 12
    ensures !CanFit(Widths(CrowdLines(a, k)), CrowdCols(a), 2)
  {
    var i := if k < 7 then 11 else 25 - 2 * k + (k - 7);
    CrowdTotal(a, k, i);
    CrowdTotal(a, k, i + 1);
    CrowdTotal(a, k, 25 - k);
    hide Total;
    TwoStacksTooFew(Widths(CrowdLines(a, k)), CrowdCols(a), i);
  }

  lemma CrowdBest(a: nat, k: nat)
    requires 2 <= a <= 3 && k < 12
    ensures BestMerge(Crowd(a, k), MAX_LINES_PER_PLOT, 23 - 2 * k, 24 - 2 * k)
    ensures Merged(Crowd(a, k), 23 - 2 * k, 24 - 2 * k) == Crowd(a, k + 1)
  {
  }

  lemma CrowdStep(a: nat, k: nat)
    requires 2 <= a <= 3 && k < 12
    ensures MergeStep(Config(14, CrowdCols(a), Crowd(a, k)), Crowd(a, k + 1))
  {
    CrowdChartLines(a, k);
    CrowdTooWide(a, k);
    CrowdBest(a, k);
    hide CanFit, BestMerge, Crowd, CrowdLines, Lines, Widths, Merged, CrowdCols;
  }

  function CrowdTrace(a: nat, k: nat): (trace: seq<seq<nat>>)
    ensures |trace| == k + 1 && trace[k] == Crowd(a, k)
  {
    if k == 0 then [Crowd(a, 0)] else CrowdTrace(a, k - 1) + [Crowd(a, k)]
  }

  lemma {:induction false} CrowdHistory(a: nat, k: nat)
    requires 2 <= a <= 3 && k <= 12
    ensures History(14, CrowdCols(a), Crowd(a, 0), CrowdTrace(a, k))
  {
    hide MergeStep, Crowd, CrowdCols;
    if k > 0 {
      CrowdHistory(a, k - 1);
      CrowdStep(a, k - 1);
      HistoryGrows(14, CrowdCols(a), Crowd(a, 0), CrowdTrace(a, k - 1), Crowd(a, k));
    }
  }

  /** After the twelfth merge the packing fills the first stack with chart a and six others. */
  lemma {:induction false} CrowdGreedy(a: nat, i: nat)
    requires 2 <= a <= 3 && i <= 13
    ensures Greedy(Widths(CrowdLines(a, 12)), CrowdCols(a), i)
         == if i == 0 then Cursor(0, 0) else if i <= 7 then Cursor(0, MinPlotCols(a) + 45 * (i - 1)) else Cursor(1, 45 * (i - 7))
  {
    if i > 0 { CrowdGreedy(a, i - 1); }
  }

  /** Seven plots on the first stack, six on the second. */
  function SevenSix(): (sel: seq<nat>)
    ensures |sel| == 13 && forall i :: 0 <= i < 13 ==> sel[i] == if i < 7 then 0 else 1
  {
    seq(13, i => if i < 7 then 0 else 1)
  }

  lemma CrowdPacked(a: nat)
    requires 2 <= a <= 3
    ensures GreedyAssignment(Widths(CrowdLines(a, 12)), CrowdCols(a)) == SevenSix()
    ensures Fits(Widths(CrowdLines(a, 12)), CrowdCols(a), 2, SevenSix())
  {
    var ws, cols := Widths(CrowdLines(a, 12)), CrowdCols(a);
    forall i | 0 <= i < 13 ensures Greedy(ws, cols, i + 1).stack == SevenSix()[i] { CrowdGreedy(a, i + 1); }
    CrowdGreedy(a, 13);
    hide Greedy, Fits;
    GreedyIsOptimal(ws, cols);
  }

  lemma CrowdBudget(a: nat)
    requires 2 <= a <= 3
    ensures CrowdScreen(a).Valid() && CrowdScreen(a).HeaderGrid() == Grid(3, 9) && CrowdScreen(a).FirstSplit() == Budget(27, 14, 0)
  {
    assert CrowdCols(a) / 80 == 3;
  }

  lemma CrowdSearched(a: nat, plan: Plan, search: Search, plotOf: seq<nat>)
    requires 2 <= a <= 3 && CrowdScreen(a).Valid() && Planned(CrowdScreen(a), plan, search, plotOf)
    ensures plan.lines == CrowdLines(a, 12) && search.fewest > 0
    ensures search.start == SevenSix() && search.fewest == 2
  {
    hide BudgetOk, MoreStacks, SpaceHeaders, Stacked, Arranged, History, Lines, SplitRows, Widths, Greedy, CrowdCols, HeaderGrid;
    CrowdBudget(a);
    CrowdHistory(a, 12);
    CrowdChartLines(a, 12);
    CrowdPacked(a);
    CrowdWideEnough(a);
    SearchEnds(14, CrowdCols(a), Crowd(a, 0), CrowdTrace(a, 12), search.trace, search.fewest, search.start, plan.lines);
    CrowdFewest(a, search.fewest, search.start);
  }

  lemma CrowdWideEnough(a: nat)
    requires 2 <= a <= 3
    ensures MinPlotCols(MAX_LINES_PER_PLOT) <= CrowdCols(a) && !NothingToDraw(Crowd(a, 0))
    ensures forall d :: 0 <= d < 25 ==> Crowd(a, 0)[d] <= MAX_LINES_PER_PLOT
  {
    assert Crowd(a, 0)[1] == 2;
  }

  lemma CrowdFewest(a: nat, fewest: nat, start: seq<nat>)
    requires 2 <= a <= 3 && start == SevenSix()
    requires FewestStacks(Widths(CrowdLines(a, 12)), CrowdCols(a), fewest, start)
    ensures fewest == 2
  {
    CrowdPacked(a);
    assert start[12] < fewest;
  }

  lemma CrowdStacks(a: nat, plan: Plan, search: Search, plotOf: seq<nat>)
    requires 2 <= a <= 3 && CrowdScreen(a).Valid() && Planned(CrowdScreen(a), plan, search, plotOf)
    requires |plan.lines| == 13 && search.fewest == 2
    ensures plan.numStacks == 2 && plan.b == Budget(27, 14, 0)
  {
    hide BudgetOk, Stacked, Arranged, Searched, SplitRows, Crowd, CrowdCols, HeaderGrid;
    CrowdBudget(a);
  }

  /** Chart a and six charts of four lines on the first stack, six on the second. */
  lemma CrowdAllocated(a: nat, st: Stacking)
    requires 2 <= a <= 3 && Allocated(st, CrowdCols(a)) && |st.alloc| == 2 && st.lines == CrowdLines(a, 12) && st.inStack == SevenSix()
    ensures st.alloc[0] == MinPlotCols(a) + 270 && st.alloc[1] == 270
  {
    var ws := Widths(st.lines);
    BelowIs(st.inStack, 0, 13, 0);
    BelowIs(st.inStack, 1, 13, 7);
    BelowIs(st.inStack, 2, 13, 13);
    CrowdTotal(a, 12, 7);
    CrowdTotal(a, 12, 13);
    StackWidths(st, CrowdCols(a), 0);
    StackWidths(st, CrowdCols(a), 1);
    hide SumIf, Total, Allocated, CountBelow;
  }

  lemma CrowdStuck(a: nat, st: Stacking, p: nat)
    requires 2 <= a <= 3 && Allocated(st, CrowdCols(a)) && |st.alloc| == 2 && st.lines == CrowdLines(a, 12) && p < 13
    requires st.alloc[0] == MinPlotCols(a) + 270 && st.alloc[1] == 270 && st.inStack == SevenSix()
    ensures Stuck(st, CrowdCols(a), 2, p) <==> p > 0
  {
    hide Stuck, Allocated;
    StuckIff(st, CrowdCols(a), 2, p);
  }

  lemma CrowdStuckAfter(a: nat, st: Stacking, p: nat)
    requires 2 <= a <= 3 && Allocated(st, CrowdCols(a)) && |st.alloc| == 2 && st.lines == CrowdLines(a, 12) && p < 13
    requires st.alloc[0] == 270 && st.alloc[1] == MinPlotCols(a) + 270 && st.inStack == SevenSix()[0 := 1]
    ensures Stuck(st, CrowdCols(a), 2, p)
  {
    hide Stuck, Allocated;
    StuckIff(st, CrowdCols(a), 2, p);
  }

  /** The first plot moves to the second stack, past the six after it, and nothing moves after that. */
  lemma CrowdRun(a: nat, st: Stacking)
    requires 2 <= a <= 3 && Allocated(st, CrowdCols(a)) && |st.alloc| == 2 && st.lines == CrowdLines(a, 12) && st.inStack == SevenSix()
    ensures Run(st, CrowdCols(a), 2, 12).inStack == SevenSix()[0 := 1]
  {
    var cols := CrowdCols(a);
    CrowdAllocated(a, st);
    hide Stuck, Allocated, CrowdCols;
    forall p | 0 <= p < 13 ensures Stuck(st, cols, 2, p) <==> p > 0 { CrowdStuck(a, st, p); }
    FirstMove(st, cols, 0);
    var st2 := Moved(st, cols, 0, 1);
    assert st2.alloc[0] == 270 && st2.alloc[1] == MinPlotCols(a) + 270;
    forall p | 0 <= p < 13 ensures Stuck(st2, cols, 2, p) { CrowdStuckAfter(a, st2, p); }
    SkipsStuck(st2, cols, 2, 0, 12);
  }

  /** On those screens every run of the layout leaves the first plot on the second stack, the next six on the first. */
  lemma CrowdPlan(a: nat, plan: Plan, search: Search, plotOf: seq<nat>)
    requires 2 <= a <= 3 && CrowdScreen(a).Valid() && Planned(CrowdScreen(a), plan, search, plotOf)
    ensures plan.lines == CrowdLines(a, 12) && plan.inStack == SevenSix()[0 := 1] && plan.numStacks == 2 && plan.b == Budget(27, 14, 0)
  {
    hide Planned, Allocated, Run, CrowdCols, SevenSix, Crowd;
    CrowdSearched(a, plan, search, plotOf);
    CrowdStacks(a, plan, search, plotOf);
    var st, k := PlannedRun(CrowdScreen(a), plan, search, plotOf);
    assert k == 2;
    CrowdRun(a, st);
  }

  /**
   * Line counts that do not increase along the devices, even equal ones, do not keep the plots in order once charts are
   * merged: 25 devices of two lines each, as every device draws by default, on 41 rows and 295 columns.
   */
  lemma EqualDevicesOutOfOrder(plan: Plan, search: Search, plotOf: seq<nat>)
    requires CrowdScreen(2).Valid() && Planned(CrowdScreen(2), plan, search, plotOf)
    ensures (forall d :: 0 <= d < 25 ==> CrowdScreen(2).draws[d] == 2) && !InOrder(plan)
  {
    hide Planned, InOrder;
    CrowdPlan(2, plan, search, plotOf);
    assert plan.inStack[0] > plan.inStack[1];
    SlotsInPlotOrderIff(CrowdScreen(2), plan, search, plotOf);
  }

  lemma {:induction false} CrowdSums(inStack: seq<nat>, lines: seq<nat>, k: nat)
    requires inStack == SevenSix()[0 := 1] && lines == CrowdLines(3, 12) && k <= 7
    ensures SumIf(lines, inStack, 0, k) == if k == 0 then 0 else 4 * (k - 1)
    ensures SumIf(Ones(13), inStack, 0, k) == if k == 0 then 0 else k - 1
  {
    if k > 0 { CrowdSums(inStack, lines, k - 1); }
  }

  lemma {:induction false} NoneFrom(w: seq<nat>, sel: seq<nat>, s: nat, j: nat, k: nat)
    requires j <= k <= |w| && k <= |sel| && forall i :: j <= i < k ==> sel[i] != s
    ensures SumIf(w, sel, s, k) == SumIf(w, sel, s, j)
    decreases k
  {
    if j < k { NoneFrom(w, sel, s, j, k - 1); }
  }

  /** The slot of the second plot is 49 columns wide. */
  lemma CrowdSlotWidth(a: Area)
    requires a.cols == 305 && a.lines == CrowdLines(3, 12) && a.inStack == SevenSix()[0 := 1]
    ensures PlotWindow(a, 1).sizeX == 49
  {
    CrowdSums(a.inStack, a.lines, 7);
    NoneFrom(a.lines, a.inStack, 0, 7, 13);
    NoneFrom(Ones(13), a.inStack, 0, 7, 13);
    hide SumIf;
    assert Room(a, 0) == 275 && LinesOn(a, 0, 13) == 24;
    assert MaxCols(a, 1) == 50;
  }

  /** The first slot is filled for the second plot. */
  lemma CrowdFirstSlot(inStack: seq<nat>)
    requires inStack == SevenSix()[0 := 1]
    ensures |StackOrder(inStack, 2)| > 0 && StackOrder(inStack, 2)[0] == 1
  {
    assert OnStack(inStack, 0, 1) == [] && OnStack(inStack, 0, 2) == [1];
    OnStackGrows(inStack, 0, 2, 13);
    assert StackOrder(inStack, 1) == OnStack(inStack, 0, 13);
  }

  /**
   * Nor do they keep the drawing code's assert: with three lines on the first device and two on each of the others, on
   * 41 rows and 305 columns, plot 0, of three lines, is drawn in a slot of drawing width 44.
   */
  lemma DescendingDevicesBreakDivision(plan: Plan, search: Search, plotOf: seq<nat>, headers: seq<Window>, slots: seq<Window>, process: Window, setup: Window)
    requires CrowdScreen(3).Valid() && Planned(CrowdScreen(3), plan, search, plotOf)
    requires LayoutOk(CrowdScreen(3), plan, headers, slots, process, setup)
    ensures NonIncreasing(CrowdScreen(3).draws)
    ensures |slots| == 13 && plan.lines[0] == 3 && slots[0].sizeX - BOX_COLS == 44 && !DrawsCleanly(CrowdScreen(3).draws, plotOf, slots, 0)
  {
    hide Planned, DrawsCleanly, HeadersOk, ProcessOk, SlotOk, PlotWindow, StackOrder, Ready;
    CrowdPlan(3, plan, search, plotOf);
    CrowdFirstSlot(plan.inStack);
    var a := PlotArea(CrowdScreen(3), plan.b, plan.numStacks, plan.lines, plan.inStack);
    CrowdSlotWidth(a);
    DrawsCleanlyIff(CrowdScreen(3), plan, search, plotOf, headers, slots, process, setup, 0);
    assert slots[0] == PlotWindow(a, plan.Order()[0]);
  }
}
