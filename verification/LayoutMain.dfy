/** compute_sizes_from_layout: the rectangles of the whole screen, and why they never overlap. */
module LayoutMain {
  import opened Arith
  import opened Sums
  import opened LayoutMerge
  import opened LayoutPack
  import opened LayoutSearch
  import opened LayoutHeader
  import opened LayoutPlots
  import opened LayoutScreen

  /** What the caller hands in; draws[i] is the number of lines device i draws, fields the number of process columns. */
  datatype Screen = Screen(rows: nat, cols: nat, headerRows: nat, headerCols: nat, draws: seq<nat>, fields: nat, hideProcesses: bool) {
    /** Unsigned 32-bit sizes, headers of non-zero width, at most one chart per slot of the fixed arrays. */
    predicate Valid() { headerCols > 0 && cols < 0x1_0000_0000 && |draws| <= MAX_CHARTS }

    function HeaderGrid(): Grid requires Valid() { LayoutHeader.HeaderGrid(|draws|, cols, headerCols) }

    function HeaderNeed(): nat requires Valid() { HeaderGrid().stacks * headerRows }

    function FirstSplit(): Budget requires Valid() { SplitRows(rows, HeaderNeed(), |draws|, fields, hideProcesses) }
  }

  /** Headers of the given size, row by row: each in the next cell of its row, or first in the next row when that is full. */
  ghost predicate RowByRow(sc: Screen, spaced: bool, headers: seq<Window>)
    requires sc.Valid()
  {
    var grid := sc.HeaderGrid();
    var g := HeaderGaps(sc.cols, grid.perRow, sc.headerCols, spaced);
    && (|headers| > 0 ==> grid.perRow > 0 && headers[0] == Window(g.before, 0, sc.headerCols, sc.headerRows))
    && forall i :: 0 < i < |headers| ==>
         var w := headers[i - 1];
         headers[i] == if i % grid.perRow == 0 then Window(g.before, w.posY + sc.headerRows + g.rowGap, sc.headerCols, sc.headerRows)
                       else Window(w.posX + sc.headerCols + g.between, w.posY, sc.headerCols, sc.headerRows)
  }

  /** Headers never overlap; they are all on the screen exactly when it is wide enough for one and tall enough for their rows. */
  ghost predicate HeadersOk(sc: Screen, spaced: bool, headers: seq<Window>)
    requires sc.Valid()
  {
    && |headers| == |sc.draws| && RowByRow(sc, spaced, headers)
    && (forall i, j :: 0 <= i < j < |headers| ==> Disjoint(headers[i], headers[j]))
    && (|headers| > 0 ==>
          ((forall i :: 0 <= i < |headers| ==> Inside(headers[i], sc.rows, sc.cols))
           <==> sc.headerCols <= sc.cols && sc.HeaderNeed() <= sc.rows))
  }

  /** Slots never overlap, are on the screen below every header, and big enough for the plot they were sized for. */
  ghost predicate SlotsOk(sc: Screen, headers: seq<Window>, slots: seq<Window>, lines: seq<nat>, order: seq<nat>) {
    && |slots| == |order| == |lines|
    && (forall k :: 0 <= k < |slots| ==> SlotOk(sc, slots[k], lines, order[k]))
    && (forall j, k :: 0 <= j < k < |slots| ==> Disjoint(slots[j], slots[k]))
    && (forall k, i :: 0 <= k < |slots| && 0 <= i < |headers| ==> Below(slots[k], headers[i]))
  }

  ghost predicate SlotOk(sc: Screen, slot: Window, lines: seq<nat>, p: nat) {
    && p < |lines| && lines[p] > 0
    && Inside(slot, sc.rows, sc.cols)
    && slot.sizeY >= MIN_PLOT_ROWS && slot.sizeX >= MinPlotCols(lines[p])
    && (slot.sizeX - BOX_COLS) % lines[p] == 0
  }

  /**
   * The process window starts at the first row below the last stack of plots. Without plots it takes all their rows but one
   * on top of its own, and without a column to show it is empty.
   */
  ghost predicate ProcessFills(sc: Screen, plan: Plan, slots: seq<Window>, process: Window) {
    && (sc.fields == 0 ==> process.sizeY == 0)
    && (sc.fields > 0 && |plan.lines| == 0 ==> process.sizeY == plan.b.process + (if plan.b.plots > 0 then plan.b.plots - 1 else 0))
    && (sc.fields > 0 && |plan.lines| > 0 ==> forall k :: 0 <= k < |slots| ==> process.posY == plan.b.header + plan.numStacks * slots[k].sizeY)
  }

  /** The process window takes the bottom of the screen, below every plot, and below every header that fits. */
  ghost predicate ProcessOk(sc: Screen, plan: Plan, headers: seq<Window>, slots: seq<Window>, process: Window)
    requires sc.Valid()
  {
    && process.posX == 0 && process.sizeX == sc.cols && process.posY + process.sizeY == sc.rows
    && ProcessFills(sc, plan, slots, process)
    && (forall k :: 0 <= k < |slots| ==> Below(process, slots[k]))
    && (sc.HeaderNeed() <= sc.rows ==> forall i :: 0 <= i < |headers| ==> Below(process, headers[i]))
  }

  /** The rows are shared out completely between headers, plots and processes. */
  ghost predicate BudgetOk(sc: Screen, b: Budget, spaced: bool)
    requires sc.Valid()
  {
    && b.header + b.plots + b.process == sc.rows
    && (sc.HeaderNeed() <= sc.rows ==> b.header >= sc.HeaderNeed() + (if spaced then sc.HeaderGrid().stacks - 1 else 0))
    && (b.plots > 0 ==> sc.HeaderNeed() <= sc.rows)
    && (sc.fields == 0 || sc.hideProcesses ==> b.process == 0)
  }

  lemma BudgetSplit(sc: Screen, fewest: nat)
    requires sc.Valid() && sc.HeaderGrid().stacks > 0 && fewest * MIN_PLOT_ROWS <= sc.FirstSplit().plots
    ensures var (b, spaced) := SpaceHeaders(sc.FirstSplit(), sc.HeaderGrid().stacks, fewest);
            BudgetOk(sc, b, spaced)
  {
  }

  ghost predicate HeadersPlaced(sc: Screen, spaced: bool, headers: seq<Window>)
    requires sc.Valid()
  {
    var grid := sc.HeaderGrid();
    && |headers| == |sc.draws| && (|headers| > 0 ==> grid.perRow > 0)
    && var g := HeaderGaps(sc.cols, grid.perRow, sc.headerCols, spaced);
       forall i :: 0 <= i < |headers| ==> headers[i] == HeaderWindow(i, grid.perRow, sc.headerRows, sc.headerCols, g)
  }

  lemma PlacedRowByRow(sc: Screen, spaced: bool, headers: seq<Window>)
    requires sc.Valid() && HeadersPlaced(sc, spaced, headers)
    ensures RowByRow(sc, spaced, headers)
  {
    hide HeaderWindow, HeaderGaps, HeaderGrid;
    var grid := sc.HeaderGrid();
    var g := HeaderGaps(sc.cols, grid.perRow, sc.headerCols, spaced);
    if |headers| > 0 { NextHeader(0, grid.perRow, sc.headerRows, sc.headerCols, g); }
    forall i | 0 < i < |headers|
      ensures var w := headers[i - 1];
              headers[i] == if i % grid.perRow == 0 then Window(g.before, w.posY + sc.headerRows + g.rowGap, sc.headerCols, sc.headerRows)
                            else Window(w.posX + sc.headerCols + g.between, w.posY, sc.headerCols, sc.headerRows)
    {
      NextHeader(i - 1, grid.perRow, sc.headerRows, sc.headerCols, g);
    }
  }

  lemma PlacedHeadersOk(sc: Screen, b: Budget, spaced: bool, headers: seq<Window>)
    requires sc.Valid() && BudgetOk(sc, b, spaced) && HeadersPlaced(sc, spaced, headers)
    ensures HeadersOk(sc, spaced, headers)
    ensures sc.HeaderNeed() <= sc.rows ==> forall i :: 0 <= i < |headers| ==> headers[i].posY + headers[i].sizeY <= b.header
  {
    PlacedRowByRow(sc, spaced, headers);
    if |headers| == 0 { return; }
    hide RowByRow;
    var grid := sc.HeaderGrid();
    var g := HeaderGaps(sc.cols, grid.perRow, sc.headerCols, spaced);
    GridFits(|sc.draws|, sc.cols, sc.headerCols);
    ExtentSplits(grid.stacks, sc.headerRows, g.rowGap);
    HeadersOnScreenIff(|sc.draws|, sc.rows, sc.cols, sc.headerRows, sc.headerCols, spaced);
    forall i, j | 0 <= i < j < |headers| ensures Disjoint(headers[i], headers[j]) {
      HeadersDisjoint(i, j, grid.perRow, sc.headerRows, sc.headerCols, g);
    }
    forall i | 0 <= i < |headers| && sc.HeaderNeed() <= sc.rows ensures headers[i].posY + headers[i].sizeY <= b.header {
      HeaderBottoms(|sc.draws|, i, grid, sc.headerRows, sc.headerCols, g);
    }
  }

  lemma ArrangedIsReady(a: Area, rows: nat, draws: seq<nat>, plotOf: seq<nat>, numStacks: nat)
    requires Arranged(rows, a.cols, draws, plotOf, numStacks, a.lines, a.inStack) && |a.lines| > 0
    ensures Ready(a) && numStacks > 0 && numStacks * MIN_PLOT_ROWS <= rows
    ensures forall p :: 0 <= p < |a.inStack| ==> a.inStack[p] < numStacks
  {
  }

  lemma StackRows(rows: nat, numStacks: nat)
    requires numStacks > 0 && numStacks * MIN_PLOT_ROWS <= rows
    ensures rows / numStacks >= MIN_PLOT_ROWS && numStacks * (rows / numStacks) <= rows
  {
  }

  lemma FilledSlotsOk(sc: Screen, a: Area, b: Budget, numStacks: nat, headers: seq<Window>, slots: seq<Window>, order: seq<nat>)
    requires sc.Valid() && Ready(a) && a.cols == sc.cols && a.top == b.header && |slots| == |order| == |a.lines|
    requires forall p :: 0 <= p < |a.inStack| ==> a.inStack[p] < numStacks
    requires a.rowsPerStack >= MIN_PLOT_ROWS && b.header + numStacks * a.rowsPerStack <= sc.rows
    requires StackMajor(a.inStack, order) && Filled(a, slots, order)
    requires forall i :: 0 <= i < |headers| ==> headers[i].posY + headers[i].sizeY <= b.header
    ensures SlotsOk(sc, headers, slots, a.lines, order)
    ensures forall k :: 0 <= k < |slots| ==> b.header <= slots[k].posY && slots[k].posY + slots[k].sizeY <= b.header + numStacks * a.rowsPerStack
    ensures forall k :: 0 <= k < |slots| ==> slots[k].sizeY == a.rowsPerStack
  {
    forall k | 0 <= k < |slots|
      ensures SlotOk(sc, slots[k], a.lines, order[k])
      ensures b.header <= slots[k].posY && slots[k].posY + slots[k].sizeY <= b.header + numStacks * a.rowsPerStack
    {
      PlotInside(a, order[k], numStacks);
      PlotWidth(a, order[k]);
    }
    forall j, k | 0 <= j < k < |slots| ensures Disjoint(slots[j], slots[k]) {
      assert order[j] != order[k];
      if order[j] < order[k] { PlotsDisjoint(a, order[j], order[k]); } else { PlotsDisjoint(a, order[k], order[j]); }
    }
  }

  method PlaceAllHeaders(sc: Screen, spaced: bool, positions: array<Window>)
    requires sc.Valid() && |sc.draws| <= positions.Length
    modifies positions
    ensures HeadersPlaced(sc, spaced, positions[..|sc.draws|])
  {
    var grid := sc.HeaderGrid();
    GridFits(|sc.draws|, sc.cols, sc.headerCols);
    var g := HeaderGaps(sc.cols, grid.perRow, sc.headerCols, spaced);
    PlaceHeaders(|sc.draws|, grid.perRow, sc.headerRows, sc.headerCols, g, positions);
  }

  /** Height of a stack: an equal share of the rows, at most 23 of them while there is a process list to grow instead. */
  function RowsPerStack(sc: Screen, b: Budget, numStacks: nat): nat {
    if numStacks == 0 then 0
    else if !sc.hideProcesses && b.plots / numStacks > 23 then 23
    else b.plots / numStacks
  }

  /** No taller stacks fit the rows, or the cap is reached, which is there only with a process list. */
  lemma StackHeightIsLargest(sc: Screen, b: Budget, numStacks: nat)
    requires numStacks > 0
    ensures var h := RowsPerStack(sc, b, numStacks);
            && h * numStacks <= b.plots && (!sc.hideProcesses ==> h <= 23)
            && ((h + 1) * numStacks > b.plots || (h == 23 && !sc.hideProcesses))
  {
    var h := RowsPerStack(sc, b, numStacks);
    DivBound(h, b.plots, numStacks);
    DivBound(h + 1, b.plots, numStacks);
  }

  function PlotArea(sc: Screen, b: Budget, numStacks: nat, lines: seq<nat>, inStack: seq<nat>): Area {
    Area(sc.cols, b.header, RowsPerStack(sc, b, numStacks), lines, inStack)
  }

  lemma StackHeights(sc: Screen, b: Budget, numStacks: nat)
    requires numStacks > 0 && numStacks * MIN_PLOT_ROWS <= b.plots
    ensures RowsPerStack(sc, b, numStacks) >= MIN_PLOT_ROWS && numStacks * RowsPerStack(sc, b, numStacks) <= b.plots
  {
    StackRows(b.plots, numStacks);
    if b.plots / numStacks > 23 { MulMono(23, b.plots / numStacks, numStacks); }
  }

  lemma PlotAreaFacts(sc: Screen, b: Budget, plotOf: seq<nat>, numStacks: nat, lines: seq<nat>, inStack: seq<nat>)
    requires Arranged(b.plots, sc.cols, sc.draws, plotOf, numStacks, lines, inStack) && |lines| > 0
    ensures var a := PlotArea(sc, b, numStacks, lines, inStack);
            && a.cols == sc.cols && a.top == b.header && a.lines == lines && a.inStack == inStack && Ready(a)
            && a.rowsPerStack == RowsPerStack(sc, b, numStacks) >= MIN_PLOT_ROWS
            && numStacks > 0 && numStacks * a.rowsPerStack <= b.plots
            && |inStack| == |lines| && |StackOrder(inStack, numStacks)| == |lines| && StackMajor(inStack, StackOrder(inStack, numStacks))
    ensures forall p :: 0 <= p < |inStack| ==> inStack[p] < numStacks
  {
    ArrangedIsReady(PlotArea(sc, b, numStacks, lines, inStack), b.plots, sc.draws, plotOf, numStacks);
    StackHeights(sc, b, numStacks);
    StackOrderFacts(inStack, numStacks);
    StackOrderLength(inStack, numStacks);
  }

  /** Plot rectangles and the row they end at. */
  method PlaceAllPlots(sc: Screen, b: Budget, numStacks: nat, lines: seq<nat>, inStack: seq<nat>, slots: array<Window>, ghost plotOf: seq<nat>, ghost headers: seq<Window>)
    returns (end: nat)
    requires sc.Valid() && 0 < |lines| <= slots.Length && b.header + b.plots <= sc.rows
    requires Arranged(b.plots, sc.cols, sc.draws, plotOf, numStacks, lines, inStack)
    requires forall i :: 0 <= i < |headers| ==> headers[i].posY + headers[i].sizeY <= b.header
    modifies slots
    ensures b.header <= end == b.header + numStacks * RowsPerStack(sc, b, numStacks) <= b.header + b.plots
    ensures Filled(PlotArea(sc, b, numStacks, lines, inStack), slots[..|lines|], StackOrder(inStack, numStacks))
    ensures SlotsOk(sc, headers, slots[..|lines|], lines, StackOrder(inStack, numStacks))
    ensures forall k :: 0 <= k < |lines| ==> slots[..|lines|][k].posY + slots[..|lines|][k].sizeY <= end
    ensures forall k :: 0 <= k < |lines| ==> slots[..|lines|][k].sizeY == RowsPerStack(sc, b, numStacks)
  {
    hide *;
    PlotAreaFacts(sc, b, plotOf, numStacks, lines, inStack);
    var a := PlotArea(sc, b, numStacks, lines, inStack);
    ghost var order := PlacePlots(a, numStacks, slots);
    FilledPrefix(a, slots[..], slots[..|lines|], order);
    FilledSlotsOk(sc, a, b, numStacks, headers, slots[..|lines|], order);
    end := b.header + numStacks * a.rowsPerStack;
  }

  lemma FilledPrefix(a: Area, slots: seq<Window>, prefix: seq<Window>, order: seq<nat>)
    requires Filled(a, slots, order) && |order| <= |prefix| && prefix <= slots
    ensures Filled(a, prefix, order)
  {
  }

  // ----- The whole screen -----

  /** The final plots: the budget, and the stack of every plot. */
  datatype Plan = Plan(b: Budget, spaced: bool, numStacks: nat, lines: seq<nat>, inStack: seq<nat>) {
    /** Slot k is filled for plot Order()[k]. */
    function Order(): seq<nat> { StackOrder(inStack, numStacks) }
  }

  /** How the search went: the charts it tried, and the fewest stacks they ended up on, plot by plot. */
  datatype Search = Search(trace: seq<seq<nat>>, fewest: nat, start: seq<nat>)

  /** The plan follows from the search over the rows left by the headers and processes, and from balancing. */
  ghost predicate Planned(sc: Screen, plan: Plan, search: Search, plotOf: seq<nat>)
    requires sc.Valid()
  {
    && BudgetOk(sc, plan.b, plan.spaced)
    && sc.HeaderGrid().stacks > 0 && search.fewest * MIN_PLOT_ROWS <= sc.FirstSplit().plots
    && (plan.b, plan.spaced) == SpaceHeaders(sc.FirstSplit(), sc.HeaderGrid().stacks, search.fewest)
    && Searched(sc.FirstSplit().plots, sc.cols, sc.draws, search.trace, search.fewest, search.start, plan.lines)
    && (|plan.lines| > 0 ==>
          && Stacked(sc.draws, plotOf, sc.cols, plan.numStacks, plan.lines, search.start, plan.inStack)
          && MoreStacks(|plan.lines|, search.fewest, plan.numStacks, plan.b.plots))
    && Arranged(plan.b.plots, sc.cols, sc.draws, plotOf, plan.numStacks, plan.lines, plan.inStack)
  }

  /** Every window of the screen is where it should be. */
  ghost predicate LayoutOk(sc: Screen, plan: Plan, headers: seq<Window>, slots: seq<Window>, process: Window, setup: Window)
    requires sc.Valid()
  {
    && HeadersOk(sc, plan.spaced, headers)
    && SlotsOk(sc, headers, slots, plan.lines, plan.Order())
    && Filled(PlotArea(sc, plan.b, plan.numStacks, plan.lines, plan.inStack), slots, plan.Order())
    && ProcessOk(sc, plan, headers, slots, process)
    && plan.b.header <= sc.rows && setup == Window(0, plan.b.header, sc.cols, sc.rows - plan.b.header)
  }

  function ProcessWindow(sc: Screen, rowsForProcess: nat): Window
    requires rowsForProcess <= sc.rows
  {
    Window(0, sc.rows - rowsForProcess, sc.cols, rowsForProcess)
  }

  /** The process window starts at or below row `end`, where headers and plots end. */
  lemma ProcessBelow(sc: Screen, plan: Plan, rowsForProcess: nat, headers: seq<Window>, slots: seq<Window>, end: nat)
    requires sc.Valid() && plan.b.header <= end && end + rowsForProcess <= sc.rows
    requires forall k :: 0 <= k < |slots| ==> slots[k].posY + slots[k].sizeY <= end
    requires sc.HeaderNeed() <= sc.rows ==> forall i :: 0 <= i < |headers| ==> headers[i].posY + headers[i].sizeY <= plan.b.header
    requires ProcessFills(sc, plan, slots, ProcessWindow(sc, rowsForProcess))
    ensures ProcessOk(sc, plan, headers, slots, ProcessWindow(sc, rowsForProcess))
  {
  }

  /** The last part of the layout: plots on the budgeted rows, then processes on what is left. */
  method PlacePlotsAndProcess(sc: Screen, plan: Plan, slots: array<Window>, ghost plotOf: seq<nat>, ghost headers: seq<Window>)
    returns (process: Window)
    requires sc.Valid() && |plan.lines| <= slots.Length && BudgetOk(sc, plan.b, plan.spaced)
    requires Arranged(plan.b.plots, sc.cols, sc.draws, plotOf, plan.numStacks, plan.lines, plan.inStack)
    requires sc.HeaderNeed() <= sc.rows ==> forall i :: 0 <= i < |headers| ==> headers[i].posY + headers[i].sizeY <= plan.b.header
    modifies slots
    ensures Filled(PlotArea(sc, plan.b, plan.numStacks, plan.lines, plan.inStack), slots[..|plan.lines|], plan.Order())
    ensures SlotsOk(sc, headers, slots[..|plan.lines|], plan.lines, plan.Order())
    ensures ProcessOk(sc, plan, headers, slots[..|plan.lines|], process)
  {
    hide *;
    var b, numStacks, lines, inStack := plan.b, plan.numStacks, plan.lines, plan.inStack;
    BudgetFacts(sc, b, plan.spaced);
    OrderOf(plan);
    var rowsForProcess, end := b.process, b.header;
    if |lines| > 0 {
      ArrangedStacks(b.plots, sc.cols, sc.draws, plotOf, numStacks, lines, inStack);
      end := PlaceAllPlots(sc, b, numStacks, lines, inStack, slots, plotOf, headers);
      if sc.fields > 0 {
        rowsForProcess := rowsForProcess + (b.header + b.plots - end);
      }
    } else {
      NoSlots(sc, b, plotOf, numStacks, lines, inStack, headers, slots[..|lines|]);
      // The processes get the rows the plots do not use, but for one.
      if sc.fields > 0 && b.plots > 0 {
        rowsForProcess := rowsForProcess + b.plots - 1;
      }
    }
    process := ProcessWindow(sc, rowsForProcess);
    Fills(sc, plan, rowsForProcess, slots[..|lines|], end);
    ProcessBelow(sc, plan, rowsForProcess, headers, slots[..|lines|], end);
  }

  lemma Fills(sc: Screen, plan: Plan, rowsForProcess: nat, slots: seq<Window>, end: nat)
    requires rowsForProcess <= sc.rows && |slots| == |plan.lines| && plan.b.header + plan.b.plots + plan.b.process == sc.rows
    requires sc.fields == 0 ==> rowsForProcess == 0
    requires |plan.lines| > 0 ==> end == plan.b.header + plan.numStacks * RowsPerStack(sc, plan.b, plan.numStacks)
    requires |plan.lines| > 0 && sc.fields > 0 ==> rowsForProcess == sc.rows - end
    requires |plan.lines| == 0 && sc.fields > 0 ==> rowsForProcess == plan.b.process + (if plan.b.plots > 0 then plan.b.plots - 1 else 0)
    requires forall k :: 0 <= k < |slots| ==> slots[k].sizeY == RowsPerStack(sc, plan.b, plan.numStacks)
    ensures ProcessFills(sc, plan, slots, ProcessWindow(sc, rowsForProcess))
  {
    hide RowsPerStack;
  }

  lemma OrderOf(plan: Plan)
    ensures plan.Order() == StackOrder(plan.inStack, plan.numStacks)
  {
  }

  lemma ArrangedStacks(rows: nat, cols: nat, draws: seq<nat>, plotOf: seq<nat>, numStacks: nat, lines: seq<nat>, inStack: seq<nat>)
    requires Arranged(rows, cols, draws, plotOf, numStacks, lines, inStack) && |lines| > 0
    ensures numStacks > 0 && rows > 0
  {
  }

  lemma NoSlots(sc: Screen, b: Budget, plotOf: seq<nat>, numStacks: nat, lines: seq<nat>, inStack: seq<nat>, headers: seq<Window>, slots: seq<Window>)
    requires Arranged(b.plots, sc.cols, sc.draws, plotOf, numStacks, lines, inStack) && |lines| == 0 == |slots|
    ensures Filled(PlotArea(sc, b, numStacks, lines, inStack), slots, [])
    ensures StackOrder(inStack, numStacks) == [] && SlotsOk(sc, headers, slots, lines, [])
  {
  }

  /** All rectangles, once the plan is known. */
  method PlaceWindows(sc: Screen, plan: Plan, devicePositions: array<Window>, plotPositions: array<Window>, ghost plotOf: seq<nat>)
    returns (process: Window, setup: Window)
    requires sc.Valid() && BudgetOk(sc, plan.b, plan.spaced) && devicePositions != plotPositions
    requires |sc.draws| <= devicePositions.Length && |plan.lines| <= plotPositions.Length
    requires Arranged(plan.b.plots, sc.cols, sc.draws, plotOf, plan.numStacks, plan.lines, plan.inStack)
    modifies devicePositions, plotPositions
    ensures LayoutOk(sc, plan, devicePositions[..|sc.draws|], plotPositions[..|plan.lines|], process, setup)
  {
    hide *;
    PlaceAllHeaders(sc, plan.spaced, devicePositions);
    ghost var headers := devicePositions[..|sc.draws|];
    PlacedHeadersOk(sc, plan.b, plan.spaced, headers);
    BudgetFacts(sc, plan.b, plan.spaced);
    process := PlacePlotsAndProcess(sc, plan, plotPositions, plotOf, headers);
    setup := Window(0, plan.b.header, sc.cols, sc.rows - plan.b.header);
    AllOk(sc, plan, headers, plotPositions[..|plan.lines|], process, setup);
    assert devicePositions[..|sc.draws|] == headers;
  }

  lemma BudgetFacts(sc: Screen, b: Budget, spaced: bool)
    requires sc.Valid() && BudgetOk(sc, b, spaced)
    ensures b.header + b.plots + b.process == sc.rows && (b.plots > 0 ==> sc.HeaderNeed() <= sc.rows)
    ensures sc.fields == 0 ==> b.process == 0
  {
  }

  lemma AllOk(sc: Screen, plan: Plan, headers: seq<Window>, slots: seq<Window>, process: Window, setup: Window)
    requires sc.Valid() && plan.b.header <= sc.rows
    requires HeadersOk(sc, plan.spaced, headers) && SlotsOk(sc, headers, slots, plan.lines, plan.Order())
    requires ProcessOk(sc, plan, headers, slots, process)
    requires Filled(PlotArea(sc, plan.b, plan.numStacks, plan.lines, plan.inStack), slots, plan.Order())
    requires setup == Window(0, plan.b.header, sc.cols, sc.rows - plan.b.header)
    ensures LayoutOk(sc, plan, headers, slots, process, setup)
  {
  }

  /** Budget, search, extra stacks and balancing. */
  method MakePlan(sc: Screen, plotOf: array<nat>) returns (plan: Plan, ghost search: Search)
    requires sc.Valid() && |sc.draws| <= plotOf.Length
    modifies plotOf
    ensures Planned(sc, plan, search, plotOf[..|sc.draws|])
  {
    var stackOf := new nat[MAX_CHARTS];
    GridFits(|sc.draws|, sc.cols, sc.headerCols);
    assert sc.HeaderGrid().stacks > 0 && |sc.draws| <= MAX_CHARTS;
    hide SplitRows, HeaderGrid, SpaceHeaders, BudgetOk, Searched, Stacked, Arranged, MoreStacks;
    var b, spaced, numPlots, numStacks, lines;
    ghost var trace, fewest, start;
    b, spaced, numPlots, numStacks, lines, trace, fewest, start :=
      ArrangePlots(sc.FirstSplit(), sc.HeaderGrid().stacks, sc.cols, sc.draws, plotOf, stackOf);
    BudgetSplit(sc, fewest);
    plan := Plan(b, spaced, numStacks, lines, stackOf[..numPlots]);
    search := Search(trace, fewest, start);
  }

  /** compute_sizes_from_layout */
  method ComputeSizes(sc: Screen, devicePositions: array<Window>, plotPositions: array<Window>, plotOf: array<nat>)
    returns (numPlots: nat, process: Window, setup: Window, plan: Plan, ghost search: Search)
    requires sc.Valid() && devicePositions != plotPositions
    requires |sc.draws| <= devicePositions.Length && |sc.draws| <= plotOf.Length && MAX_CHARTS <= plotPositions.Length
    modifies devicePositions, plotPositions, plotOf
    ensures numPlots == |plan.lines| <= |sc.draws|
    ensures Planned(sc, plan, search, plotOf[..|sc.draws|])
    ensures LayoutOk(sc, plan, devicePositions[..|sc.draws|], plotPositions[..numPlots], process, setup)
  {
    plan, search := MakePlan(sc, plotOf);
    hide BudgetOk, Searched, Stacked, SpaceHeaders, LayoutOk, SumIf, History;
    numPlots := |plan.lines|;
    process, setup := PlaceWindows(sc, plan, devicePositions, plotPositions, plotOf[..|sc.draws|]);
  }
}
