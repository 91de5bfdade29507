/** Packing charts into stacks, in order: the greedy pass and its optimality among order-preserving assignments. */
module LayoutPack {
  import opened Sums
  import opened LayoutMerge

  const BOX_COLS: nat := 5
  const MIN_PLOT_ROWS: nat := 7

  function MinPlotCols(lines: nat): nat { BOX_COLS + 10 * lines }

  /** Line counts of the non-empty plots below k, in order. */
  function Lines(info: seq<nat>, k: nat): seq<nat>
    requires k <= |info|
  {
    if k == 0 then []
    else if info[k - 1] > 0 then Lines(info, k - 1) + [info[k - 1]]
    else Lines(info, k - 1)
  }

  function Widths(lines: seq<nat>): (ws: seq<nat>)
    ensures |ws| == |lines| && forall i :: 0 <= i < |lines| ==> ws[i] == MinPlotCols(lines[i])
  {
    seq(|lines|, i requires 0 <= i < |lines| => MinPlotCols(lines[i]))
  }

  lemma {:induction false} LinesFacts(info: seq<nat>, k: nat)
    requires k <= |info|
    ensures |Lines(info, k)| == NonEmptyCount(info, k) <= k
    ensures forall i :: 0 <= i < |Lines(info, k)| ==> Lines(info, k)[i] > 0
  {
    if k > 0 { LinesFacts(info, k - 1); }
  }

  lemma {:induction false} LinesPrefix(info: seq<nat>, j: nat, k: nat)
    requires j <= k <= |info|
    ensures Lines(info, j) <= Lines(info, k)
  {
    if j < k { LinesPrefix(info, j, k - 1); }
  }

  /** A non-empty plot is found in the filtered list at its rank. */
  lemma LinesAtRank(info: seq<nat>, i: nat)
    requires i < |info| && info[i] > 0
    ensures NonEmptyCount(info, i) < |Lines(info, |info|)|
    ensures Lines(info, |info|)[NonEmptyCount(info, i)] == info[i]
  {
    LinesFacts(info, i);
    LinesPrefix(info, i + 1, |info|);
    assert Lines(info, i + 1)[NonEmptyCount(info, i)] == info[i];
  }

  // ----- Order-preserving assignments -----

  /** Plots in order on stacks 0, 1, ...; no stack wider than the screen. */
  ghost predicate Assignment(ws: seq<nat>, cols: nat, a: seq<nat>) {
    && |a| == |ws|
    && NonDecreasing(a)
    && (forall s: nat :: SumIf(ws, a, s, |ws|) <= cols)
  }

  ghost predicate Fits(ws: seq<nat>, cols: nat, stacks: nat, a: seq<nat>) {
    Assignment(ws, cols, a) && forall i :: 0 <= i < |a| ==> a[i] < stacks
  }

  ghost predicate CanFit(ws: seq<nat>, cols: nat, stacks: nat) {
    exists a :: Fits(ws, cols, stacks, a)
  }

  datatype Cursor = Cursor(stack: nat, used: nat)

  /** Where the in-order first-fit rule stands after the first k plots. */
  function Greedy(ws: seq<nat>, cols: nat, k: nat): Cursor
    requires k <= |ws|
  {
    if k == 0 then Cursor(0, 0) else
      var c := Greedy(ws, cols, k - 1);
      if c.used + ws[k - 1] <= cols then Cursor(c.stack, c.used + ws[k - 1]) else Cursor(c.stack + 1, ws[k - 1])
  }

  function GreedyAssignment(ws: seq<nat>, cols: nat): (a: seq<nat>)
    ensures |a| == |ws|
    ensures forall i :: 0 <= i < |ws| ==> a[i] == Greedy(ws, cols, i + 1).stack
  {
    seq(|ws|, i requires 0 <= i < |ws| => Greedy(ws, cols, i + 1).stack)
  }

  /** Greedy stays ahead: after k plots no assignment is on an earlier stack, nor on the same stack with less used. */
  lemma {:induction false} GreedyStaysAhead(ws: seq<nat>, cols: nat, b: seq<nat>, k: nat)
    requires Assignment(ws, cols, b) && 0 < k <= |ws|
    ensures b[k - 1] >= Greedy(ws, cols, k).stack
    ensures b[k - 1] == Greedy(ws, cols, k).stack ==> SumIf(ws, b, b[k - 1], k) >= Greedy(ws, cols, k).used
  {
    SumIfMonotone(ws, b, b[k - 1], k, |ws|);
    assert SumIf(ws, b, b[k - 1], |ws|) <= cols;
    if k > 1 {
      GreedyStaysAhead(ws, cols, b, k - 1);
      assert b[k - 2] <= b[k - 1];
    }
  }

  lemma {:induction false} GreedySums(ws: seq<nat>, cols: nat, s: nat, k: nat)
    requires k <= |ws| && forall i :: 0 <= i < |ws| ==> ws[i] <= cols
    ensures var c := Greedy(ws, cols, k);
            var sum := SumIf(ws, GreedyAssignment(ws, cols), s, k);
            c.used <= cols && sum <= cols && (s == c.stack ==> sum == c.used) && (s > c.stack ==> sum == 0)
  {
    if k > 0 { GreedySums(ws, cols, s, k - 1); }
  }

  lemma {:induction false} GreedyMonotone(ws: seq<nat>, cols: nat, j: nat, k: nat)
    requires j <= k <= |ws|
    ensures Greedy(ws, cols, j).stack <= Greedy(ws, cols, k).stack
  {
    if j < k { GreedyMonotone(ws, cols, j, k - 1); }
  }

  lemma {:induction false} GreedyStackBound(ws: seq<nat>, cols: nat, k: nat)
    requires 0 < k <= |ws| && ws[0] <= cols
    ensures Greedy(ws, cols, k).stack < k
  {
    if k > 1 { GreedyStackBound(ws, cols, k - 1); }
  }

  /** When every plot fits on an empty stack, greedy is an order-preserving assignment with the fewest stacks. */
  lemma GreedyIsOptimal(ws: seq<nat>, cols: nat)
    requires |ws| > 0 && forall i :: 0 <= i < |ws| ==> ws[i] <= cols
    ensures Fits(ws, cols, Greedy(ws, cols, |ws|).stack + 1, GreedyAssignment(ws, cols))
    ensures forall b, k: nat :: Fits(ws, cols, k, b) ==> Greedy(ws, cols, |ws|).stack + 1 <= k
    ensures Greedy(ws, cols, |ws|).stack + 1 <= |ws|
  {
    var g := GreedyAssignment(ws, cols);
    forall s: nat ensures SumIf(ws, g, s, |ws|) <= cols { GreedySums(ws, cols, s, |ws|); }
    forall i, j | 0 <= i < j < |g| ensures g[i] <= g[j] { GreedyMonotone(ws, cols, i + 1, j + 1); }
    forall i | 0 <= i < |g| ensures g[i] < Greedy(ws, cols, |ws|).stack + 1 { GreedyMonotone(ws, cols, i + 1, |ws|); }
    forall b, k: nat | Fits(ws, cols, k, b) ensures Greedy(ws, cols, |ws|).stack + 1 <= k {
      GreedyStaysAhead(ws, cols, b, |ws|);
    }
    GreedyStackBound(ws, cols, |ws|);
  }

  /** When greedy needs one stack more than there are, so does every other assignment. */
  lemma GreedyOverflowMeansNoFit(ws: seq<nat>, cols: nat, i: nat, stacks: nat)
    requires 0 < i < |ws| && Greedy(ws, cols, i).stack + 1 == stacks
    requires Greedy(ws, cols, i).used + ws[i] > cols
    ensures !CanFit(ws, cols, stacks)
  {
    forall b | Fits(ws, cols, stacks, b) ensures false {
      GreedyStaysAhead(ws, cols, b, i + 1);
    }
  }

  /** A plot wider than the screen fits nowhere. */
  lemma TooWideMeansNoFit(ws: seq<nat>, cols: nat, i: nat, stacks: nat)
    requires i < |ws| && ws[i] > cols
    ensures !CanFit(ws, cols, stacks)
  {
    forall b | Fits(ws, cols, stacks, b) ensures false {
      SumIfAtLeast(ws, b, b[i], |ws|, i);
    }
  }

  /** Plots fit exactly when none is wider than the screen and the greedy packing stays within the stacks. */
  lemma CanFitIff(ws: seq<nat>, cols: nat, stacks: nat)
    ensures CanFit(ws, cols, stacks)
       <==> (forall i :: 0 <= i < |ws| ==> ws[i] <= cols) && (|ws| == 0 || Greedy(ws, cols, |ws|).stack < stacks)
  {
    hide Fits, Greedy;
    if i: nat :| i < |ws| && ws[i] > cols {
      TooWideMeansNoFit(ws, cols, i, stacks);
    } else if |ws| == 0 {
      NoPlotsFit(cols, stacks);
    } else {
      GreedyIsOptimal(ws, cols);
      FitsMore(ws, cols, Greedy(ws, cols, |ws|).stack + 1, stacks, GreedyAssignment(ws, cols));
    }
  }

  lemma NoPlotsFit(cols: nat, stacks: nat)
    ensures Fits([], cols, stacks, [])
  {
  }

  lemma FitsMore(ws: seq<nat>, cols: nat, stacks: nat, stacks2: nat, a: seq<nat>)
    requires Fits(ws, cols, stacks, a)
    ensures stacks <= stacks2 ==> Fits(ws, cols, stacks2, a)
  {
  }

  // ----- One packing pass -----

  datatype PassResult = Packed | TooWide | NoRoom

  /** What a pass looks at: the rows and columns available and the current line count of every chart. */
  datatype Config = Config(rows: nat, cols: nat, info: seq<nat>) {
    function PlotLines(): seq<nat> { Lines(info, |info|) }
    function PlotWidths(): seq<nat> { Widths(PlotLines()) }
    function MaxStacks(): nat { rows / MIN_PLOT_ROWS }
  }

  /** Where a pass stands: i charts scanned, |placed| of them non-empty and placed. */
  datatype Scan = Scan(i: nat, stacks: nat, used: nat, rowsLeft: nat, placed: seq<nat>)

  /**
   * State between two loop rounds: the placed plots follow the greedy rule, and the cursor is on an open stack, at
   * the very start, or (used == 0) about to retry chart i on a fresh stack.
   */
  ghost predicate Scanning(c: Config, st: Scan) {
    var ws := c.PlotWidths();
    var plotId := |st.placed|;
    && st.i <= |c.info| && plotId == NonEmptyCount(c.info, st.i) && plotId <= |ws| && st.stacks > 0
    && st.rowsLeft + st.stacks * MIN_PLOT_ROWS == c.rows
    && (st.used > 0 ==> plotId > 0 && Greedy(ws, c.cols, plotId) == Cursor(st.stacks - 1, st.used))
    && (st.used == 0 ==>
          || (plotId == 0 && st.stacks == 1)
          || (0 < plotId < |ws| && st.i < |c.info| && c.info[st.i] > 0
              && Greedy(ws, c.cols, plotId).stack + 2 == st.stacks
              && Greedy(ws, c.cols, plotId).used + ws[plotId] > c.cols))
    && (forall j :: 0 <= j < plotId ==> ws[j] <= c.cols)
    && st.placed == GreedyAssignment(ws, c.cols)[..plotId]
  }

  lemma {:induction false} ScanStarts(c: Config, st: Scan)
    requires c.rows >= MIN_PLOT_ROWS && st == Scan(0, 1, 0, c.rows - MIN_PLOT_ROWS, [])
    ensures Scanning(c, st)
  {
  }

  lemma {:induction false} ScanSkips(c: Config, st: Scan)
    requires Scanning(c, st) && st.i < |c.info| && c.info[st.i] == 0
    ensures Scanning(c, st.(i := st.i + 1))
  {
  }

  /** At a non-empty chart: its width is the next one of the list, so it fits nowhere if too wide for a fresh stack. */
  lemma {:induction false} ScanMeets(c: Config, st: Scan)
    requires Scanning(c, st) && st.i < |c.info| && c.info[st.i] > 0
    ensures |st.placed| < |c.info| && |st.placed| < |c.PlotLines()| && st.stacks > 0
    ensures c.PlotWidths()[|st.placed|] == MinPlotCols(c.info[st.i])
    ensures MinPlotCols(c.info[st.i]) > c.cols ==> PassOutcome(c, TooWide, 0, [])
  {
    LinesAtRank(c.info, st.i);
    LinesFacts(c.info, |c.info|);
  }

  /** Placing the plot side by side follows the greedy rule, on an open stack as on a new one. */
  lemma {:induction false} ScanPlaces(c: Config, st: Scan, st2: Scan)
    requires Scanning(c, st) && st.i < |c.info| && c.info[st.i] > 0 && st.stacks > 0
    requires st.used + MinPlotCols(c.info[st.i]) <= c.cols
    requires st2 == st.(i := st.i + 1, used := st.used + MinPlotCols(c.info[st.i]), placed := st.placed + [st.stacks - 1])
    ensures Scanning(c, st2)
  {
    ScanMeets(c, st);
    var ws, plotId := c.PlotWidths(), |st.placed|;
    assert Greedy(ws, c.cols, plotId + 1) == Cursor(st.stacks - 1, st.used + ws[plotId]);
    assert GreedyAssignment(ws, c.cols)[plotId] == st.stacks - 1;
  }

  /** The open stack is full: no assignment fits in the stacks opened so far, and a further one is opened if rows allow. */
  lemma {:induction false} ScanOpens(c: Config, st: Scan)
    requires Scanning(c, st) && st.i < |c.info| && c.info[st.i] > 0
    requires st.used > 0 && st.used + MinPlotCols(c.info[st.i]) > c.cols
    ensures st.rowsLeft < MIN_PLOT_ROWS ==> PassOutcome(c, NoRoom, 0, [])
    ensures st.rowsLeft >= MIN_PLOT_ROWS ==>
              Scanning(c, st.(stacks := st.stacks + 1, used := 0, rowsLeft := st.rowsLeft - MIN_PLOT_ROWS))
  {
    ScanMeets(c, st);
    GreedyOverflowMeansNoFit(c.PlotWidths(), c.cols, |st.placed|, st.stacks);
    assert st.rowsLeft < MIN_PLOT_ROWS ==> st.stacks == c.MaxStacks();
  }

  /** Outcome of a pass over the current charts. */
  ghost predicate PassOutcome(c: Config, result: PassResult, stacks: nat, placed: seq<nat>) {
    match result
    case Packed =>
      && 0 < stacks && stacks * MIN_PLOT_ROWS <= c.rows
      && placed == GreedyAssignment(c.PlotWidths(), c.cols)
      && FewestStacks(c.PlotWidths(), c.cols, stacks, placed)
    case TooWide => exists i :: 0 <= i < |c.PlotWidths()| && c.PlotWidths()[i] > c.cols
    case NoRoom => !CanFit(c.PlotWidths(), c.cols, c.MaxStacks())
  }

  /** An order-preserving assignment within the columns that no other beats in stacks. */
  ghost predicate FewestStacks(ws: seq<nat>, cols: nat, stacks: nat, a: seq<nat>) {
    && stacks <= |ws|
    && Fits(ws, cols, stacks, a)
    && forall b, k: nat :: Fits(ws, cols, k, b) ==> stacks <= k
  }

  /** A pass packs the charts exactly when they fit in order at all. */
  lemma PassDecides(c: Config, result: PassResult, stacks: nat, placed: seq<nat>)
    requires PassOutcome(c, result, stacks, placed)
    ensures result == Packed <==> CanFit(c.PlotWidths(), c.cols, c.MaxStacks())
  {
    hide Fits, Lines, Widths;
    var ws := c.PlotWidths();
    if result == Packed {
      FitsMore(ws, c.cols, stacks, c.MaxStacks(), placed);
    } else if result == TooWide {
      var i :| 0 <= i < |ws| && ws[i] > c.cols;
      TooWideMeansNoFit(ws, c.cols, i, c.MaxStacks());
    }
  }

  lemma {:induction false} ScanEnds(c: Config, st: Scan)
    requires Scanning(c, st) && st.i == |c.info| && NonEmptyCount(c.info, |c.info|) > 0
    ensures PassOutcome(c, Packed, st.stacks, st.placed) && |st.placed| == NonEmptyCount(c.info, |c.info|)
  {
    LinesFacts(c.info, |c.info|);
    GreedyIsOptimal(c.PlotWidths(), c.cols);
    assert st.placed == GreedyAssignment(c.PlotWidths(), c.cols);
  }

  /**
   * One round of the configuration search (the for loop, with its i-- retry). The three ways out say that the
   * current charts fit, that one of them fits nowhere, or that no assignment fits in the available rows.
   */
  method PackPass(c: Config, inStack: array<nat>) returns (result: PassResult, stacks: nat, plotId: nat)
    requires c.rows >= MIN_PLOT_ROWS && |c.info| <= inStack.Length && NonEmptyCount(c.info, |c.info|) > 0
    modifies inStack
    ensures plotId <= |c.info| && PassOutcome(c, result, stacks, inStack[..plotId])
    ensures result == Packed <==> CanFit(c.PlotWidths(), c.cols, c.MaxStacks())
    ensures result == Packed ==> plotId == NonEmptyCount(c.info, |c.info|)
  {
    hide *;
    stacks, plotId := 1, 0;
    var used, rowsLeft: nat, i := 0, c.rows - MIN_PLOT_ROWS, 0;
    ghost var st := Scan(i, stacks, used, rowsLeft, []);
    ScanStarts(c, st);
    while i < |c.info|
      invariant Scanning(c, st) && i <= |c.info| && plotId <= |c.info|
      invariant st == Scan(i, stacks, used, rowsLeft, inStack[..plotId])
      decreases |c.info| - i, if used > 0 then 1 else 0
    {
      var lines := c.info[i];
      if lines > 0 {
        ScanMeets(c, st);
        var colsThisPlot := MinPlotCols(lines);
        // The chart goes next to the one before it.
        if c.cols >= colsThisPlot + used {
          ghost var st0 := st;
          used := used + colsThisPlot;
          inStack[plotId] := stacks - 1;
          plotId := plotId + 1;
          st := Scan(i + 1, stacks, used, rowsLeft, inStack[..plotId]);
          ScanPlaces(c, st0, st);
        } else if used == 0 {
          PassDecides(c, TooWide, 0, []);
          return TooWide, 0, 0;
        } else {
          ScanOpens(c, st);
          if rowsLeft >= MIN_PLOT_ROWS {
            rowsLeft := rowsLeft - MIN_PLOT_ROWS;
            stacks := stacks + 1;
            used := 0;
            st := Scan(i, stacks, used, rowsLeft, st.placed);
            i := i - 1;
          } else {
            PassDecides(c, NoRoom, 0, []);
            return NoRoom, 0, 0;
          }
        }
      } else {
        ScanSkips(c, st);
        st := st.(i := i + 1);
      }
      i := i + 1;
    }
    ScanEnds(c, st);
    PassDecides(c, Packed, stacks, inStack[..plotId]);
    result := Packed;
  }
}
