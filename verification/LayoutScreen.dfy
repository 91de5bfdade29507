/** compute_sizes_from_layout: the whole screen, and why its windows never overlap. */
module LayoutScreen {
  import opened Sums
  import opened LayoutMerge
  import opened LayoutPack
  import opened LayoutSearch
  import opened LayoutBalance
  import opened LayoutHeader

  /** info_in_plot, whose assert is the precondition: only plots that show something are asked for. */
  method InfoInPlot(plotId: nat, draws: seq<nat>, plotOf: seq<nat>) returns (sum: nat)
    requires |plotOf| == |draws| && SumIf(draws, plotOf, plotId, |draws|) > 0
    ensures sum == SumIf(draws, plotOf, plotId, |draws|)
  {
    sum := 0;
    for d := 0 to |draws|
      invariant sum == SumIf(draws, plotOf, plotId, d)
    {
      if plotOf[d] == plotId {
        sum := sum + draws[d];
      }
    }
    assert sum > 0;
  }

  /** cols_used_by_stack */
  method ColsUsedByStack(stackId: nat, lines: seq<nat>, inStack: seq<nat>) returns (sum: nat)
    requires |inStack| == |lines|
    ensures sum == SumIf(Widths(lines), inStack, stackId, |lines|)
  {
    sum := 0;
    for p := 0 to |lines|
      invariant sum == SumIf(Widths(lines), inStack, stackId, p)
    {
      if inStack[p] == stackId {
        sum := sum + MinPlotCols(lines[p]);
      }
    }
  }

  /** The number of stacks is final: never more than plots, each added one with 11 rows, and no further one can be added. */
  predicate MoreStacks(numPlots: nat, numStacks: nat, stacks: nat, rows: nat) {
    && numStacks <= stacks <= numPlots && stacks * MIN_PLOT_ROWS <= rows
    && (stacks == numPlots || rows / (stacks + 1) < 11 || (stacks + 1) * MIN_PLOT_ROWS > rows)
    && (forall k :: numStacks < k <= stacks ==> rows / k >= 11)
  }

  /** More stacks while every stack still gets at least 11 rows: as many as possible, never more than plots. */
  method AddStacks(numPlots: nat, numStacks: nat, rows: nat) returns (stacks: nat)
    requires 0 < numStacks <= numPlots && numStacks * MIN_PLOT_ROWS <= rows
    ensures MoreStacks(numPlots, numStacks, stacks, rows)
  {
    stacks := numStacks;
    while stacks < numPlots && rows / (stacks + 1) >= 11 && (stacks + 1) * MIN_PLOT_ROWS <= rows
      invariant numStacks <= stacks <= numPlots && stacks * MIN_PLOT_ROWS <= rows
      invariant forall k :: numStacks < k <= stacks ==> rows / k >= 11
    {
      stacks := stacks + 1;
    }
  }

  /** The plots after balancing: their lines are those of their devices, and the stacks are those of the balancing run. */
  ghost predicate Stacked(draws: seq<nat>, plotOf: seq<nat>, cols: nat, stacks: nat, lines: seq<nat>, start: seq<nat>, inStack: seq<nat>) {
    && Plotted(draws, plotOf, lines) && |start| == |inStack| == |lines|
    && (exists st, st2 :: BalancedFrom(st, st2, cols, stacks, lines, start, inStack))
  }

  ghost predicate BalancedFrom(st: Stacking, st2: Stacking, cols: nat, stacks: nat, lines: seq<nat>, start: seq<nat>, inStack: seq<nat>) {
    && st.lines == lines && st.inStack == start && |st.alloc| == stacks && st2.inStack == inStack
    && Balanced(st, st2, cols, Clamped(stacks, |lines|))
    && st2 == Run(st, cols, Clamped(stacks, |lines|), |lines| - 1)
    && AllStuckAbove(st2, cols, Clamped(stacks, |lines|), -1)
  }

  lemma InitiallyAllocated(lines: seq<nat>, cols: nat, stacks: nat, inStack: seq<nat>, stacks2: nat, alloc: seq<nat>)
    requires Fits(Widths(lines), cols, stacks, inStack) && stacks <= stacks2 == |alloc|
    requires forall s :: 0 <= s < |alloc| ==> alloc[s] == SumIf(Widths(lines), inStack, s, |lines|)
    ensures Allocated(Stacking(lines, inStack, alloc), cols)
  {
  }

  /** Line counts of the plots, from the devices mapped to them. */
  method RecountLines(draws: seq<nat>, plotOf: seq<nat>, numPlots: nat, ghost expected: seq<nat>) returns (lines: seq<nat>)
    requires Plotted(draws, plotOf, expected) && numPlots == |expected|
    ensures lines == expected
  {
    var info := new nat[numPlots];
    for i := 0 to numPlots
      invariant forall p :: 0 <= p < i ==> info[p] == expected[p]
    {
      info[i] := InfoInPlot(i, draws, plotOf);
    }
    lines := info[..];
  }

  method RecountCols(lines: seq<nat>, inStack: seq<nat>, stacks: nat) returns (alloc: array<nat>)
    requires |inStack| == |lines|
    ensures fresh(alloc) && alloc.Length == stacks
    ensures forall s :: 0 <= s < stacks ==> alloc[..][s] == SumIf(Widths(lines), inStack, s, |lines|)
  {
    alloc := new nat[stacks];
    for i := 0 to stacks
      invariant forall s :: 0 <= s < i ==> alloc[s] == SumIf(Widths(lines), inStack, s, |lines|)
    {
      alloc[i] := ColsUsedByStack(i, lines, inStack);
    }
  }

  /** Recount lines and columns, then balance. */
  method SpreadPlots(draws: seq<nat>, plotOf: seq<nat>, cols: nat, ghost fewest: nat, stacks: nat, inStack: array<nat>, numPlots: nat, ghost expected: seq<nat>)
    returns (lines: seq<nat>)
    requires Plotted(draws, plotOf, expected) && numPlots == |expected| <= inStack.Length && fewest <= stacks
    requires Fits(Widths(expected), cols, fewest, inStack[..numPlots])
    modifies inStack
    ensures lines == expected
    ensures Stacked(draws, plotOf, cols, stacks, lines, old(inStack[..numPlots]), inStack[..numPlots])
  {
    lines := RecountLines(draws, plotOf, numPlots, expected);
    var alloc := RecountCols(lines, inStack[..numPlots], stacks);
    ghost var st := Stacking(lines, inStack[..numPlots], alloc[..]);
    hide Fits, Plotted, Allocated, Balanced, AllStuckAbove, Run;
    InitiallyAllocated(lines, cols, fewest, inStack[..numPlots], stacks, alloc[..]);
    assert alloc[..] == alloc[..stacks];
    BalanceStacks(cols, stacks, lines, alloc, inStack);
    ghost var st2 := Stacking(lines, inStack[..numPlots], alloc[..stacks]);
    assert BalancedFrom(st, st2, cols, stacks, lines, old(inStack[..numPlots]), inStack[..numPlots]);
  }

  // ----- From the budget to the final stacks -----

  /** Give the headers one separating row per grid row when the plots can spare them. */
  function SpaceHeaders(b: Budget, headerStacks: nat, numStacks: nat): (r: (Budget, bool))
    requires headerStacks > 0 && numStacks * MIN_PLOT_ROWS <= b.plots
    ensures r.1 <==> numStacks * MIN_PLOT_ROWS + (headerStacks - 1) <= b.plots
    ensures r.0.header == b.header + (if r.1 then headerStacks - 1 else 0) && r.0.header + r.0.plots == b.header + b.plots
    ensures r.0.process == b.process
  {
    var space := headerStacks - 1;
    if b.plots - numStacks * MIN_PLOT_ROWS >= space then (Budget(b.header + space, b.plots - space, b.process), true)
    else (b, false)
  }

  /** Everything the later stages need to know about the arranged plots. */
  ghost predicate Arranged(rows: nat, cols: nat, draws: seq<nat>, plotOf: seq<nat>, numStacks: nat, lines: seq<nat>, inStack: seq<nat>) {
    && |inStack| == |lines| <= |draws|
    && (|lines| == 0 <==> numStacks == 0)
    && numStacks * MIN_PLOT_ROWS <= rows
    && (forall p :: 0 <= p < |inStack| ==> inStack[p] < numStacks)
    && (|lines| > 0 ==> Plotted(draws, plotOf, lines))
    && (forall s: nat :: SumIf(Widths(lines), inStack, s, |lines|) <= cols)
  }

  lemma NothingArranged(rows: nat, cols: nat, draws: seq<nat>, plotOf: seq<nat>)
    ensures Arranged(rows, cols, draws, plotOf, 0, [], [])
  {
  }

  lemma {:induction false} NoPlotOnStack(w: seq<nat>, inStack: seq<nat>, s: nat, k: nat)
    requires k <= |w| && k <= |inStack| && forall p :: 0 <= p < |inStack| ==> inStack[p] < s
    ensures SumIf(w, inStack, s, k) == 0
  {
    if k > 0 { NoPlotOnStack(w, inStack, s, k - 1); }
  }

  lemma StackedIsArranged(rows: nat, cols: nat, draws: seq<nat>, plotOf: seq<nat>, stacks: nat, lines: seq<nat>, start: seq<nat>, inStack: seq<nat>)
    requires Stacked(draws, plotOf, cols, stacks, lines, start, inStack)
    requires |lines| > 0 && stacks > 0 && stacks * MIN_PLOT_ROWS <= rows
    ensures Arranged(rows, cols, draws, plotOf, stacks, lines, inStack)
  {
    var st, st2 :| BalancedFrom(st, st2, cols, stacks, lines, start, inStack);
    forall s: nat ensures SumIf(Widths(lines), inStack, s, |lines|) <= cols {
      if s < stacks {
        assert st2.alloc[s] == SumIf(Widths(lines), inStack, s, |lines|);
      } else {
        NoPlotOnStack(Widths(lines), inStack, s, |lines|);
      }
    }
  }

  /** Why there are as many plots as there are: how the search went, and how it ended. */
  ghost predicate Searched(rows: nat, cols: nat, draws: seq<nat>, trace: seq<seq<nat>>, fewest: nat, start: seq<nat>, lines: seq<nat>) {
    && History(rows, cols, draws, trace) && |Final(trace)| == |draws|
    && SearchOutcome(rows, cols, draws, Final(trace), fewest, start)
    && lines == if fewest > 0 then Lines(Final(trace), |draws|) else []
  }

  lemma PackedPlots(rows: nat, cols: nat, draws: seq<nat>, trace: seq<seq<nat>>, fewest: nat, start: seq<nat>)
    requires History(rows, cols, draws, trace) && |Final(trace)| == |draws|
    requires SearchOutcome(rows, cols, draws, Final(trace), fewest, start) && fewest > 0
    ensures var lines := Lines(Final(trace), |draws|);
            0 < fewest <= |lines| && fewest * MIN_PLOT_ROWS <= rows && Fits(Widths(lines), cols, fewest, start) && NonDecreasing(start)
  {
  }

  /** From the first split of the rows to the final stack of every plot. */
  method ArrangePlots(b0: Budget, headerStacks: nat, cols: nat, draws: seq<nat>, plotOf: array<nat>, inStack: array<nat>)
    returns (b: Budget, spaced: bool, numPlots: nat, numStacks: nat, lines: seq<nat>, ghost trace: seq<seq<nat>>, ghost fewest: nat, ghost start: seq<nat>)
    requires headerStacks > 0 && |draws| <= MAX_CHARTS && |draws| <= plotOf.Length && |draws| <= inStack.Length && plotOf != inStack
    modifies plotOf, inStack
    ensures numPlots == |lines| <= |draws|
    ensures Searched(b0.plots, cols, draws, trace, fewest, start, lines)
    ensures fewest * MIN_PLOT_ROWS <= b0.plots && (b, spaced) == SpaceHeaders(b0, headerStacks, fewest)
    ensures numPlots > 0 ==> Stacked(draws, plotOf[..|draws|], cols, numStacks, lines, start, inStack[..numPlots])
    ensures numPlots > 0 ==> MoreStacks(numPlots, fewest, numStacks, b.plots)
    ensures Arranged(b.plots, cols, draws, plotOf[..|draws|], numStacks, lines, inStack[..numPlots])
  {
    numPlots, numStacks, trace := PreliminaryPlotPositioning(b0.plots, cols, draws, plotOf, inStack);
    start, fewest, lines := inStack[..numPlots], numStacks, [];
    hide *;
    SpacingKeepsRoom(b0, headerStacks, numStacks);
    var spacing := SpaceHeaders(b0, headerStacks, numStacks);
    b, spaced := spacing.0, spacing.1;
    if numStacks > 0 {
      numStacks := AddStacks(numPlots, numStacks, b.plots);
      MoreStacksFit(numPlots, fewest, numStacks, b.plots);
      lines := SpreadPlots(draws, plotOf[..|draws|], cols, fewest, numStacks, inStack, numPlots, Lines(Final(trace), |draws|));
      StackedIsArranged(b.plots, cols, draws, plotOf[..|draws|], numStacks, lines, start, inStack[..numPlots]);
    } else {
      NothingArranged(b.plots, cols, draws, plotOf[..|draws|]);
      assert inStack[..numPlots] == [];
    }
    SearchIsRecorded(b0.plots, cols, draws, trace, fewest, start, lines);
  }

  lemma MoreStacksFit(numPlots: nat, numStacks: nat, stacks: nat, rows: nat)
    requires MoreStacks(numPlots, numStacks, stacks, rows)
    ensures numStacks <= stacks && stacks * MIN_PLOT_ROWS <= rows
  {
  }

  lemma SpacingKeepsRoom(b0: Budget, headerStacks: nat, numStacks: nat)
    requires headerStacks > 0 && numStacks * MIN_PLOT_ROWS <= b0.plots
    ensures numStacks * MIN_PLOT_ROWS <= SpaceHeaders(b0, headerStacks, numStacks).0.plots
  {
  }

  lemma SearchIsRecorded(rows: nat, cols: nat, draws: seq<nat>, trace: seq<seq<nat>>, fewest: nat, start: seq<nat>, lines: seq<nat>)
    requires History(rows, cols, draws, trace) && |Final(trace)| == |draws|
    requires SearchOutcome(rows, cols, draws, Final(trace), fewest, start)
    requires lines == if fewest > 0 then Lines(Final(trace), |draws|) else []
    ensures Searched(rows, cols, draws, trace, fewest, start, lines)
  {
  }
}
