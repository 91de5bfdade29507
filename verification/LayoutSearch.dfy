/** preliminary_plot_positioning: search a configuration by packing and merging, then compact the surviving charts. */
module LayoutSearch {
  import opened Shared
  import opened Sums
  import opened LayoutMerge
  import opened LayoutPack

  // ----- Compaction -----

  /**
   * What compaction keeps: plot p shows exactly the lines of the devices mapped to it, devices with something to
   * draw are on non-empty plots in device order, the others stay on the slot of their own index.
   */
  ghost predicate Charted(draws: seq<nat>, info: seq<nat>, plotOf: seq<nat>) {
    && |info| == |draws| == |plotOf|
    && (forall p :: 0 <= p < |info| ==> info[p] == SumIf(draws, plotOf, p, |draws|))
    && (forall d :: 0 <= d < |draws| && draws[d] > 0 ==> plotOf[d] < |info| && info[plotOf[d]] > 0)
    && (forall d, e :: 0 <= d < e < |draws| && draws[d] > 0 && draws[e] > 0 ==> plotOf[d] <= plotOf[e])
    && (forall d :: 0 <= d < |draws| && draws[d] == 0 ==> plotOf[d] == d)
  }

  function MovedDown(info: seq<nat>, k: nat, next: nat): seq<nat>
    requires k < |info| && next < |info|
  {
    info[k := info[next]][next := 0]
  }

  /** Moving the next non-empty plot down over empty ones keeps every device on the chart of its lines. */
  lemma MoveKeepsCharted(draws: seq<nat>, info: seq<nat>, plotOf: seq<nat>, k: nat, next: nat, plotOf2: seq<nat>)
    requires Charted(draws, info, plotOf) && k < next < |info| && draws[next] > 0
    requires info[next] > 0 && forall q :: k <= q < next ==> info[q] == 0
    requires |plotOf2| == |plotOf|
    requires forall d :: 0 <= d < |plotOf| ==> plotOf2[d] == if plotOf[d] == next then k else plotOf[d]
    ensures Charted(draws, MovedDown(info, k, next), plotOf2)
  {
    var info2 := MovedDown(info, k, next);
    forall p | 0 <= p < |info| ensures info2[p] == SumIf(draws, plotOf2, p, |draws|) {
      SumIfRename(draws, plotOf, plotOf2, next, k, p, |draws|);
    }
  }

  /** ... and keeps the list of line counts. */
  lemma {:induction false} MoveKeepsLines(info: seq<nat>, k: nat, next: nat, n: nat)
    requires k < next < |info| && n <= |info|
    requires info[next] > 0 && forall q :: k <= q < next ==> info[q] == 0
    ensures n <= k ==> Lines(MovedDown(info, k, next), n) == Lines(info, n)
    ensures k < n <= next ==> Lines(MovedDown(info, k, next), n) == Lines(info, n) + [info[next]]
    ensures next < n ==> Lines(MovedDown(info, k, next), n) == Lines(info, n)
  {
    if n > 0 { MoveKeepsLines(info, k, next, n - 1); }
  }

  lemma {:induction false} LinesOfCompacted(info: seq<nat>, m: nat, n: nat)
    requires m <= |info| && n <= |info|
    requires forall q :: 0 <= q < m ==> info[q] > 0
    requires forall q :: m <= q < |info| ==> info[q] == 0
    ensures Lines(info, n) == if n <= m then info[..n] else info[..m]
  {
    if n > 0 { LinesOfCompacted(info, m, n - 1); }
  }

  method NextNonEmpty(info: array<nat>, count: nat, idx: nat) returns (next: nat)
    requires idx < count <= info.Length
    ensures idx < next <= count && forall q :: idx < q < next ==> info[q] == 0
    ensures next < count ==> info[next] > 0
  {
    next := idx + 1;
    while next < count && info[next] == 0
      invariant idx < next <= count && forall q :: idx < q < next ==> info[q] == 0
    {
      next := next + 1;
    }
  }

  /** State of the compaction after idx slots: numPlots of them are non-empty, and if fewer than idx nothing is left. */
  ghost predicate Compacting(draws: seq<nat>, lines: seq<nat>, info: seq<nat>, plotOf: seq<nat>, idx: nat, numPlots: nat) {
    && Charted(draws, info, plotOf) && Lines(info, |info|) == lines
    && numPlots <= idx <= |info|
    && (forall q :: 0 <= q < numPlots ==> info[q] > 0)
    && (numPlots < idx ==> forall q :: numPlots <= q < |info| ==> info[q] == 0)
    && (forall q :: idx <= q < |info| && draws[q] == 0 ==> info[q] == 0)
  }

  lemma {:induction false} CompactingMoves(draws: seq<nat>, lines: seq<nat>, info: seq<nat>, plotOf: seq<nat>, idx: nat, numPlots: nat, next: nat, plotOf2: seq<nat>)
    requires Compacting(draws, lines, info, plotOf, idx, numPlots) && idx < next < |info|
    requires info[next] > 0 && forall q :: idx <= q < next ==> info[q] == 0
    requires |plotOf2| == |plotOf|
    requires forall d :: 0 <= d < |plotOf| ==> plotOf2[d] == if plotOf[d] == next then idx else plotOf[d]
    ensures Compacting(draws, lines, MovedDown(info, idx, next), plotOf2, idx + 1, numPlots + 1)
  {
    MoveKeepsCharted(draws, info, plotOf, idx, next, plotOf2);
    MoveKeepsLines(info, idx, next, |info|);
  }

  /** Nothing to move: the slot holds a plot, or no plot is left. */
  lemma {:induction false} CompactingSkips(draws: seq<nat>, lines: seq<nat>, info: seq<nat>, plotOf: seq<nat>, idx: nat, numPlots: nat)
    requires Compacting(draws, lines, info, plotOf, idx, numPlots) && idx < |info|
    ensures info[idx] > 0 ==> Compacting(draws, lines, info, plotOf, idx + 1, numPlots + 1)
    ensures (forall q :: idx <= q < |info| ==> info[q] == 0) ==> Compacting(draws, lines, info, plotOf, idx + 1, numPlots)
  {
  }

  lemma {:induction false} CompactingStarts(draws: seq<nat>, info: seq<nat>, plotOf: seq<nat>)
    requires Grouped(draws, info, plotOf)
    ensures Compacting(draws, Lines(info, |info|), info, plotOf, 0, 0)
  {
  }

  lemma {:induction false} CompactingEnds(draws: seq<nat>, lines: seq<nat>, info: seq<nat>, plotOf: seq<nat>, numPlots: nat)
    requires Compacting(draws, lines, info, plotOf, |info|, numPlots)
    ensures Charted(draws, info, plotOf) && numPlots <= |info| && info[..numPlots] == lines
    ensures forall q :: numPlots <= q < |info| ==> info[q] == 0
  {
    LinesOfCompacted(info, numPlots, |info|);
  }

  /** Close the gaps that merging left: afterwards the plots are exactly 0 .. numPlots - 1, with the same lines. */
  method CompactPlots(info: array<nat>, plotOf: array<nat>, count: nat, ghost draws: seq<nat>) returns (numPlots: nat)
    requires info != plotOf && count <= info.Length && count <= plotOf.Length
    requires Grouped(draws, info[..count], plotOf[..count])
    modifies info, plotOf
    ensures numPlots <= count && info[..count][..numPlots] == Lines(old(info[..count]), count)
    ensures Charted(draws, info[..count], plotOf[..count])
    ensures forall q :: numPlots <= q < count ==> info[..count][q] == 0
  {
    hide Compacting, Charted, Grouped, Lines;
    ghost var lines := Lines(info[..count], count);
    CompactingStarts(draws, info[..count], plotOf[..count]);
    numPlots := 0;
    for idx := 0 to count
      invariant numPlots <= idx && Compacting(draws, lines, info[..count], plotOf[..count], idx, numPlots)
    {
      ghost var info1, plotOf1 := info[..count], plotOf[..count];
      CompactingSkips(draws, lines, info1, plotOf1, idx, numPlots);
      if info[idx] == 0 {
        var next := NextNonEmpty(info, count, idx);
        if next < count {
          info[idx] := info[next];
          info[next] := 0;
          Redirect(plotOf, count, next, idx);
          CompactingMoves(draws, lines, info1, plotOf1, idx, numPlots, next, plotOf[..count]);
          assert info[..count] == MovedDown(info1, idx, next);
          numPlots := numPlots + 1;
        }
      } else {
        numPlots := numPlots + 1;
      }
    }
    CompactingEnds(draws, lines, info[..count], plotOf[..count], numPlots);
  }

  // ----- The search -----

  /** One retry: the charts fit in no order-preserving way, and the smallest, latest pair of neighbours is merged. */
  ghost predicate MergeStep(c: Config, info2: seq<nat>) {
    && !CanFit(c.PlotWidths(), c.cols, c.MaxStacks())
    && exists lo: nat, hi: nat :: BestMerge(c.info, MAX_LINES_PER_PLOT, lo, hi) && info2 == Merged(c.info, lo, hi)
  }

  function Final(trace: seq<seq<nat>>): seq<nat>
    requires |trace| > 0
  {
    trace[|trace| - 1]
  }

  /** The line counts the search went through, from one chart per device onwards. */
  ghost predicate History(rows: nat, cols: nat, draws: seq<nat>, trace: seq<seq<nat>>) {
    && |trace| > 0
    && if |trace| == 1 then trace[0] == draws
       else
         History(rows, cols, draws, trace[..|trace| - 1])
         && MergeStep(Config(rows, cols, trace[|trace| - 2]), Final(trace))
  }

  ghost predicate NoMergeLeft(info: seq<nat>) {
    forall lo: nat, hi: nat :: !Mergeable(info, MAX_LINES_PER_PLOT, lo, hi)
  }

  ghost predicate NothingToDraw(draws: seq<nat>) {
    forall d :: 0 <= d < |draws| ==> draws[d] == 0
  }

  /** How the search ended: on success with the fewest stacks, otherwise for a stated reason. */
  ghost predicate SearchOutcome(rows: nat, cols: nat, draws: seq<nat>, info: seq<nat>, stacks: nat, placed: seq<nat>) {
    var c := Config(rows, cols, info);
    if stacks > 0 then
      PassOutcome(c, Packed, stacks, placed)
    else
      || NothingToDraw(draws)
      || rows < MIN_PLOT_ROWS
      || PassOutcome(c, TooWide, 0, [])
      || (PassOutcome(c, NoRoom, 0, []) && NoMergeLeft(info))
  }

  lemma {:induction false} HistoryExtends(rows: nat, cols: nat, draws: seq<nat>, trace: seq<seq<nat>>, lo: nat, hi: nat)
    requires History(rows, cols, draws, trace)
    requires var c := Config(rows, cols, Final(trace));
             PassOutcome(c, NoRoom, 0, []) && BestMerge(c.info, MAX_LINES_PER_PLOT, lo, hi)
    ensures History(rows, cols, draws, trace + [Merged(Final(trace), lo, hi)])
  {
  }

  /** A merge never builds a chart of more than MAX_LINES_PER_PLOT lines. */
  lemma {:induction false} HistoryBoundsLines(rows: nat, cols: nat, draws: seq<nat>, trace: seq<seq<nat>>)
    requires History(rows, cols, draws, trace)
    requires forall d :: 0 <= d < |draws| ==> draws[d] <= MAX_LINES_PER_PLOT
    ensures |Final(trace)| == |draws|
    ensures forall p :: 0 <= p < |draws| ==> Final(trace)[p] <= MAX_LINES_PER_PLOT
  {
    if |trace| > 1 {
      HistoryBoundsLines(rows, cols, draws, trace[..|trace| - 1]);
      var info := trace[|trace| - 2];
      var lo: nat, hi: nat :|
        BestMerge(info, MAX_LINES_PER_PLOT, lo, hi) && Final(trace) == Merged(info, lo, hi);
    }
  }

  lemma {:induction false} GroupedKeepsSomething(draws: seq<nat>, info: seq<nat>, plotOf: seq<nat>)
    requires Grouped(draws, info, plotOf) && !NothingToDraw(draws)
    ensures NonEmptyCount(info, |info|) > 0
  {
    var d :| 0 <= d < |draws| && draws[d] > 0;
    assert LastPlotAt(info, d, plotOf[d]);
    LinesAtRank(info, plotOf[d]);
    LinesFacts(info, |info|);
  }

  /** Initial charts: one per device. */
  method InitialCharts(draws: seq<nat>, info: array<nat>, plotOf: array<nat>) returns (plotAnything: bool)
    requires info != plotOf && |draws| <= info.Length && |draws| <= plotOf.Length
    modifies info, plotOf
    ensures info[..|draws|] == draws && Grouped(draws, draws, plotOf[..|draws|])
    ensures plotAnything <==> !NothingToDraw(draws)
  {
    plotAnything := false;
    for i := 0 to |draws|
      invariant forall d :: 0 <= d < i ==> info[d] == draws[d] && plotOf[d] == d
      invariant plotAnything <==> exists d :: 0 <= d < i && draws[d] > 0
    {
      info[i] := draws[i];
      plotOf[i] := i;
      if info[i] > 0 { plotAnything := true; }
    }
    GroupedInitially(draws, plotOf[..|draws|]);
    assert info[..|draws|] == draws;
  }

  /** One retry of the outer loop after a pass without room: merge, or give up. */
  method MergeOneMore(info: array<nat>, plotOf: array<nat>, rows: nat, cols: nat, draws: seq<nat>, ghost trace: seq<seq<nat>>)
    returns (merged: bool, ghost trace2: seq<seq<nat>>)
    requires info != plotOf && |draws| <= info.Length && |draws| <= plotOf.Length
    requires History(rows, cols, draws, trace) && Final(trace) == info[..|draws|]
    requires Grouped(draws, info[..|draws|], plotOf[..|draws|])
    requires PassOutcome(Config(rows, cols, info[..|draws|]), NoRoom, 0, [])
    modifies info, plotOf
    ensures Grouped(draws, info[..|draws|], plotOf[..|draws|])
    ensures History(rows, cols, draws, trace2) && Final(trace2) == info[..|draws|]
    ensures merged ==> NonEmptyCount(info[..|draws|], |draws|) < NonEmptyCount(old(info[..|draws|]), |draws|)
    ensures !merged ==> info[..|draws|] == old(info[..|draws|]) && NoMergeLeft(info[..|draws|])
  {
    hide History, Grouped, PassOutcome, SumIf;
    trace2 := trace;
    var n := |draws|;
    var found, lo, hi := WhoToMerge(MAX_LINES_PER_PLOT, info[..n]);
    if found {
      assert Adjacent(info[..n], lo, hi);
      HistoryExtends(rows, cols, draws, trace, lo, hi);
      MergeDropsOnePlot(info[..n], lo, hi);
      trace2 := trace + [Merged(info[..n], lo, hi)];
      MergePlots(info, plotOf, n, lo, hi, draws);
    }
    merged := found;
  }

  /** The charts handed to the rest of the layout: plots 0 .. |lines| - 1, each with the lines of its devices, in device order. */
  ghost predicate Plotted(draws: seq<nat>, plotOf: seq<nat>, lines: seq<nat>) {
    && |lines| <= |draws| == |plotOf|
    && (forall p :: 0 <= p < |lines| ==> lines[p] > 0 && lines[p] == SumIf(draws, plotOf, p, |draws|))
    && (forall d :: 0 <= d < |draws| && draws[d] > 0 ==> plotOf[d] < |lines|)
    && (forall d, e :: 0 <= d < e < |draws| && draws[d] > 0 && draws[e] > 0 ==> plotOf[d] <= plotOf[e])
    && (forall d :: 0 <= d < |draws| && draws[d] == 0 ==> plotOf[d] == d)
  }

  lemma {:induction false} ChartedIsPlotted(draws: seq<nat>, info0: seq<nat>, info: seq<nat>, plotOf: seq<nat>, numPlots: nat)
    requires Charted(draws, info, plotOf) && numPlots <= |info| == |info0| && info[..numPlots] == Lines(info0, |info0|)
    requires forall q :: numPlots <= q < |info| ==> info[q] == 0
    ensures Plotted(draws, plotOf, Lines(info0, |info0|))
  {
    LinesFacts(info0, |info0|);
    var lines := Lines(info0, |info0|);
    forall p | 0 <= p < |lines| ensures lines[p] == SumIf(draws, plotOf, p, |draws|) {
      assert lines[p] == info[p];
    }
  }

  /** Every line of every device is shown: the plots together have as many lines as the devices. */
  lemma {:induction false} PlottedShowsEverything(draws: seq<nat>, plotOf: seq<nat>, lines: seq<nat>)
    requires Plotted(draws, plotOf, lines)
    ensures Total(lines, |lines|) == Total(draws, |draws|)
  {
    SumIfPartition(draws, plotOf, lines, |draws|);
  }

  /** The configuration search: pack, and as long as the rows do not suffice merge one more pair and retry. */
  method SearchConfiguration(rows: nat, cols: nat, draws: seq<nat>, plotAnything: bool, info: array<nat>, plotOf: array<nat>, inStack: array<nat>)
    returns (numStacks: nat, placed: nat, ghost trace: seq<seq<nat>>)
    requires |draws| <= info.Length && |draws| <= plotOf.Length && |draws| <= inStack.Length
    requires info != plotOf && info != inStack && plotOf != inStack
    requires info[..|draws|] == draws && Grouped(draws, draws, plotOf[..|draws|])
    requires plotAnything <==> !NothingToDraw(draws)
    modifies info, plotOf, inStack
    ensures placed <= |draws| && Grouped(draws, info[..|draws|], plotOf[..|draws|])
    ensures History(rows, cols, draws, trace) && Final(trace) == info[..|draws|]
    ensures SearchOutcome(rows, cols, draws, info[..|draws|], numStacks, inStack[..placed])
  {
    var n := |draws|;
    trace := [draws];
    numStacks, placed := 0, 0;
    var searching := plotAnything && rows >= MIN_PLOT_ROWS;
    assert History(rows, cols, draws, trace);
    while searching
      invariant placed <= n && Grouped(draws, info[..n], plotOf[..n])
      invariant History(rows, cols, draws, trace) && Final(trace) == info[..n]
      invariant searching ==> !NothingToDraw(draws) && rows >= MIN_PLOT_ROWS
      invariant !searching ==> SearchOutcome(rows, cols, draws, info[..n], numStacks, inStack[..placed])
      decreases NonEmptyCount(info[..n], n), searching
    {
      hide Grouped, History, NothingToDraw, PassOutcome, NonEmptyCount, NoMergeLeft;
      searching := false;
      GroupedKeepsSomething(draws, info[..n], plotOf[..n]);
      var result;
      result, numStacks, placed := PackPass(Config(rows, cols, info[..n]), inStack);
      if result != Packed {
        numStacks, placed := 0, 0;
      }
      if result == NoRoom {
        searching, trace := MergeOneMore(info, plotOf, rows, cols, draws, trace);
      }
    }
  }

  /** preliminary_plot_positioning */
  method PreliminaryPlotPositioning(rows: nat, cols: nat, draws: seq<nat>, plotOf: array<nat>, inStack: array<nat>)
    returns (numPlots: nat, numStacks: nat, ghost trace: seq<seq<nat>>)
    requires |draws| <= MAX_CHARTS && |draws| <= plotOf.Length && |draws| <= inStack.Length && plotOf != inStack
    modifies plotOf, inStack
    ensures numPlots <= |draws| && History(rows, cols, draws, trace) && |Final(trace)| == |draws|
    ensures SearchOutcome(rows, cols, draws, Final(trace), numStacks, inStack[..numPlots])
    ensures numStacks == 0 ==> numPlots == 0
    ensures numStacks > 0 ==> Plotted(draws, plotOf[..|draws|], Lines(Final(trace), |draws|))
    ensures numStacks > 0 ==> numPlots == |Lines(Final(trace), |draws|)|
  {
    hide *;
    var n := |draws|;
    var info := new nat[MAX_CHARTS];
    var plotAnything := InitialCharts(draws, info, plotOf);
    var placed;
    numStacks, placed, trace := SearchConfiguration(rows, cols, draws, plotAnything, info, plotOf, inStack);
    numPlots := 0;
    ghost var last, stacked := info[..n], inStack[..placed];
    if numStacks > 0 {
      numPlots := CompactPlots(info, plotOf, n, draws);
      ChartedIsPlotted(draws, last, info[..n], plotOf[..n], numPlots);
      OutcomePlots(rows, cols, draws, last, numStacks, stacked);
    } else {
      OutcomeFails(rows, cols, draws, last, stacked, inStack[..0]);
    }
  }

  lemma OutcomePlots(rows: nat, cols: nat, draws: seq<nat>, info: seq<nat>, stacks: nat, placed: seq<nat>)
    requires SearchOutcome(rows, cols, draws, info, stacks, placed) && stacks > 0
    ensures |placed| == |Lines(info, |info|)|
  {
  }

  lemma OutcomeFails(rows: nat, cols: nat, draws: seq<nat>, info: seq<nat>, placed: seq<nat>, placed2: seq<nat>)
    requires SearchOutcome(rows, cols, draws, info, 0, placed)
    ensures SearchOutcome(rows, cols, draws, info, 0, placed2)
  {
  }
}
