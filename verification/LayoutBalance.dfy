/** Balancing: spreading the plots over the stacks, one upward move at a time. */
module LayoutBalance {
  import opened Sums
  import opened LayoutPack

  // ----- Imbalance of a list of stack widths -----

  function Diff(a: int, b: int): nat { if a > b then a - b else b - a }

  /** Sum of the differences between a[i] and a[j] .. a[k - 1]. */
  function RowDiff(a: seq<nat>, i: nat, j: nat, k: nat): nat
    requires i < |a| && j <= k <= |a|
    decreases k - j
  {
    if j == k then 0 else Diff(a[i], a[j]) + RowDiff(a, i, j + 1, k)
  }

  /** Sum of the pairwise differences among a[i] .. a[k - 1]. */
  function Imbalance(a: seq<nat>, i: nat, k: nat): nat
    requires i <= k <= |a|
    decreases k - i
  {
    if i == k then 0 else RowDiff(a, i, i + 1, k) + Imbalance(a, i + 1, k)
  }

  /** size_differences_between_stacks */
  method SizeDifferences(alloc: seq<nat>, k: nat) returns (sum: nat)
    requires k <= |alloc|
    ensures sum == Imbalance(alloc, 0, k)
  {
    sum := 0;
    for i := 0 to k
      invariant sum + Imbalance(alloc, i, k) == Imbalance(alloc, 0, k)
    {
      for j := i + 1 to k
        invariant sum + RowDiff(alloc, i, j, k) + Imbalance(alloc, i + 1, k) == Imbalance(alloc, 0, k)
      {
        if alloc[i] > alloc[j] {
          sum := sum + (alloc[i] - alloc[j]);
        } else {
          sum := sum + (alloc[j] - alloc[i]);
        }
      }
    }
  }

  // ----- The balancing loop -----

  /** Plots of the given line counts on stacks: inStack per plot, alloc the columns taken per stack. */
  datatype Stacking = Stacking(lines: seq<nat>, inStack: seq<nat>, alloc: seq<nat>)

  /** Move w columns from one stack to another. */
  function Shifted(alloc: seq<nat>, from: nat, to: nat, w: nat): seq<nat>
    requires from < |alloc| && to < |alloc| && from != to && w <= alloc[from]
  {
    alloc[from := alloc[from] - w][to := alloc[to] + w]
  }

  /** alloc is what cols_used_by_stack would recompute, and no stack is wider than the screen. */
  ghost predicate Allocated(st: Stacking, maxCols: nat) {
    && |st.inStack| == |st.lines|
    && (forall p :: 0 <= p < |st.inStack| ==> st.inStack[p] < |st.alloc|)
    && (forall s :: 0 <= s < |st.alloc| ==>
          st.alloc[s] == SumIf(Widths(st.lines), st.inStack, s, |st.lines|) && st.alloc[s] <= maxCols)
  }

  /** The effect of moving plot p to another stack. */
  ghost function Moved(st: Stacking, maxCols: nat, p: nat, to: nat): Stacking
    requires Allocated(st, maxCols) && p < |st.lines| && to < |st.alloc| && to != st.inStack[p]
  {
    WidthWithinStack(st, maxCols, p);
    st.(inStack := st.inStack[p := to], alloc := Shifted(st.alloc, st.inStack[p], to, MinPlotCols(st.lines[p])))
  }

  lemma WidthWithinStack(st: Stacking, maxCols: nat, p: nat)
    requires Allocated(st, maxCols) && p < |st.lines|
    ensures MinPlotCols(st.lines[p]) <= st.alloc[st.inStack[p]]
  {
    SumIfAtLeast(Widths(st.lines), st.inStack, st.inStack[p], |st.lines|, p);
  }

  /** A move within the columns keeps the bookkeeping exact. */
  lemma MoveKeepsAllocated(st: Stacking, maxCols: nat, p: nat, to: nat)
    requires Allocated(st, maxCols) && p < |st.lines| && to < |st.alloc| && to != st.inStack[p]
    requires st.alloc[to] + MinPlotCols(st.lines[p]) <= maxCols
    ensures Allocated(Moved(st, maxCols, p, to), maxCols)
  {
    var st2 := Moved(st, maxCols, p, to);
    forall s | 0 <= s < |st.alloc| ensures st2.alloc[s] == SumIf(Widths(st.lines), st2.inStack, s, |st.lines|) {
      SumIfMove(Widths(st.lines), st.inStack, p, to, s, |st.lines|);
    }
  }

  /** Moving there and back again restores the state exactly, so a rejected move leaves no trace. */
  lemma MoveBackRestores(st: Stacking, maxCols: nat, p: nat, to: nat)
    requires Allocated(st, maxCols) && p < |st.lines| && to < |st.alloc| && to != st.inStack[p]
    requires st.alloc[to] + MinPlotCols(st.lines[p]) <= maxCols
    ensures var st2 := Moved(st, maxCols, p, to);
            && Allocated(st2, maxCols)
            && st2.alloc[st.inStack[p]] + MinPlotCols(st.lines[p]) <= maxCols
            && Moved(st2, maxCols, p, st.inStack[p]) == st
  {
    MoveKeepsAllocated(st, maxCols, p, to);
    var back := Moved(Moved(st, maxCols, p, to), maxCols, p, st.inStack[p]);
    assert back.inStack == st.inStack;
    assert back.alloc == st.alloc;
  }

  /** Plot p cannot go one stack up (below k): no such stack, no room there, or the imbalance would grow. */
  ghost predicate Stuck(st: Stacking, maxCols: nat, k: nat, p: nat)
    requires Allocated(st, maxCols) && k <= |st.alloc| && p < |st.lines|
  {
    var to := st.inStack[p] + 1;
    || to >= k
    || st.alloc[to] + MinPlotCols(st.lines[p]) > maxCols
    || Imbalance(Moved(st, maxCols, p, to).alloc, 0, k) > Imbalance(st.alloc, 0, k)
  }

  /** Moves still possible upwards: the measure of the loop. */
  function MovesLeft(inStack: seq<nat>, k: nat, n: nat): nat
    requires n <= |inStack|
  {
    if n == 0 then 0 else MovesLeft(inStack, k, n - 1) + (if inStack[n - 1] < k then k - inStack[n - 1] else 0)
  }

  lemma {:induction false} MoveUpLeavesFewer(inStack: seq<nat>, k: nat, p: nat, n: nat)
    requires p < |inStack| && n <= |inStack| && inStack[p] < k
    ensures MovesLeft(inStack[p := inStack[p] + 1], k, n) == MovesLeft(inStack, k, n) - (if p < n then 1 else 0)
  {
    if n > 0 { MoveUpLeavesFewer(inStack, k, p, n - 1); }
  }

  /** move_plot_to_stack */
  method MovePlotToStack(maxCols: nat, p: nat, to: nat, lines: seq<nat>, alloc: array<nat>, inStack: array<nat>, stackCount: nat)
    returns (moved: bool)
    requires alloc != inStack && stackCount <= alloc.Length && |lines| <= inStack.Length && p < |lines| && to < stackCount
    requires Allocated(Stacking(lines, inStack[..|lines|], alloc[..stackCount]), maxCols)
    modifies alloc, inStack
    ensures moved <==> old(inStack[p]) != to && old(alloc[to]) + MinPlotCols(lines[p]) <= maxCols
    ensures var st := old(Stacking(lines, inStack[..|lines|], alloc[..stackCount]));
            Stacking(lines, inStack[..|lines|], alloc[..stackCount]) == if moved then Moved(st, maxCols, p, to) else st
  {
    ghost var st := Stacking(lines, inStack[..|lines|], alloc[..stackCount]);
    var from := inStack[p];
    assert from == st.inStack[p];
    if from == to { return false; }
    var colsUsedByPlot := MinPlotCols(lines[p]);
    var colsAfterMerge := alloc[to] + colsUsedByPlot;
    if colsAfterMerge > maxCols {
      return false;
    } else {
      WidthWithinStack(st, maxCols, p);
      assert alloc[from] == st.alloc[from];
      alloc[from] := alloc[from] - colsUsedByPlot;
      alloc[to] := alloc[to] + colsUsedByPlot;
      inStack[p] := to;
      assert alloc[..stackCount] == Moved(st, maxCols, p, to).alloc;
      assert inStack[..|lines|] == Moved(st, maxCols, p, to).inStack;
      return true;
    }
  }

  /** One round of the loop: move plot p one stack up, and back again if the imbalance grew. */
  method TryMoveUp(maxCols: nat, k: nat, p: nat, lines: seq<nat>, alloc: array<nat>, inStack: array<nat>, stackCount: nat)
    returns (accepted: bool)
    requires alloc != inStack && k <= stackCount <= alloc.Length && |lines| <= inStack.Length && p < |lines|
    requires Allocated(Stacking(lines, inStack[..|lines|], alloc[..stackCount]), maxCols)
    modifies alloc, inStack
    ensures var st := old(Stacking(lines, inStack[..|lines|], alloc[..stackCount]));
            && accepted == !Stuck(st, maxCols, k, p)
            && Stacking(lines, inStack[..|lines|], alloc[..stackCount]) ==
                 if accepted then Moved(st, maxCols, p, st.inStack[p] + 1) else st
  {
    accepted := false;
    ghost var st := Stacking(lines, inStack[..|lines|], alloc[..stackCount]);
    assert st.inStack[p] == inStack[p];
    var toStack := inStack[p] + 1;
    if toStack < k {
      var diffBefore := SizeDifferences(alloc[..stackCount], k);
      var stackBefore := inStack[p];
      assert alloc[toStack] == st.alloc[toStack];
      var moved := MovePlotToStack(maxCols, p, toStack, lines, alloc, inStack, stackCount);
      if moved {
        MoveBackRestores(st, maxCols, p, toStack);
        var diffAfter := SizeDifferences(alloc[..stackCount], k);
        if diffAfter <= diffBefore {
          accepted := true;
        } else {
          ghost var st2 := Stacking(lines, inStack[..|lines|], alloc[..stackCount]);
          assert st2.inStack[p] == inStack[p] && st2.alloc[stackBefore] == alloc[stackBefore];
          var _ := MovePlotToStack(maxCols, p, stackBefore, lines, alloc, inStack, stackCount);
        }
      }
    }
  }

  /** The final state of the loop, from plot `moving` downwards. */
  ghost function Run(st: Stacking, maxCols: nat, k: nat, moving: int): Stacking
    requires Allocated(st, maxCols) && k <= |st.alloc| && -1 <= moving < |st.lines|
    decreases MovesLeft(st.inStack, k, |st.lines|), moving
  {
    if moving < 0 then st
    else if Stuck(st, maxCols, k, moving) then Run(st, maxCols, k, moving - 1)
    else
      var to := st.inStack[moving] + 1;
      MoveKeepsAllocated(st, maxCols, moving, to);
      MoveUpLeavesFewer(st.inStack, k, moving, |st.lines|);
      Run(Moved(st, maxCols, moving, to), maxCols, k, |st.lines| - 1)
  }

  /** What balancing promises of the final state, relative to the initial one. */
  ghost predicate Balanced(st: Stacking, st2: Stacking, maxCols: nat, k: nat) {
    && Allocated(st, maxCols) && Allocated(st2, maxCols)
    && st2.lines == st.lines && |st2.alloc| == |st.alloc| && k <= |st.alloc|
    && (forall p :: 0 <= p < |st.lines| ==> st.inStack[p] <= st2.inStack[p])
    && Imbalance(st2.alloc, 0, k) <= Imbalance(st.alloc, 0, k)
  }

  /** No plot above p can be moved any more. */
  ghost predicate AllStuckAbove(st: Stacking, maxCols: nat, k: nat, p: int)
    requires Allocated(st, maxCols) && k <= |st.alloc|
  {
    forall q :: 0 <= q < |st.lines| && p < q ==> Stuck(st, maxCols, k, q)
  }

  lemma AcceptedMoveKeepsBalanced(st0: Stacking, st: Stacking, maxCols: nat, k: nat, p: nat)
    requires Balanced(st0, st, maxCols, k) && p < |st.lines|
    requires !Stuck(st, maxCols, k, p)
    ensures st.inStack[p] + 1 < |st.alloc| && Balanced(st0, Moved(st, maxCols, p, st.inStack[p] + 1), maxCols, k)
    ensures MovesLeft(st.inStack[p := st.inStack[p] + 1], k, |st.lines|) < MovesLeft(st.inStack, k, |st.lines|)
  {
    MoveKeepsAllocated(st, maxCols, p, st.inStack[p] + 1);
    MoveUpLeavesFewer(st.inStack, k, p, |st.lines|);
  }

  lemma BalancedIsAllocated(st0: Stacking, st: Stacking, maxCols: nat, k: nat)
    requires Balanced(st0, st, maxCols, k)
    ensures Allocated(st, maxCols) && k <= |st.alloc|
  {
  }

  /** Whatever the start, the loop ends in a balanced state in which no plot can be moved up any further. */
  lemma {:induction false} RunIsBalanced(st0: Stacking, st: Stacking, maxCols: nat, k: nat, moving: int)
    requires Balanced(st0, st, maxCols, k) && -1 <= moving < |st.lines| && AllStuckAbove(st, maxCols, k, moving)
    ensures var st2 := Run(st, maxCols, k, moving); Balanced(st0, st2, maxCols, k) && AllStuckAbove(st2, maxCols, k, -1)
    decreases MovesLeft(st.inStack, k, |st.lines|), moving
  {
    hide Balanced, Stuck, Allocated;
    BalancedIsAllocated(st0, st, maxCols, k);
    if moving >= 0 {
      if Stuck(st, maxCols, k, moving) {
        RunIsBalanced(st0, st, maxCols, k, moving - 1);
      } else {
        AcceptedMoveKeepsBalanced(st0, st, maxCols, k, moving);
        RunIsBalanced(st0, Moved(st, maxCols, moving, st.inStack[moving] + 1), maxCols, k, |st.lines| - 1);
      }
    }
  }

  function Clamped(stackCount: nat, plotCount: nat): nat {
    if stackCount > plotCount then plotCount else stackCount
  }

  /** balance_info_on_stacks_preserving_plot_order */
  method BalanceStacks(maxCols: nat, stackCount: nat, lines: seq<nat>, alloc: array<nat>, inStack: array<nat>)
    requires alloc != inStack && stackCount <= alloc.Length && |lines| <= inStack.Length
    requires Allocated(Stacking(lines, inStack[..|lines|], alloc[..stackCount]), maxCols)
    modifies alloc, inStack
    ensures var k := Clamped(stackCount, |lines|);
            var st := old(Stacking(lines, inStack[..|lines|], alloc[..stackCount]));
            var st2 := Stacking(lines, inStack[..|lines|], alloc[..stackCount]);
            st2 == Run(st, maxCols, k, |lines| - 1) && Balanced(st, st2, maxCols, k) && AllStuckAbove(st2, maxCols, k, -1)
  {
    hide Stuck, Allocated, Moved, Imbalance, MovesLeft;
    var n := |lines|;
    var k := Clamped(stackCount, n);
    ghost var st0 := Stacking(lines, inStack[..n], alloc[..stackCount]);
    RunIsBalanced(st0, st0, maxCols, k, n - 1);
    ghost var st := st0;
    var moving: int := n - 1;
    while moving >= 0
      invariant -1 <= moving < n && |st.inStack| == n && |st.alloc| == stackCount
      invariant st == Stacking(lines, inStack[..n], alloc[..stackCount]) && Allocated(st, maxCols)
      invariant Run(st, maxCols, k, moving) == Run(st0, maxCols, k, n - 1)
      decreases MovesLeft(st.inStack, k, n), moving
    {
      var accepted := TryMoveUp(maxCols, k, moving, lines, alloc, inStack, stackCount);
      if accepted {
        RunAccepts(st, maxCols, k, moving);
        st := Stacking(lines, inStack[..n], alloc[..stackCount]);
        moving := n;
      }
      moving := moving - 1;
    }
  }

  lemma RunAccepts(st: Stacking, maxCols: nat, k: nat, p: nat)
    requires Allocated(st, maxCols) && k <= |st.alloc| && p < |st.lines| && !Stuck(st, maxCols, k, p)
    ensures st.inStack[p] + 1 < |st.alloc|
    ensures var st2 := Moved(st, maxCols, p, st.inStack[p] + 1);
            && Allocated(st2, maxCols) && |st2.inStack| == |st.inStack| && |st2.alloc| == |st.alloc|
            && Run(st, maxCols, k, p) == Run(st2, maxCols, k, |st.lines| - 1)
            && MovesLeft(st2.inStack, k, |st.lines|) < MovesLeft(st.inStack, k, |st.lines|)
  {
    MoveKeepsAllocated(st, maxCols, p, st.inStack[p] + 1);
    MoveUpLeavesFewer(st.inStack, k, p, |st.lines|);
  }
}
