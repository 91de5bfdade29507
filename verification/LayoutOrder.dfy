/** When balancing keeps the plots in order: what a move needs, and exactly which line counts are safe. */
module LayoutOrder {
  import opened Sums
  import opened LayoutPack
  import opened LayoutPlots
  import opened LayoutBalance

  // ----- A move one stack up is kept exactly when the stack moved to does not become the wider of the two -----

  lemma PairDiffs(x: int, s: int, t: int, w: nat)
    ensures t + w <= s ==> Diff(x, s - w) + Diff(x, t + w) <= Diff(x, s) + Diff(x, t)
    ensures t + w > s ==> Diff(x, s - w) + Diff(x, t + w) >= Diff(x, s) + Diff(x, t)
  {
  }

  /** The row of another stack. */
  lemma {:induction false} OtherRow(a: seq<nat>, s: nat, w: nat, i: nat, j: nat, k: nat)
    requires s + 1 < |a| && w <= a[s] && i < |a| && i != s && i != s + 1 && j <= k <= |a| && j != s + 1 && (j <= s ==> s + 2 <= k)
    ensures a[s + 1] + w <= a[s] ==> RowDiff(Shifted(a, s, s + 1, w), i, j, k) <= RowDiff(a, i, j, k)
    ensures a[s + 1] + w > a[s] ==> RowDiff(Shifted(a, s, s + 1, w), i, j, k) >= RowDiff(a, i, j, k)
    ensures j > s + 1 ==> RowDiff(Shifted(a, s, s + 1, w), i, j, k) == RowDiff(a, i, j, k)
    decreases k - j
  {
    var b := Shifted(a, s, s + 1, w);
    if j == s {
      OtherRow(a, s, w, i, s + 2, k);
      PairDiffs(a[i], a[s], a[s + 1], w);
      assert RowDiff(a, i, s, k) == Diff(a[i], a[s]) + Diff(a[i], a[s + 1]) + RowDiff(a, i, s + 2, k);
      assert RowDiff(b, i, s, k) == Diff(b[i], b[s]) + Diff(b[i], b[s + 1]) + RowDiff(b, i, s + 2, k);
    } else if j < k {
      OtherRow(a, s, w, i, j + 1, k);
    }
  }

  /** The rows of the two stacks themselves, beyond each other. */
  lemma {:induction false} OwnRows(a: seq<nat>, s: nat, w: nat, j: nat, k: nat)
    requires s + 1 < |a| && w <= a[s] && s + 2 <= j <= k <= |a|
    ensures var b := Shifted(a, s, s + 1, w);
            && (a[s + 1] + w <= a[s] ==> RowDiff(b, s, j, k) + RowDiff(b, s + 1, j, k) <= RowDiff(a, s, j, k) + RowDiff(a, s + 1, j, k))
            && (a[s + 1] + w > a[s] ==> RowDiff(b, s, j, k) + RowDiff(b, s + 1, j, k) >= RowDiff(a, s, j, k) + RowDiff(a, s + 1, j, k))
    decreases k - j
  {
    if j < k {
      OwnRows(a, s, w, j + 1, k);
      PairDiffs(a[j], a[s], a[s + 1], w);
    }
  }

  lemma {:induction false} LaterRows(a: seq<nat>, s: nat, w: nat, i: nat, k: nat)
    requires s + 1 < |a| && w <= a[s] && s + 2 <= i <= k <= |a|
    ensures Imbalance(Shifted(a, s, s + 1, w), i, k) == Imbalance(a, i, k)
    decreases k - i
  {
    if i < k {
      LaterRows(a, s, w, i + 1, k);
      OtherRow(a, s, w, i, i + 1, k);
    }
  }

  lemma {:induction false} RowsFrom(a: seq<nat>, s: nat, w: nat, i: nat, k: nat)
    requires s + 1 < k <= |a| && 0 < w <= a[s] && i <= s
    ensures a[s + 1] + w <= a[s] ==> Imbalance(Shifted(a, s, s + 1, w), i, k) <= Imbalance(a, i, k)
    ensures a[s + 1] + w > a[s] ==> Imbalance(Shifted(a, s, s + 1, w), i, k) > Imbalance(a, i, k)
    decreases s - i
  {
    if i < s {
      RowsFrom(a, s, w, i + 1, k);
      OtherRow(a, s, w, i, i + 1, k);
    } else {
      OwnRows(a, s, w, s + 2, k);
      LaterRows(a, s, w, s + 2, k);
      TwoRows(a, s, k);
      TwoRows(Shifted(a, s, s + 1, w), s, k);
    }
  }

  lemma TwoRows(a: seq<nat>, s: nat, k: nat)
    requires s + 1 < k <= |a|
    ensures Imbalance(a, s, k) == Diff(a[s], a[s + 1]) + RowDiff(a, s, s + 2, k) + RowDiff(a, s + 1, s + 2, k) + Imbalance(a, s + 2, k)
  {
  }

  /** A plot can go one stack up exactly when that stack exists and, with the plot, is no wider than the plot's stack was. */
  lemma StuckIff(st: Stacking, maxCols: nat, k: nat, p: nat)
    requires Allocated(st, maxCols) && k <= |st.alloc| && p < |st.lines|
    ensures var s := st.inStack[p];
            Stuck(st, maxCols, k, p) <==> s + 1 >= k || st.alloc[s] < st.alloc[s + 1] + MinPlotCols(st.lines[p])
  {
    var s := st.inStack[p];
    WidthWithinStack(st, maxCols, p);
    if s + 1 < k { RowsFrom(st.alloc, s, MinPlotCols(st.lines[p]), 0, k); }
    hide Imbalance;
  }

  // ----- Stacks of plots in order hold consecutive plots -----

  lemma {:induction false} BelowSplits(sel: seq<nat>, s: nat, n: nat)
    requires n <= |sel| && NonDecreasing(sel)
    ensures CountBelow(sel, s, n) <= n && forall x :: 0 <= x < n ==> (sel[x] < s <==> x < CountBelow(sel, s, n))
  {
    if n > 0 { BelowSplits(sel, s, n - 1); }
  }

  lemma {:induction false} BelowIs(sel: seq<nat>, s: nat, n: nat, b: nat)
    requires b <= n <= |sel| && forall x :: 0 <= x < n ==> (sel[x] < s <==> x < b)
    ensures CountBelow(sel, s, n) == b
  {
    if n > 0 { BelowIs(sel, s, n - 1, if b == n then n - 1 else b); }
  }

  lemma {:induction false} StackSum(ws: seq<nat>, sel: seq<nat>, s: nat, n: nat)
    requires n <= |ws| == |sel| && NonDecreasing(sel)
    ensures CountBelow(sel, s, n) <= CountBelow(sel, s + 1, n) <= n
    ensures SumIf(ws, sel, s, n) == Total(ws, CountBelow(sel, s + 1, n)) - Total(ws, CountBelow(sel, s, n))
  {
    if n > 0 {
      StackSum(ws, sel, s, n - 1);
      BelowSplits(sel, s, n);
      BelowSplits(sel, s + 1, n);
    }
  }

  /** By how much plots i .. m - 1 together are wider than plots m .. j - 1. */
  function Gap(ws: seq<nat>, i: nat, m: nat, j: nat): int
    requires i <= m <= j <= |ws|
  {
    Total(ws, m) - Total(ws, i) - (Total(ws, j) - Total(ws, m))
  }

  /**
   * With plots i .. m - 1 on one stack and plots m .. j - 1 on the next, plot p can move up but none of those after it
   * on its stack, so it overtakes them.
   */
  ghost predicate Overtakes(lines: seq<nat>, i: nat, p: nat, m: nat, j: nat) {
    && i <= p && p + 1 < m <= j <= |lines|
    && MinPlotCols(lines[p]) <= Gap(Widths(lines), i, m, j)
    && forall x :: p < x < m ==> Gap(Widths(lines), i, m, j) < MinPlotCols(lines[x])
  }

  /** With plots m .. j - 1 on one stack and plots j .. q - 1 on the next, none of the former can move up. */
  ghost predicate NoneMovesUp(ws: seq<nat>, m: nat, j: nat, q: nat)
    requires m <= j <= q <= |ws|
  {
    forall x :: m <= x < j ==> Gap(ws, m, j, q) < ws[x]
  }

  /** With plots m .. j - 1 on one stack, the plots from j on can be cut into further stacks on which none from m on can move up. */
  ghost predicate Rests(ws: seq<nat>, m: nat, j: nat)
    requires m <= j <= |ws|
    decreases |ws| - j
  {
    j == |ws| || exists q :: j < q <= |ws| && NoneMovesUp(ws, m, j, q) && Rests(ws, j, q)
  }

  /** No plot can overtake another, however the plots are put on stacks in order. */
  ghost predicate NoOvertaking(lines: seq<nat>) {
    forall i, p, m, j :: !(Overtakes(lines, i, p, m, j) && Rests(Widths(lines), m, j))
  }

  lemma StackWidths(st: Stacking, maxCols: nat, s: nat)
    requires Allocated(st, maxCols) && NonDecreasing(st.inStack) && s < |st.alloc|
    ensures var n := |st.lines|;
            CountBelow(st.inStack, s, n) <= CountBelow(st.inStack, s + 1, n) <= n
            && st.alloc[s] == Total(Widths(st.lines), CountBelow(st.inStack, s + 1, n)) - Total(Widths(st.lines), CountBelow(st.inStack, s, n))
  {
    StackSum(Widths(st.lines), st.inStack, s, |st.lines|);
  }

  lemma SameLength(st: Stacking, maxCols: nat)
    requires Allocated(st, maxCols)
    ensures |st.inStack| == |st.lines| && forall p :: 0 <= p < |st.lines| ==> st.inStack[p] < |st.alloc|
  {
  }

  /** Stacks t, t + 1 and t + 2 of an ordered state, as places where the plots are cut. */
  lemma Cuts(st: Stacking, maxCols: nat, t: nat)
    requires Allocated(st, maxCols) && NonDecreasing(st.inStack) && t + 1 < |st.alloc| && |st.inStack| == |st.lines|
    ensures var n := |st.lines|;
            var i, m, j := CountBelow(st.inStack, t, n), CountBelow(st.inStack, t + 1, n), CountBelow(st.inStack, t + 2, n);
            && i <= m <= j <= n && st.alloc[t] as int == st.alloc[t + 1] + Gap(Widths(st.lines), i, m, j)
            && forall x :: 0 <= x < n ==> (st.inStack[x] == t <==> i <= x < m)
  {
    hide Allocated, Total, SumIf, CountBelow, NonDecreasing;
    StackWidths(st, maxCols, t);
    StackWidths(st, maxCols, t + 1);
    BelowSplits(st.inStack, t, |st.lines|);
    BelowSplits(st.inStack, t + 1, |st.lines|);
  }

  /** A plot that cannot move up from stack t, in terms of the cuts. */
  lemma StuckAtCut(st: Stacking, maxCols: nat, t: nat, x: nat)
    requires Allocated(st, maxCols) && NonDecreasing(st.inStack) && t + 1 < |st.alloc| && |st.inStack| == |st.lines|
    requires x < |st.lines| && st.inStack[x] == t
    ensures var n := |st.lines|;
            var i, m, j := CountBelow(st.inStack, t, n), CountBelow(st.inStack, t + 1, n), CountBelow(st.inStack, t + 2, n);
            && i <= m <= j <= n
            && (Stuck(st, maxCols, |st.alloc|, x) <==> Gap(Widths(st.lines), i, m, j) < Widths(st.lines)[x])
  {
    hide Allocated, Stuck, Gap, CountBelow, NonDecreasing;
    Cuts(st, maxCols, t);
    StuckIff(st, maxCols, |st.alloc|, x);
  }

  lemma {:induction false} TotalSpan(w: seq<nat>, i: nat, x: nat, m: nat)
    requires i <= x < m <= |w|
    ensures Total(w, m) - Total(w, i) >= w[x]
    decreases m
  {
    if x < m - 1 { TotalSpan(w, i, x, m - 1); } else { TotalMonotone(w, i, x); }
  }

  lemma {:induction false} TotalMonotone(w: seq<nat>, j: nat, k: nat)
    requires j <= k <= |w|
    ensures Total(w, j) <= Total(w, k)
  {
    if j < k { TotalMonotone(w, j, k - 1); }
  }

  /** Where a plot cannot move up, there is something on the next stack. */
  lemma NextNotEmpty(ws: seq<nat>, m: nat, j: nat, q: nat, x: nat)
    requires m <= x < j <= q <= |ws| && Gap(ws, m, j, q) < ws[x]
    ensures j < q
  {
    TotalSpan(ws, m, x, j);
  }

  /** Above a stack on which, as on those after it, no plot can move up, the plots rest. */
  lemma {:induction false} StuckRests(st: Stacking, maxCols: nat, t: nat, first: nat)
    requires Allocated(st, maxCols) && NonDecreasing(st.inStack) && t < |st.alloc| && |st.inStack| == |st.lines|
    requires first == CountBelow(st.inStack, t, |st.lines|) < CountBelow(st.inStack, t + 1, |st.lines|)
    requires forall x :: first <= x < |st.lines| ==> Stuck(st, maxCols, |st.alloc|, x)
    ensures CountBelow(st.inStack, t + 1, |st.lines|) <= |st.lines|
    ensures Rests(Widths(st.lines), first, CountBelow(st.inStack, t + 1, |st.lines|))
    decreases |st.alloc| - t
  {
    hide Allocated, Stuck, Gap, CountBelow, NonDecreasing, Widths;
    var n, k := |st.lines|, |st.alloc|;
    var j := CountBelow(st.inStack, t + 1, n);
    BelowSplits(st.inStack, t, n);
    BelowSplits(st.inStack, t + 1, n);
    SameLength(st, maxCols);
    if t + 1 == k {
      BelowIs(st.inStack, k, n, n);
    } else if j < n {
      var q := CountBelow(st.inStack, t + 2, n);
      Cuts(st, maxCols, t);
      forall x | first <= x < j ensures Gap(Widths(st.lines), first, j, q) < Widths(st.lines)[x] {
        StuckAtCut(st, maxCols, t, x);
      }
      NextNotEmpty(Widths(st.lines), first, j, q, first);
      StuckRests(st, maxCols, t + 1, j);
    }
  }

  /** The first move out of order is an overtaking, with the plots after it at rest. */
  lemma FirstOvertaking(st: Stacking, maxCols: nat, p: nat)
    requires Allocated(st, maxCols) && NonDecreasing(st.inStack) && p < |st.lines|
    requires !Stuck(st, maxCols, |st.alloc|, p) && AllStuckAbove(st, maxCols, |st.alloc|, p) && NoOvertaking(st.lines)
    ensures NonDecreasing(st.inStack[p := st.inStack[p] + 1])
  {
    hide Stuck, Allocated, Total, SumIf, NonDecreasing, CountBelow, Widths, Gap, NoOvertaking;
    SameLength(st, maxCols);
    var s, n, k := st.inStack[p], |st.inStack|, |st.alloc|;
    StuckIff(st, maxCols, k, p);
    Cuts(st, maxCols, s);
    var i, m, j := CountBelow(st.inStack, s, n), CountBelow(st.inStack, s + 1, n), CountBelow(st.inStack, s + 2, n);
    if p + 1 < m {
      forall x | p < x < m ensures Gap(Widths(st.lines), i, m, j) < Widths(st.lines)[x] { StuckAtCut(st, maxCols, s, x); }
      OvertakesNow(st, maxCols, i, p, m, j);
      OvertakesWider(st.lines, i, p, m, j);
      StuckRests(st, maxCols, s + 1, m);
      NotBoth(st.lines, i, p, m, j);
    } else {
      LastMovesInOrder(st.inStack, p);
    }
  }

  lemma NotBoth(lines: seq<nat>, i: nat, p: nat, m: nat, j: nat)
    requires NoOvertaking(lines) && Overtakes(lines, i, p, m, j)
    ensures !Rests(Widths(lines), m, j)
  {
  }

  lemma OvertakesNow(st: Stacking, maxCols: nat, i: nat, p: nat, m: nat, j: nat)
    requires Allocated(st, maxCols) && i <= p && p + 1 < m <= j <= |st.lines| && |st.inStack| == |st.lines| && st.inStack[p] + 1 < |st.alloc|
    requires st.alloc[st.inStack[p]] as int == st.alloc[st.inStack[p] + 1] + Gap(Widths(st.lines), i, m, j)
    requires st.alloc[st.inStack[p]] >= st.alloc[st.inStack[p] + 1] + MinPlotCols(st.lines[p])
    requires forall x :: p < x < m ==> Gap(Widths(st.lines), i, m, j) < Widths(st.lines)[x]
    ensures Overtakes(st.lines, i, p, m, j)
  {
    hide Allocated, Gap;
  }

  /** The last plot of a stack moves up in order. */
  lemma LastMovesInOrder(sel: seq<nat>, p: nat)
    requires NonDecreasing(sel) && p < |sel| && CountBelow(sel, sel[p] + 1, |sel|) <= p + 1
    ensures NonDecreasing(sel[p := sel[p] + 1])
  {
    BelowSplits(sel, sel[p] + 1, |sel|);
    hide CountBelow;
  }

  /** A plot overtakes only a wider one, and only towards a stack that has plots of its own. */
  lemma OvertakesWider(lines: seq<nat>, i: nat, p: nat, m: nat, j: nat)
    requires Overtakes(lines, i, p, m, j)
    ensures lines[p] < lines[p + 1] && m < j
  {
    NextNotEmpty(Widths(lines), i, m, j, p + 1);
  }

  /** Every state of the balancing run, from plot `moving` downwards, has the plots in order. */
  ghost predicate StaysInOrder(st: Stacking, maxCols: nat, k: nat, moving: int)
    requires Allocated(st, maxCols) && k <= |st.alloc| && -1 <= moving < |st.lines|
    decreases MovesLeft(st.inStack, k, |st.lines|), moving
  {
    NonDecreasing(st.inStack) &&
    if moving < 0 then true
    else if Stuck(st, maxCols, k, moving) then StaysInOrder(st, maxCols, k, moving - 1)
    else
      RunAccepts(st, maxCols, k, moving);
      StaysInOrder(Moved(st, maxCols, moving, st.inStack[moving] + 1), maxCols, k, |st.lines| - 1)
  }

  /** A run that stays in order ends in order. */
  lemma {:induction false} EndsInOrder(st: Stacking, maxCols: nat, k: nat, moving: int)
    requires Allocated(st, maxCols) && k <= |st.alloc| && -1 <= moving < |st.lines| && StaysInOrder(st, maxCols, k, moving)
    ensures NonDecreasing(Run(st, maxCols, k, moving).inStack)
    decreases MovesLeft(st.inStack, k, |st.lines|), moving
  {
    hide Stuck, Allocated, NonDecreasing;
    if moving >= 0 {
      if Stuck(st, maxCols, k, moving) {
        EndsInOrder(st, maxCols, k, moving - 1);
      } else {
        RunAccepts(st, maxCols, k, moving);
        EndsInOrder(Moved(st, maxCols, moving, st.inStack[moving] + 1), maxCols, k, |st.lines| - 1);
      }
    }
  }

  /** Where no plot can overtake another, every state of the run is in order. */
  lemma {:induction false} RunKeepsOrder(st: Stacking, maxCols: nat, k: nat, moving: int)
    requires Allocated(st, maxCols) && k == |st.alloc| && -1 <= moving < |st.lines| && AllStuckAbove(st, maxCols, k, moving)
    requires NonDecreasing(st.inStack) && NoOvertaking(st.lines)
    ensures StaysInOrder(st, maxCols, k, moving)
    decreases MovesLeft(st.inStack, k, |st.lines|), moving
  {
    hide Stuck, Allocated, NonDecreasing, Overtakes, NoOvertaking;
    if moving >= 0 {
      if Stuck(st, maxCols, k, moving) {
        RunKeepsOrder(st, maxCols, k, moving - 1);
      } else {
        FirstOvertaking(st, maxCols, moving);
        RunAccepts(st, maxCols, k, moving);
        RunKeepsOrder(Moved(st, maxCols, moving, st.inStack[moving] + 1), maxCols, k, |st.lines| - 1);
      }
    }
  }

  // ----- Overtaking does happen -----

  lemma {:induction false} SumIfWithinTotal(w: seq<nat>, sel: seq<nat>, s: nat, k: nat)
    requires k <= |w| && k <= |sel|
    ensures SumIf(w, sel, s, k) <= Total(w, k)
  {
    if k > 0 { SumIfWithinTotal(w, sel, s, k - 1); }
  }

  /** None of the plots from m on can leave its stack, unless it is on the last of k. */
  ghost predicate AtRest(ws: seq<nat>, sel: seq<nat>, m: nat, k: nat)
    requires |sel| == |ws|
  {
    forall x :: m <= x < |ws| && sel[x] + 1 < k ==> CannotLeave(ws, sel, x)
  }

  ghost predicate CannotLeave(ws: seq<nat>, sel: seq<nat>, x: nat)
    requires |sel| == |ws| && x < |ws|
  {
    var i, m, j := CountBelow(sel, sel[x], |sel|), CountBelow(sel, sel[x] + 1, |sel|), CountBelow(sel, sel[x] + 2, |sel|);
    i <= m <= j <= |ws| && Gap(ws, i, m, j) < ws[x]
  }

  /** The stacks of the plots before m, then plots m .. j - 1 on stack s, then nothing but higher stacks below k. */
  ghost predicate Continues(sel: seq<nat>, base: seq<nat>, m: nat, j: nat, s: nat, k: nat) {
    && |base| == m <= j <= |sel| && sel[..m] == base && s < k && NonDecreasing(sel)
    && (forall x :: m <= x < j ==> sel[x] == s)
    && (forall x :: j <= x < |sel| ==> s < sel[x] < k)
  }

  /** Plots that can rest are put on stacks s and up. */
  lemma {:induction false} PlaceResting(ws: seq<nat>, base: seq<nat>, m: nat, j: nat, s: nat) returns (sel: seq<nat>, k: nat)
    requires |base| == m < j <= |ws| && Rests(ws, m, j) && NonDecreasing(base) && forall x :: 0 <= x < m ==> base[x] < s
    ensures |sel| == |ws| && Continues(sel, base, m, j, s, k) && k <= s + 1 + (|ws| - j) && (j == |ws| ==> k == s + 1)
    ensures AtRest(ws, sel, m, k)
    decreases |ws| - j
  {
    hide Gap, CountBelow;
    var more := base + seq(j - m, _ => s);
    if j == |ws| {
      sel, k := more, s + 1;
    } else {
      var q :| j < q <= |ws| && NoneMovesUp(ws, m, j, q) && Rests(ws, j, q);
      sel, k := PlaceResting(ws, more, j, q, s + 1);
      NextPlaced(ws, sel, base, m, j, q, s, k);
    }
  }

  /** One stack more at the front. */
  lemma NextPlaced(ws: seq<nat>, sel: seq<nat>, base: seq<nat>, m: nat, j: nat, q: nat, s: nat, k: nat)
    requires |base| == m < j < q <= |ws| == |sel| && NoneMovesUp(ws, m, j, q) && forall x :: 0 <= x < m ==> base[x] < s
    requires Continues(sel, base + seq(j - m, _ => s), j, q, s + 1, k) && AtRest(ws, sel, j, k)
    ensures Continues(sel, base, m, j, s, k) && AtRest(ws, sel, m, k)
  {
    hide Gap, CountBelow;
    var more := base + seq(j - m, _ => s);
    assert forall x :: 0 <= x < j ==> sel[x] == sel[..j][x] == more[x];
    assert sel[..m] == base;
    BelowIs(sel, s, |sel|, m);
    BelowIs(sel, s + 1, |sel|, j);
    BelowIs(sel, s + 2, |sel|, q);
    hide NonDecreasing;
    forall x | m <= x < |ws| && sel[x] + 1 < k ensures CannotLeave(ws, sel, x) {
    }
  }

  /** A start for the overtaking: every plot before i on a stack of its own, the overtaking on stacks i and i + 1, the rest at rest. */
  ghost predicate Prepared(st: Stacking, maxCols: nat, i: nat, p: nat, m: nat) {
    && Allocated(st, maxCols) && NonDecreasing(st.inStack) && |st.alloc| <= |st.lines|
    && i <= p && p + 1 < m < |st.lines| && i + 2 <= |st.alloc|
    && (forall x :: 0 <= x < i ==> st.inStack[x] == x)
    && (forall x :: i <= x < m ==> st.inStack[x] == i)
    && (forall x :: m <= x < |st.lines| ==> st.inStack[x] > i)
    && !Stuck(st, maxCols, |st.alloc|, p) && AllStuckAbove(st, maxCols, |st.alloc|, p)
  }

  function FrontStacks(i: nat, m: nat): (base: seq<nat>)
    requires i <= m
    ensures |base| == m && forall x :: 0 <= x < m ==> base[x] == if x < i then x else i
  {
    seq(m, x => if x < i then x else i)
  }

  lemma SumsAllocated(lines: seq<nat>, sel: seq<nat>, alloc: seq<nat>)
    requires |sel| == |lines| && forall p :: 0 <= p < |sel| ==> sel[p] < |alloc|
    requires forall s :: 0 <= s < |alloc| ==> alloc[s] == SumIf(Widths(lines), sel, s, |lines|)
    ensures Allocated(Stacking(lines, sel, alloc), Total(Widths(lines), |lines|))
  {
    hide SumIf, Total;
    forall s | 0 <= s < |alloc| ensures alloc[s] <= Total(Widths(lines), |lines|) {
      SumIfWithinTotal(Widths(lines), sel, s, |lines|);
    }
  }

  /** Where the plots are put for an overtaking. */
  lemma PlaceOvertaking(lines: seq<nat>, i: nat, p: nat, m: nat, j: nat) returns (sel: seq<nat>, k: nat)
    requires Overtakes(lines, i, p, m, j) && Rests(Widths(lines), m, j)
    ensures |sel| == |lines| && m < j && Continues(sel, FrontStacks(i, m), m, j, i + 1, k) && AtRest(Widths(lines), sel, m, k)
    ensures k <= |lines| && (j == |lines| ==> k == i + 2)
  {
    OvertakesWider(lines, i, p, m, j);
    OvertakesAt(lines, i, p, m, j);
    hide Rests, Overtakes, Widths, Continues, AtRest;
    sel, k := PlaceResting(Widths(lines), FrontStacks(i, m), m, j, i + 1);
  }

  /** What an overtaking says of the plots after the one that overtakes. */
  lemma OvertakesAt(lines: seq<nat>, i: nat, p: nat, m: nat, j: nat)
    requires Overtakes(lines, i, p, m, j)
    ensures i <= p && p + 1 < m <= j <= |lines| && MinPlotCols(lines[p]) <= Gap(Widths(lines), i, m, j)
    ensures forall x :: p < x < m ==> Gap(Widths(lines), i, m, j) < Widths(lines)[x]
  {
    hide Gap;
  }

  /** The places found, as a state of the balancing loop. */
  lemma OvertakingStart(lines: seq<nat>, i: nat, p: nat, m: nat, j: nat) returns (st: Stacking, maxCols: nat)
    requires Overtakes(lines, i, p, m, j) && Rests(Widths(lines), m, j)
    ensures st.lines == lines && Prepared(st, maxCols, i, p, m) && (j == |lines| ==> |st.alloc| == i + 2)
  {
    OvertakesAt(lines, i, p, m, j);
    hide Rests, Overtakes, AtRest, Gap, CountBelow, Total, SumIf;
    var sel, k := PlaceOvertaking(lines, i, p, m, j);
    PlacedFacts(sel, i, m, j, k);
    hide Continues, FrontStacks;
    st, maxCols := Stacking(lines, sel, seq(k, s requires 0 <= s < k => SumIf(Widths(lines), sel, s, |lines|))), Total(Widths(lines), |lines|);
    SumsAllocated(lines, sel, st.alloc);
    PlacedStuck(st, maxCols, i, p, m, j);
  }

  lemma PlacedFacts(sel: seq<nat>, i: nat, m: nat, j: nat, k: nat)
    requires i <= m < j <= |sel| && Continues(sel, FrontStacks(i, m), m, j, i + 1, k)
    ensures NonDecreasing(sel) && i + 2 <= k && forall x :: 0 <= x < |sel| ==> sel[x] < k
    ensures forall x :: 0 <= x < i ==> sel[x] == x
    ensures forall x :: i <= x < m ==> sel[x] == i
    ensures forall x :: m <= x < |sel| ==> sel[x] > i
    ensures CountBelow(sel, i, |sel|) == i && CountBelow(sel, i + 1, |sel|) == m && CountBelow(sel, i + 2, |sel|) == j
  {
    hide CountBelow;
    assert forall x :: 0 <= x < m ==> sel[x] == sel[..m][x] == FrontStacks(i, m)[x];
    BelowIs(sel, i, |sel|, i);
    BelowIs(sel, i + 1, |sel|, m);
    BelowIs(sel, i + 2, |sel|, j);
  }

  /** A plot placed at rest cannot move up. */
  lemma RestStuck(st: Stacking, maxCols: nat, x: nat)
    requires Allocated(st, maxCols) && NonDecreasing(st.inStack) && |st.inStack| == |st.lines| && x < |st.lines|
    requires st.inStack[x] + 1 < |st.alloc| ==> CannotLeave(Widths(st.lines), st.inStack, x)
    ensures Stuck(st, maxCols, |st.alloc|, x)
  {
    SameLength(st, maxCols);
    hide Allocated, NonDecreasing, Gap, CountBelow, Stuck;
    if st.inStack[x] + 1 < |st.alloc| {
      StuckAtCut(st, maxCols, st.inStack[x], x);
    } else {
      StuckIff(st, maxCols, |st.alloc|, x);
    }
  }

  /** On the stack of the overtaking, plot p can move up, those after it cannot. */
  lemma FrontStuck(st: Stacking, maxCols: nat, i: nat, p: nat, m: nat, j: nat, x: nat)
    requires Allocated(st, maxCols) && NonDecreasing(st.inStack) && |st.inStack| == |st.lines| && i + 1 < |st.alloc|
    requires Overtakes(st.lines, i, p, m, j) && p <= x < m && st.inStack[x] == i
    requires var sel := st.inStack; CountBelow(sel, i, |sel|) == i && CountBelow(sel, i + 1, |sel|) == m && CountBelow(sel, i + 2, |sel|) == j
    ensures Stuck(st, maxCols, |st.alloc|, x) <==> x != p
  {
    OvertakesAt(st.lines, i, p, m, j);
    hide Allocated, NonDecreasing, Gap, CountBelow, Stuck, Overtakes;
    StuckAtCut(st, maxCols, i, x);
  }

  /** Plot p can move up, those after it cannot. */
  lemma PlacedStuck(st: Stacking, maxCols: nat, i: nat, p: nat, m: nat, j: nat)
    requires Allocated(st, maxCols) && NonDecreasing(st.inStack) && |st.inStack| == |st.lines| && i + 1 < |st.alloc|
    requires Overtakes(st.lines, i, p, m, j) && AtRest(Widths(st.lines), st.inStack, m, |st.alloc|)
    requires forall x :: i <= x < m ==> st.inStack[x] == i
    requires var sel := st.inStack; CountBelow(sel, i, |sel|) == i && CountBelow(sel, i + 1, |sel|) == m && CountBelow(sel, i + 2, |sel|) == j
    ensures !Stuck(st, maxCols, |st.alloc|, p) && AllStuckAbove(st, maxCols, |st.alloc|, p)
  {
    OvertakesAt(st.lines, i, p, m, j);
    hide Allocated, NonDecreasing, Gap, CountBelow, Stuck, Overtakes, CannotLeave, Widths;
    FrontStuck(st, maxCols, i, p, m, j, p);
    forall x | p < x < |st.lines| ensures Stuck(st, maxCols, |st.alloc|, x) {
      if x < m { FrontStuck(st, maxCols, i, p, m, j, x); } else { RestStuck(st, maxCols, x); }
    }
  }

  lemma {:induction false} SkipsStuck(st: Stacking, maxCols: nat, k: nat, p: nat, moving: nat)
    requires Allocated(st, maxCols) && k <= |st.alloc| && p <= moving < |st.lines|
    requires forall x :: p < x <= moving ==> Stuck(st, maxCols, k, x)
    ensures Run(st, maxCols, k, moving) == Run(st, maxCols, k, p)
    ensures StaysInOrder(st, maxCols, k, moving) ==> StaysInOrder(st, maxCols, k, p)
  {
    hide Stuck, Allocated, NonDecreasing;
    if p < moving { SkipsStuck(st, maxCols, k, p, moving - 1); }
  }

  /** The run begins with the topmost plot that can move up. */
  lemma FirstMove(st: Stacking, maxCols: nat, p: nat)
    requires Allocated(st, maxCols) && p < |st.lines| && !Stuck(st, maxCols, |st.alloc|, p) && AllStuckAbove(st, maxCols, |st.alloc|, p)
    ensures st.inStack[p] + 1 < |st.alloc|
    ensures var k, n, st2 := |st.alloc|, |st.lines|, Moved(st, maxCols, p, st.inStack[p] + 1);
            && Allocated(st2, maxCols) && |st.inStack| == |st2.inStack| == n && |st2.alloc| == k && Run(st, maxCols, k, n - 1) == Run(st2, maxCols, k, n - 1)
            && (StaysInOrder(st, maxCols, k, n - 1) ==> StaysInOrder(st2, maxCols, k, n - 1))
  {
    hide Stuck, Allocated, NonDecreasing;
    SkipsStuck(st, maxCols, |st.alloc|, p, |st.lines| - 1);
    RunAccepts(st, maxCols, |st.alloc|, p);
    SameLength(st, maxCols);
  }

  /** The run leaves the order at its first move. */
  lemma PreparedLeaves(st: Stacking, maxCols: nat, i: nat, p: nat, m: nat)
    requires Prepared(st, maxCols, i, p, m)
    ensures Allocated(st, maxCols) && !StaysInOrder(st, maxCols, |st.alloc|, |st.lines| - 1)
  {
    hide Stuck, Allocated;
    FirstMove(st, maxCols, p);
    var st2 := Moved(st, maxCols, p, i + 1);
    assert st2.inStack[p] > st2.inStack[p + 1];
    UnorderedDoesNotStay(st2, maxCols, |st.alloc|, |st.lines| - 1);
  }

  lemma UnorderedDoesNotStay(st: Stacking, maxCols: nat, k: nat, moving: int)
    requires Allocated(st, maxCols) && k <= |st.alloc| && -1 <= moving < |st.lines| && !NonDecreasing(st.inStack)
    ensures !StaysInOrder(st, maxCols, k, moving)
  {
  }

  /** From an ordered start, on no more stacks than there are plots, some state of the balancing run is out of order. */
  ghost predicate LeavesOrder(lines: seq<nat>, st: Stacking, maxCols: nat) {
    && st.lines == lines && Allocated(st, maxCols) && |st.alloc| <= |lines| && NonDecreasing(st.inStack)
    && !StaysInOrder(st, maxCols, |st.alloc|, |lines| - 1)
  }

  /** Where a plot can overtake another and the plots after it can rest, some run leaves the order. */
  lemma OvertakingBreaksOrder(lines: seq<nat>, i: nat, p: nat, m: nat, j: nat)
    requires Overtakes(lines, i, p, m, j) && Rests(Widths(lines), m, j)
    ensures exists st: Stacking, maxCols: nat :: LeavesOrder(lines, st, maxCols)
  {
    hide Overtakes, Rests, Stuck, StaysInOrder;
    var st, maxCols := OvertakingStart(lines, i, p, m, j);
    PreparedLeaves(st, maxCols, i, p, m);
    hide Allocated, NonDecreasing;
    assert LeavesOrder(lines, st, maxCols);
  }

  /**
   * The balancing run keeps plots of these line counts in order, in all its states, from every ordered start on no more
   * stacks than there are plots, if and only if no plot can overtake another.
   */
  lemma OrderKeptIff(lines: seq<nat>)
    ensures (forall st: Stacking, maxCols: nat :: !LeavesOrder(lines, st, maxCols)) <==> NoOvertaking(lines)
  {
    hide Rests, Gap, Allocated, NonDecreasing, StaysInOrder;
    if NoOvertaking(lines) {
      hide NoOvertaking;
      forall st: Stacking, maxCols: nat ensures !LeavesOrder(lines, st, maxCols) {
        if LeavesOrder(lines, st, maxCols) { RunKeepsOrder(st, maxCols, |st.alloc|, |lines| - 1); }
      }
    } else {
      var i: nat, p: nat, m: nat, j: nat :| Overtakes(lines, i, p, m, j) && Rests(Widths(lines), m, j);
      OvertakingBreaksOrder(lines, i, p, m, j);
    }
  }

  // ----- Overtaking towards the last stack lasts -----

  /** Plot p has gone to the last stack past plot p + 1, which cannot follow; every plot below stack i has a stack of its own. */
  ghost predicate Overtaken(st: Stacking, maxCols: nat, i: nat, p: nat) {
    && Allocated(st, maxCols) && p + 1 < |st.lines| && i + 2 == |st.alloc| && i <= p
    && st.inStack[p] == i + 1 && st.inStack[p + 1] == i
    && st.alloc[i] < st.alloc[i + 1] + MinPlotCols(st.lines[p + 1])
    && (forall x :: 0 <= x < i ==> st.inStack[x] == x)
    && (forall x :: i <= x < |st.lines| ==> st.inStack[x] >= i)
  }

  /** A plot alone on its stack stays there while the next stack is not empty. */
  lemma LoneStays(st: Stacking, maxCols: nat, i: nat, p: nat, x: nat)
    requires Overtaken(st, maxCols, i, p) && x < i
    ensures Stuck(st, maxCols, i + 2, x)
  {
    var next := if x + 1 < i then x + 1 else p + 1;
    SumIfAtLeast(Widths(st.lines), st.inStack, x + 1, |st.lines|, next);
    SumIfOnly(Widths(st.lines), st.inStack, x, |st.lines|);
    hide SumIf;
    StuckIff(st, maxCols, i + 2, x);
  }

  lemma {:induction false} SumIfOnly(w: seq<nat>, sel: seq<nat>, x: nat, k: nat)
    requires k <= |w| && k <= |sel| && forall y :: 0 <= y < |sel| ==> (sel[y] == x <==> y == x)
    ensures SumIf(w, sel, x, k) == if x < k then w[x] else 0
  {
    if k > 0 { SumIfOnly(w, sel, x, k - 1); }
  }

  /** Any further move only widens the last stack against the one before it. */
  lemma StillOvertaken(st: Stacking, maxCols: nat, i: nat, p: nat, x: nat)
    requires Overtaken(st, maxCols, i, p) && x < |st.lines| && !Stuck(st, maxCols, i + 2, x)
    ensures st.inStack[x] + 1 < |st.alloc| && Overtaken(Moved(st, maxCols, x, st.inStack[x] + 1), maxCols, i, p)
  {
    StuckIff(st, maxCols, i + 2, x);
    if x < i { LoneStays(st, maxCols, i, p, x); }
    WidthWithinStack(st, maxCols, x);
    hide Stuck;
    assert st.inStack[x] == i && x != p && x != p + 1;
    MoveFits(st, maxCols, x, i);
    MoveKeepsAllocated(st, maxCols, x, i + 1);
  }

  lemma MoveFits(st: Stacking, maxCols: nat, x: nat, s: nat)
    requires Allocated(st, maxCols) && x < |st.lines| && s + 1 < |st.alloc|
    requires st.alloc[s] >= st.alloc[s + 1] + MinPlotCols(st.lines[x])
    ensures st.alloc[s + 1] + MinPlotCols(st.lines[x]) <= maxCols
  {
  }

  lemma {:induction false} RunStaysOvertaken(st: Stacking, maxCols: nat, i: nat, p: nat, moving: int)
    requires Overtaken(st, maxCols, i, p) && -1 <= moving < |st.lines|
    ensures Allocated(st, maxCols) && Overtaken(Run(st, maxCols, i + 2, moving), maxCols, i, p)
    decreases MovesLeft(st.inStack, i + 2, |st.lines|), moving
  {
    hide Stuck, Allocated, Overtaken, Moved;
    OvertakenParts(st, maxCols, i, p);
    if moving >= 0 {
      if Stuck(st, maxCols, i + 2, moving) {
        RunStaysOvertaken(st, maxCols, i, p, moving - 1);
      } else {
        StillOvertaken(st, maxCols, i, p, moving);
        RunAccepts(st, maxCols, i + 2, moving);
        RunStaysOvertaken(Moved(st, maxCols, moving, st.inStack[moving] + 1), maxCols, i, p, |st.lines| - 1);
      }
    }
  }

  lemma OvertakenParts(st: Stacking, maxCols: nat, i: nat, p: nat)
    requires Overtaken(st, maxCols, i, p)
    ensures Allocated(st, maxCols) && i + 2 == |st.alloc| && |st.inStack| == |st.lines|
    ensures !NonDecreasing(st.inStack)
  {
  }

  lemma OvertakingMove(st: Stacking, maxCols: nat, i: nat, p: nat, m: nat)
    requires Prepared(st, maxCols, i, p, m) && |st.alloc| == i + 2
    ensures Overtaken(Moved(st, maxCols, p, i + 1), maxCols, i, p)
  {
    StuckIff(st, maxCols, i + 2, p);
    StuckIff(st, maxCols, i + 2, p + 1);
    assert Stuck(st, maxCols, i + 2, p + 1);
    WidthWithinStack(st, maxCols, p);
    hide Stuck;
    MoveFits(st, maxCols, p, i);
    MoveKeepsAllocated(st, maxCols, p, i + 1);
  }

  lemma PreparedEndsUnordered(st: Stacking, maxCols: nat, i: nat, p: nat, m: nat)
    requires Prepared(st, maxCols, i, p, m) && |st.alloc| == i + 2
    ensures Allocated(st, maxCols) && !NonDecreasing(Run(st, maxCols, i + 2, |st.lines| - 1).inStack)
  {
    OvertakingMove(st, maxCols, i, p, m);
    hide Stuck, Overtaken, Moved, Allocated;
    FirstMove(st, maxCols, p);
    var st2 := Moved(st, maxCols, p, i + 1);
    RunStaysOvertaken(st2, maxCols, i, p, |st.lines| - 1);
    OvertakenParts(Run(st2, maxCols, i + 2, |st.lines| - 1), maxCols, i, p);
  }

  /** From an ordered start, on no more stacks than there are plots, balancing ends out of order. */
  ghost predicate EndsUnordered(lines: seq<nat>, st: Stacking, maxCols: nat) {
    && st.lines == lines && Allocated(st, maxCols) && |st.alloc| <= |lines| && NonDecreasing(st.inStack)
    && !NonDecreasing(Run(st, maxCols, |st.alloc|, |lines| - 1).inStack)
  }

  /** An overtaking towards a stack that holds all the plots that are left is never undone. */
  lemma OvertakingLasts(lines: seq<nat>, i: nat, p: nat, m: nat)
    requires Overtakes(lines, i, p, m, |lines|)
    ensures exists st: Stacking, maxCols: nat :: EndsUnordered(lines, st, maxCols)
  {
    OvertakesAt(lines, i, p, m, |lines|);
    hide Overtakes, Stuck, Run;
    var st, maxCols := OvertakingStart(lines, i, p, m, |lines|);
    PreparedEndsUnordered(st, maxCols, i, p, m);
    hide Allocated, NonDecreasing;
    assert EndsUnordered(lines, st, maxCols);
  }

  // ----- Line counts that are safe -----

  ghost predicate NonIncreasing(a: seq<nat>) {
    forall i, j :: 0 <= i < j < |a| ==> a[i] >= a[j]
  }

  lemma NonIncreasingIsSafe(lines: seq<nat>)
    requires NonIncreasing(lines)
    ensures NoOvertaking(lines)
  {
    forall i, p, m, j ensures !Overtakes(lines, i, p, m, j) {
      if Overtakes(lines, i, p, m, j) { OvertakesWider(lines, i, p, m, j); }
    }
  }

  /** One or two plots never get out of order. */
  lemma TwoPlotsAreSafe(lines: seq<nat>)
    requires |lines| <= 2
    ensures NoOvertaking(lines)
  {
    forall i, p, m, j ensures !Overtakes(lines, i, p, m, j) {
      if Overtakes(lines, i, p, m, j) { OvertakesWider(lines, i, p, m, j); }
    }
  }

  lemma ThreeTotals(ws: seq<nat>)
    requires |ws| == 3
    ensures Total(ws, 0) == 0 && Total(ws, 1) == ws[0] && Total(ws, 2) == ws[0] + ws[1] && Total(ws, 3) == ws[0] + ws[1] + ws[2]
  {
    assert Total(ws, 1) == ws[0] && Total(ws, 2) == ws[0] + ws[1];
  }

  /** Three plots can get out of order exactly when the first is narrower than the last and the last no wider than the second. */
  lemma ThreePlotsIff(a: nat, b: nat, c: nat)
    ensures NoOvertaking([a, b, c]) <==> !(a < c <= b)
  {
    var lines := [a, b, c];
    ThreeTotals(Widths(lines));
    hide Total;
    if a < c <= b {
      assert Overtakes(lines, 0, 0, 2, 3);
    } else {
      forall i, p, m, j ensures !Overtakes(lines, i, p, m, j) {
        if Overtakes(lines, i, p, m, j) { OvertakesWider(lines, i, p, m, j); }
      }
    }
  }
}
