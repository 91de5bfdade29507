/** Plot rectangles: sharing the columns of a stack by floor division, and the order in which slots are filled. */
module LayoutPlots {
  import opened Arith
  import opened Sums
  import opened LayoutPack
  import opened LayoutHeader

  /** Where plots go: on k stacks of equal height, below the row `top`. */
  datatype Area = Area(cols: nat, top: nat, rowsPerStack: nat, lines: seq<nat>, inStack: seq<nat>)

  function Ones(n: nat): (ones: seq<nat>)
    ensures |ones| == n && forall i :: 0 <= i < n ==> ones[i] == 1
  {
    seq(n, _ => 1)
  }

  /** Plots among the first k that are on stack s, and their lines. */
  function PlotsOn(a: Area, s: nat, k: nat): nat
    requires k <= |a.inStack|
  {
    SumIf(Ones(|a.inStack|), a.inStack, s, k)
  }

  function LinesOn(a: Area, s: nat, k: nat): nat
    requires k <= |a.inStack| && k <= |a.lines|
  {
    SumIf(a.lines, a.inStack, s, k)
  }

  /** Non-empty plots, on stacks no wider than the screen. */
  ghost predicate Ready(a: Area) {
    && |a.lines| == |a.inStack|
    && (forall p :: 0 <= p < |a.lines| ==> a.lines[p] > 0)
    && (forall s: nat :: SumIf(Widths(a.lines), a.inStack, s, |a.lines|) <= a.cols)
  }

  lemma {:induction false} WidthsSplit(a: Area, s: nat, k: nat)
    requires k <= |a.lines| == |a.inStack|
    ensures SumIf(Widths(a.lines), a.inStack, s, k) == BOX_COLS * PlotsOn(a, s, k) + 10 * LinesOn(a, s, k)
  {
    if k > 0 { WidthsSplit(a, s, k - 1); }
  }

  /** Columns left for drawing once every plot of the stack has its box. */
  function Room(a: Area, s: nat): nat {
    var boxes := BOX_COLS * PlotsOn(a, s, |a.inStack|);
    if boxes <= a.cols then a.cols - boxes else 0
  }

  lemma RoomForLines(a: Area, s: nat)
    requires Ready(a)
    ensures BOX_COLS * PlotsOn(a, s, |a.inStack|) + Room(a, s) == a.cols
    ensures Room(a, s) >= 10 * LinesOn(a, s, |a.lines|)
  {
    WidthsSplit(a, s, |a.lines|);
    assert SumIf(Widths(a.lines), a.inStack, s, |a.lines|) <= a.cols;
  }

  /** Columns of a plot with l of the `total` lines of its stack, before rounding to its number of lines. */
  function Share(room: nat, l: nat, total: nat): nat
    requires total > 0
  {
    BOX_COLS + room * l / total
  }

  /** Columns of a plot rounded so that its drawing width is a multiple of its lines. */
  function Rounded(maxCols: nat, l: nat): nat
    requires maxCols >= BOX_COLS && l > 0
  {
    maxCols - (maxCols - BOX_COLS) % l
  }

  function MaxCols(a: Area, p: nat): nat
    requires p < |a.lines| == |a.inStack|
  {
    var total := LinesOn(a, a.inStack[p], |a.lines|);
    if total == 0 then BOX_COLS else Share(Room(a, a.inStack[p]), a.lines[p], total)
  }

  function AllMaxCols(a: Area): (ms: seq<nat>)
    requires |a.lines| == |a.inStack|
    ensures |ms| == |a.lines| && forall p :: 0 <= p < |ms| ==> ms[p] == MaxCols(a, p)
  {
    seq(|a.lines|, p requires 0 <= p < |a.lines| => MaxCols(a, p))
  }

  function RoundDown(x: nat, l: nat): nat
    requires l > 0
  {
    x - x % l
  }

  lemma RoundDownFacts(x: nat, l: nat)
    requires l > 0
    ensures RoundDown(x, l) % l == 0 && RoundDown(x, l) <= x
    ensures x >= 10 * l ==> RoundDown(x, l) >= 10 * l
  {
    DivMod(x, l);
    DivModUnique(RoundDown(x, l), l, x / l, 0);
    DivBound(10, x, l);
    if x >= 10 * l { MulMono(10, x / l, l); }
  }

  /** The rectangle of plot p. */
  function PlotWindow(a: Area, p: nat): Window
    requires p < |a.lines| == |a.inStack| && a.lines[p] > 0
  {
    Window(SumIf(AllMaxCols(a), a.inStack, a.inStack[p], p),
           a.top + a.inStack[p] * a.rowsPerStack,
           Rounded(MaxCols(a, p), a.lines[p]),
           a.rowsPerStack)
  }

  lemma TotalPositive(a: Area, p: nat)
    requires Ready(a) && p < |a.lines|
    ensures LinesOn(a, a.inStack[p], |a.lines|) >= a.lines[p] > 0
  {
    SumIfAtLeast(a.lines, a.inStack, a.inStack[p], |a.lines|, p);
  }

  /** A plot is at least a box plus ten columns per line wide, and its drawing width is a multiple of its lines. */
  lemma PlotWidth(a: Area, p: nat)
    requires Ready(a) && p < |a.lines|
    ensures var w := PlotWindow(a, p);
            && MinPlotCols(a.lines[p]) <= w.sizeX <= MaxCols(a, p)
            && (w.sizeX - BOX_COLS) % a.lines[p] == 0
  {
    var s, l := a.inStack[p], a.lines[p];
    var total := LinesOn(a, s, |a.lines|);
    TotalPositive(a, p);
    RoomForLines(a, s);
    MulMono(10 * total, Room(a, s), l);
    assert (10 * l) * total == (10 * total) * l;
    DivBound(10 * l, Room(a, s) * l, total);
    RoundDownFacts(MaxCols(a, p) - BOX_COLS, l);
  }

  lemma SharesBetween(room: nat, l: nat, total: nat, m: nat)
    requires l > 0 && m * total <= room < (m + 1) * total
    ensures (l * m) * total <= room * l < (l * m + l) * total
  {
    MulMono(m * total, room, l);
    MulMono(room + 1, (m + 1) * total, l);
    Regroup(l, m, total);
    Regroup(l, m + 1, total);
  }

  lemma Regroup(l: nat, m: nat, total: nat)
    ensures (l * m) * total == (m * total) * l && l * (m + 1) == l * m + l
  {
  }

  /** Rounding a share down to whole columns per line is sharing out whole columns per line. */
  lemma RoundedShare(room: nat, l: nat, total: nat)
    requires total > 0 && l > 0
    ensures RoundDown(room * l / total, l) == l * (room / total)
  {
    var m := room / total;
    DivMod(room, total);
    MulAdd(m, 1, total);
    SharesBetween(room, l, total, m);
    RoundsTo(room * l, total, l, m);
  }

  lemma RoundsTo(n: nat, total: nat, l: nat, m: nat)
    requires total > 0 && l > 0 && (l * m) * total <= n < (l * m + l) * total
    ensures RoundDown(n / total, l) == l * m
  {
    DivBound(l * m, n, total);
    DivBound(l * m + l, n, total);
    DivModUnique(n / total, l, m, n / total - l * m);
  }

  /** Every line of a stack gets the same whole number of columns: its share of what the boxes leave. */
  lemma WidthPerLine(a: Area, p: nat)
    requires Ready(a) && p < |a.lines|
    ensures var s := a.inStack[p];
            && LinesOn(a, s, |a.lines|) > 0 && BOX_COLS * PlotsOn(a, s, |a.inStack|) + Room(a, s) == a.cols
            && PlotWindow(a, p).sizeX == BOX_COLS + a.lines[p] * (Room(a, s) / LinesOn(a, s, |a.lines|))
  {
    TotalPositive(a, p);
    RoomForLines(a, a.inStack[p]);
    RoundedShare(Room(a, a.inStack[p]), a.lines[p], LinesOn(a, a.inStack[p], |a.lines|));
  }

  lemma {:induction false} SumIfSkips(w: seq<nat>, sel: seq<nat>, s: nat, j: nat, k: nat)
    requires j <= k <= |w| == |sel| && forall i :: j <= i < k ==> sel[i] != s
    ensures SumIf(w, sel, s, k) == SumIf(w, sel, s, j)
  {
    if j < k { SumIfSkips(w, sel, s, j, k - 1); }
  }

  /** The first plot of a stack starts at the left edge. */
  lemma FirstOnStack(a: Area, p: nat)
    requires Ready(a) && p < |a.lines| && forall q :: 0 <= q < p ==> a.inStack[q] != a.inStack[p]
    ensures PlotWindow(a, p).posX == 0
  {
    SumIfSkips(AllMaxCols(a), a.inStack, a.inStack[p], 0, p);
  }

  /** The next plot of a stack starts where the one before ends, or fewer columns further than that one has lines. */
  lemma NextOnStack(a: Area, p: nat, q: nat)
    requires Ready(a) && p < q < |a.lines| && a.inStack[p] == a.inStack[q] && forall r :: p < r < q ==> a.inStack[r] != a.inStack[q]
    ensures var v, w := PlotWindow(a, p), PlotWindow(a, q);
            v.posY == w.posY && v.posX + v.sizeX <= w.posX < v.posX + v.sizeX + a.lines[p]
  {
    SumIfSkips(AllMaxCols(a), a.inStack, a.inStack[p], p + 1, q);
    TotalPositive(a, p);
    DivMod(MaxCols(a, p) - BOX_COLS, a.lines[p]);
  }

  predicate WithinShare(excess: int, total: nat, room: nat, lines: nat) {
    0 <= excess && excess * total <= room * lines
  }

  lemma ShareStep(excess: int, room: nat, l: nat, total: nat, lines: nat)
    requires total > 0 && WithinShare(excess, total, room, lines)
    ensures WithinShare(excess + room * l / total, total, room, lines + l)
  {
  }

  /** Columns handed out to the first k plots of a stack beyond their boxes. */
  function Excess(a: Area, s: nat, k: nat): int
    requires k <= |a.lines| == |a.inStack|
  {
    SumIf(AllMaxCols(a), a.inStack, s, k) - BOX_COLS * PlotsOn(a, s, k)
  }

  lemma {:induction false} ExcessStep(a: Area, s: nat, k: nat)
    requires Ready(a) && 0 < k <= |a.lines|
    ensures a.inStack[k - 1] != s ==> Excess(a, s, k) == Excess(a, s, k - 1)
    ensures a.inStack[k - 1] == s ==> LinesOn(a, s, |a.lines|) > 0
    ensures a.inStack[k - 1] == s ==>
              Excess(a, s, k) == Excess(a, s, k - 1) + Room(a, s) * a.lines[k - 1] / LinesOn(a, s, |a.lines|)
  {
    TotalPositive(a, k - 1);
  }

  /** Floors of the shares never exceed the room: the division error only leaves columns unused. */
  lemma {:induction false} SharesWithinRoom(a: Area, s: nat, k: nat)
    requires Ready(a) && k <= |a.lines|
    ensures WithinShare(Excess(a, s, k), LinesOn(a, s, |a.lines|), Room(a, s), LinesOn(a, s, k))
  {
    if k > 0 {
      hide WithinShare, Excess, Room;
      SharesWithinRoom(a, s, k - 1);
      ExcessStep(a, s, k);
      if a.inStack[k - 1] == s {
        ShareStep(Excess(a, s, k - 1), Room(a, s), a.lines[k - 1], LinesOn(a, s, |a.lines|), LinesOn(a, s, k - 1));
      }
    }
  }

  lemma StackWithinCols(a: Area, s: nat)
    requires Ready(a)
    ensures SumIf(AllMaxCols(a), a.inStack, s, |a.lines|) <= a.cols
  {
    var n := |a.lines|;
    RoomForLines(a, s);
    SharesWithinRoom(a, s, n);
    var total := LinesOn(a, s, n);
    if total == 0 {
      NothingOnStack(a, s, n);
    } else if Excess(a, s, n) > Room(a, s) {
      StepApart(Room(a, s), Excess(a, s, n), 1, total);
    }
  }

  lemma {:induction false} NothingOnStack(a: Area, s: nat, k: nat)
    requires Ready(a) && k <= |a.lines| && LinesOn(a, s, |a.lines|) == 0
    ensures SumIf(AllMaxCols(a), a.inStack, s, k) == 0
  {
    if k > 0 {
      NothingOnStack(a, s, k - 1);
      if a.inStack[k - 1] == s { TotalPositive(a, k - 1); }
    }
  }

  /** Every plot is within the columns and within the rows of the stacks. */
  lemma PlotInside(a: Area, p: nat, stacks: nat)
    requires Ready(a) && p < |a.lines| && a.inStack[p] < stacks
    ensures Inside(PlotWindow(a, p), a.top + stacks * a.rowsPerStack, a.cols)
    ensures PlotWindow(a, p).posY >= a.top
  {
    var s := a.inStack[p];
    PlotWidth(a, p);
    SumIfMonotone(AllMaxCols(a), a.inStack, s, p + 1, |a.lines|);
    StackWithinCols(a, s);
    StepApart(s, stacks, a.rowsPerStack, a.rowsPerStack);
  }

  /** No two plots overlap. */
  lemma PlotsDisjoint(a: Area, p: nat, q: nat)
    requires Ready(a) && p < q < |a.lines|
    ensures Disjoint(PlotWindow(a, p), PlotWindow(a, q))
  {
    var s, t := a.inStack[p], a.inStack[q];
    if s < t {
      StepApart(s, t, a.rowsPerStack, a.rowsPerStack);
    } else if t < s {
      StepApart(t, s, a.rowsPerStack, a.rowsPerStack);
    } else {
      PlotWidth(a, p);
      SumIfMonotone(AllMaxCols(a), a.inStack, s, p + 1, q);
    }
  }

  // ----- Order of the slots -----

  /** Plots among the first j on stack s, in order. */
  function OnStack(inStack: seq<nat>, s: nat, j: nat): seq<nat>
    requires j <= |inStack|
  {
    if j == 0 then []
    else if inStack[j - 1] == s then OnStack(inStack, s, j - 1) + [j - 1]
    else OnStack(inStack, s, j - 1)
  }

  /** Plots on the first s stacks, stack by stack: slot k of plot_positions is filled for plot StackOrder[k]. */
  function StackOrder(inStack: seq<nat>, s: nat): seq<nat> {
    if s == 0 then [] else StackOrder(inStack, s - 1) + OnStack(inStack, s - 1, |inStack|)
  }

  /** Strictly increasing by (stack, plot). */
  ghost predicate StackMajor(inStack: seq<nat>, order: seq<nat>) {
    && (forall i :: 0 <= i < |order| ==> order[i] < |inStack|)
    && (forall i, j :: 0 <= i < j < |order| ==>
          || inStack[order[i]] < inStack[order[j]]
          || (inStack[order[i]] == inStack[order[j]] && order[i] < order[j]))
  }

  lemma {:induction false} OnStackFacts(inStack: seq<nat>, s: nat, j: nat)
    requires j <= |inStack|
    ensures StackMajor(inStack, OnStack(inStack, s, j))
    ensures forall i :: 0 <= i < |OnStack(inStack, s, j)| ==>
              OnStack(inStack, s, j)[i] < j && inStack[OnStack(inStack, s, j)[i]] == s
  {
    if j > 0 { OnStackFacts(inStack, s, j - 1); }
  }

  lemma {:induction false} StackOrderFacts(inStack: seq<nat>, s: nat)
    ensures StackMajor(inStack, StackOrder(inStack, s))
    ensures forall i :: 0 <= i < |StackOrder(inStack, s)| ==> inStack[StackOrder(inStack, s)[i]] < s
  {
    if s > 0 {
      StackOrderFacts(inStack, s - 1);
      OnStackFacts(inStack, s - 1, |inStack|);
    }
  }

  /** Number of the first j plots on stacks below s. */
  function CountBelow(inStack: seq<nat>, s: nat, j: nat): nat
    requires j <= |inStack|
  {
    if j == 0 then 0 else CountBelow(inStack, s, j - 1) + (if inStack[j - 1] < s then 1 else 0)
  }

  lemma {:induction false} CountBelowStep(inStack: seq<nat>, s: nat, j: nat)
    requires j <= |inStack|
    ensures CountBelow(inStack, s + 1, j) == CountBelow(inStack, s, j) + |OnStack(inStack, s, j)| <= j
    ensures (forall p :: 0 <= p < j ==> inStack[p] <= s) ==> CountBelow(inStack, s + 1, j) == j
  {
    if j > 0 { CountBelowStep(inStack, s, j - 1); }
  }

  lemma {:induction false} CountBelowZero(inStack: seq<nat>, j: nat)
    requires j <= |inStack|
    ensures CountBelow(inStack, 0, j) == 0
  {
    if j > 0 { CountBelowZero(inStack, j - 1); }
  }

  lemma {:induction false} StackOrderLength(inStack: seq<nat>, s: nat)
    ensures |StackOrder(inStack, s)| == CountBelow(inStack, s, |inStack|) <= |inStack|
    ensures s > 0 && (forall p :: 0 <= p < |inStack| ==> inStack[p] < s) ==> |StackOrder(inStack, s)| == |inStack|
  {
    if s > 0 {
      StackOrderLength(inStack, s - 1);
      CountBelowStep(inStack, s - 1, |inStack|);
    } else {
      CountBelowZero(inStack, |inStack|);
    }
  }

  lemma {:induction false} OnStackGrows(inStack: seq<nat>, s: nat, j: nat, k: nat)
    requires j <= k <= |inStack|
    ensures OnStack(inStack, s, j) <= OnStack(inStack, s, k)
  {
    if j < k { OnStackGrows(inStack, s, j, k - 1); }
  }

  /** A slot is always free for the next plot of the stack being filled. */
  lemma SlotFree(inStack: seq<nat>, s: nat, j: nat)
    requires j < |inStack| && inStack[j] == s
    ensures |StackOrder(inStack, s)| + |OnStack(inStack, s, j)| < |inStack|
  {
    StackOrderLength(inStack, s + 1);
    OnStackGrows(inStack, s, j + 1, |inStack|);
  }

  lemma {:induction false} IncreasingIsIdentity(order: seq<nat>, k: nat)
    requires k <= |order|
    requires forall i :: 0 <= i < |order| ==> order[i] < |order|
    requires forall i, j :: 0 <= i < j < |order| ==> order[i] < order[j]
    ensures forall i :: 0 <= i < k ==> order[i] >= i
    ensures forall i :: |order| - k <= i < |order| ==> order[i] <= i
  {
    if k > 0 {
      IncreasingIsIdentity(order, k - 1);
      assert k > 1 ==> order[k - 2] < order[k - 1];
      assert k > 1 ==> order[|order| - k] < order[|order| - k + 1];
    }
  }

  /** Slot k is sized for plot k, for every k, if and only if the stacks are non-decreasing along the plots. */
  lemma SlotsMatchPlotsIff(inStack: seq<nat>, stacks: nat)
    requires stacks > 0 && forall p :: 0 <= p < |inStack| ==> inStack[p] < stacks
    ensures |StackOrder(inStack, stacks)| == |inStack|
    ensures (forall k :: 0 <= k < |inStack| ==> StackOrder(inStack, stacks)[k] == k) <==> NonDecreasing(inStack)
  {
    StackOrderFacts(inStack, stacks);
    StackOrderLength(inStack, stacks);
    StackMajorIsIdentityIff(inStack, StackOrder(inStack, stacks));
  }

  lemma StackMajorIsIdentityIff(inStack: seq<nat>, order: seq<nat>)
    requires StackMajor(inStack, order) && |order| == |inStack|
    ensures (forall k :: 0 <= k < |order| ==> order[k] == k) <==> NonDecreasing(inStack)
  {
    if NonDecreasing(inStack) {
      forall i, j | 0 <= i < j < |order| ensures order[i] < order[j] {
        var x, y := order[i], order[j];
        assert inStack[x] < inStack[y] || (inStack[x] == inStack[y] && x < y);
      }
      IncreasingIsIdentity(order, |order|);
    }
    if forall k :: 0 <= k < |order| ==> order[k] == k {
      forall i, j | 0 <= i < j < |inStack| ensures inStack[i] <= inStack[j] {
        assert order[i] == i && order[j] == j;
      }
    }
  }

  // ----- Filling the slots -----

  /** First inner loop: plots and lines of a stack. */
  method StackSums(a: Area, s: nat) returns (plots: nat, lines: nat)
    requires |a.lines| == |a.inStack|
    ensures plots == PlotsOn(a, s, |a.lines|) && lines == LinesOn(a, s, |a.lines|)
  {
    plots, lines := 0, 0;
    for j := 0 to |a.lines|
      invariant plots == PlotsOn(a, s, j) && lines == LinesOn(a, s, j)
    {
      if a.inStack[j] == s {
        plots := plots + 1;
        lines := lines + a.lines[j];
      }
    }
  }

  /** The first |order| slots hold the rectangles of the plots in order. */
  ghost predicate Filled(a: Area, positions: seq<Window>, order: seq<nat>) {
    && |a.lines| == |a.inStack| && |order| <= |positions|
    && forall k :: 0 <= k < |order| ==>
         order[k] < |a.lines| && a.lines[order[k]] > 0 && positions[k] == PlotWindow(a, order[k])
  }

  lemma FilledExtends(a: Area, positions: seq<Window>, order: seq<nat>, positions2: seq<Window>, p: nat)
    requires Filled(a, positions, order) && |order| < |positions| == |positions2|
    requires p < |a.lines| && a.lines[p] > 0 && positions2 == positions[|order| := PlotWindow(a, p)]
    ensures Filled(a, positions2, order + [p])
  {
  }

  /** The rectangle and share computed from the sums of the stack are those of the plot. */
  lemma ShareOfStack(a: Area, p: nat, posX: nat, posY: nat)
    requires Ready(a) && p < |a.lines|
    requires posX == SumIf(AllMaxCols(a), a.inStack, a.inStack[p], p)
    requires posY == a.top + a.inStack[p] * a.rowsPerStack
    ensures LinesOn(a, a.inStack[p], |a.lines|) > 0 && a.lines[p] > 0
    ensures MaxCols(a, p) == Share(Room(a, a.inStack[p]), a.lines[p], LinesOn(a, a.inStack[p], |a.lines|)) >= BOX_COLS
    ensures SumIf(AllMaxCols(a), a.inStack, a.inStack[p], p + 1) == posX + MaxCols(a, p)
    ensures Window(posX, posY, Rounded(MaxCols(a, p), a.lines[p]), a.rowsPerStack) == PlotWindow(a, p)
  {
    TotalPositive(a, p);
    ReadyLengths(a);
    MaxColsIs(a, p);
    NextSum(AllMaxCols(a), a.inStack, p);
    WindowIs(a, p);
    hide *;
  }

  lemma ReadyLengths(a: Area)
    requires Ready(a)
    ensures |a.lines| == |a.inStack| && forall p :: 0 <= p < |a.lines| ==> a.lines[p] > 0
  {
  }

  lemma MaxColsIs(a: Area, p: nat)
    requires p < |a.lines| == |a.inStack| && LinesOn(a, a.inStack[p], |a.lines|) > 0
    ensures MaxCols(a, p) == Share(Room(a, a.inStack[p]), a.lines[p], LinesOn(a, a.inStack[p], |a.lines|)) >= BOX_COLS
  {
    hide Room, LinesOn;
  }

  lemma WindowIs(a: Area, p: nat)
    requires p < |a.lines| == |a.inStack| && a.lines[p] > 0
    ensures PlotWindow(a, p) == Window(SumIf(AllMaxCols(a), a.inStack, a.inStack[p], p), a.top + a.inStack[p] * a.rowsPerStack,
                                       Rounded(MaxCols(a, p), a.lines[p]), a.rowsPerStack)
  {
    hide MaxCols, Rounded, SumIf;
  }

  lemma NextSum(w: seq<nat>, sel: seq<nat>, p: nat)
    requires p < |w| == |sel|
    ensures SumIf(w, sel, sel[p], p + 1) == SumIf(w, sel, sel[p], p) + w[p]
  {
  }

  /** Second inner loop: the rectangles of the plots of one stack. */
  method FillStack(a: Area, s: nat, posY: nat, positions: array<Window>, done: nat) returns (done2: nat)
    requires Ready(a) && |a.lines| <= positions.Length && posY == a.top + s * a.rowsPerStack
    requires done == |StackOrder(a.inStack, s)| && Filled(a, positions[..], StackOrder(a.inStack, s))
    modifies positions
    ensures done2 == |StackOrder(a.inStack, s + 1)| && Filled(a, positions[..], StackOrder(a.inStack, s + 1))
  {
    var plots, lines := StackSums(a, s);
    RoomForLines(a, s);
    var colsForLineDrawing := a.cols - plots * BOX_COLS;
    assert colsForLineDrawing == Room(a, s);
    var posX := 0;
    done2 := done;
    ghost var order := StackOrder(a.inStack, s);
    assert order + [] == order;
    hide Ready, Filled, Room, PlotWindow, MaxCols, StackOrder, LinesOn, Share, Rounded;
    for j := 0 to |a.lines|
      invariant |a.lines| == |a.inStack|
      invariant posX == SumIf(AllMaxCols(a), a.inStack, s, j)
      invariant done2 == |order + OnStack(a.inStack, s, j)| && Filled(a, positions[..], order + OnStack(a.inStack, s, j))
    {
      if a.inStack[j] == s {
        SlotFree(a.inStack, s, j);
        ShareOfStack(a, j, posX, posY);
        var maxPlotCols := Share(colsForLineDrawing, a.lines[j], lines);
        var plotCols := Rounded(maxPlotCols, a.lines[j]);
        ghost var before := positions[..];
        positions[done2] := Window(posX, posY, plotCols, a.rowsPerStack);
        FilledExtends(a, before, order + OnStack(a.inStack, s, j), positions[..], j);
        assert order + OnStack(a.inStack, s, j + 1) == order + OnStack(a.inStack, s, j) + [j];
        posX := posX + maxPlotCols;
        done2 := done2 + 1;
      }
    }
  }

  /** All stacks, top to bottom. */
  method PlacePlots(a: Area, stacks: nat, positions: array<Window>) returns (ghost order: seq<nat>)
    requires Ready(a) && |a.lines| <= positions.Length
    modifies positions
    ensures order == StackOrder(a.inStack, stacks) && Filled(a, positions[..], order)
  {
    var done, posY := 0, a.top;
    for s := 0 to stacks
      invariant posY == a.top + s * a.rowsPerStack
      invariant done == |StackOrder(a.inStack, s)| && Filled(a, positions[..], StackOrder(a.inStack, s))
    {
      done := FillStack(a, s, posY, positions, done);
      posY := posY + a.rowsPerStack;
    }
    order := StackOrder(a.inStack, stacks);
  }
}
