/** The consumers of the layout: device lists of the plots, and the data buffer a plot draws from. */
module PlotData {
  import opened Shared
  import opened Arith
  import opened Sums
  import opened LayoutMerge
  import opened LayoutSearch

  // ----- alloc_plot_window: which devices a plot shows -----

  function DevicesOf(plotOf: seq<nat>, p: nat, k: nat): seq<nat>
    requires k <= |plotOf|
  {
    if k == 0 then []
    else if plotOf[k - 1] == p then DevicesOf(plotOf, p, k - 1) + [k - 1]
    else DevicesOf(plotOf, p, k - 1)
  }

  /** They are the devices mapped to the plot, each once and in order. */
  lemma {:induction false} DevicesOfIs(plotOf: seq<nat>, p: nat, k: nat)
    requires k <= |plotOf|
    ensures var ids := DevicesOf(plotOf, p, k);
            && (forall d: nat :: d in ids <==> d < k && plotOf[d] == p)
            && (forall i, j :: 0 <= i < j < |ids| ==> ids[i] < ids[j]) && forall i :: 0 <= i < |ids| ==> ids[i] < k
  {
    if k > 0 { DevicesOfIs(plotOf, p, k - 1); }
  }

  /** Number of the first k devices on plot p that draw something. */
  function Drawing(draws: seq<nat>, plotOf: seq<nat>, p: nat, k: nat): nat
    requires k <= |draws| == |plotOf|
  {
    if k == 0 then 0 else Drawing(draws, plotOf, p, k - 1) + (if plotOf[k - 1] == p && draws[k - 1] > 0 then 1 else 0)
  }

  lemma {:induction false} DevicesOfLength(draws: seq<nat>, plotOf: seq<nat>, p: nat, k: nat)
    requires k <= |draws| == |plotOf| && forall d :: 0 <= d < |draws| && draws[d] == 0 ==> plotOf[d] == d
    ensures |DevicesOf(plotOf, p, k)| == Drawing(draws, plotOf, p, k) + (if p < k && draws[p] == 0 then 1 else 0)
  {
    if k > 0 { DevicesOfLength(draws, plotOf, p, k - 1); }
  }

  lemma {:induction false} DrawingWithinLines(draws: seq<nat>, plotOf: seq<nat>, p: nat, k: nat)
    requires k <= |draws| == |plotOf|
    ensures Drawing(draws, plotOf, p, k) <= SumIf(draws, plotOf, p, k)
  {
    if k > 0 { DrawingWithinLines(draws, plotOf, p, k - 1); }
  }

  function Marks(draws: seq<nat>): (m: seq<nat>)
    ensures |m| == |draws|
  {
    seq(|draws|, d requires 0 <= d < |draws| => if draws[d] > 0 then 1 else 0)
  }

  lemma {:induction false} MarksCount(draws: seq<nat>, plotOf: seq<nat>, p: nat, k: nat)
    requires k <= |draws| == |plotOf|
    ensures SumIf(Marks(draws), plotOf, p, k) == Drawing(draws, plotOf, p, k) && Total(Marks(draws), k) == NonEmptyCount(draws, k)
    ensures SumIf(draws, plotOf, p, k) > 0 ==> Drawing(draws, plotOf, p, k) > 0
  {
    if k > 0 { MarksCount(draws, plotOf, p, k - 1); }
  }

  /** Positive values that add up to their number are all one. */
  lemma {:induction false} AllOne(w: seq<nat>, p: nat, k: nat)
    requires k <= |w| && (forall i :: 0 <= i < |w| ==> w[i] > 0) && p < |w|
    ensures Total(w, k) >= k && (p < k ==> Total(w, k) >= k + w[p] - 1)
  {
    if k > 0 { AllOne(w, p, k - 1); }
  }

  /** With as many plots as devices that draw something, each plot shows one of them, and at most one other device shares its slot. */
  lemma UnmergedDevices(draws: seq<nat>, plotOf: seq<nat>, lines: seq<nat>, p: nat)
    requires Plotted(draws, plotOf, lines) && p < |lines| == NonEmptyCount(draws, |draws|)
    ensures |DevicesOf(plotOf, p, |draws|)| == if draws[p] == 0 then 2 else 1
  {
    var n := |draws|;
    var counts := seq(|lines|, q requires 0 <= q < |lines| => Drawing(draws, plotOf, q, n));
    hide SumIf, Total, Drawing;
    forall q | 0 <= q < |lines| ensures counts[q] == SumIf(Marks(draws), plotOf, q, n) > 0 { MarksCount(draws, plotOf, q, n); }
    MarksCount(draws, plotOf, p, n);
    SumIfPartition(Marks(draws), plotOf, counts, n);
    AllOne(counts, p, |lines|);
    DevicesOfLength(draws, plotOf, p, n);
  }

  /**
   * A plot of at most MAX_LINES_PER_PLOT lines has at most that many devices, except in one case: four devices of one
   * line each share the slot of a device that draws nothing.
   */
  lemma DeviceListFitsIff(draws: seq<nat>, plotOf: seq<nat>, lines: seq<nat>, p: nat)
    requires Plotted(draws, plotOf, lines) && p < |lines| && lines[p] <= MAX_LINES_PER_PLOT
    ensures |DevicesOf(plotOf, p, |draws|)| <= MAX_LINES_PER_PLOT <==>
            !(draws[p] == 0 && Drawing(draws, plotOf, p, |draws|) == MAX_LINES_PER_PLOT)
  {
    DevicesOfLength(draws, plotOf, p, |draws|);
    DrawingWithinLines(draws, plotOf, p, |draws|);
  }

  /**
   * The loop of alloc_plot_window. The array is filled with the devices of the plot, in order; when it is too short,
   * `overflow` marks the write past its end.
   */
  method CollectDevices(plotOf: seq<nat>, p: nat, ids: array<nat>) returns (count: nat, overflow: bool)
    modifies ids
    ensures overflow <==> |DevicesOf(plotOf, p, |plotOf|)| > ids.Length
    ensures count <= ids.Length && ids[..count] <= DevicesOf(plotOf, p, |plotOf|)
    ensures if overflow then count == ids.Length else ids[..count] == DevicesOf(plotOf, p, |plotOf|)
  {
    count, overflow := 0, false;
    for d := 0 to |plotOf|
      invariant count <= ids.Length && ids[..count] == DevicesOf(plotOf, p, d)
    {
      DevicesGrow(plotOf, p, d, |plotOf|);
      DevicesGrow(plotOf, p, d + 1, |plotOf|);
      if plotOf[d] == p {
        if count == ids.Length { return count, true; }
        ids[count] := d;
        count := count + 1;
      }
    }
  }

  lemma {:induction false} DevicesGrow(plotOf: seq<nat>, p: nat, j: nat, k: nat)
    requires j <= k <= |plotOf|
    ensures DevicesOf(plotOf, p, j) <= DevicesOf(plotOf, p, k)
  {
    if j < k { DevicesGrow(plotOf, p, j, k - 1); }
  }

  /** The column divisor, summed over the devices of a plot, is the number of lines of the plot. */
  lemma {:induction false} DivisorIsLines(draws: seq<nat>, plotOf: seq<nat>, p: nat, k: nat)
    requires k <= |draws| == |plotOf|
    ensures forall i :: 0 <= i < |DevicesOf(plotOf, p, k)| ==> DevicesOf(plotOf, p, k)[i] < k
    ensures Divisor(draws, DevicesOf(plotOf, p, k), |DevicesOf(plotOf, p, k)|) == SumIf(draws, plotOf, p, k)
  {
    if k > 0 {
      DivisorIsLines(draws, plotOf, p, k - 1);
      var ids := DevicesOf(plotOf, p, k - 1);
      if plotOf[k - 1] == p { DivisorPrefix(draws, ids, ids + [k - 1], |ids|); }
    }
  }

  lemma {:induction false} DivisorPrefix(draws: seq<nat>, ids: seq<nat>, ids2: seq<nat>, k: nat)
    requires k <= |ids| && ids <= ids2 && forall i :: 0 <= i < |ids2| ==> ids2[i] < |draws|
    ensures Divisor(draws, ids, k) == Divisor(draws, ids2, k)
  {
    if k > 0 { DivisorPrefix(draws, ids, ids2, k - 1); }
  }

  /** Lines drawn by the first k devices of a plot. */
  function Divisor(draws: seq<nat>, ids: seq<nat>, k: nat): nat
    requires k <= |ids| && forall i :: 0 <= i < |ids| ==> ids[i] < |draws|
  {
    if k == 0 then 0 else Divisor(draws, ids, k - 1) + draws[ids[k - 1]]
  }

  // ----- populate_plot_data_from_ring_buffer -----

  /** Histories of the lines of the first k devices of a plot: one column each; rings(d)[r] is ring r of device d, oldest first. */
  function Columns(rings: seq<seq<seq<nat>>>, ids: seq<nat>, k: nat): seq<seq<nat>>
    requires k <= |ids| && forall i :: 0 <= i < |ids| ==> ids[i] < |rings|
  {
    if k == 0 then [] else Columns(rings, ids, k - 1) + rings[ids[k - 1]]
  }

  /** The j-th most recent value of a history, or zero. */
  function Recent(history: seq<nat>, j: nat): nat {
    if j < |history| then history[|history| - 1 - j] else 0
  }

  /** Position of row `row`, column `col` in the buffer seen as rows of `total` values. */
  function At(row: nat, col: nat, total: nat): nat { row * total + col }

  lemma AtFacts(total: nat, height: nat)
    ensures forall row, col :: 0 <= row < height && 0 <= col < total ==> At(row, col, total) < total * height
  {
    forall row: nat, col: nat | row < height && col < total ensures At(row, col, total) < total * height {
      StepApart(row, height, total, total);
    }
  }

  lemma AtInjective(row: nat, col: nat, total: nat)
    requires col < total
    ensures forall r: nat, c: nat :: c < total && At(r, c, total) == At(row, col, total) ==> r == row && c == col
  {
    forall r: nat, c: nat | c < total && At(r, c, total) == At(row, col, total) ensures r == row && c == col {
      DivModUnique(At(row, col, total), total, row, col);
      DivModUnique(At(row, col, total), total, r, c);
    }
  }

  /** How recent the values of a row are: plots run left to right or right to left. */
  function Age(row: nat, height: nat, leftToRight: bool): nat
    requires row < height
  {
    if leftToRight then row else height - 1 - row
  }

  /** Buffer contents once these columns are copied: column by column the most recent values, zero elsewhere. */
  ghost predicate Holds(data: seq<nat>, columns: seq<seq<nat>>, total: nat, height: nat, leftToRight: bool) {
    && |data| == total * height
    && forall row: nat, col: nat :: row < height && col < total ==>
         && At(row, col, total) < |data|
         && data[At(row, col, total)] == if col < |columns| then Recent(columns[col], Age(row, height, leftToRight)) else 0
  }

  /** Copy one history into column `col` of the buffer: every write is within it. */
  method CopyColumn(data: array<nat>, history: seq<nat>, col: nat, total: nat, height: nat, leftToRight: bool, ghost columns: seq<seq<nat>>)
    requires |columns| == col < total && Holds(data[..], columns, total, height, leftToRight)
    modifies data
    ensures Holds(data[..], columns + [history], total, height, leftToRight)
  {
    AtFacts(total, height);
    hide At;
    var j := 0;
    while j < |history| && j < height
      invariant j <= |history| && j <= height
      invariant forall row: nat, c: nat :: row < height && c < total ==>
        && At(row, c, total) < data.Length
        && data[At(row, c, total)] == if c < col then Recent(columns[c], Age(row, height, leftToRight))
                                      else if c == col && Age(row, height, leftToRight) < j then Recent(history, Age(row, height, leftToRight))
                                      else 0
    {
      var row := if leftToRight then j else height - j - 1;
      AtInjective(row, col, total);
      data[At(row, col, total)] := history[|history| - j - 1];
      j := j + 1;
    }
  }

  lemma {:induction false} ColumnsLength(draws: seq<nat>, rings: seq<seq<seq<nat>>>, ids: seq<nat>, k: nat)
    requires k <= |ids| && |rings| == |draws| && forall i :: 0 <= i < |ids| ==> ids[i] < |draws|
    requires forall d :: 0 <= d < |draws| ==> |rings[d]| == draws[d]
    ensures |Columns(rings, ids, k)| == Divisor(draws, ids, k)
  {
    if k > 0 { ColumnsLength(draws, rings, ids, k - 1); }
  }

  lemma {:induction false} DivisorMonotone(draws: seq<nat>, ids: seq<nat>, j: nat, k: nat)
    requires j <= k <= |ids| && forall i :: 0 <= i < |ids| ==> ids[i] < |draws|
    ensures Divisor(draws, ids, j) <= Divisor(draws, ids, k)
  {
    if j < k { DivisorMonotone(draws, ids, j, k - 1); }
  }

  /** Total of the lines to draw, the first loop. */
  method TotalToDraw(draws: seq<nat>, ids: seq<nat>) returns (total: nat)
    requires forall i :: 0 <= i < |ids| ==> ids[i] < |draws|
    ensures total == Divisor(draws, ids, |ids|)
  {
    total := 0;
    for i := 0 to |ids|
      invariant total == Divisor(draws, ids, i)
    {
      total := total + draws[ids[i]];
    }
  }

  /** The rings of one device, in order, into the next columns. */
  method CopyDevice(data: array<nat>, histories: seq<seq<nat>>, first: nat, total: nat, height: nat, leftToRight: bool, ghost columns: seq<seq<nat>>)
    returns (next: nat)
    requires |columns| == first && first + |histories| <= total && Holds(data[..], columns, total, height, leftToRight)
    modifies data
    ensures next == first + |histories| && Holds(data[..], columns + histories, total, height, leftToRight)
  {
    next := first;
    assert columns + histories[..0] == columns;
    for r := 0 to |histories|
      invariant next == first + r && Holds(data[..], columns + histories[..r], total, height, leftToRight)
    {
      hide Holds;
      CopyColumn(data, histories[r], next, total, height, leftToRight, columns + histories[..r]);
      assert columns + histories[..r + 1] == columns + histories[..r] + [histories[r]];
      next := next + 1;
    }
    assert histories[..|histories|] == histories;
  }

  /**
   * populate_plot_data_from_ring_buffer, legends aside. Its two asserts are the preconditions; the result is the
   * whole buffer: column c shows history c, newest value first or last according to the direction, zeros beyond it.
   */
  method PopulatePlotData(data: array<nat>, draws: seq<nat>, rings: seq<seq<seq<nat>>>, ids: seq<nat>, leftToRight: bool) returns (total: nat)
    requires |rings| == |draws| && forall i :: 0 <= i < |ids| ==> ids[i] < |draws|
    requires forall d :: 0 <= d < |draws| ==> |rings[d]| == draws[d]
    requires Divisor(draws, ids, |ids|) > 0 && data.Length % Divisor(draws, ids, |ids|) == 0
    modifies data
    ensures total == Divisor(draws, ids, |ids|)
    ensures Holds(data[..], Columns(rings, ids, |ids|), total, data.Length / total, leftToRight)
  {
    forall i | 0 <= i < data.Length { data[i] := 0; }
    total := TotalToDraw(draws, ids);
    assert total > 0 && data.Length % total == 0;
    var height := data.Length / total;
    DivMod(data.Length, total);
    AtFacts(total, height);
    var next := 0;
    assert Holds(data[..], [], total, height, leftToRight);
    for i := 0 to |ids|
      invariant next == Divisor(draws, ids, i) == |Columns(rings, ids, i)|
      invariant Holds(data[..], Columns(rings, ids, i), total, height, leftToRight)
    {
      hide Holds, At;
      DivisorMonotone(draws, ids, i + 1, |ids|);
      ColumnsLength(draws, rings, ids, i + 1);
      next := CopyDevice(data, rings[ids[i]], next, total, height, leftToRight, Columns(rings, ids, i));
    }
  }

  lemma {:induction false} ColumnOf(draws: seq<nat>, rings: seq<seq<seq<nat>>>, ids: seq<nat>, i: nat, r: nat, k: nat)
    requires i < k <= |ids| && |rings| == |draws| && forall x :: 0 <= x < |ids| ==> ids[x] < |draws|
    requires (forall d :: 0 <= d < |draws| ==> |rings[d]| == draws[d]) && r < draws[ids[i]]
    ensures Divisor(draws, ids, i) + r < Divisor(draws, ids, k) == |Columns(rings, ids, k)|
    ensures Columns(rings, ids, k)[Divisor(draws, ids, i) + r] == rings[ids[i]][r]
  {
    ColumnsLength(draws, rings, ids, k);
    ColumnsLength(draws, rings, ids, k - 1);
    if i < k - 1 { ColumnOf(draws, rings, ids, i, r, k - 1); }
  }

  /**
   * Where a value ends up: ring r of the i-th device of the plot has the column after those of the devices before it and its own
   * earlier rings; the newest value is in the first row or in the last, by direction, and the older ones follow, zeros after the oldest.
   */
  lemma BufferCell(data: seq<nat>, draws: seq<nat>, rings: seq<seq<seq<nat>>>, ids: seq<nat>, i: nat, r: nat, j: nat, total: nat, height: nat, leftToRight: bool)
    requires |rings| == |draws| && (forall x :: 0 <= x < |ids| ==> ids[x] < |draws|) && forall d :: 0 <= d < |draws| ==> |rings[d]| == draws[d]
    requires total == Divisor(draws, ids, |ids|) && Holds(data, Columns(rings, ids, |ids|), total, height, leftToRight)
    requires i < |ids| && r < draws[ids[i]] && j < height
    ensures var ring := rings[ids[i]][r]; var cell := (if leftToRight then j else height - 1 - j) * total + Divisor(draws, ids, i) + r;
            cell < |data| && data[cell] == if j < |ring| then ring[|ring| - 1 - j] else 0
  {
    ColumnOf(draws, rings, ids, i, r, |ids|);
    hide Divisor, Columns;
    var row, col := if leftToRight then j else height - 1 - j, Divisor(draws, ids, i) + r;
    assert data[At(row, col, total)] == Recent(Columns(rings, ids, |ids|)[col], Age(row, height, leftToRight));
  }
}
