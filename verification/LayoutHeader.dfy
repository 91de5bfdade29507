/** Windows, the vertical budget of the screen, and the grid of device headers. */
module LayoutHeader {
  import opened Shared
  import opened Arith

  datatype Window = Window(posX: nat, posY: nat, sizeX: nat, sizeY: nat)

  predicate Disjoint(v: Window, w: Window) {
    || v.posX + v.sizeX <= w.posX || w.posX + w.sizeX <= v.posX
    || v.posY + v.sizeY <= w.posY || w.posY + w.sizeY <= v.posY
  }

  predicate Inside(w: Window, rows: nat, cols: nat) {
    w.posX + w.sizeX <= cols && w.posY + w.sizeY <= rows
  }

  predicate Below(w: Window, v: Window) { v.posY + v.sizeY <= w.posY }

  /** Difference of two unsigned 32-bit values. */
  function Sub32(a: nat, b: nat): nat { (a - b) % 0x1_0000_0000 }

  // ----- Number of headers per row, number of header rows -----

  datatype Grid = Grid(perRow: nat, stacks: nat)

  function HeaderGrid(devices: nat, cols: nat, headerCols: nat): Grid
    requires headerCols > 0
  {
    var perRow := Max(1, cols / headerCols);
    var stacks := Max(1, devices / perRow + (if devices % perRow > 0 then 1 else 0));
    Grid(if devices % stacks == 0 then devices / stacks else perRow, stacks)
  }

  /** Spreading the devices evenly over the same number of rows never needs a longer row. */
  lemma EvenRows(n: nat, perRow: nat, stacks: nat)
    requires stacks > 0 && n <= stacks * perRow && n % stacks == 0
    ensures n == stacks * (n / stacks) && n / stacks <= perRow
    ensures n > 0 ==> n / stacks > 0 && (stacks - 1) * (n / stacks) < n
  {
  }

  /** So many headers fit side by side; one is always put there. */
  predicate FitsAcross(wide: nat, cols: nat, headerCols: nat) { wide == 1 || wide * headerCols <= cols }

  /** With rows of at most `most`, no fewer rows hold the devices than the quotient rounded up. */
  lemma FewestRows(devices: nat, most: nat, wide: nat, rows: nat, stacks: nat)
    requires wide <= most && rows > 0 && devices <= rows * wide && (stacks > 1 ==> (stacks - 1) * most < devices)
    ensures stacks <= rows
  {
    if stacks > rows {
      MulMono(wide, most, rows);
      MulMono(rows, stacks - 1, most);
    }
  }

  lemma WideAtMost(wide: nat, cols: nat, headerCols: nat)
    requires headerCols > 0 && FitsAcross(wide, cols, headerCols)
    ensures wide <= Max(1, cols / headerCols)
  {
    DivBound(wide, cols, headerCols);
  }

  lemma GridRows(devices: nat, cols: nat, headerCols: nat)
    requires headerCols > 0
    ensures var g, most := HeaderGrid(devices, cols, headerCols), Max(1, cols / headerCols);
            && g.stacks > 0 && (g.stacks > 1 ==> (g.stacks - 1) * most < devices)
            && g.perRow == if devices % g.stacks == 0 then devices / g.stacks else most
  {
    CeilDiv(devices, Max(1, cols / headerCols));
  }

  /** No grid that fits the columns has fewer rows; the rows are full if they can all be, and otherwise as wide as the screen allows. */
  lemma GridIsSmallest(devices: nat, cols: nat, headerCols: nat, wide: nat, rows: nat)
    requires headerCols > 0 && FitsAcross(wide, cols, headerCols) && rows > 0
    ensures var g := HeaderGrid(devices, cols, headerCols);
            && g.stacks > 0 && (devices <= rows * wide ==> g.stacks <= rows)
            && (if devices % g.stacks == 0 then g.stacks * g.perRow == devices else wide <= g.perRow)
  {
    hide HeaderGrid, Max;
    var g, most := HeaderGrid(devices, cols, headerCols), Max(1, cols / headerCols);
    WideAtMost(wide, cols, headerCols);
    GridRows(devices, cols, headerCols);
    if devices <= rows * wide { FewestRows(devices, most, wide, rows, g.stacks); }
    DivMod(devices, g.stacks);
  }

  /** The grid has room for every device, its last row is used, and it is no wider than the screen allows. */
  lemma GridFits(devices: nat, cols: nat, headerCols: nat)
    requires headerCols > 0
    ensures var g := HeaderGrid(devices, cols, headerCols);
            && g.stacks > 0 && devices <= g.stacks * g.perRow
            && (devices > 0 ==> g.perRow > 0 && (g.stacks - 1) * g.perRow < devices)
            && (cols >= headerCols ==> g.perRow * headerCols <= cols)
            && (cols < headerCols ==> g.perRow <= 1)
  {
    var perRow := Max(1, cols / headerCols);
    CeilDiv(devices, perRow);
    var stacks := Max(1, devices / perRow + (if devices % perRow > 0 then 1 else 0));
    MulMono(devices / perRow + (if devices % perRow > 0 then 1 else 0), stacks, perRow);
    DivBound(perRow, cols, headerCols);
    DivBound(1, cols, headerCols);
    if devices % stacks == 0 {
      EvenRows(devices, perRow, stacks);
      MulMono(devices / stacks, perRow, headerCols);
    }
  }

  // ----- Vertical budget -----

  /** A title row, and a quarter of the rows but no more than three per device and no fewer than five. */
  function MinRowsTakenByProcess(rows: nat, devices: nat): (r: nat)
    ensures r >= 6 && (r == 6 <==> rows < 24 || devices < 2)
    ensures r > 6 ==> 4 * (r - 1) <= rows && r - 1 <= 3 * devices && (4 * r > rows || r - 1 == 3 * devices)
  {
    1 + Max(5, Min(rows / 4, devices * 3))
  }

  datatype Budget = Budget(header: nat, plots: nat, process: nat)

  /** First split of the rows between headers, plots and processes. */
  function SplitRows(rows: nat, headerNeed: nat, devices: nat, fields: nat, hideProcesses: bool): Budget {
    var processNeed := if fields > 0 then MinRowsTakenByProcess(rows, devices) else 0;
    var (header, process) :=
      if rows < headerNeed + processNeed then
        if rows >= headerNeed + 2 && fields > 0 then (headerNeed, rows - headerNeed) else (rows, 0)
      else (headerNeed, processNeed);
    var process2 := if hideProcesses then 0 else process;
    Budget(header, rows - header - process2, process2)
  }

  /**
   * The split uses every row, and keeps room for the headers whenever there is any. The process list gets the rows it wants
   * if they are there, all that the headers leave if those are two at least, and otherwise none; a hidden list hands its rows
   * to the plots.
   */
  lemma SplitUsesEveryRow(rows: nat, headerNeed: nat, devices: nat, fields: nat, hideProcesses: bool)
    ensures var b := SplitRows(rows, headerNeed, devices, fields, hideProcesses);
            && b.header + b.plots + b.process == rows
            && (b.header >= headerNeed <==> rows >= headerNeed)
            && (b.plots > 0 ==> b.header == headerNeed)
            && (b.process > 0 ==> fields > 0 && !hideProcesses && b.header == headerNeed)
            && (fields == 0 && rows >= headerNeed ==> b.header == headerNeed)
            && (fields > 0 && !hideProcesses ==>
                  if rows >= headerNeed + MinRowsTakenByProcess(rows, devices) then b.process == MinRowsTakenByProcess(rows, devices)
                  else b.plots == 0 && b.process == if rows >= headerNeed + 2 then rows - headerNeed else 0)
            && (fields > 0 && hideProcesses && rows >= headerNeed + 2 ==> b.plots == rows - headerNeed)
  {
  }

  // ----- Placing the headers -----

  /** Horizontal and vertical gaps of the grid. */
  datatype Gaps = Gaps(before: nat, between: nat, rowGap: nat)

  /** Gaps between headers in a row, and before the first: cols_header_left is an unsigned 32-bit difference. */
  function HeaderGaps(cols: nat, perRow: nat, headerCols: nat, spaceRows: bool): Gaps {
    var left := Sub32(cols, perRow * headerCols);
    var between := left > perRow;
    var left2 := if between then Sub32(left, Sub32(perRow, 1)) else left;
    Gaps(if left2 > 0 then 1 else 0, if between then 1 else 0, if spaceRows then 1 else 0)
  }

  /**
   * A column is left between headers exactly when the row still fits with one per header, and one before the first exactly
   * when there is a column for it then; on a screen too narrow for a header the difference wraps around and both are set.
   */
  lemma GapsIff(cols: nat, perRow: nat, headerCols: nat, spaceRows: bool)
    requires 0 < perRow && cols < 0x1_0000_0000 && (perRow * headerCols <= cols || (perRow == 1 && headerCols < 0x1_0000_0000 - 1))
    ensures var g := HeaderGaps(cols, perRow, headerCols, spaceRows);
            && g.before <= 1 && g.between <= 1 && g.rowGap == (if spaceRows then 1 else 0)
            && (perRow * headerCols <= cols ==>
                  && (g.between == 1 <==> perRow * (headerCols + 1) < cols)
                  && (g.before == 1 <==> perRow * headerCols + (perRow - 1) * g.between < cols))
            && (perRow * headerCols > cols ==> g.between == 1 && g.before == 1)
  {
    MulAdd(headerCols, 1, perRow);
    assert perRow * (headerCols + 1) == perRow * headerCols + perRow;
  }

  /** A full row of headers with its gaps stays within the columns, provided one header does. */
  lemma RowFits(cols: nat, perRow: nat, headerCols: nat, spaceRows: bool)
    requires 0 < perRow && perRow * headerCols <= cols < 0x1_0000_0000
    ensures var g := HeaderGaps(cols, perRow, headerCols, spaceRows);
            g.before + perRow * headerCols + (perRow - 1) * g.between <= cols
  {
  }

  function CellWindow(row: nat, col: nat, headerRows: nat, headerCols: nat, g: Gaps): Window {
    Window(g.before + col * (headerCols + g.between), row * (headerRows + g.rowGap), headerCols, headerRows)
  }

  function HeaderWindow(i: nat, perRow: nat, headerRows: nat, headerCols: nat, g: Gaps): Window
    requires perRow > 0
  {
    CellWindow(i / perRow, i % perRow, headerRows, headerCols, g)
  }

  /** The next header is in the next cell of its row, or first in the next row when the row is full. */
  lemma NextHeader(i: nat, perRow: nat, headerRows: nat, headerCols: nat, g: Gaps)
    requires perRow > 0
    ensures HeaderWindow(0, perRow, headerRows, headerCols, g) == Window(g.before, 0, headerCols, headerRows)
    ensures var w := HeaderWindow(i, perRow, headerRows, headerCols, g);
            HeaderWindow(i + 1, perRow, headerRows, headerCols, g) ==
            if (i + 1) % perRow == 0 then Window(g.before, w.posY + headerRows + g.rowGap, headerCols, headerRows)
            else Window(w.posX + headerCols + g.between, w.posY, headerCols, headerRows)
  {
    var q, r := i / perRow, i % perRow;
    DivMod(i, perRow);
    if r + 1 == perRow {
      MulAdd(q, 1, perRow);
      DivModUnique(i + 1, perRow, q + 1, 0);
      MulAdd(q, 1, headerRows + g.rowGap);
    } else {
      DivModUnique(i + 1, perRow, q, r + 1);
      MulAdd(r, 1, headerCols + g.between);
    }
  }

  method PlaceHeaders(devices: nat, perRow: nat, headerRows: nat, headerCols: nat, g: Gaps, positions: array<Window>)
    requires devices <= positions.Length && (devices > 0 ==> perRow > 0)
    modifies positions
    ensures forall i :: 0 <= i < devices ==> positions[i] == HeaderWindow(i, perRow, headerRows, headerCols, g)
  {
    var numThisRow, posX, posY := 0, g.before, 0;
    ghost var row := 0;
    for i := 0 to devices
      invariant i == row * perRow + numThisRow && (devices > 0 ==> numThisRow < perRow)
      invariant posX == g.before + numThisRow * (headerCols + g.between) && posY == row * (headerRows + g.rowGap)
      invariant forall j :: 0 <= j < i ==> positions[j] == HeaderWindow(j, perRow, headerRows, headerCols, g)
    {
      DivModUnique(i, perRow, row, numThisRow);
      positions[i] := Window(posX, posY, headerCols, headerRows);
      numThisRow := numThisRow + 1;
      if numThisRow == perRow {
        posX := g.before;
        posY := posY + headerRows + g.rowGap;
        numThisRow := 0;
        row := row + 1;
      } else {
        posX := posX + headerCols + g.between;
      }
    }
  }

  lemma CellsDisjoint(row: nat, col: nat, row2: nat, col2: nat, headerRows: nat, headerCols: nat, g: Gaps)
    requires row < row2 || (row == row2 && col < col2)
    ensures Disjoint(CellWindow(row, col, headerRows, headerCols, g), CellWindow(row2, col2, headerRows, headerCols, g))
  {
    if row < row2 {
      StepApart(row, row2, headerRows, headerRows + g.rowGap);
    } else {
      StepApart(col, col2, headerCols, headerCols + g.between);
    }
  }

  lemma RowsInOrder(i: nat, j: nat, d: nat)
    requires i < j && d > 0
    ensures i / d < j / d || (i / d == j / d && i % d < j % d)
  {
    DivMod(i, d);
    DivMod(j, d);
    if j / d < i / d { StepApart(j / d, i / d, d, d); }
  }

  /** No two device headers overlap, whatever the screen. */
  lemma HeadersDisjoint(i: nat, j: nat, perRow: nat, headerRows: nat, headerCols: nat, g: Gaps)
    requires perRow > 0 && i < j
    ensures Disjoint(HeaderWindow(i, perRow, headerRows, headerCols, g), HeaderWindow(j, perRow, headerRows, headerCols, g))
  {
    RowsInOrder(i, j, perRow);
    CellsDisjoint(i / perRow, i % perRow, j / perRow, j % perRow, headerRows, headerCols, g);
  }

  /** Rows taken by a grid of headers, gaps included. */
  function Extent(stacks: nat, headerRows: nat, rowGap: nat): nat
    requires stacks > 0
  {
    (stacks - 1) * (headerRows + rowGap) + headerRows
  }

  lemma ExtentSplits(stacks: nat, headerRows: nat, rowGap: nat)
    requires stacks > 0
    ensures Extent(stacks, headerRows, rowGap) == stacks * headerRows + (stacks - 1) * rowGap
  {
  }

  /** Every header ends within the extent of the grid, and the last one ends exactly there. */
  lemma HeaderBottoms(devices: nat, i: nat, grid: Grid, headerRows: nat, headerCols: nat, g: Gaps)
    requires i < devices <= grid.stacks * grid.perRow && grid.perRow > 0 && grid.stacks > 0
    requires (grid.stacks - 1) * grid.perRow < devices
    ensures var w := HeaderWindow(i, grid.perRow, headerRows, headerCols, g);
            w.posY + w.sizeY <= Extent(grid.stacks, headerRows, g.rowGap)
    ensures var w := HeaderWindow(devices - 1, grid.perRow, headerRows, headerCols, g);
            w.posY + w.sizeY == Extent(grid.stacks, headerRows, g.rowGap)
  {
    QuotientBound(i, grid.perRow, grid.stacks);
    QuotientBound(devices - 1, grid.perRow, grid.stacks);
    DivBound(grid.stacks - 1, devices - 1, grid.perRow);
    MulMono(i / grid.perRow, grid.stacks - 1, headerRows + g.rowGap);
  }

  lemma QuotientBound(i: nat, d: nat, q: nat)
    requires d > 0 && i < q * d
    ensures i / d <= q - 1
  {
  }

  /** A header's right edge is within the columns as soon as one header fits. */
  lemma HeaderRightEdge(i: nat, perRow: nat, cols: nat, headerRows: nat, headerCols: nat, spaceRows: bool)
    requires perRow > 0 && perRow * headerCols <= cols < 0x1_0000_0000
    ensures var w := HeaderWindow(i, perRow, headerRows, headerCols, HeaderGaps(cols, perRow, headerCols, spaceRows));
            w.posX + w.sizeX <= cols
  {
    var g := HeaderGaps(cols, perRow, headerCols, spaceRows);
    DivMod(i, perRow);
    RowFits(cols, perRow, headerCols, spaceRows);
    MulMono(i % perRow, perRow - 1, headerCols + g.between);
    MulAdd(perRow - 1, 1, headerCols);
    assert (perRow - 1) * (headerCols + g.between) == (perRow - 1) * headerCols + (perRow - 1) * g.between;
  }

  /** The headers are all on the screen if and only if it is wide enough for one and tall enough for their rows. */
  lemma HeadersOnScreenIff(devices: nat, rows: nat, cols: nat, headerRows: nat, headerCols: nat, spaceRows: bool)
    requires devices > 0 && headerCols > 0 && cols < 0x1_0000_0000
    requires var stacks := HeaderGrid(devices, cols, headerCols).stacks;
             spaceRows && stacks * headerRows <= rows ==> stacks * headerRows + (stacks - 1) <= rows
    ensures var grid := HeaderGrid(devices, cols, headerCols);
            var g := HeaderGaps(cols, grid.perRow, headerCols, spaceRows);
            && grid.perRow > 0
            && ((forall i :: 0 <= i < devices ==> Inside(HeaderWindow(i, grid.perRow, headerRows, headerCols, g), rows, cols))
                <==> headerCols <= cols && grid.stacks * headerRows <= rows)
  {
    var grid := HeaderGrid(devices, cols, headerCols);
    var g := HeaderGaps(cols, grid.perRow, headerCols, spaceRows);
    GridFits(devices, cols, headerCols);
    ExtentSplits(grid.stacks, headerRows, g.rowGap);
    HeaderBottoms(devices, devices - 1, grid, headerRows, headerCols, g);
    if headerCols <= cols && grid.stacks * headerRows <= rows {
      forall i | 0 <= i < devices ensures Inside(HeaderWindow(i, grid.perRow, headerRows, headerCols, g), rows, cols) {
        HeaderBottoms(devices, i, grid, headerRows, headerCols, g);
        HeaderRightEdge(i, grid.perRow, cols, headerRows, headerCols, spaceRows);
      }
    } else {
      assert !Inside(HeaderWindow(devices - 1, grid.perRow, headerRows, headerCols, g), rows, cols);
    }
  }
}
