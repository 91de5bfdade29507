# nvtop, verified

A Dafny model of the parts of nvtop that compute something: the screen layout, the bundled hash table, the options file
and its parser, the monitored devices, the two caches that live from one refresh to the next, the sweep over `/proc`, the
utilisation samples of NVIDIA devices, and the device totals made up from processes. Every part keeps the shape of the
program: buffers are arrays that are cut up in place, list and hash handles are objects whose links are rewritten, loops
are loops. Each such method is proved against a function on plain values, and the properties the program is for are
lemmas about those functions.

`dafny verify dfyconfig.toml` checks the whole project.

## The parts

- **Layout** (`Sums`, `Layout*`, `PlotData`): charts are packed in order, merged while rows are short, compacted,
  balanced over stacks, and turned into rectangles. `LayoutMain.ComputeSizes` is the whole function; its contract says
  where every window is. `LayoutOrder` says when balancing keeps the plots in order, `LayoutTheorems` what the
  consumers may rely on, and `LayoutExamples` has the screens on which they may not.
- **Hash table** (`Hash*`): handles on bucket chains and on the application's list. `HashTable.Table` is the table with
  its integrity conditions as `Valid`; `HashRuns` follows whole runs; `HashSort` and `HashSortInPlace` are the mergesort,
  as a function and as the pointer loops that refine it.
- **INI files** (`Ini`, `IniParser`, `IniPrint`): the parser on strings, the parser over NUL-ended buffers that refines it,
  and printing.
- **Options** (`Options`, `OptionsStore`, `OptionsRoundTrip`, `OptionsTheorems`): the handler and the saver, in place and as
  functions, and the round trip.
- **Monitored devices** (`CircularList`, `Callbacks`, `MonitoredSet`): an array kept in step with two circular lists.
- **Caches** (`PidCache`, `DrmCache`, with `ProcessRow`): two generations each, with every allocation accounted for.
- **Sweep** (`FdinfoLog`, `FdinfoSweep`): what a listing of `/proc` contributes to which device, and the loops that add it
  up in growing arrays.
- **Samples and totals** (`Watermark`, `DynamicInfo`).

`Arith`, `Shared` and `HashLists` hold shared facts.

## Where the code and its names or promises differ

The model follows the code. Places where that matters, each stated as a lemma:

- Balancing "preserving plot order" does not always preserve it. `LayoutOrder.OrderKeptIff` says exactly for which line
  counts it does in every state of the run, from every ordered start: a plot must not be able to overtake a wider one
  while the plots after it rest. Of the state in which the run ends, the condition is sufficient (`LayoutOrder.EndsInOrder`)
  but not necessary: a run can come back to the order it left, as with line counts 1, 1, 2, 3, 1
  (`LayoutExamples.OrderCanBeRestored`); `LayoutOrder.OvertakingLasts` gives runs that do not. For a screen,
  `LayoutTheorems.FittingScreenKeepsOrder` is a condition on the rows, the columns and the devices that can be evaluated
  before the layout, and `LayoutTheorems.TwoDevicesKeepOrder` one on the devices alone. `LayoutExamples.SkewedRun` breaks
  the order without any merge. Line counts that do not increase along the devices are safe until charts are merged, and
  not after that, even when they are all the default: `LayoutExamples.EqualDevicesOutOfOrder`.
- When the order is not kept, a plot can be drawn in a slot whose width its lines do not divide, so the divisibility
  assert of the drawing code fails: `LayoutExamples.SkewedScreenBreaksDivision`, and with merges
  `LayoutExamples.DescendingDevicesBreakDivision`. `LayoutTheorems.FittingScreenDrawsCleanly` says from the screen when
  it cannot fail.
- The four-entry device list of a plot can be asked to hold five devices: `LayoutExamples.DeviceListCanOverflow`, with the
  exact condition in `PlotData.DeviceListFitsIff`. It cannot when every device draws, `LayoutTheorems.DeviceListsFit`, nor
  when one chart per device fits, `LayoutTheorems.FittingScreenDeviceLists`.
- A sort column that is not displayed, and "none" while columns are displayed, do not survive a save and a load, and
  devices come back in the order of the new start: `OptionsTheorems.SaveThenLoadIsIdentityIff` is the exact condition.
- The rounding of a memory percentage of a device with no memory at all gives 100, not 0: `PidCache.MemoryPercentNearest`.

## Model

| member | source | states |
|---|---|---|
| LayoutMerge.WhoToMerge | src/interface_layout_selection.c:28-51 | A pair is found if and only if two neighbouring non-empty charts together respect the size limit; the pair found has the smallest sum of all such pairs and, among equal sums, lies nearest to the end |
| LayoutMerge.BestMergeUnique | src/interface_layout_selection.c:34-50 | At most one pair is the best one, so the previous row determines the choice completely |
| LayoutMerge.GroupedInitially | src/interface_layout_selection.c:114-124 | One chart per device is a grouping: every chart counts exactly the lines of the devices mapped to it |
| LayoutMerge.MergeKeepsGrouped | src/interface_layout_selection.c:158-170 | After any merge of neighbours, every chart still counts exactly the lines of its devices, non-empty charts map to themselves, and every drawing device is on the last non-empty chart at or before it |
| LayoutMerge.MergePlots | src/interface_layout_selection.c:158-168 | The merge in place: the counts become those of the merged list and the map of devices stays a grouping |
| LayoutMerge.MergeDropsOnePlot | src/interface_layout_selection.c:126-176 | Each retry of the outer search has exactly one non-empty chart fewer, which is why the search ends |
| LayoutPack.GreedyStaysAhead | src/interface_layout_selection.c:131-156 | After any number of charts, no order-preserving assignment within the columns is on an earlier stack than the packing pass, nor on the same stack with fewer columns used |
| LayoutPack.GreedyIsOptimal | src/interface_layout_selection.c:128-176 | The in-order packing is an assignment within the columns and uses the fewest stacks of all order-preserving ones |
| LayoutPack.GreedyOverflowMeansNoFit | src/interface_layout_selection.c:144-170 | When the pass runs out of stacks, no order-preserving assignment of the current charts fits in that many stacks |
| LayoutPack.TooWideMeansNoFit | src/interface_layout_selection.c:136-143 | A chart wider than the screen means that no assignment fits whatever the number of stacks |
| LayoutPack.CanFitIff | src/interface_layout_selection.c:128-156 | Charts fit in so many stacks, in order, if and only if none is wider than the screen and the packing pass needs no more stacks |
| LayoutPack.PackPass | src/interface_layout_selection.c:128-156 | One pass of the inner loop, step back included: it ends; it packs the charts, by the greedy assignment, if and only if they fit in order in rows / 7 stacks; otherwise it names a reason that holds: a chart wider than the screen, or no assignment in that many stacks |
| LayoutSearch.MergeOneMore | src/interface_layout_selection.c:158-176 | After a pass without room: either the best merge is made, leaving fewer charts, or no merge within the line limit exists |
| LayoutSearch.SearchConfiguration | src/interface_layout_selection.c:126-176 | The search records every configuration it went through: each step is the best merge of a configuration that could not be packed; on success the stacks are the fewest possible, on failure the reason is stated |
| LayoutSearch.HistoryBoundsLines | src/interface_layout_selection.c:158-170 | If every device starts with at most four lines, so does every chart of every configuration |
| LayoutSearch.CompactPlots | src/interface_layout_selection.c:178-203 | Compaction turns the charts into exactly those numbered 0 to num_plots - 1, in order, with the same lines, and maps every drawing device to one of them in device order |
| LayoutSearch.PlottedShowsEverything | src/interface_layout_selection.c:178-203 | The charts together show as many lines as the devices draw: no line is lost |
| LayoutSearch.PreliminaryPlotPositioning | src/interface_layout_selection.c:106-203 | The whole search and compaction, in place, with the guarantees of the rows above |
| LayoutBalance.SizeDifferences | src/interface_layout_selection.c:91-104 | The loop computes the sum over all pairs of stacks of the difference of their columns |
| LayoutBalance.MovePlotToStack | src/interface_layout_selection.c:53-68 | A plot moves exactly when the stack is another one and has the room; then the two column counts and the stack of the plot change, and nothing else |
| LayoutBalance.MoveKeepsAllocated | src/interface_layout_selection.c:53-68 | The columns booked per stack stay what recomputing them would give, and within the columns of the screen |
| LayoutBalance.MoveBackRestores | src/interface_layout_selection.c:219-227 | Moving there and back again restores the state exactly, so a rejected move leaves no trace |
| LayoutBalance.TryMoveUp | src/interface_layout_selection.c:213-229 | One round: the move is kept if and only if there is a stack above, room on it, and no larger imbalance; otherwise the state is as before |
| LayoutBalance.RunIsBalanced | src/interface_layout_selection.c:205-232 | From every start the loop ends with no plot movable any more, never with a larger imbalance, no plot on an earlier stack, and columns booked exactly |
| LayoutBalance.BalanceStacks | src/interface_layout_selection.c:205-232 | The balancing loop in place refines that run and terminates: moves left upwards, then plot index |
| LayoutOrder.StuckIff | src/interface_layout_selection.c:53-104 | What the pairwise imbalance amounts to: a plot is moved up if and only if there is a stack above which, with the plot, is no wider than the stack it leaves |
| LayoutOrder.OrderKeptIff | src/interface_layout_selection.c:205-232 | Every state of the balancing run has plots of given line counts in order, from every ordered start on at most as many stacks as plots and whatever the columns, if and only if no plot can overtake another while the plots after it rest: a condition on sums of consecutive line counts alone |
| LayoutOrder.RunKeepsOrder | src/interface_layout_selection.c:205-232 | Where no plot can overtake another, every state of the balancing run over all its stacks is in order |
| LayoutOrder.EndsInOrder | src/interface_layout_selection.c:205-232 | Such a run also ends in order |
| LayoutOrder.OvertakingBreaksOrder | src/interface_layout_selection.c:205-232 | Where one can, there is an ordered start, on at most as many stacks as plots and all of them looked at, whose balancing run leaves the order |
| LayoutOrder.OvertakingLasts | src/interface_layout_selection.c:205-232 | When the stack moved to holds all the plots that are left, that run also ends out of order |
| LayoutOrder.NonIncreasingIsSafe | src/interface_layout_selection.c:205-232 | No plot can overtake another when the line counts do not increase |
| LayoutOrder.TwoPlotsAreSafe | src/interface_layout_selection.c:205-232 | Nor when there are at most two plots |
| LayoutOrder.ThreePlotsIff | src/interface_layout_selection.c:205-232 | Three plots are safe if and only if it is not the case that the first is narrower than the last and the last no wider than the second |
| LayoutHeader.GridFits | src/interface_layout_selection.c:240-245 | The header grid has a place for every device, uses its last row, and is no wider than the screen as soon as one header fits |
| LayoutHeader.GridIsSmallest | src/interface_layout_selection.c:240-244 | No grid of headers that fits the columns has fewer rows; its rows are all full when the devices can be spread evenly, and otherwise as wide as the screen allows |
| LayoutHeader.SplitUsesEveryRow | src/interface_layout_selection.c:247-265 | Header, plot and process rows always add up to the rows of the screen, and headers lose rows only when they cannot have all they need; the process list gets the rows it wants if they are there, all that the headers leave if those are two at least, and otherwise none; a hidden list hands its rows to the plots |
| LayoutHeader.MinRowsTakenByProcess | src/interface_layout_selection.c:15-17 | The process list wants a title row and a quarter of the rows, but no more than three per device and no fewer than five |
| LayoutHeader.GapsIff | src/interface_layout_selection.c:304-312 | A column is left between headers if and only if the row still fits with one per header, and one before the first if and only if there is a column for it then; both are set by the wrap-around when not even one header fits |
| LayoutHeader.RowFits | src/interface_layout_selection.c:304-330 | With the 32-bit wrap-around of cols_header_left written out, a full row of headers with its gaps stays within the columns |
| LayoutHeader.PlaceHeaders | src/interface_layout_selection.c:314-330 | The loop puts device i at row i / n and column i % n of the grid |
| LayoutHeader.NextHeader | src/interface_layout_selection.c:314-330 | The next header is in the next cell of its row, a gap further, or first in the next row when the row is full |
| LayoutHeader.HeadersDisjoint | src/interface_layout_selection.c:303-330 | No two device headers overlap, on any screen |
| LayoutHeader.HeadersOnScreenIff | src/interface_layout_selection.c:240-330 | All headers are on the screen if and only if it is wide enough for one header and tall enough for their rows |
| LayoutPlots.PlotWidth | src/interface_layout_selection.c:348-353 | Every plot is at least 5 + 10 times its lines wide, and its drawing width is a multiple of its lines |
| LayoutPlots.WidthPerLine | src/interface_layout_selection.c:341-353 | Every line of a stack gets the same whole number of columns: the room beside the boxes divided by the lines of the stack, rounded down |
| LayoutPlots.SharesWithinRoom | src/interface_layout_selection.c:348-353 | The floors of the shares of a stack never exceed the room left beside the boxes |
| LayoutPlots.PlotInside | src/interface_layout_selection.c:332-364 | Every plot lies within the columns and within the rows of the stacks |
| LayoutPlots.PlotsDisjoint | src/interface_layout_selection.c:332-364 | No two plots overlap |
| LayoutPlots.FirstOnStack | src/interface_layout_selection.c:332-364 | The first plot of a stack starts at the left edge |
| LayoutPlots.NextOnStack | src/interface_layout_selection.c:349-359 | The next plot of a stack starts in the same row where the one before ends, or fewer columns further than that one has lines |
| LayoutPlots.SlotsMatchPlotsIff | src/interface_layout_selection.c:339-364 | Position k is the rectangle of plot k, for all k, if and only if the stacks are non-decreasing along the plots |
| LayoutPlots.PlacePlots | src/interface_layout_selection.c:332-364 | The nested loops fill the positions stack by stack with the rectangles of the plots |
| LayoutScreen.InfoInPlot | src/interface_layout_selection.c:70-79 | The sum of the lines of the devices of a plot; the assert is the precondition |
| LayoutScreen.SpaceHeaders | src/interface_layout_selection.c:272-280 | The headers get a separating row per grid row if and only if the plots keep seven rows for each stack without them, and then exactly those rows move |
| LayoutScreen.ColsUsedByStack | src/interface_layout_selection.c:81-89 | The columns of all plots on a stack |
| LayoutScreen.AddStacks | src/interface_layout_selection.c:282-287 | As many stacks as possible with eleven rows each, never more than plots |
| LayoutScreen.ArrangePlots | src/interface_layout_selection.c:263-301 | From the first split of the rows to the final stack of every plot; every call meets the assert of info_in_plot |
| LayoutMain.ComputeSizes | src/interface_layout_selection.c:233-382 | The whole layout. Headers of the given size row by row, plots and process window are pairwise disjoint and on the screen; the rows are all accounted for; every plot has at least seven rows. The process window starts at the first row under the last stack; without plots it takes all their rows but one besides its own; without a column to show it is empty |
| LayoutMain.StackHeightIsLargest | src/interface_layout_selection.c:334-336 | No taller stacks fit the rows, or they have the 23 rows that are the cap while the process list is shown |
| LayoutTheorems.NoLineLost | src/interface_layout_selection.c:106-203 | For the finished layout: every line of every device is drawn on some plot, or there is no plot at all, and then for lack of rows or because the last charts tried fit in no order-preserving way |
| LayoutTheorems.PlotLinesBounded | src/interface_layout_selection.c:158-170 | For the finished layout: between one and four lines per plot when no device has more |
| LayoutTheorems.SlotsInPlotOrderIff | src/interface_layout_selection.c:339-364 | For the finished layout: slots are in plot order if and only if balancing left the stacks non-decreasing |
| LayoutTheorems.SafeLinesKeepOrder | src/interface_layout_selection.c:205-232 | On every screen whose plots cannot overtake each other, slots are in plot order |
| LayoutTheorems.FittingScreenKeepsOrder | src/interface_layout_selection.c:106-232 | From the screen alone: if one chart per device fits and no chart can overtake another, slots are in plot order |
| LayoutTheorems.DescendingDevicesKeepOrder | src/interface_layout_selection.c:106-232 | In particular when one chart per device fits and no device draws more lines than a drawing one before it |
| LayoutTheorems.TwoDevicesKeepOrder | src/interface_layout_selection.c:106-232 | And on every screen when at most two devices draw anything |
| LayoutTheorems.NonIncreasingLinesKeepOrder | src/interface_layout_selection.c:205-232 | Plots whose line counts do not increase, merges included, keep their order on every screen |
| LayoutTheorems.DrawingWidthDivides | src/interface.c:1751-1775 | A plot in a slot sized for it meets both asserts of populate_plot_data_from_ring_buffer |
| LayoutTheorems.DrawsCleanlyIff | src/interface.c:1751-1775 | Exactly when a plot meets them: its lines divide the drawing width of the plot its slot was sized for |
| LayoutTheorems.FittingScreenDrawsCleanly | src/interface.c:1751-1775 | From the screen alone: if one chart per device fits and no chart can overtake another, every plot meets both asserts |
| LayoutTheorems.TwoDevicesDrawCleanly | src/interface.c:1751-1775 | And on every screen when at most two devices draw anything |
| LayoutTheorems.DeviceListsFit | src/interface.c:328-347 | When every device draws something, the four-entry device list of every plot suffices |
| LayoutTheorems.FittingScreenDeviceLists | src/interface.c:328-347 | From the screen alone: if one chart per device fits, the list of plot p holds one device that draws, and device p too when that draws nothing, so at most two of the four entries are used |
| LayoutExamples.SkewedRun | src/interface_layout_selection.c:213-231 | Line counts 1, 4, 4 on 100 columns and two stacks end on stacks 1, 0, 1: balancing does not always keep the order |
| LayoutExamples.OvertakingNeedsRest | src/interface_layout_selection.c:205-232 | With line counts 3, 4, 2, 1, 1 a plot has the room to overtake, but never while the last plots rest, so the order is kept from every start |
| LayoutExamples.OrderCanBeRestored | src/interface_layout_selection.c:205-232 | Line counts 1, 1, 2, 3, 1 on 100 columns and three stacks: the run leaves the order and ends in order, so what holds of all states is not the same as what holds of the last one |
| LayoutExamples.SkewedScreenBreaksDivision | src/interface.c:1751-1775 | On a concrete screen of 40 rows and 100 columns every run of the layout leaves a plot of four lines in a slot of drawing width 18 |
| LayoutExamples.SearchEnds | src/interface_layout_selection.c:126-176 | The search is determined: a history of best merges that ends with charts that fit is the one every run goes through |
| LayoutExamples.EqualDevicesOutOfOrder | src/interface_layout_selection.c:126-232 | Line counts that do not increase are not enough once charts are merged, not even equal ones: 25 devices of the default two lines on 41 rows and 295 columns end with the first plot on the second stack, the next six on the first |
| LayoutExamples.DescendingDevicesBreakDivision | src/interface.c:1751-1775 | With three lines on the first device and two on the 24 others, on 305 columns, plot 0 is drawn in a slot of drawing width 44, and the divisibility assert fails |
| PlotData.DeviceListFitsIff | src/interface.c:328-347 | The four-entry device list of a plot suffices except in exactly one case: four devices of one line each share the slot of a device that draws nothing |
| LayoutExamples.DeviceListCanOverflow | src/interface.c:328-347 | On a concrete screen of 23 rows and 49 columns every run of the layout puts five devices on plot 0 |
| PlotData.CollectDevices | src/interface.c:328-347 | The loop collects exactly the devices mapped to the plot, in order, and writes past the array if and only if they are more than it holds |
| PlotData.DevicesOfIs | src/interface.c:328-347 | Those devices are the ones mapped to the plot, each once, in increasing order |
| PlotData.DivisorIsLines | src/interface.c:1751-1775 | The divisor summed over those devices is the number of lines of the plot |
| PlotData.PopulatePlotData | src/interface.c:1751-1830 | Every cell of the buffer is written in bounds, in both directions: column c shows history c, newest value first or last, zeros beyond it |
| PlotData.BufferCell | src/interface.c:1751-1830 | Where every value ends up: ring r of the i-th device has the column after those of the devices before it and its own earlier rings; the newest value is in the first or the last row by direction, the older ones follow, then zeros |
| HashBits.MaskIsMod | include/uthash.h:431-434 | Masking with 2^k - 1 is the remainder modulo 2^k |
| HashBits.DoubledBucket | include/uthash.h:832-882 | Doubling the bucket count sends a hash from bucket i to i or i + n |
| HashBits.CeilByShift | include/uthash.h:846-848 | The shift-and-mask expression is the quotient rounded up |
| HashTable.FindInBucket | include/uthash.h:744-763 | The walk over a chain returns an item with that hash and key, or nothing when there is none |
| HashTable.Table.Find | include/uthash.h:154-174 | HASH_FIND returns exactly what the finite map of the items holds, for every deterministic hash |
| HashTable.Table.AddToBucket | include/uthash.h:766-785 | The item becomes the head of its chain; every other chain and every back-link is as before |
| HashTable.Table.DelInBucket | include/uthash.h:788-801 | The item leaves its chain; every other chain and every back-link is as before |
| HashTable.MoveAllChains | include/uthash.h:848-869 | Redistribution: the new chains hold exactly the old items, each in the bucket of its hash; expand_mult and nonideal_items are exact |
| HashTable.Table.ExpandBuckets | include/uthash.h:832-882 | The bucket count doubles and stays 2^log2_num_buckets, the ideal chain length is the ceiling of items per bucket, nonideal_items the total excess over it, and two ineffective expansions in a row set noexpand |
| HashTable.Table.Add | include/uthash.h:397-416 | After adding a fresh key the table is valid, the list is the old one with the item at its end, the map has the new entry. The buckets double if and only if noexpand is clear and the chain that got the item has reached ten times its expand_mult plus one; otherwise that bucket counts one more and nothing else of the buckets or the counters changes |
| HashTable.Table.ExpandIfFull | include/uthash.h:776-778 | The expansion test: doubled buckets with exact counters, or everything as it was |
| HashTable.ExpandMultIs | include/uthash.h:860-865 | The multiplier of a redistributed chain is its length over the ideal length, rounded up, and one less exactly where the chain is one item too long for that |
| HashTable.Table.Delete | include/uthash.h:451-478 | Exactly the item leaves the list and the map; head and tail follow; its bucket counts one less and keeps its multiplier, all other buckets and the counters of the expansion stay; every integrity condition still holds |
| HashRuns.CountsAddUp | include/uthash.h:517-564 | In every valid table the bucket counts add up to num_items, which is the length of the application list |
| HashRuns.NonidealRest | include/uthash.h:848-866 | Every item is within the ideal length of its chain or counted in nonideal_items |
| HashRuns.ExpansionSplitsBucket | include/uthash.h:848-869 | Every item of old bucket i lands in i or i + n |
| HashRuns.Perform | include/uthash.h:397-478 | One add, delete or find answers with the item the map holds for the key, leaves the map the operation makes of it, other bindings included, and changes the buckets as the rows above say, or not at all |
| HashRuns.Run | include/uthash.h:154-478 | Every run of adds, deletes and finds on a new table returns, find by find, the very item a finite map would, and ends with exactly that map; its trace of buckets, step by step, is that of the operations |
| HashRuns.RunOn | include/uthash.h:154-882 | The same from any valid table |
| HashRuns.AddKeepsChainShort | include/uthash.h:767-785 | In every step of a run that adds an item and leaves noexpand clear, the chain it went to is shorter than its bucket allows, or the buckets have just doubled |
| HashRuns.InitialChainsShort | include/uthash.h:767-785 | In every run on a new table, as long as it has its 32 buckets none of its chains has ten items |
| HashRuns.NoexpandIff | include/uthash.h:872-877 | In every run on a new table, noexpand is set if and only if the last two expansions, one after the other, left more than half the items beyond the ideal chain length |
| HashRuns.NoexpandStays | include/uthash.h:776-778 | Once noexpand is set and as long as items are left, the number of buckets never changes again |
| HashRuns.Drain | include/uthash.h:1059-1061 | Iterating with deletion visits every item once, in application order, and leaves the table empty |
| HashSort.SortPermutes | include/uthash.h:889-971 | Sorting with any comparator only reorders the items |
| HashSort.MergeStable | include/uthash.h:916-956 | Merging two sorted runs keeps equivalent items in order, those of the left run first |
| HashSort.PassDoublesRuns | include/uthash.h:899-958 | A pass over sorted runs of length k leaves sorted runs of length 2k |
| HashSort.SortSortsStably | include/uthash.h:889-971 | For every total preorder the result is sorted, and the items equivalent to any one keep their order |
| HashSort.SortCorrect | include/uthash.h:889-971 | The same for the whole sort: sorted, stable, a permutation |
| HashSortInPlace.MergeRuns | include/uthash.h:904-957 | The pointer loop relinks two runs into their merge behind what has been emitted, back-links included |
| HashSortInPlace.SortPass | include/uthash.h:899-961 | One round turns the list into the merged pairs of runs, linked both ways; it reports at most one merge exactly when the list is no longer than two runs |
| HashSortInPlace.SortList | include/uthash.h:889-971 | The rounds with doubling run length end, and leave the list as its stable sort, linked both ways, with head and tail |
| HashSortInPlace.SortTable | include/uthash.h:889-971 | On a table: every integrity condition still holds, the application list is the sort of the old one, the map is unchanged |
| Ini.PiecesCoverText | src/ini.c:252-275 | What the string reader hands out piece by piece is the text; a piece ends after a newline, at the buffer size, or at the end of the text, and nowhere else |
| Ini.FindStopsFirst | src/ini.c:65-78 | The scan stops at the first of the given characters or at the first ; after whitespace, and passes nothing that would stop it |
| Ini.RStripFacts | src/ini.c:48-53 | What is stripped is whitespace, what is left does not end in it |
| Ini.LSkipFacts | src/ini.c:56-60 | What is skipped is whitespace, what is left does not begin with it |
| Ini.ErrorIsFirstFailure | src/ini.c:128-229 | The return value is the number of the first line that fails, or 0 when none does; which lines fail is said on their characters |
| Ini.StepFails | src/ini.c:150-217 | A line fails if and only if, after byte order mark and surrounding whitespace, it is neither blank nor a comment and is a continuation whose call is refused, a [ line without a ] before an inline comment, or any other line without a separator before one or whose call is refused |
| Ini.StepOnChars | src/ini.c:150-217 | What one line does, on its characters: which text is the section, the name and the value, and which call is made |
| IniParser.RstripInPlace | src/ini.c:48-53 | Stripping in the line buffer changes only the stripped characters |
| IniParser.LskipFrom | src/ini.c:56-60 | The pointer past the leading whitespace |
| IniParser.FindCharsOrComment | src/ini.c:65-78 | The pointer loop finds the place of the string function |
| IniParser.Strncpy0 | src/ini.c:82-89 | As much of the string as the buffer holds, ended by a NUL |
| IniParser.StringContext.Read | src/ini.c:252-275 | The reader fills the buffer with the next piece and advances by it; it fails exactly at the end of the text or with no room |
| IniParser.Parser.TakeSection | src/ini.c:172-186 | A section line in the buffer updates section, previous name and error as specified |
| IniParser.Parser.TakePair | src/ini.c:187-217 | A pair line in the buffer calls the handler with the trimmed name and value, or records the line when there is no separator, as specified |
| IniParser.Parser.TakeLine | src/ini.c:150-217 | One turn of the loop on the buffers does what one step on strings does: byte order mark, comments, continuation lines, sections, pairs, errors |
| IniParser.Parser.ParseStream | src/ini.c:92-230 | The whole parse over character buffers refines the fold of that step over the pieces of the text, and returns the number of the first line that fails, or 0 |
| IniPrint.ParsingUndoesPrinting | src/ini.c:92-230 | For every list of comments, blank lines, sections and pairs that is clean and fits the line and name limits, parsing the printed text makes exactly the printed calls, in order |
| IniPrint.PairReadsBackIff | src/ini.c:187-206 | In every state between lines, on a handler that accepts all calls, a printed pair is handed over unchanged if and only if name and value are trimmed and free of comments, the name free of separators and of the characters that start other lines, and non-empty unless the line comes right after a header; and no byte order mark is lost |
| IniPrint.StepsStayBetween | src/ini.c:150-217 | Those states are all the parser reaches: a name kept for continuation lines never starts with a space |
| Options.DefaultSort | src/interface_options.c:489-513 | The column chosen is displayed, or it is "none" and no column is displayed |
| Options.DefaultSortPrefers | src/interface_options.c:489-513 | It is the first displayed column in the order of preference |
| Options.IntTextScans | src/interface_options.c:219-223 | What %d prints, %d scans back, for every integer |
| Options.ScanIntReads | src/interface_options.c:219-223 | What %d scans of any text: whitespace, a sign, then the digits up to the first character that is none; nothing without a digit |
| OptionsStore.Store.Handle | src/interface_options.c:207-351 | The handler, loops over the name tables included, does to the options what the specification of each section says |
| OptionsStore.Store.HandleChart | src/interface_options.c:257-275 | The two nested loops set the colour of the named line to the named colour, or change nothing |
| OptionsStore.Store.TakeSort | src/interface_options.c:294-300 | The loop over the sort names stops before "none" |
| OptionsStore.Store.TakeDraw | src/interface_options.c:332-341 | Charts are added one by one with the limit of four, and the marker with them |
| OptionsStore.Store.Save | src/interface_options.c:392-465 | The file written is the printed form of the options, section by section and device by device |
| OptionsStore.Store.Load | src/interface_options.c:353-364 | Loading is parsing with the handler and replacing a sort column that is not displayed |
| OptionsStore.Store.FinishStartUp | src/nvtop.c:275-289 | Start-up strips the markers, or falls back to the defaults where the file chose nothing |
| OptionsTheorems.AddKeepsLimit | include/nvtop/interface_options.h:70-75 | A chart is added below the limit and refused at it; no sequence of choices exceeds four |
| OptionsRoundTrip.DrawStep | src/interface_options.c:331-341 | Reading the next member of a set of at most four charts is never refused by the limit, marker included |
| OptionsRoundTrip.DeviceReads | src/interface_options.c:320-349 | One device section restores the device with that bus address, whatever was selected before |
| OptionsRoundTrip.MissingDeviceReads | src/interface_options.c:320-349 | The section of a device that is no longer there changes no device |
| OptionsRoundTrip.SavedFileReads | src/interface_options.c:207-465 | The calls made by a saved file restore every option into fresh ones, markers included, each device by its bus address |
| OptionsTheorems.SavedFileClean | src/interface_options.c:392-465 | A saved file is clean and its lines fit the reader, so the parser sees what was printed |
| OptionsTheorems.SaveThenLoad | src/interface_options.c:207-465 | Save, load and start-up, with whatever devices there are then, in whatever order: no error; every option is restored, up to the printed form of the timer and an undisplayed sort column; every device that was saved is as it was saved, and one that was not has the default charts |
| OptionsTheorems.SaveThenLoadKeepsDevices | src/interface_options.c:207-465 | With the same devices, in any order, the settings of every device come back and no others do |
| OptionsTheorems.SaveThenLoadIsIdentityIff | src/interface_options.c:207-465 | That is the identity if and only if the timer survives its printed form, the sort column is displayed, or is "none" with no column displayed, and the devices come in the order they were saved in |
| OptionsTheorems.SavedSortIff | src/interface_options.c:294-300 | Which sort columns survive a save and a load |
| OptionsTheorems.OtherLinesIgnored | src/interface_options.c:207-351 | Unknown sections, names and values, and settings of a device whose bus address has not been found, change nothing |
| OptionsTheorems.LastMatchIs | src/interface_options.c:257-300 | The loops over the name tables find the last entry equal to the value, or none |
| CircularList.ListDel | include/list.h:85-98 | The ring of the other elements, linked both ways |
| CircularList.ListAddTail | include/list.h:75-83 | The ring with the element at its end |
| CircularList.ListAdd | include/list.h:65-73 | The ring with the element at its front |
| MonitoredSet.ListMoveTail | include/list.h:116-122 | Between two disjoint rings: one loses the element, the other has it at its end, and they stay disjoint |
| MonitoredSet.RotateOut | src/interface_options.c:74-77 | The memmove: the option leaves its place and comes last |
| MonitoredSet.RotateIn | src/interface_options.c:87-91 | The shift loop: the option moves to the given place, those between move one back |
| MonitoredSet.DropUnmonitored | src/interface_options.c:68-82 | The first loop, with safe iteration over a list that loses elements: array and lists stay in step |
| MonitoredSet.KeepMonitored | src/interface_options.c:82-96 | The second loop: array and lists stay in step |
| MonitoredSet.CheckAndFix | src/interface_options.c:65-107 | Afterwards options and lists are in step, are the specified halves, the number returned is that of the monitored, and every callback of a listed device has been switched |
| MonitoredSet.FixedSplitsByFlag | src/interface_options.c:65-107 | The monitored devices are exactly those without the flag, nothing is lost, at least one is monitored when there is any, and a flag is taken off only when all carry it |
| MonitoredSet.FixedOrder | src/interface_options.c:65-107 | The order: monitored devices in the order of the array, the others likewise with newcomers last; when all carry the flag it is the first of the others, or else the first device, that loses it |
| MonitoredSet.FixedTwice | src/interface_options.c:65-107 | A second call changes nothing |
| MonitoredSet.ActiveExactlyMonitored | src/interface_options.c:104-105 | Callbacks are active for monitored devices, inactive for the others, untouched elsewhere |
| Callbacks.CallbackTable.Register | src/extract_processinfo_fdinfo.c:65-78 | The table has the new active entry at its end, grown by four when full |
| Callbacks.CallbackTable.EnableDisable | src/extract_processinfo_fdinfo.c:80-86 | Exactly the entries of the device are switched |
| PidCache.Cache.Sight | src/extract_gpuinfo.c:204-224 | A known pid keeps its entry object and moves to the new generation, an unknown one gets a fresh entry named by /proc; nothing is freed |
| PidCache.Cache.PopulateRow | src/extract_gpuinfo.c:204-263 | The row gets the strings of the entry; when /proc answers, its processor use is the rate between the two measurements, or 0 without an earlier one, and its memory is as /proc gave it; device memory is kept within the total of the device. The entry keeps total and time of this measurement; no other entry changes |
| PidCache.MemoryPercentNearest | src/extract_gpuinfo.c:251-263 | The percentage is the one nearest to the share of the memory; of a device without memory it is 100 |
| PidCache.Cache.PopulateDevice | src/extract_gpuinfo.c:202-265 | After a device its rows refer to entries of their pids in the new generation, entries known before are kept, and every row is told its use since the last sighting of its process, earlier rows of the device included |
| PidCache.Cache.CleanOldCache | src/extract_gpuinfo.c:267-277 | Exactly what was not seen is freed, each part once, and the generations swap |
| PidCache.Cache.Refresh | src/extract_gpuinfo.c:279-294 | After a refresh the cache holds exactly the pids seen, survivors keep their entry object, the dropped ones are freed, every string pointer is that of a live entry, every row of every device is told its use since the last sighting of its process, and exactly the last sightings of this refresh are remembered |
| PidCache.RowInRefresh | src/extract_gpuinfo.c:279-294 | Row by row in the order of the whole refresh: what a row is compared with is what is remembered of all sightings before it |
| PidCache.AfterIsLast | src/extract_gpuinfo.c:236-247 | Of several sightings of a process the last one counts |
| PidCache.PriorIsLastSighting | src/extract_gpuinfo.c:236-294 | Over any number of refreshes a row is compared with the last sighting of its process before it in the refresh, else with the last one of the refresh before, else with nothing |
| PidCache.UseBetweenSightings | src/extract_gpuinfo.c:236-247 | Two sightings with /proc answering both times: the second row is told the rate of what was consumed between the two over the time between the two |
| PidCache.Cache.ClearCache | src/extract_gpuinfo.c:307-317 | Everything ever made has been freed |
| DrmCache.Device.FillDeltas | src/extract_gpuinfo_amdgpu.c:930-967 | A usage is told if and only if its engine times can be compared: valid, not lowering, and grown by no more than the time elapsed; it is the nearest percentage, at most 100 an engine; nothing else of the row changes |
| DrmCache.DeltasTell | src/extract_gpuinfo_amdgpu.c:930-967 | The same of the specification function, for every row and measurement |
| DrmCache.SweptRowTells | src/extract_gpuinfo_amdgpu.c:926-1008 | Over a sweep: a row is given usages only at the first sighting of a client of the preceding sweep, and then exactly those that can be told since |
| DrmCache.Device.Parse | src/extract_gpuinfo_amdgpu.c:926-1008 | One client: the row compares with the previous generation only, the first measurement of a sweep is kept, and only an entry allocated by this call is ever freed |
| DrmCache.Device.SwapForNextUpdate | src/extract_gpuinfo_amdgpu.c:1014-1025 | Every entry left in the previous generation is freed, once, and the generations swap |
| DrmCache.RunTables | src/extract_gpuinfo_amdgpu.c:926-1008 | In the middle of a sweep: the previous measurements of the clients not yet seen, and the first ones of those seen |
| DrmCache.RowOfSweep | src/extract_gpuinfo_amdgpu.c:926-1008 | A usage is told only at a client's first sighting in a sweep, and from the immediately preceding sweep |
| DrmCache.FirstIsEarliest | src/extract_gpuinfo_amdgpu.c:988-1003 | What is kept of a client is its earliest measurement in the sweep |
| DrmCache.FirstKnows | src/extract_gpuinfo_amdgpu.c:988-1003 | The clients kept are exactly those that occur in the sweep |
| DrmCache.Device.Sweep | src/extract_gpuinfo_amdgpu.c:926-1025 | A whole sweep and swap: the previous generation becomes exactly the clients parsed, with their first measurements, and every row is as specified |
| DrmCache.TwoSweepsTell | src/extract_gpuinfo_amdgpu.c:926-1008 | Over two sweeps: a usage compares the time of an engine with the time of the same engine at the first sighting in the preceding sweep, over the time between the two sightings |
| FdinfoLog.FdLogDistinct | src/extract_processinfo_fdinfo.c:167-182 | No two contributions of a process come from the same open file, as kcmp tells it |
| FdinfoLog.SeenCovers | src/extract_processinfo_fdinfo.c:167-182 | Every device descriptor is taken for an open file of its own, or is the same open file as one that was |
| FdinfoLog.DispatchIff | src/extract_processinfo_fdinfo.c:193-205 | Nobody gets a file if and only if every active callback declines it; otherwise it goes to the first that does not, with the row that one filled in |
| FdinfoLog.ClearedIsBlank | src/extract_processinfo_fdinfo.c:196-201 | What callbacks that declined wrote does not count: the next one is handed a row without a valid value and without a type |
| FdinfoLog.EachCountsOnce | src/extract_processinfo_fdinfo.c:153-209 | Of the descriptors of a process exactly those contribute that are of an open file of their own, open, and are accepted by some active callback, each once, in order |
| FdinfoLog.SweepCountsEach | src/extract_processinfo_fdinfo.c:117-209 | The same for every process directory of a sweep, given distinct pids: nothing is lost and nothing else is counted |
| FdinfoLog.LogFromDirs | src/extract_processinfo_fdinfo.c:117-150 | Nothing comes from anything but a process directory that can be read and has a pid |
| FdinfoLog.SweepGrouped | src/extract_processinfo_fdinfo.c:117-287 | With distinct pids the contributions of a process stand together |
| FdinfoLog.OneRowPerProcess | src/extract_processinfo_fdinfo.c:214-239 | A device has one row for every process that contributed to it and no other row |
| FdinfoLog.RowsHoldSums | src/extract_processinfo_fdinfo.c:241-286 | Every value of a row is the sum of what its process contributed, valid exactly when some contribution was |
| FdinfoLog.SumIsTotal | src/extract_processinfo_fdinfo.c:241-286 | That sum is the plain total of the valid values, and valid if and only if there is one |
| FdinfoLog.RowTypes | src/extract_processinfo_fdinfo.c:241 | A row is graphical, or compute, if and only if one of the contributions of its process is |
| FdinfoLog.SweepConserves | src/extract_processinfo_fdinfo.c:101-300 | For a whole sweep: one row per process that contributed, each of the ten values the plain total of its valid contributions, the types those of its contributions, no open file twice |
| FdinfoSweep.Gpu.RowFor | src/extract_processinfo_fdinfo.c:214-239 | The backward goto included: the row of the process is the last one, or a new one, and the count never exceeds the array |
| FdinfoSweep.Gpu.AddContribution | src/extract_processinfo_fdinfo.c:210-286 | The growing table with one more contribution |
| FdinfoSweep.SeenFds.Push | src/extract_processinfo_fdinfo.c:174-182 | The buffer of seen descriptors grows by eight and keeps its contents |
| FdinfoSweep.SeenFds.IsUnseen | src/extract_processinfo_fdinfo.c:167-172 | The descriptor is new if and only if kcmp tells it apart from every one seen |
| FdinfoSweep.Offer | src/extract_processinfo_fdinfo.c:193-209 | The file goes to the first active callback that accepts it, with the row that one filled in, and to nobody if and only if all decline |
| FdinfoSweep.TakeFd | src/extract_processinfo_fdinfo.c:153-287 | One descriptor: skipped, or pushed and contributed to one device; all other tables are unchanged |
| FdinfoSweep.Sweep | src/extract_processinfo_fdinfo.c:101-300 | The nested loops leave every device's table as the contributions of the sweep make it; without an active callback nothing changes |
| Watermark.Device.TakeSample | src/extract_gpuinfo_nvidia.c:771-795 | One sample updates at most the first row of its process, and is compared with the watermark the call began with |
| Watermark.Device.GetProcessUtilization | src/extract_gpuinfo_nvidia.c:754-808 | The call: rows, watermark, and the early return when the driver refuses |
| Watermark.NewestIsMaximum | src/extract_gpuinfo_nvidia.c:770-796 | The new watermark is the maximum of the old one and the accepted timestamps |
| Watermark.AcceptedIff | src/extract_gpuinfo_nvidia.c:772-781 | A sample is accepted if and only if its three rates are at most 100, it is newer than the watermark, and there is a row for its process |
| Watermark.UpdatesIff | src/extract_gpuinfo_nvidia.c:772-795 | It updates the first row of its process |
| Watermark.RowAfterCall | src/extract_gpuinfo_nvidia.c:770-807 | After a call that proceeds the three usages of a row are those of the last sample that updates it, field by field, or as they were, zero where they were not known |
| Watermark.RowIsLastSample | src/extract_gpuinfo_nvidia.c:772-795 | A row ends up with the last sample that updates it |
| Watermark.RowUntouched | src/extract_gpuinfo_nvidia.c:772-795 | A row that no sample updates stays as it was |
| Watermark.RowsStaySane | src/extract_gpuinfo_nvidia.c:800-807 | After a call that proceeds every usage is valid and at most 100 |
| Watermark.WatermarkNeverDecreases | src/extract_gpuinfo_nvidia.c:754-808 | Over any sequence of calls the watermark never decreases |
| Watermark.NoReplay | src/extract_gpuinfo_nvidia.c:754-808 | No sample is accepted in two calls: what a later call accepts is strictly newer than what an earlier one did |
| Watermark.WatermarkIsNewestAccepted | src/extract_gpuinfo_nvidia.c:754-808 | After any number of calls the watermark is the start or the newest accepted timestamp |
| DynamicInfo.RateStep | src/extract_gpuinfo.c:146-166 | Clamping the running sum at every step is clamping the sum at the end |
| DynamicInfo.Device.SumProcesses | src/extract_gpuinfo.c:143-175 | The loop computes the four totals at once |
| DynamicInfo.Device.FixFromProcesses | src/extract_gpuinfo.c:123-199 | Rates and memory of a device from its processes, with the reported rate kept when it is larger |
| DynamicInfo.SumOrderFree | src/extract_gpuinfo.c:143-175 | The totals do not depend on the order of the processes |
| DynamicInfo.TotalsOrderFree | src/extract_gpuinfo.c:123-196 | Nor does anything derived from them |
| DynamicInfo.FixedTotals | src/extract_gpuinfo.c:176-195 | Exactly when each total is known and what it is: the device rate is the larger of the reported one and the sum stopped at 100; a codec rate the reported one or else that sum; used memory is made up only without a reported use and within a reported total, and then the free amount is the rest |

## Left out

- LayoutMain.ComputeSizes: screens narrower than 2^32 columns, and sums of rows and columns that fit their integer type; the one wrap-around the code relies on, in the header gaps, is modelled.
- LayoutOrder.OrderKeptIff: exact for the states of the run, over all ordered starts and numbers of stacks, in terms of the plots. The layout never has more stacks than plots. For the last state of the run the condition is one-way: it is enough for an ordered end, but the run of 1, 1, 2, 3, 1 leaves the order and ends in it. The packing pass makes only some of the ordered starts, those in which every stack is filled before the next, so for a whole screen the condition is one-way too: it is enough (`LayoutTheorems.SafeLinesKeepOrder`), and `LayoutTheorems.SlotsInPlotOrderIff` is the exact statement in terms of the stacks the run ends with.
- LayoutTheorems.FittingScreenKeepsOrder: a condition on the rows, columns and devices of a screen on which no chart is merged. With merges there are the examples above, but no exact condition on the devices.
- PlotData.PopulatePlotData: legends and the conversion to double; the rings are sequences of values, oldest first.
- HashTable.Table.Add: keys are values compared for equality and items are fresh; key length, the Bloom filter, replacing adds and sorted adds are not modelled, nor is running out of memory. The hash is an arbitrary function of the key.
- HashTable.Table.ExpandBuckets: 32-bit wrap-around of the counters.
- HashSortInPlace.SortTable: the comparator is a function of the two items that does not look at their links.
- IniParser.Parser.ParseStream: the text comes from memory and holds no NUL; reading from a FILE, whose lines may hold NULs, is not modelled. The handler is a function from the user's state to its new state.
- Options.ScanInt: numbers outside the range of int.
- OptionsTheorems.SaveThenLoad: the timer is printed and scanned by two functions given from outside, standing for %e and %le; the options the command line overrides afterwards, such as hiding the process list, and creating the file and its directory are left out. The contents of the saved file are compared as lines, the file being opened and written without errors.
- PidCache.Cache.Refresh: the rows of the devices and the answers of /proc are inputs; processor rates are an arbitrary function of the two measurements, and the percentage of memory is rounded exactly rather than in double precision. Devices that are not refreshed may keep pointers to freed strings.
- DrmCache.Device.Parse: the lines of the file are already parsed into a row; a clock that runs backwards between two readings of a client is excluded, and so are two readings at the same clock time when some engine time can be compared, where the code divides by zero. Of an engine time that was not valid only its absence is kept.
- FdinfoSweep.Sweep: the listing of /proc is an input, and so is kcmp, any function of a process and two descriptors; callbacks are functions of the file and the row, so what a vendor's callback does to its own cache is not visible here (`DrmCache` models it for amdgpu). Sums do not wrap.
- Watermark.Device.GetProcessUtilization: the driver's answer is an input.
- DynamicInfo.Device.FixFromProcesses: the effective load, computed in floating point at the end of the function, and wrap-around of sums.
- MonitoredSet.CheckAndFix: the list head embedded in a device stands for the device.
- Vendor code beyond that, drawing, key handling, the comparators of the process list (several answer -1 on equal elements and so are no orders), processinfo_drop_callback, which nothing calls, HASH_SELECT, and the hash mixing functions.
