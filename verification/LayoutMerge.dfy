/** Merging charts: which two neighbouring charts to merge, the merge itself, and what every merge keeps. */
module LayoutMerge {
  import opened Sums

  const MAX_CHARTS: nat := 64
  const UINT_MAX: nat := 0xFFFF_FFFF

  /** Two non-empty plots with only empty ones between them. */
  predicate Adjacent(info: seq<nat>, lo: nat, hi: nat) {
    lo < hi < |info| && info[lo] > 0 && info[hi] > 0 && forall q :: lo < q < hi ==> info[q] == 0
  }

  predicate Mergeable(info: seq<nat>, maxMergeSize: nat, lo: nat, hi: nat) {
    Adjacent(info, lo, hi) && info[lo] + info[hi] <= maxMergeSize
  }

  /** Smallest merge; among equal sizes, the one nearest to the end of the list. */
  ghost predicate BestMerge(info: seq<nat>, maxMergeSize: nat, lo: nat, hi: nat) {
    && Mergeable(info, maxMergeSize, lo, hi)
    && forall l: nat, h: nat :: Mergeable(info, maxMergeSize, l, h) ==>
         || info[lo] + info[hi] < info[l] + info[h]
         || (info[lo] + info[hi] == info[l] + info[h] && h <= hi)
  }

  /** The choice is determined: no two different pairs are both best. */
  lemma BestMergeUnique(info: seq<nat>, maxMergeSize: nat, lo: nat, hi: nat, lo2: nat, hi2: nat)
    requires BestMerge(info, maxMergeSize, lo, hi) && BestMerge(info, maxMergeSize, lo2, hi2)
    ensures lo == lo2 && hi == hi2
  {
  }

  /** who_to_merge: both loops run downwards and stop when the unsigned index wraps below zero. */
  method WhoToMerge(maxMergeSize: nat, info: seq<nat>) returns (found: bool, lo: nat, hi: nat)
    requires maxMergeSize < UINT_MAX
    ensures found <==> exists l: nat, h: nat :: Mergeable(info, maxMergeSize, l, h)
    ensures found ==> BestMerge(info, maxMergeSize, lo, hi)
  {
    var smallest := UINT_MAX;
    lo, hi := 0, 0;
    var idx := |info|;
    while idx > 0
      invariant 0 <= idx <= |info|
      invariant smallest == UINT_MAX || smallest <= maxMergeSize
      invariant smallest != UINT_MAX ==>
                  Mergeable(info, maxMergeSize, lo, hi) && idx <= hi && info[lo] + info[hi] == smallest
      invariant forall l: nat, h: nat :: idx <= h && Mergeable(info, maxMergeSize, l, h) ==>
                  smallest < info[l] + info[h] || (smallest == info[l] + info[h] && h <= hi)
    {
      idx := idx - 1;
      if info[idx] == 0 { continue; }
      var mergeWith := idx;
      var j := idx;
      while j > 0
        invariant 0 <= j <= idx && mergeWith == idx
        invariant forall q :: j <= q < idx ==> info[q] == 0
      {
        j := j - 1;
        if info[j] > 0 {
          mergeWith := j;
          break;
        }
      }
      assert mergeWith < idx ==> Adjacent(info, mergeWith, idx);
      assert forall l: nat :: Adjacent(info, l, idx) ==> l == mergeWith;
      var merged := info[idx] + info[mergeWith];
      if mergeWith < idx && merged <= maxMergeSize && merged < smallest {
        smallest, lo, hi := merged, mergeWith, idx;
      }
    }
    found := smallest != UINT_MAX;
  }

  function Merged(info: seq<nat>, lo: nat, hi: nat): seq<nat>
    requires lo < |info| && hi < |info|
  {
    info[lo := info[lo] + info[hi]][hi := 0]
  }

  /**
   * What every merge keeps. Plot p shows exactly the lines of the devices mapped to it; a non-empty plot is the
   * plot of its own device; a device with something to draw is on the last non-empty plot at or before it; a
   * device with nothing to draw stays alone on its own, empty, plot.
   */
  ghost predicate Grouped(draws: seq<nat>, info: seq<nat>, plotOf: seq<nat>) {
    && |info| == |draws| == |plotOf|
    && (forall p :: 0 <= p < |info| ==> info[p] == SumIf(draws, plotOf, p, |draws|))
    && (forall p :: 0 <= p < |info| && info[p] > 0 ==> plotOf[p] == p)
    && (forall d :: 0 <= d < |draws| && draws[d] == 0 ==> info[d] == 0 && plotOf[d] == d)
    && (forall d :: 0 <= d < |draws| && draws[d] > 0 ==> LastPlotAt(info, d, plotOf[d]))
  }

  ghost predicate LastPlotAt(info: seq<nat>, d: nat, p: nat) {
    p <= d < |info| && info[p] > 0 && forall q :: p < q <= d ==> info[q] == 0
  }

  lemma {:induction false} SumIfSelf(draws: seq<nat>, plotOf: seq<nat>, p: nat, k: nat)
    requires k <= |draws| == |plotOf| && forall d :: 0 <= d < |draws| ==> plotOf[d] == d
    ensures SumIf(draws, plotOf, p, k) == if p < k then draws[p] else 0
  {
    if k > 0 { SumIfSelf(draws, plotOf, p, k - 1); }
  }

  /** The starting point, one chart per device, is grouped. */
  lemma GroupedInitially(draws: seq<nat>, plotOf: seq<nat>)
    requires |draws| == |plotOf| && forall d :: 0 <= d < |draws| ==> plotOf[d] == d
    ensures Grouped(draws, draws, plotOf)
  {
    forall p | 0 <= p < |draws| ensures draws[p] == SumIf(draws, plotOf, p, |draws|) {
      SumIfSelf(draws, plotOf, p, |draws|);
    }
  }

  /** Merging two neighbours keeps the grouping, whatever the devices. */
  lemma MergeKeepsGrouped(draws: seq<nat>, info: seq<nat>, plotOf: seq<nat>, lo: nat, hi: nat, plotOf2: seq<nat>)
    requires Grouped(draws, info, plotOf) && Adjacent(info, lo, hi) && |plotOf2| == |plotOf|
    requires forall d :: 0 <= d < |plotOf| ==> plotOf2[d] == if plotOf[d] == hi then lo else plotOf[d]
    ensures Grouped(draws, Merged(info, lo, hi), plotOf2)
  {
    var info2 := Merged(info, lo, hi);
    forall p | 0 <= p < |info| ensures info2[p] == SumIf(draws, plotOf2, p, |draws|) {
      SumIfRename(draws, plotOf, plotOf2, hi, lo, p, |draws|);
    }
    forall d | 0 <= d < |draws| && draws[d] > 0 ensures LastPlotAt(info2, d, plotOf2[d]) {
      assert LastPlotAt(info, d, plotOf[d]);
      if plotOf[d] == lo {
        assert d < hi;
      }
    }
  }

  /** Redirect every device on plot `from` to plot `to`. */
  method Redirect(plotOf: array<nat>, count: nat, from: nat, to: nat)
    requires count <= plotOf.Length && from != to
    modifies plotOf
    ensures forall d :: 0 <= d < count ==> plotOf[d] == if old(plotOf[d]) == from then to else old(plotOf[d])
  {
    for d := 0 to count
      invariant forall e :: 0 <= e < d ==> plotOf[e] == if old(plotOf[e]) == from then to else old(plotOf[e])
      invariant forall e :: d <= e < count ==> plotOf[e] == old(plotOf[e])
    {
      if plotOf[d] == from {
        plotOf[d] := to;
      }
    }
  }

  /** The merge itself: add the lines, empty the source, redirect its devices. */
  method MergePlots(info: array<nat>, plotOf: array<nat>, count: nat, lo: nat, hi: nat, ghost draws: seq<nat>)
    requires info != plotOf && count <= info.Length && count <= plotOf.Length
    requires Grouped(draws, info[..count], plotOf[..count]) && Adjacent(info[..count], lo, hi)
    modifies info, plotOf
    ensures info[..count] == Merged(old(info[..count]), lo, hi)
    ensures Grouped(draws, info[..count], plotOf[..count])
  {
    ghost var plotOf0 := plotOf[..count];
    ghost var info0 := info[..count];
    assert info0[lo] > 0 && info0[hi] > 0;
    assert plotOf0[lo] == lo && plotOf0[hi] == hi;
    info[lo] := info[lo] + info[hi];
    info[hi] := 0;
    assert info[..count] == Merged(info0, lo, hi);
    var oldLocation := plotOf[hi];
    var newLocation := plotOf[lo];
    Redirect(plotOf, count, oldLocation, newLocation);
    MergeKeepsGrouped(draws, info0, plotOf0, lo, hi, plotOf[..count]);
  }

  /** Number of non-empty plots below k. */
  function NonEmptyCount(info: seq<nat>, k: nat): nat
    requires k <= |info|
  {
    if k == 0 then 0 else NonEmptyCount(info, k - 1) + (if info[k - 1] > 0 then 1 else 0)
  }

  lemma {:induction false} NonEmptyCountUpdate(info: seq<nat>, p: nat, v: nat, k: nat)
    requires k <= |info| && p < |info|
    ensures NonEmptyCount(info[p := v], k) + (if p < k && info[p] > 0 then 1 else 0)
         == NonEmptyCount(info, k) + (if p < k && v > 0 then 1 else 0)
  {
    if k > 0 { NonEmptyCountUpdate(info, p, v, k - 1); }
  }

  /** Each merge leaves one non-empty plot fewer: the measure of the outer search. */
  lemma {:induction false} MergeDropsOnePlot(info: seq<nat>, lo: nat, hi: nat)
    requires Adjacent(info, lo, hi)
    ensures NonEmptyCount(Merged(info, lo, hi), |info|) == NonEmptyCount(info, |info|) - 1
  {
    NonEmptyCountUpdate(info, lo, info[lo] + info[hi], |info|);
    NonEmptyCountUpdate(info[lo := info[lo] + info[hi]], hi, 0, |info|);
  }
}
