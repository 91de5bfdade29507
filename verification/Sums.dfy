/** Selective sums: the accumulation loops of the layout solver (columns of a stack, lines of a plot) are all instances. */
module Sums {
  ghost predicate NonDecreasing(a: seq<nat>) {
    forall i, j :: 0 <= i < j < |a| ==> a[i] <= a[j]
  }

  /** Sum of w[i] over the indices i below k whose label sel[i] is s. */
  function SumIf(w: seq<nat>, sel: seq<nat>, s: nat, k: nat): nat
    requires k <= |w| && k <= |sel|
  {
    if k == 0 then 0 else SumIf(w, sel, s, k - 1) + (if sel[k - 1] == s then w[k - 1] else 0)
  }

  /** Sum of the first k values. */
  function Total(w: seq<nat>, k: nat): nat
    requires k <= |w|
  {
    if k == 0 then 0 else Total(w, k - 1) + w[k - 1]
  }

  /** Relabelling one index moves exactly its weight from one label to the other. */
  lemma {:induction false} SumIfMove(w: seq<nat>, sel: seq<nat>, p: nat, t: nat, s: nat, k: nat)
    requires k <= |w| && k <= |sel| && p < |sel|
    ensures SumIf(w, sel[p := t], s, k) + (if p < k && sel[p] == s then w[p] else 0)
         == SumIf(w, sel, s, k) + (if p < k && t == s then w[p] else 0)
  {
    if k > 0 { SumIfMove(w, sel, p, t, s, k - 1); }
  }

  /** Renaming label a to b merges the two sums and leaves every other label alone. */
  lemma {:induction false} SumIfRename(w: seq<nat>, sel: seq<nat>, sel2: seq<nat>, a: nat, b: nat, s: nat, k: nat)
    requires |sel| == |sel2| && k <= |w| && k <= |sel| && a != b
    requires forall i :: 0 <= i < |sel| ==> sel2[i] == if sel[i] == a then b else sel[i]
    ensures SumIf(w, sel2, s, k) ==
            if s == a then 0
            else if s == b then SumIf(w, sel, a, k) + SumIf(w, sel, b, k)
            else SumIf(w, sel, s, k)
  {
    if k > 0 { SumIfRename(w, sel, sel2, a, b, s, k - 1); }
  }

  /** Every selected weight is a lower bound of the sum. */
  lemma {:induction false} SumIfAtLeast(w: seq<nat>, sel: seq<nat>, s: nat, k: nat, i: nat)
    requires i < k <= |w| && k <= |sel| && sel[i] == s
    ensures SumIf(w, sel, s, k) >= w[i]
  {
    if i < k - 1 { SumIfAtLeast(w, sel, s, k - 1, i); }
  }

  /** Sums grow with the bound. */
  lemma {:induction false} SumIfMonotone(w: seq<nat>, sel: seq<nat>, s: nat, j: nat, k: nat)
    requires j <= k <= |w| && k <= |sel|
    ensures SumIf(w, sel, s, j) <= SumIf(w, sel, s, k)
  {
    if j < k { SumIfMonotone(w, sel, s, j, k - 1); }
  }

  /** Labels below m partition the indices, so the label sums add up to the total. */
  lemma {:induction false} SumIfPartition(w: seq<nat>, sel: seq<nat>, sums: seq<nat>, k: nat)
    requires k <= |w| && k <= |sel|
    requires forall i :: 0 <= i < k && w[i] > 0 ==> sel[i] < |sums|
    requires forall s :: 0 <= s < |sums| ==> sums[s] == SumIf(w, sel, s, k)
    ensures Total(sums, |sums|) == Total(w, k)
    decreases k
  {
    if k == 0 {
      TotalZero(sums, |sums|);
    } else {
      var less := seq(|sums|, s requires 0 <= s < |sums| => SumIf(w, sel, s, k - 1));
      SumIfPartition(w, sel, less, k - 1);
      if w[k - 1] > 0 {
        TotalBump(less, sums, sel[k - 1], w[k - 1], |sums|);
      } else {
        assert less == sums;
      }
    }
  }

  lemma {:induction false} TotalZero(w: seq<nat>, k: nat)
    requires k <= |w| && forall i :: 0 <= i < k ==> w[i] == 0
    ensures Total(w, k) == 0
  {
    if k > 0 { TotalZero(w, k - 1); }
  }

  /** Raising one value by d raises the total by d. */
  lemma {:induction false} TotalBump(w: seq<nat>, w2: seq<nat>, p: nat, d: nat, k: nat)
    requires |w| == |w2| && k <= |w| && p < |w|
    requires forall i :: 0 <= i < |w| ==> w2[i] == if i == p then w[i] + d else w[i]
    ensures Total(w2, k) == Total(w, k) + if p < k then d else 0
  {
    if k > 0 { TotalBump(w, w2, p, d, k - 1); }
  }
}
