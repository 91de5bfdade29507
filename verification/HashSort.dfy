/** HASH_SRT: a bottom-up mergesort of the application's list that only relinks its items. */
module HashSort {
  import opened Shared
  import opened HashLists

  type Comparator<!K(!new)> = (Handle<K>, Handle<K>) -> int

  // ----- What a pass computes -----

  /** Merge of two runs, the left one first among equals. */
  function Merge<K(!new)>(cmp: Comparator<K>, a: seq<Handle<K>>, b: seq<Handle<K>>): seq<Handle<K>> {
    if a == [] then b
    else if b == [] then a
    else if cmp(a[0], b[0]) <= 0 then [a[0]] + Merge(cmp, a[1..], b)
    else [b[0]] + Merge(cmp, a, b[1..])
  }

  /** Merge neighbouring runs of length k, from position `from` on. */
  function Pass<K(!new)>(cmp: Comparator<K>, s: seq<Handle<K>>, k: nat, from: nat): seq<Handle<K>>
    requires k > 0 && from <= |s|
    decreases |s| - from
  {
    if from == |s| then []
    else
      var mid := Min(from + k, |s|);
      var end := Min(from + 2 * k, |s|);
      Merge(cmp, s[from..mid], s[mid..end]) + Pass(cmp, s, k, end)
  }

  /** Passes with runs of length k, 2k, ... until one merge covers the whole list. */
  function SortFrom<K(!new)>(cmp: Comparator<K>, s: seq<Handle<K>>, k: nat): seq<Handle<K>>
    requires k > 0
    decreases |s| - k
  {
    PassLength(cmp, s, k, 0);
    if |s| <= 2 * k then Pass(cmp, s, k, 0) else SortFrom(cmp, Pass(cmp, s, k, 0), 2 * k)
  }

  function Sort<K(!new)>(cmp: Comparator<K>, s: seq<Handle<K>>): seq<Handle<K>> { SortFrom(cmp, s, 1) }

  lemma {:induction false} MergeMultiset<K(!new)>(cmp: Comparator<K>, a: seq<Handle<K>>, b: seq<Handle<K>>)
    ensures multiset(Merge(cmp, a, b)) == multiset(a) + multiset(b)
    ensures |Merge(cmp, a, b)| == |a| + |b|
    decreases |a| + |b|
  {
    if a != [] && b != [] {
      if cmp(a[0], b[0]) <= 0 {
        MergeMultiset(cmp, a[1..], b);
        assert a == [a[0]] + a[1..];
      } else {
        MergeMultiset(cmp, a, b[1..]);
        assert b == [b[0]] + b[1..];
      }
    }
  }

  lemma {:induction false} PassLength<K(!new)>(cmp: Comparator<K>, s: seq<Handle<K>>, k: nat, from: nat)
    requires k > 0 && from <= |s|
    ensures |Pass(cmp, s, k, from)| == |s| - from
    ensures multiset(Pass(cmp, s, k, from)) == multiset(s[from..])
    decreases |s| - from
  {
    if from < |s| {
      var mid, end := Min(from + k, |s|), Min(from + 2 * k, |s|);
      MergeMultiset(cmp, s[from..mid], s[mid..end]);
      PassLength(cmp, s, k, end);
      hide Merge;
      SplitMultiset(s, from, mid, end);
    }
  }

  lemma SplitMultiset<T>(s: seq<T>, from: nat, mid: nat, end: nat)
    requires from <= mid <= end <= |s|
    ensures multiset(s[from..]) == multiset(s[from..mid]) + multiset(s[mid..end]) + multiset(s[end..])
  {
    assert s[from..] == s[from..mid] + s[mid..end] + s[end..];
  }

  /** Whatever the comparator, sorting only reorders. */
  lemma {:induction false} SortPermutes<K(!new)>(cmp: Comparator<K>, s: seq<Handle<K>>, k: nat)
    requires k > 0
    ensures multiset(SortFrom(cmp, s, k)) == multiset(s) && |SortFrom(cmp, s, k)| == |s|
    decreases |s| - k
  {
    PassLength(cmp, s, k, 0);
    assert s[0..] == s;
    if |s| > 2 * k { SortPermutes(cmp, Pass(cmp, s, k, 0), 2 * k); }
  }

  // ----- Sortedness and stability for total preorders -----

  ghost predicate TotalPreorder<K(!new)>(cmp: Comparator<K>, s: seq<Handle<K>>) {
    && (forall x, y :: x in s && y in s ==> cmp(x, y) <= 0 || cmp(y, x) <= 0)
    && (forall x, y, z :: x in s && y in s && z in s && cmp(x, y) <= 0 && cmp(y, z) <= 0 ==> cmp(x, z) <= 0)
  }

  ghost predicate SortedBy<K(!new)>(cmp: Comparator<K>, s: seq<Handle<K>>) {
    forall i, j :: 0 <= i < j < |s| ==> cmp(s[i], s[j]) <= 0
  }

  /** Items equivalent to x, in order. */
  function Equals<K(!new)>(cmp: Comparator<K>, x: Handle<K>, s: seq<Handle<K>>): seq<Handle<K>> {
    if s == [] then []
    else if cmp(x, s[0]) <= 0 && cmp(s[0], x) <= 0 then [s[0]] + Equals(cmp, x, s[1..])
    else Equals(cmp, x, s[1..])
  }

  lemma {:induction false} EqualsConcat<K(!new)>(cmp: Comparator<K>, x: Handle<K>, a: seq<Handle<K>>, b: seq<Handle<K>>)
    ensures Equals(cmp, x, a + b) == Equals(cmp, x, a) + Equals(cmp, x, b)
    decreases |a|
  {
    if a == [] {
      assert a + b == b;
    } else {
      EqualsConcat(cmp, x, a[1..], b);
      assert (a + b)[1..] == a[1..] + b && (a + b)[0] == a[0];
      var here := if cmp(x, a[0]) <= 0 && cmp(a[0], x) <= 0 then [a[0]] else [];
      assert Equals(cmp, x, a + b) == here + Equals(cmp, x, (a + b)[1..]);
      assert Equals(cmp, x, a) == here + Equals(cmp, x, a[1..]);
    }
  }

  lemma {:induction false} EqualsNone<K(!new)>(cmp: Comparator<K>, x: Handle<K>, s: seq<Handle<K>>)
    requires forall i :: 0 <= i < |s| ==> !(cmp(x, s[i]) <= 0 && cmp(s[i], x) <= 0)
    ensures Equals(cmp, x, s) == []
  {
    if s != [] { EqualsNone(cmp, x, s[1..]); }
  }

  lemma MergeElements<K(!new)>(cmp: Comparator<K>, a: seq<Handle<K>>, b: seq<Handle<K>>)
    ensures forall i :: 0 <= i < |Merge(cmp, a, b)| ==> Merge(cmp, a, b)[i] in a || Merge(cmp, a, b)[i] in b
  {
  }

  lemma {:induction false} MergeSorted<K(!new)>(cmp: Comparator<K>, a: seq<Handle<K>>, b: seq<Handle<K>>)
    requires TotalPreorder(cmp, a + b) && SortedBy(cmp, a) && SortedBy(cmp, b)
    ensures SortedBy(cmp, Merge(cmp, a, b))
    decreases |a| + |b|, 0
  {
    if a != [] && b != [] {
      if cmp(a[0], b[0]) <= 0 {
        TailFacts(cmp, a, b, a[1..], b);
        HeadBelow(cmp, a[0], a, b);
        MergeSortedStep(cmp, a[0], a[1..], b);
      } else {
        TailFacts(cmp, a, b, a, b[1..]);
        HeadBelow2(cmp, a, b);
        MergeSortedStep(cmp, b[0], a, b[1..]);
      }
    }
  }

  lemma {:induction false} MergeSortedStep<K(!new)>(cmp: Comparator<K>, x: Handle<K>, a: seq<Handle<K>>, b: seq<Handle<K>>)
    requires TotalPreorder(cmp, a + b) && SortedBy(cmp, a) && SortedBy(cmp, b)
    requires forall i :: 0 <= i < |a| ==> cmp(x, a[i]) <= 0
    requires forall i :: 0 <= i < |b| ==> cmp(x, b[i]) <= 0
    ensures SortedBy(cmp, [x] + Merge(cmp, a, b))
    decreases |a| + |b|, 1
  {
    hide Merge, TotalPreorder;
    MergeSorted(cmp, a, b);
    MergeElements(cmp, a, b);
    var m := Merge(cmp, a, b);
    ConsSorted(cmp, x, m);
  }

  lemma TailFacts<K(!new)>(cmp: Comparator<K>, a: seq<Handle<K>>, b: seq<Handle<K>>, a2: seq<Handle<K>>, b2: seq<Handle<K>>)
    requires TotalPreorder(cmp, a + b) && SortedBy(cmp, a) && SortedBy(cmp, b)
    requires a != [] && b != [] && (a2 == a || a2 == a[1..]) && (b2 == b || b2 == b[1..])
    ensures TotalPreorder(cmp, a2 + b2) && SortedBy(cmp, a2) && SortedBy(cmp, b2)
  {
  }

  lemma SubPreorder<K(!new)>(cmp: Comparator<K>, s: seq<Handle<K>>, t: seq<Handle<K>>)
    requires TotalPreorder(cmp, s) && forall i :: 0 <= i < |t| ==> t[i] in s
    ensures TotalPreorder(cmp, t)
  {
  }

  lemma ConsSorted<K(!new)>(cmp: Comparator<K>, x: Handle<K>, s: seq<Handle<K>>)
    requires SortedBy(cmp, s) && forall i :: 0 <= i < |s| ==> cmp(x, s[i]) <= 0
    ensures SortedBy(cmp, [x] + s)
  {
  }

  lemma HeadBelow<K(!new)>(cmp: Comparator<K>, x: Handle<K>, a: seq<Handle<K>>, b: seq<Handle<K>>)
    requires TotalPreorder(cmp, a + b) && SortedBy(cmp, a) && SortedBy(cmp, b)
    requires a != [] && b != [] && x == a[0] && cmp(x, b[0]) <= 0
    ensures forall i :: 0 <= i < |a[1..]| ==> cmp(x, a[1..][i]) <= 0
    ensures forall i :: 0 <= i < |b| ==> cmp(x, b[i]) <= 0
  {
  }

  lemma HeadBelow2<K(!new)>(cmp: Comparator<K>, a: seq<Handle<K>>, b: seq<Handle<K>>)
    requires TotalPreorder(cmp, a + b) && SortedBy(cmp, a) && SortedBy(cmp, b)
    requires a != [] && b != [] && cmp(a[0], b[0]) > 0
    ensures forall i :: 0 <= i < |a| ==> cmp(b[0], a[i]) <= 0
    ensures forall i :: 0 <= i < |b[1..]| ==> cmp(b[0], b[1..][i]) <= 0
  {
  }

  /** The head of the left run comes out first: it stays in front of its equals. */
  lemma StableLeft<K(!new)>(cmp: Comparator<K>, x: Handle<K>, a: seq<Handle<K>>, b: seq<Handle<K>>)
    requires a != [] && b != [] && cmp(a[0], b[0]) <= 0
    requires Equals(cmp, x, Merge(cmp, a[1..], b)) == Equals(cmp, x, a[1..]) + Equals(cmp, x, b)
    ensures Equals(cmp, x, Merge(cmp, a, b)) == Equals(cmp, x, a) + Equals(cmp, x, b)
  {
    hide *;
    MergeCases(cmp, a, b);
    HeadTail(a);
    EqualsCons(cmp, x, a[0], a[1..]);
    EqualsCons(cmp, x, a[0], Merge(cmp, a[1..], b));
  }

  /** The head of the right run comes out first: nothing left of it is equivalent to it. */
  lemma StableRight<K(!new)>(cmp: Comparator<K>, x: Handle<K>, a: seq<Handle<K>>, b: seq<Handle<K>>)
    requires TotalPreorder(cmp, [x] + a + b) && SortedBy(cmp, a) && a != [] && b != [] && cmp(a[0], b[0]) > 0
    requires Equals(cmp, x, Merge(cmp, a, b[1..])) == Equals(cmp, x, a) + Equals(cmp, x, b[1..])
    ensures Equals(cmp, x, Merge(cmp, a, b)) == Equals(cmp, x, a) + Equals(cmp, x, b)
  {
    hide *;
    MergeCases(cmp, a, b);
    HeadTail(b);
    EqualsCons(cmp, x, b[0], b[1..]);
    EqualsCons(cmp, x, b[0], Merge(cmp, a, b[1..]));
    if cmp(x, b[0]) <= 0 && cmp(b[0], x) <= 0 {
      NoneEquivalent(cmp, x, a, b);
      EqualsNone(cmp, x, a);
    }
  }

  /** Merging sorted runs keeps equivalent items in order, left run first. */
  lemma {:induction false} MergeStable<K(!new)>(cmp: Comparator<K>, x: Handle<K>, a: seq<Handle<K>>, b: seq<Handle<K>>)
    requires TotalPreorder(cmp, [x] + a + b) && SortedBy(cmp, a) && SortedBy(cmp, b)
    ensures Equals(cmp, x, Merge(cmp, a, b)) == Equals(cmp, x, a) + Equals(cmp, x, b)
    decreases |a| + |b|
  {
    hide *;
    if a == [] || b == [] {
      MergeCases(cmp, a, b);
      EqualsNone(cmp, x, []);
    } else if cmp(a[0], b[0]) <= 0 {
      TailPreorder(cmp, x, a, b, a[1..], b);
      MergeStable(cmp, x, a[1..], b);
      StableLeft(cmp, x, a, b);
    } else {
      TailPreorder(cmp, x, a, b, a, b[1..]);
      MergeStable(cmp, x, a, b[1..]);
      StableRight(cmp, x, a, b);
    }
  }

  lemma MergeCases<K(!new)>(cmp: Comparator<K>, a: seq<Handle<K>>, b: seq<Handle<K>>)
    ensures a == [] ==> Merge(cmp, a, b) == b
    ensures b == [] ==> Merge(cmp, a, b) == a
    ensures a != [] && b != [] && cmp(a[0], b[0]) <= 0 ==> Merge(cmp, a, b) == [a[0]] + Merge(cmp, a[1..], b)
    ensures a != [] && b != [] && cmp(a[0], b[0]) > 0 ==> Merge(cmp, a, b) == [b[0]] + Merge(cmp, a, b[1..])
  {
  }

  lemma HeadTail<T>(s: seq<T>)
    requires s != []
    ensures s == [s[0]] + s[1..]
  {
  }

  lemma EqualsCons<K(!new)>(cmp: Comparator<K>, x: Handle<K>, y: Handle<K>, s: seq<Handle<K>>)
    ensures Equals(cmp, x, [y] + s) == (if cmp(x, y) <= 0 && cmp(y, x) <= 0 then [y] else []) + Equals(cmp, x, s)
  {
  }

  lemma TailPreorder<K(!new)>(cmp: Comparator<K>, x: Handle<K>, a: seq<Handle<K>>, b: seq<Handle<K>>, a2: seq<Handle<K>>, b2: seq<Handle<K>>)
    requires TotalPreorder(cmp, [x] + a + b) && SortedBy(cmp, a) && SortedBy(cmp, b)
    requires a != [] && b != [] && (a2 == a || a2 == a[1..]) && (b2 == b || b2 == b[1..])
    ensures TotalPreorder(cmp, [x] + a2 + b2) && SortedBy(cmp, a2) && SortedBy(cmp, b2)
  {
  }

  /** If x is equivalent to the head of b, and that is strictly below the head of a, then x is below all of a. */
  lemma NoneEquivalent<K(!new)>(cmp: Comparator<K>, x: Handle<K>, a: seq<Handle<K>>, b: seq<Handle<K>>)
    requires TotalPreorder(cmp, [x] + a + b) && SortedBy(cmp, a) && a != [] && b != []
    requires cmp(a[0], b[0]) > 0 && cmp(x, b[0]) <= 0 && cmp(b[0], x) <= 0
    ensures forall i :: 0 <= i < |a| ==> !(cmp(x, a[i]) <= 0 && cmp(a[i], x) <= 0)
  {
  }

  /** The list is made of sorted runs of length k. */
  ghost predicate Runs<K(!new)>(cmp: Comparator<K>, s: seq<Handle<K>>, k: nat, from: nat)
    requires k > 0 && from <= |s|
    decreases |s| - from
  {
    from == |s| || (SortedBy(cmp, s[from..Min(from + k, |s|)]) && Runs(cmp, s, k, Min(from + k, |s|)))
  }

  lemma {:induction false} RunsOfOne<K(!new)>(cmp: Comparator<K>, s: seq<Handle<K>>, from: nat)
    requires from <= |s|
    ensures Runs(cmp, s, 1, from)
    decreases |s| - from
  {
    if from < |s| { RunsOfOne(cmp, s, from + 1); }
  }

  /** Runs only look at the rest of the list. */
  lemma {:induction false} RunsShift<K(!new)>(cmp: Comparator<K>, s: seq<Handle<K>>, t: seq<Handle<K>>, k: nat, from: nat)
    requires k > 0 && from <= |s| && Runs(cmp, s, k, from)
    ensures Runs(cmp, t + s, k, |t| + from)
    decreases |s| - from
  {
    if from < |s| {
      var end := Min(from + k, |s|);
      RunsShift(cmp, s, t, k, end);
      assert (t + s)[|t| + from..|t| + end] == s[from..end];
    }
  }

  /** A pass over runs of length k leaves runs of length 2k. */
  lemma {:induction false} PassDoublesRuns<K(!new)>(cmp: Comparator<K>, s: seq<Handle<K>>, k: nat, from: nat)
    requires k > 0 && from <= |s| && Runs(cmp, s, k, from) && TotalPreorder(cmp, s)
    ensures Runs(cmp, Pass(cmp, s, k, from), 2 * k, 0)
    decreases |s| - from
  {
    hide *;
    PassLength(cmp, s, k, from);
    if from < |s| {
      var mid, end := Min(from + k, |s|), Min(from + 2 * k, |s|);
      RunsUnfold(cmp, s, k, from);
      var m, rest := Merge(cmp, s[from..mid], s[mid..end]), Pass(cmp, s, k, end);
      PassDoublesRuns(cmp, s, k, end);
      MergedRun(cmp, s, from, mid, end);
      RunsShift(cmp, rest, m, 2 * k, 0);
      JoinRuns(cmp, m, rest, 2 * k);
    } else {
      NoRuns(cmp, Pass(cmp, s, k, from), k);
    }
  }

  lemma MergedRun<K(!new)>(cmp: Comparator<K>, s: seq<Handle<K>>, from: nat, mid: nat, end: nat)
    requires from <= mid <= end <= |s| && TotalPreorder(cmp, s)
    requires SortedBy(cmp, s[from..mid]) && SortedBy(cmp, s[mid..end])
    ensures var m := Merge(cmp, s[from..mid], s[mid..end]); SortedBy(cmp, m) && |m| == end - from
  {
    hide *;
    forall i | 0 <= i < end - from ensures (s[from..mid] + s[mid..end])[i] in s {
      assert (s[from..mid] + s[mid..end])[i] == s[from + i];
    }
    SubPreorder(cmp, s, s[from..mid] + s[mid..end]);
    MergeSorted(cmp, s[from..mid], s[mid..end]);
    MergeMultiset(cmp, s[from..mid], s[mid..end]);
  }

  lemma NoRuns<K(!new)>(cmp: Comparator<K>, s: seq<Handle<K>>, k: nat)
    requires k > 0 && |s| == 0
    ensures Runs(cmp, s, 2 * k, 0)
  {
  }

  lemma JoinRuns<K(!new)>(cmp: Comparator<K>, m: seq<Handle<K>>, rest: seq<Handle<K>>, k: nat)
    requires k > 0 && SortedBy(cmp, m) && 0 < |m| <= k && (|m| == k || |rest| == 0)
    requires Runs(cmp, m + rest, k, |m|)
    ensures Runs(cmp, m + rest, k, 0)
  {
  }

  lemma RunsUnfold<K(!new)>(cmp: Comparator<K>, s: seq<Handle<K>>, k: nat, from: nat)
    requires k > 0 && from < |s| && Runs(cmp, s, k, from)
    ensures var mid, end := Min(from + k, |s|), Min(from + 2 * k, |s|);
            && from <= mid <= end <= |s| && from < end && (end == from + 2 * k || end == |s| < from + 2 * k)
            && SortedBy(cmp, s[from..mid]) && SortedBy(cmp, s[mid..end]) && Runs(cmp, s, k, end)
            && Pass(cmp, s, k, from) == Merge(cmp, s[from..mid], s[mid..end]) + Pass(cmp, s, k, end)
  {
  }

  /** A pass keeps equivalent items in order. */
  lemma {:induction false} PassStable<K(!new)>(cmp: Comparator<K>, x: Handle<K>, s: seq<Handle<K>>, k: nat, from: nat)
    requires k > 0 && from <= |s| && Runs(cmp, s, k, from) && TotalPreorder(cmp, s) && x in s
    ensures Equals(cmp, x, Pass(cmp, s, k, from)) == Equals(cmp, x, s[from..])
    decreases |s| - from
  {
    if from < |s| {
      hide *;
      var mid, end := Min(from + k, |s|), Min(from + 2 * k, |s|);
      RunsUnfold(cmp, s, k, from);
      PassStable(cmp, x, s, k, end);
      SlicePreorder(cmp, x, s, from, mid, end);
      MergeStable(cmp, x, s[from..mid], s[mid..end]);
      EqualsConcat(cmp, x, Merge(cmp, s[from..mid], s[mid..end]), Pass(cmp, s, k, end));
      EqualsSplit(cmp, x, s, from, mid, end);
    } else {
      assert s[from..] == [];
    }
  }

  lemma EqualsSplit<K(!new)>(cmp: Comparator<K>, x: Handle<K>, s: seq<Handle<K>>, from: nat, mid: nat, end: nat)
    requires from <= mid <= end <= |s|
    ensures Equals(cmp, x, s[from..]) == Equals(cmp, x, s[from..mid]) + Equals(cmp, x, s[mid..end]) + Equals(cmp, x, s[end..])
  {
    hide Equals;
    assert s[from..] == s[from..mid] + s[mid..end] + s[end..];
    EqualsConcat(cmp, x, s[from..mid] + s[mid..end], s[end..]);
    EqualsConcat(cmp, x, s[from..mid], s[mid..end]);
  }

  lemma SlicePreorder<K(!new)>(cmp: Comparator<K>, x: Handle<K>, s: seq<Handle<K>>, from: nat, mid: nat, end: nat)
    requires from <= mid <= end <= |s| && TotalPreorder(cmp, s) && x in s
    ensures TotalPreorder(cmp, [x] + s[from..mid] + s[mid..end])
  {
    var t := [x] + s[from..mid] + s[mid..end];
    forall i | 0 <= i < |t| ensures t[i] in s {
      assert i > 0 ==> t[i] == s[from + i - 1];
    }
    SubPreorder(cmp, s, t);
  }

  lemma SameElements<K(!new)>(s: seq<Handle<K>>, t: seq<Handle<K>>)
    requires multiset(s) == multiset(t)
    ensures forall i :: 0 <= i < |s| ==> s[i] in t
    ensures forall i :: 0 <= i < |t| ==> t[i] in s
  {
    forall i | 0 <= i < |s| ensures s[i] in t { assert s[i] in multiset(s); }
    forall i | 0 <= i < |t| ensures t[i] in s { assert t[i] in multiset(t); }
  }

  /** One pass: twice as long runs, the same items, equivalent ones in the same order. */
  lemma PassStep<K(!new)>(cmp: Comparator<K>, s: seq<Handle<K>>, k: nat)
    requires k > 0 && Runs(cmp, s, k, 0) && TotalPreorder(cmp, s)
    ensures var t := Pass(cmp, s, k, 0);
            && |t| == |s| && Runs(cmp, t, 2 * k, 0) && TotalPreorder(cmp, t)
            && (forall i :: 0 <= i < |s| ==> s[i] in t)
            && (forall i :: 0 <= i < |s| ==> Equals(cmp, s[i], t) == Equals(cmp, s[i], s))
  {
    var t := Pass(cmp, s, k, 0);
    PassDoublesRuns(cmp, s, k, 0);
    PassLength(cmp, s, k, 0);
    assert s[0..] == s;
    hide *;
    SameElements(s, t);
    SubPreorder(cmp, s, t);
    forall i | 0 <= i < |s| ensures Equals(cmp, s[i], t) == Equals(cmp, s[i], s) { PassStable(cmp, s[i], s, k, 0); }
  }

  lemma OneRun<K(!new)>(cmp: Comparator<K>, s: seq<Handle<K>>, k: nat)
    requires k > 0 && |s| <= k && Runs(cmp, s, k, 0)
    ensures SortedBy(cmp, s)
  {
  }

  /** For every total preorder: the result is sorted, and equivalent items stay in their original order. */
  lemma {:induction false} SortSortsStably<K(!new)>(cmp: Comparator<K>, s: seq<Handle<K>>, k: nat)
    requires k > 0 && Runs(cmp, s, k, 0) && TotalPreorder(cmp, s)
    ensures SortedBy(cmp, SortFrom(cmp, s, k))
    ensures forall i :: 0 <= i < |s| ==> Equals(cmp, s[i], SortFrom(cmp, s, k)) == Equals(cmp, s[i], s)
    decreases |s| - k
  {
    hide Runs, TotalPreorder, Pass, Equals, SortedBy;
    var t := Pass(cmp, s, k, 0);
    PassStep(cmp, s, k);
    if |s| <= 2 * k {
      OneRun(cmp, t, 2 * k);
    } else {
      SortSortsStably(cmp, t, 2 * k);
      forall i | 0 <= i < |s| ensures Equals(cmp, s[i], SortFrom(cmp, t, 2 * k)) == Equals(cmp, s[i], s) {
        var j :| 0 <= j < |t| && t[j] == s[i];
        assert Equals(cmp, t[j], SortFrom(cmp, t, 2 * k)) == Equals(cmp, t[j], t);
      }
    }
  }

  lemma SortCorrect<K(!new)>(cmp: Comparator<K>, s: seq<Handle<K>>)
    requires TotalPreorder(cmp, s)
    ensures SortedBy(cmp, Sort(cmp, s)) && multiset(Sort(cmp, s)) == multiset(s)
    ensures forall i :: 0 <= i < |s| ==> Equals(cmp, s[i], Sort(cmp, s)) == Equals(cmp, s[i], s)
  {
    RunsOfOne(cmp, s, 0);
    SortSortsStably(cmp, s, 1);
    SortPermutes(cmp, s, 1);
  }
}
