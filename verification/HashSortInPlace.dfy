/** The pointer loops of HASH_SRT: relink the application's list pass by pass, without moving an item. */
module HashSortInPlace {
  import opened Shared
  import opened HashLists
  import opened HashTable
  import opened HashSort

  /** Positions of s still waiting to be emitted: the rest of the left run, and everything from j on. */
  predicate Waiting(k: int, n: nat, i: nat, m: nat, j: nat) { i <= k < m || j <= k < n }

  /** The items in out are distinct items of s, none of them waiting. */
  ghost predicate Apart<K(!new)>(s: seq<Handle<K>>, out: seq<Handle<K>>, i: nat, m: nat, j: nat) {
    && i <= m <= j <= |s|
    && Distinct(s) && Distinct(out)
    && (forall a :: 0 <= a < |out| ==> out[a] in s)
    && (forall a, k :: 0 <= a < |out| && Waiting(k, |s|, i, m, j) ==> out[a] != s[k])
  }

  /** The links in the middle of a pass over s: items in out are relinked, waiting ones still follow s. */
  ghost predicate Relinking<K(!new)>(s: seq<Handle<K>>, out: seq<Handle<K>>, i: nat, m: nat, j: nat)
    reads s`prev, s`next, out`prev, out`next
  {
    && Apart(s, out, i, m, j)
    && (|out| > 0 ==> out[0].prev == null)
    && (forall a :: 0 < a < |out| ==> out[a].prev == out[a - 1])
    && (forall a :: 0 <= a < |out| - 1 ==> out[a].next == out[a + 1])
    && (forall k :: Waiting(k, |s|, i, m, j) ==> s[k].next == At(s, k + 1))
  }

  function At<K(!new)>(s: seq<Handle<K>>, k: nat): Handle?<K> { if k < |s| then s[k] else null }

  function Last<K(!new)>(s: seq<Handle<K>>): Handle?<K> { if |s| == 0 then null else s[|s| - 1] }

  lemma ApartGrows<K(!new)>(s: seq<Handle<K>>, out: seq<Handle<K>>, e: Handle<K>, i: nat, m: nat, j: nat, i2: nat, j2: nat)
    requires Apart(s, out, i, m, j)
    requires (e == At(s, i) && i < m && i2 == i + 1 && j2 == j) || (e == At(s, j) && j < |s| && i2 == i && j2 == j + 1)
    ensures Apart(s, out + [e], i2, m, j2) && Distinct(out) && e in s && e !in out
    ensures Last(out) != null ==> Last(out) in s
    ensures forall k :: Waiting(k, |s|, i2, m, j2) ==> Waiting(k, |s|, i, m, j) && s[k] != e && s[k] != Last(out)
  {
  }

  /** Append item e, one of the two next waiting ones, to the relinked list. */
  method Emit<K(!new, ==)>(e: Handle<K>, tail: Handle?<K>, first: Handle?<K>, ghost s: seq<Handle<K>>, ghost out: seq<Handle<K>>,
                           ghost i: nat, ghost m: nat, ghost j: nat, ghost i2: nat, ghost j2: nat)
    returns (list: Handle?<K>)
    requires Relinking(s, out, i, m, j) && tail == Last(out) && first == First(out)
    requires (e == At(s, i) && i < m && i2 == i + 1 && j2 == j) || (e == At(s, j) && j < |s| && i2 == i && j2 == j + 1)
    modifies s`prev, s`next
    ensures Relinking(s, out + [e], i2, m, j2) && list == First(out + [e])
  {
    ApartGrows(s, out, e, i, m, j, i2, j2);
    hide Apart, Waiting;
    list := first;
    if tail != null {
      tail.next := e;
    } else {
      list := e;
    }
    e.prev := tail;
  }

  /** Where a merge stands: emitted items followed by what is still to be merged, as the whole merge will leave them. */
  ghost predicate Merging<K(!new)>(cmp: Comparator<K>, s: seq<Handle<K>>, out: seq<Handle<K>>, goal: seq<Handle<K>>, i: nat, m: nat, j: nat, e: nat) {
    i <= m <= j <= e <= |s| && out + Merge(cmp, s[i..m], s[j..e]) == goal
  }

  /** The choice of the inner loop: whether the next item comes from the left run. */
  ghost predicate TakesLeft<K(!new)>(cmp: Comparator<K>, s: seq<Handle<K>>, i: nat, m: nat, j: nat, e: nat)
    requires i <= m <= j <= e <= |s|
  {
    i < m && (j == e || cmp(s[i], s[j]) <= 0)
  }

  lemma MergeTakes<K(!new)>(cmp: Comparator<K>, s: seq<Handle<K>>, out: seq<Handle<K>>, goal: seq<Handle<K>>, i: nat, m: nat, j: nat, e: nat)
    requires Merging(cmp, s, out, goal, i, m, j, e) && (i < m || j < e)
    ensures TakesLeft(cmp, s, i, m, j, e) ==> Merging(cmp, s, out + [s[i]], goal, i + 1, m, j, e)
    ensures !TakesLeft(cmp, s, i, m, j, e) ==> j < e && Merging(cmp, s, out + [s[j]], goal, i, m, j + 1, e)
  {
  }

  lemma MergingStarts<K(!new)>(cmp: Comparator<K>, s: seq<Handle<K>>, base: seq<Handle<K>>, b: nat, m: nat, e: nat)
    requires b <= m <= e <= |s|
    ensures Merging(cmp, s, base, base + Merge(cmp, s[b..m], s[m..e]), b, m, m, e)
  {
  }

  lemma MergingEnds<K(!new)>(cmp: Comparator<K>, s: seq<Handle<K>>, out: seq<Handle<K>>, goal: seq<Handle<K>>, i: nat, m: nat, e: nat)
    requires i == m && Merging(cmp, s, out, goal, i, m, e, e)
    ensures out == goal
  {
  }

  lemma RunsUsedUp<K(!new)>(s: seq<Handle<K>>, out: seq<Handle<K>>, m: nat, e: nat)
    requires Relinking(s, out, m, m, e)
    ensures Relinking(s, out, e, e, e)
  {
  }

  lemma RunSplitOff<K(!new)>(s: seq<Handle<K>>, out: seq<Handle<K>>, b: nat, m: nat)
    requires b <= m <= |s| && Relinking(s, out, b, b, b)
    ensures Relinking(s, out, b, m, m)
  {
  }

  lemma LastIsItem<K(!new)>(s: seq<Handle<K>>, out: seq<Handle<K>>)
    requires |out| > 0 && Relinking(s, out, |s|, |s|, |s|)
    ensures Last(out) in s
  {
  }

  lemma NextWaiting<K(!new)>(s: seq<Handle<K>>, out: seq<Handle<K>>, i: nat, m: nat, j: nat)
    requires Relinking(s, out, i, m, j)
    ensures i < m ==> s[i].next == At(s, i + 1) && s[i] in s
    ensures j < |s| ==> s[j].next == At(s, j + 1) && s[j] in s
  {
  }

  lemma LastOfAppended<K(!new)>(s: seq<Handle<K>>, x: Handle<K>)
    ensures Last(s + [x]) == x
  {
  }

  lemma RunBounds(b: nat, k: nat, n: nat)
    requires b < n && k > 0
    ensures var m, e := Min(b + k, n), Min(b + 2 * k, n);
            && b < m <= e <= n && m <= b + k && (e == m + k || e == n <= m + k)
  {
  }

  /** Merge the run of psize items from p with the run of up to insize items from q. */
  method MergeRuns<K(!new, ==)>(cmp: Comparator<K>, p0: Handle<K>, q0: Handle?<K>, psize0: nat, insize: nat, tail0: Handle?<K>, first: Handle?<K>,
                                ghost s: seq<Handle<K>>, ghost base: seq<Handle<K>>, ghost b: nat)
    returns (list: Handle?<K>, tail: Handle?<K>, q: Handle?<K>, ghost out: seq<Handle<K>>)
    requires b < |s| && psize0 == Min(b + insize, |s|) - b && insize > 0
    requires p0 == s[b] && q0 == At(s, b + psize0)
    requires Relinking(s, base, b, b + psize0, b + psize0) && tail0 == Last(base) && first == First(base)
    modifies s`prev, s`next
    ensures var m, e := b + psize0, Min(b + 2 * insize, |s|);
            && b < m <= e && out == base + Merge(cmp, s[b..m], s[m..e])
            && Relinking(s, out, e, e, e) && tail == Last(out) && list == First(out) && q == At(s, e)
  {
    hide Relinking, Merging, Merge, Min, First, Last;
    RunBounds(b, insize, |s|);
    list, tail, q, out := first, tail0, q0, base;
    var p: Handle?<K> := p0;
    var psize: nat, qsize: nat := psize0, insize;
    ghost var m, e := b + psize0, Min(b + 2 * insize, |s|);
    ghost var i: nat, j: nat := b, m;
    ghost var goal := base + Merge(cmp, s[b..m], s[m..e]);
    MergingStarts(cmp, s, base, b, m, e);
    while psize != 0 || (qsize != 0 && q != null)
      invariant i + psize == m <= j <= e <= |s|
      invariant j + qsize == m + insize
      invariant (i < m ==> p == s[i]) && q == At(s, j)
      invariant Relinking(s, out, i, m, j) && tail == Last(out) && list == First(out)
      invariant Merging(cmp, s, out, goal, i, m, j, e)
      decreases psize + qsize
    {
      NextWaiting(s, out, i, m, j);
      MergeTakes(cmp, s, out, goal, i, m, j, e);
      var item, fromLeft;
      if psize == 0 {
        item, fromLeft := q, false;
      } else if qsize == 0 || q == null {
        item, fromLeft := p, true;
      } else if cmp(p, q) <= 0 {
        item, fromLeft := p, true;
      } else {
        item, fromLeft := q, false;
      }
      if fromLeft {
        p := p.next;
        psize := psize - 1;
        list := Emit(item, tail, list, s, out, i, m, j, i + 1, j);
        i := i + 1;
      } else {
        q := q.next;
        qsize := qsize - 1;
        list := Emit(item, tail, list, s, out, i, m, j, i, j + 1);
        j := j + 1;
      }
      LastOfAppended(out, item);
      tail, out := item, out + [item];
    }
    MergingEnds(cmp, s, out, goal, i, m, e);
    RunsUsedUp(s, out, m, e);
  }

  /** Step over the left run: up to insize items from p. */
  method StepOver<K(!new, ==)>(p: Handle<K>, insize: nat, ghost s: seq<Handle<K>>, ghost out: seq<Handle<K>>, ghost b: nat)
    returns (q: Handle?<K>, psize: nat)
    requires b < |s| && p == s[b] && insize > 0 && Relinking(s, out, b, b, b)
    ensures psize == Min(b + insize, |s|) - b && q == At(s, b + psize)
  {
    hide Relinking;
    q, psize := p, 0;
    for i := 0 to insize
      invariant psize == i && b + i < |s| && q == s[b + i]
    {
      psize := psize + 1;
      StillWaiting(s, out, b, b + i);
      q := q.next;
      if q == null {
        break;
      }
    }
  }

  lemma StillWaiting<K(!new)>(s: seq<Handle<K>>, out: seq<Handle<K>>, b: nat, j: nat)
    requires Relinking(s, out, b, b, b) && b <= j < |s|
    ensures s[j].next == At(s, j + 1)
  {
  }

  /** Where a round stands: emitted items followed by the merges to come are the whole round's result. */
  ghost predicate Passing<K(!new)>(cmp: Comparator<K>, s: seq<Handle<K>>, k: nat, out: seq<Handle<K>>, b: nat) {
    k > 0 && b <= |s| && out + Pass(cmp, s, k, b) == Pass(cmp, s, k, 0)
  }

  /** Merge the next two runs of a round, which start at p. */
  method MergeNext<K(!new, ==)>(cmp: Comparator<K>, p0: Handle<K>, insize: nat, tail0: Handle?<K>, first: Handle?<K>,
                                ghost s: seq<Handle<K>>, ghost base: seq<Handle<K>>, ghost b: nat)
    returns (list: Handle?<K>, tail: Handle?<K>, p: Handle?<K>, ghost out: seq<Handle<K>>)
    requires b < |s| && p0 == s[b] && insize > 0 && Passing(cmp, s, insize, base, b)
    requires Relinking(s, base, b, b, b) && tail0 == Last(base) && first == First(base)
    modifies s`prev, s`next
    ensures var e := Min(b + 2 * insize, |s|);
            && b < e <= |s| && Passing(cmp, s, insize, out, e)
            && Relinking(s, out, e, e, e) && tail == Last(out) && list == First(out) && p == At(s, e)
  {
    hide Relinking, Merge, Pass, First, Last;
    var q, psize := StepOver(p0, insize, s, base, b);
    PassUnfold(cmp, s, insize, b, base);
    RunSplitOff(s, base, b, b + psize);
    list, tail, p, out := MergeRuns(cmp, p0, q, psize, insize, tail0, first, s, base, b);
  }

  /** One round of HASH_SRT over runs of insize items: list s, linked both ways, becomes Pass(s). */
  method SortPass<K(!new, ==)>(cmp: Comparator<K>, list0: Handle<K>, insize: nat, ghost s: seq<Handle<K>>)
    returns (list: Handle<K>, tail: Handle<K>, nmerges: nat)
    requires AppLinked(s) && |s| > 0 && list0 == s[0] && insize > 0
    modifies s`prev, s`next
    ensures var t := Pass(cmp, s, insize, 0); AppLinked(t) && |t| == |s| && list == t[0] && tail == t[|t| - 1]
    ensures nmerges <= 1 <==> |s| <= 2 * insize
  {
    hide Relinking, Passing, Pass, AppLinked, First, MergesDone;
    ghost var out: seq<Handle<K>>, b := [], 0;
    MergesStart(insize, |s|);
    var p: Handle?<K>, first: Handle?<K>, last: Handle?<K> := list0, null, null;
    nmerges := 0;
    PassStarts(cmp, s, insize);
    while p != null
      invariant b <= |s| && p == At(s, b) && Relinking(s, out, b, b, b) && last == Last(out) && first == First(out)
      invariant Passing(cmp, s, insize, out, b)
      invariant MergesDone(nmerges, insize, b, |s|)
      decreases |s| - b
    {
      MergeCounted(nmerges, insize, b, |s|);
      nmerges := nmerges + 1;
      first, last, p, out := MergeNext(cmp, p, insize, last, first, s, out, b);
      b := Min(b + 2 * insize, |s|);
    }
    MergesEnd(nmerges, insize, |s|);
    PassEnds(cmp, s, insize, out);
    LastIsItem(s, out);
    CloseList(last, s, out);
    list, tail := first, last;
  }

  /** After so many merges of two runs the round is at item b of n. */
  ghost predicate MergesDone(nmerges: nat, insize: nat, b: nat, n: nat) {
    if nmerges == 0 then b == 0 else if nmerges == 1 then b == Min(2 * insize, n) else 2 * insize < n
  }

  lemma MergesStart(insize: nat, n: nat)
    ensures MergesDone(0, insize, 0, n)
  {
  }

  lemma MergeCounted(nmerges: nat, insize: nat, b: nat, n: nat)
    requires MergesDone(nmerges, insize, b, n) && b < n
    ensures MergesDone(nmerges + 1, insize, Min(b + 2 * insize, n), n)
  {
  }

  lemma MergesEnd(nmerges: nat, insize: nat, n: nat)
    requires MergesDone(nmerges, insize, n, n) && n > 0
    ensures nmerges <= 1 <==> n <= 2 * insize
  {
  }

  lemma PassStarts<K(!new)>(cmp: Comparator<K>, s: seq<Handle<K>>, k: nat)
    requires AppLinked(s) && k > 0
    ensures Relinking(s, [], 0, 0, 0) && First<K>([]) == null
    ensures Passing(cmp, s, k, [], 0)
  {
  }

  lemma PassUnfold<K(!new)>(cmp: Comparator<K>, s: seq<Handle<K>>, k: nat, b: nat, out: seq<Handle<K>>)
    requires k > 0 && b < |s|
    ensures var m, e := Min(b + k, |s|), Min(b + 2 * k, |s|);
            out + Pass(cmp, s, k, b) == out + Merge(cmp, s[b..m], s[m..e]) + Pass(cmp, s, k, e)
  {
  }

  lemma PassEnds<K(!new)>(cmp: Comparator<K>, s: seq<Handle<K>>, k: nat, out: seq<Handle<K>>)
    requires |s| > 0 && Passing(cmp, s, k, out, |s|)
    ensures out == Pass(cmp, s, k, 0) && |out| == |s| && First(out) == out[0]
  {
    PassLength(cmp, s, k, 0);
    PassLength(cmp, s, k, |s|);
    assert out == out + Pass(cmp, s, k, |s|);
  }

  /** The end of a round: the last item gets no successor. */
  method CloseList<K(!new, ==)>(last: Handle<K>, ghost s: seq<Handle<K>>, ghost out: seq<Handle<K>>)
    requires Relinking(s, out, |s|, |s|, |s|) && last == Last(out) && |out| > 0
    modifies last`next
    ensures AppLinked(out)
  {
    last.next := null;
  }

  /** The table's list is the old one, reordered: what does not depend on the order still holds. */
  lemma PermutedTable<K(!new)>(hash: K -> nat, order: seq<Handle<K>>, order2: seq<Handle<K>>, chains: seq<seq<Handle<K>>>, bkts: seq<Bucket<K>>)
    requires multiset(order) == multiset(order2) && Distinct(order2)
    requires ChainsFit(hash, order, chains, bkts) && Complete(hash, order, chains) && Keyed(order, hash)
    ensures ChainsFit(hash, order2, chains, bkts) && Complete(hash, order2, chains) && Keyed(order2, hash)
    ensures Model(order2) == Model(order)
  {
    hide BucketFits, Home;
    SameElements(order, order2);
    forall i, j | 0 <= i < j < |order2| ensures order2[i].key != order2[j].key {
      assert order2[i] != order2[j];
    }
  }

  /** The outer loop: rounds over runs of 1, 2, 4, ... items, until one merge covers the list. */
  method SortList<K(!new, ==)>(cmp: Comparator<K>, list0: Handle<K>, ghost items: seq<Handle<K>>)
    returns (list: Handle<K>, tail: Handle<K>)
    requires AppLinked(items) && |items| > 0 && list0 == items[0]
    modifies items`prev, items`next
    ensures var t := Sort(cmp, items); AppLinked(t) && |t| == |items| && list == t[0] && tail == t[|t| - 1]
  {
    hide AppLinked, SortFrom, Pass;
    ghost var s := items;
    var insize: nat, looping := 1, true;
    list, tail := list0, list0;
    while looping
      invariant insize > 0 && AppLinked(s) && |s| == |items| && list == s[0] && multiset(s) == multiset(items)
      invariant if looping then SortFrom(cmp, s, insize) == Sort(cmp, items) else s == Sort(cmp, items) && tail == s[|s| - 1]
      invariant looping ==> insize == 1 || insize < |s|
      decreases looping, |s| - insize
    {
      SameElements(s, items);
      SortUnfold(cmp, s, insize);
      var nmerges;
      list, tail, nmerges := SortPass(cmp, list, insize, s);
      s := Pass(cmp, s, insize, 0);
      if nmerges <= 1 {
        looping := false;
      }
      insize := insize * 2;
    }
  }

  lemma SortUnfold<K(!new)>(cmp: Comparator<K>, s: seq<Handle<K>>, k: nat)
    requires k > 0
    ensures var t := Pass(cmp, s, k, 0);
            && multiset(t) == multiset(s) && |t| == |s|
            && SortFrom(cmp, s, k) == if |s| <= 2 * k then t else SortFrom(cmp, t, 2 * k)
  {
    hide Pass;
    PassLength(cmp, s, k, 0);
    assert s[0..] == s;
  }

  /** HASH_SRT on a table: the list in application order becomes its stable sort, with every link in place. */
  method SortTable<K(!new, ==)>(t: Table<K>, cmp: Comparator<K>)
    requires t.Valid()
    modifies t`head, t`tail, t`order, t.order`prev, t.order`next
    ensures t.Valid() && t.order == Sort(cmp, old(t.order)) && Model(t.order) == old(Model(t.order))
  {
    hide *;
    t.ValidParts();
    SortPermutes(cmp, t.order, 1);
    SortFromOne(cmp, t.order);
    if t.head != null {
      ghost var items, sorted := t.order, Sort(cmp, t.order);
      var list, tail := SortList(cmp, t.head, items);
      t.tail := tail;
      t.head := list;
      t.order := sorted;
      AppDistinct(sorted);
      PermutedTable(t.hash, items, sorted, t.chains, t.buckets[..]);
      AppIs(sorted, list, tail, t.numItems);
      t.IsValid();
    } else {
      assert Sort(cmp, t.order) == [];
      t.NullIsValid();
    }
  }

  lemma SortFromOne<K(!new)>(cmp: Comparator<K>, s: seq<Handle<K>>)
    ensures Sort(cmp, s) == SortFrom(cmp, s, 1)
  {
  }

  lemma AppDistinct<K(!new)>(s: seq<Handle<K>>)
    requires AppLinked(s)
    ensures Distinct(s)
  {
  }

  lemma AppIs<K(!new)>(s: seq<Handle<K>>, head: Handle<K>, tail: Handle<K>, numItems: nat)
    requires AppLinked(s) && |s| == numItems > 0 && head == s[0] && tail == s[|s| - 1]
    ensures AppFits(s, head, tail, numItems)
  {
  }
}
