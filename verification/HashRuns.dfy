/** Whole runs of the hash table: agreement with a finite map, the integrity counts, and draining while iterating. */
module HashRuns {
  import opened HashBits
  import opened HashLists
  import opened HashTable

  // ----- The counts HASH_FSCK checks -----

  function ChainTotal<K(!new)>(bkts: seq<Bucket<K>>, k: nat): nat
    requires k <= |bkts|
  {
    if k == 0 then 0 else ChainTotal(bkts, k - 1) + bkts[k - 1].count
  }

  /** Items within the ideal length of their chains. */
  function IdealTotal<K(!new)>(bkts: seq<Bucket<K>>, ideal: nat, k: nat): nat
    requires k <= |bkts|
  {
    if k == 0 then 0 else IdealTotal(bkts, ideal, k - 1) + (if bkts[k - 1].count < ideal then bkts[k - 1].count else ideal)
  }

  /** Every item is either within the ideal length of its chain or counted as non-ideal. */
  lemma {:induction false} NonidealRest<K(!new)>(bkts: seq<Bucket<K>>, ideal: nat, k: nat)
    requires k <= |bkts|
    ensures IdealTotal(bkts, ideal, k) + NonIdeal(bkts, ideal, k) == ChainTotal(bkts, k)
  {
    if k > 0 { NonidealRest(bkts, ideal, k - 1); }
  }

  /** Items among the first k that belong to bucket b of n. */
  function HomeCount<K(!new)>(hash: K -> nat, order: seq<Handle<K>>, n: nat, b: nat, k: nat): nat
    requires n > 0 && k <= |order|
  {
    if k == 0 then 0 else HomeCount(hash, order, n, b, k - 1) + (if Home(hash, order[k - 1], n) == b then 1 else 0)
  }

  function HomeTotal<K(!new)>(hash: K -> nat, order: seq<Handle<K>>, n: nat, m: nat, k: nat): nat
    requires n > 0 && k <= |order|
  {
    if m == 0 then 0 else HomeTotal(hash, order, n, m - 1, k) + HomeCount(hash, order, n, m - 1, k)
  }

  lemma {:induction false} HomeTotalStep<K(!new)>(hash: K -> nat, order: seq<Handle<K>>, n: nat, m: nat, k: nat)
    requires n > 0 && 0 < k <= |order|
    ensures HomeTotal(hash, order, n, m, k) == HomeTotal(hash, order, n, m, k - 1) + (if Home(hash, order[k - 1], n) < m then 1 else 0)
  {
    if m > 0 { HomeTotalStep(hash, order, n, m - 1, k); }
  }

  lemma {:induction false} HomeTotalZero<K(!new)>(hash: K -> nat, order: seq<Handle<K>>, n: nat, m: nat)
    requires n > 0
    ensures HomeTotal(hash, order, n, m, 0) == 0
  {
    if m > 0 { HomeTotalZero(hash, order, n, m - 1); }
  }

  lemma {:induction false} HomesPartition<K(!new)>(hash: K -> nat, order: seq<Handle<K>>, n: nat, k: nat)
    requires n > 0 && k <= |order|
    ensures HomeTotal(hash, order, n, n, k) == k
  {
    if k == 0 {
      HomeTotalZero(hash, order, n, n);
    } else {
      HomesPartition(hash, order, n, k - 1);
      HomeTotalStep(hash, order, n, n, k);
    }
  }

  lemma {:induction false} DistinctCard<T>(s: seq<T>)
    requires Distinct(s)
    ensures |set x | x in s| == |s|
  {
    if |s| > 0 {
      var r := s[..|s| - 1];
      DistinctCard(r);
      var last := s[|s| - 1];
      assert s == r + [last];
      assert (set x | x in s) == (set x | x in r) + {last};
      assert last !in r;
    }
  }

  ghost function AtHome<K(!new)>(hash: K -> nat, items: seq<Handle<K>>, n: nat, b: nat): set<Handle<K>>
    requires n > 0
  {
    set h | h in items && Home(hash, h, n) == b
  }

  lemma AtHomeGrows<K(!new)>(hash: K -> nat, items: seq<Handle<K>>, n: nat, b: nat, h: Handle<K>)
    requires n > 0 && h !in items
    ensures |AtHome(hash, items + [h], n, b)| == |AtHome(hash, items, n, b)| + (if Home(hash, h, n) == b then 1 else 0)
  {
    var before := AtHome(hash, items, n, b);
    assert AtHome(hash, items + [h], n, b) == if Home(hash, h, n) == b then before + {h} else before;
  }

  lemma {:induction false} HomeCard<K(!new)>(hash: K -> nat, order: seq<Handle<K>>, n: nat, b: nat, k: nat)
    requires n > 0 && k <= |order| && Distinct(order)
    ensures HomeCount(hash, order, n, b, k) == |AtHome(hash, order[..k], n, b)|
  {
    if k > 0 {
      HomeCard(hash, order, n, b, k - 1);
      assert order[..k] == order[..k - 1] + [order[k - 1]];
      AtHomeGrows(hash, order[..k - 1], n, b, order[k - 1]);
    }
  }

  /** A chain is as long as there are items of its bucket. */
  lemma ChainLength<K(!new)>(hash: K -> nat, order: seq<Handle<K>>, chains: seq<seq<Handle<K>>>, bkts: seq<Bucket<K>>, b: nat)
    requires ChainsFit(hash, order, chains, bkts) && Complete(hash, order, chains) && Distinct(order) && b < |chains|
    ensures bkts[b].count == HomeCount(hash, order, |chains|, b, |order|)
  {
    assert BucketFits(hash, bkts[b], chains[b], b, |chains|);
    HomeCard(hash, order, |chains|, b, |order|);
    DistinctCard(chains[b]);
    assert order[..|order|] == order;
    var items := AtHome(hash, order, |chains|, b);
    forall h | h in items ensures h in chains[b] {
      var i :| 0 <= i < |order| && order[i] == h;
      assert order[i] in chains[Home(hash, order[i], |chains|)];
    }
    assert items == set x | x in chains[b];
  }

  lemma {:induction false} ChainTotalIsHomeTotal<K(!new)>(hash: K -> nat, order: seq<Handle<K>>, chains: seq<seq<Handle<K>>>, bkts: seq<Bucket<K>>, m: nat)
    requires ChainsFit(hash, order, chains, bkts) && Complete(hash, order, chains) && Distinct(order)
    requires m <= |chains| == |bkts|
    ensures ChainTotal(bkts, m) == HomeTotal(hash, order, |chains|, m, |order|)
  {
    hide ChainsFit, Complete, HomeCount, Home;
    if m > 0 {
      ChainTotalIsHomeTotal(hash, order, chains, bkts, m - 1);
      ChainLength(hash, order, chains, bkts, m - 1);
    }
  }

  /** In every valid table the bucket counts add up to the number of items, as HASH_FSCK demands. */
  lemma CountsAddUp<K(!new)>(t: Table<K>)
    requires t.Valid() && t.head != null
    ensures ChainTotal(t.buckets[..], t.buckets.Length) == t.numItems == |t.order|
  {
    ChainHeads(t.hash, t.order, t.chains, t.buckets[..]);
    ChainTotalIsHomeTotal(t.hash, t.order, t.chains, t.buckets[..], |t.chains|);
    HomesPartition(t.hash, t.order, |t.chains|, |t.order|);
  }

  /** An expansion sends each item of old bucket i to bucket i or i + n. */
  lemma ExpansionSplitsBucket<K(!new)>(hash: K -> nat, h: Handle<K>, log2: nat)
    ensures var n := Pow2(log2); Home(hash, h, 2 * n) == Home(hash, h, n) || Home(hash, h, 2 * n) == Home(hash, h, n) + n
  {
    DoubledBucket(hash(h.key), log2);
  }

  /** One round of HASH_ITER with a deletion: el is the first item, tmp the one after it. */
  method DeleteFirst<K(!new, ==)>(t: Table<K>, el: Handle<K>, tmp: Handle?<K>) returns (el2: Handle?<K>, tmp2: Handle?<K>)
    requires t.Valid() && IterAt(t.order, el, tmp)
    modifies t, t.buckets, t.order
    ensures t.Valid() && t.buckets == old(t.buckets) && t.order == old(t.order)[1..] && old(t.order)[0] == el
    ensures IterAt(t.order, el2, tmp2)
  {
    hide *;
    ghost var items := t.order;
    t.ValidParts();
    IterFirst(items, el, tmp);
    t.Delete(el);
    RestAfter(items, t.order, el);
    t.ValidParts();
    el2 := tmp;
    tmp2 := null;
    IterNext(items, t.order, el, tmp);
    if tmp != null {
      tmp2 := tmp.next;
    }
    IterReached(t.order, el2, tmp2);
  }

  /** The pair of cursors of HASH_ITER on a list: its first item and the one after. */
  ghost predicate IterAt<K(!new)>(order: seq<Handle<K>>, el: Handle?<K>, tmp: Handle?<K>) {
    el == First(order) && tmp == if |order| > 1 then order[1] else null
  }

  lemma IterFirst<K(!new)>(order: seq<Handle<K>>, el: Handle<K>, tmp: Handle?<K>)
    requires IterAt(order, el, tmp)
    ensures |order| > 0 && order[0] == el && el in order
  {
  }

  lemma IterNext<K(!new)>(order: seq<Handle<K>>, rest: seq<Handle<K>>, el: Handle<K>, tmp: Handle?<K>)
    requires IterAt(order, el, tmp) && rest == order[1..]
    ensures tmp == First(rest) && (tmp == null <==> rest == []) && (tmp != null ==> rest[0] == tmp)
  {
  }

  lemma IterReached<K(!new)>(order: seq<Handle<K>>, el: Handle?<K>, tmp: Handle?<K>)
    requires el == First(order) && (el == null <==> order == [])
    requires order == [] ==> tmp == null
    requires order != [] ==> AppLinked(order) && el == order[0] && tmp == el.next
    ensures IterAt(order, el, tmp)
  {
  }

  /** HASH_ITER with a deletion in its body: every item is visited once, in application order, and the table ends empty. */
  method Drain<K(!new, ==)>(t: Table<K>) returns (visited: seq<Handle<K>>)
    requires t.Valid()
    modifies t, t.buckets, t.order
    ensures t.Valid() && t.order == [] && visited == old(t.order)
  {
    hide *;
    visited := [];
    ghost var items := t.order;
    t.ValidParts();
    var el, tmp := t.head, null;
    if el != null {
      tmp := el.next;
    }
    HeadIsFirst(t.order, el);
    IterReached(t.order, el, tmp);
    while el != null
      invariant t.Valid() && t.buckets == old(t.buckets) && |visited| <= |items|
      invariant t.order == items[|visited|..] && visited == items[..|visited|]
      invariant IterAt(t.order, el, tmp)
      decreases |t.order|
    {
      IterFirst(t.order, el, tmp);
      visited := visited + [el];
      el, tmp := DeleteFirst(t, el, tmp);
    }
    IterDone(t.order, tmp);
  }

  lemma HeadIsFirst<K(!new)>(order: seq<Handle<K>>, el: Handle?<K>)
    requires el == null ==> order == []
    requires el != null ==> |order| > 0 && el == order[0]
    ensures el == First(order)
  {
  }

  lemma IterDone<K(!new)>(order: seq<Handle<K>>, tmp: Handle?<K>)
    requires IterAt(order, null, tmp)
    ensures order == []
  {
  }

  lemma RestAfter<K(!new)>(order: seq<Handle<K>>, order2: seq<Handle<K>>, el: Handle<K>)
    requires |order| > 0 && order[0] == el && KeysDistinct(order)
    requires exists k :: 0 <= k < |order| && order[k] == el && order2 == Removed(order, k)
    ensures order2 == order[1..] && order == [el] + order2
  {
  }

  // ----- Runs -----

  /** One use of the table: add an item, delete the item of a key, or look a key up. */
  datatype Op<K(!new, ==)> = AddItem(item: Handle<K>) | DeleteKey(which: K) | FindKey(which: K) {
    function Key(): K { if AddItem? then item.key else which }

    function Items(): set<Handle<K>> { if AddItem? then {item} else {} }
  }

  /** What a finite map answers for a key. */
  function Lookup<K(!new, ==)>(m: map<K, Handle<K>>, key: K): Handle?<K> { if key in m then m[key] else null }

  /** What an operation makes of a finite map; an item is added only when its key is not there yet. */
  function Applied<K(!new, ==)>(m: map<K, Handle<K>>, op: Op<K>): map<K, Handle<K>> {
    match op
    case AddItem(item) => if item.key in m then m else m[item.key := item]
    case DeleteKey(key) => m - {key}
    case FindKey(_) => m
  }

  /** The finite map after the first k operations. */
  function MapAfter<K(!new, ==)>(m: map<K, Handle<K>>, ops: seq<Op<K>>, k: nat): map<K, Handle<K>>
    requires k <= |ops|
  {
    if k == 0 then m else Applied(MapAfter(m, ops, k - 1), ops[k - 1])
  }

  function ItemsOf<K(!new, ==)>(ops: seq<Op<K>>): set<Handle<K>> {
    set i, h | 0 <= i < |ops| && h in ops[i].Items() :: h
  }

  ghost predicate Holds<K(!new)>(order: seq<Handle<K>>, m: map<K, Handle<K>>) {
    KeysDistinct(order) && Model(order) == m
  }

  /** What an operation makes of the buckets, with m the finite map before it. */
  ghost predicate OpDone<K(!new)>(hash: K -> nat, m: map<K, Handle<K>>, op: Op<K>, l: Load<K>, l2: Load<K>) {
    match op
    case AddItem(item) => if item.key in m then l2 == l else StartsGrowing(hash, l, l2, item)
    case DeleteKey(key) => if key in m then |l.bkts| > 0 && RemovedFrom(l, l2, BucketOf(hash(key), |l.bkts|)) else l2 == l
    case FindKey(_) => l2 == l
  }

  /** An item goes to the bucket of its hash; the first one to a new table. */
  ghost predicate StartsGrowing<K(!new)>(hash: K -> nat, l: Load<K>, l2: Load<K>, h: Handle<K>) {
    var l1 := if l.bkts == [] then Fresh() else l;
    |l1.bkts| > 0 && AddedTo(l1, l2, BucketOf(hash(h.key), |l1.bkts|), h)
  }

  /** The buckets before the run, and after each of its operations so far. */
  ghost predicate Traced<K(!new)>(hash: K -> nat, m: map<K, Handle<K>>, ops: seq<Op<K>>, trace: seq<Load<K>>) {
    && 0 < |trace| <= |ops| + 1
    && forall i :: 0 <= i < |trace| - 1 ==> OpDone(hash, MapAfter(m, ops, i), ops[i], trace[i], trace[i + 1])
  }

  lemma TraceStarts<K(!new)>(hash: K -> nat, m: map<K, Handle<K>>, ops: seq<Op<K>>, l: Load<K>)
    ensures Traced(hash, m, ops, [l])
  {
  }

  lemma TraceGrows<K(!new)>(hash: K -> nat, m: map<K, Handle<K>>, ops: seq<Op<K>>, trace: seq<Load<K>>, n: nat, l: Load<K>)
    requires n < |ops| && |trace| == n + 1 && Traced(hash, m, ops, trace) && OpDone(hash, MapAfter(m, ops, n), ops[n], trace[n], l)
    ensures Traced(hash, m, ops, trace + [l])
  {
    hide OpDone, MapAfter;
  }

  // ----- When the table expands -----

  /**
   * What keeps look-ups short: after an item is added and as long as the table may expand, the chain it went to is shorter than
   * its bucket allows, or the buckets have just doubled.
   */
  lemma AddKeepsChainShort<K(!new)>(hash: K -> nat, m: map<K, Handle<K>>, op: Op<K>, l: Load<K>, l2: Load<K>)
    requires OpDone(hash, m, op, l, l2) && op.AddItem? && op.item.key !in m && !l2.noexpand
    ensures |l2.bkts| > 0
    ensures var bkt := l2.bkts[BucketOf(hash(op.item.key), |l2.bkts|)];
            || bkt.count < (bkt.expandMult + 1) * HASH_BKT_CAPACITY_THRESH
            || (l.bkts != [] && |l2.bkts| == 2 * |l.bkts|)
  {
    hide Doubled, BucketOf;
    FreshSize<K>();
    DoubledParts(l.(items := l.items + 1), l2);
    DoubledParts(Fresh<K>().(items := 1), l2);
  }

  lemma DoubledParts<K(!new)>(l: Load<K>, l2: Load<K>)
    ensures Doubled(l, l2) ==> |l2.bkts| == 2 * |l.bkts| && l2.ineff == (if Ineffective(l2) then l.ineff + 1 else 0) && l2.noexpand == (l2.ineff > 1)
  {
    hide IsCeil, Counted;
  }

  /** More than half the items are beyond the ideal length of their chains. */
  predicate Ineffective<K(!new)>(l: Load<K>) { l.nonideal > l.items / 2 }

  /** While a table still has its initial buckets none of them has ever been full. */
  ghost predicate Settled<K(!new)>(l: Load<K>) {
    && (l.noexpand <==> l.ineff > 1)
    && (l.bkts != [] ==> |l.bkts| >= HASH_INITIAL_NUM_BUCKETS)
    && (|l.bkts| <= HASH_INITIAL_NUM_BUCKETS ==> l.ineff == 0)
    && (|l.bkts| == HASH_INITIAL_NUM_BUCKETS ==> forall b :: 0 <= b < |l.bkts| ==> l.bkts[b].expandMult == 0 && l.bkts[b].count < HASH_BKT_CAPACITY_THRESH)
  }

  /** How an operation changes the number of buckets and the count of ineffective expansions. */
  ghost predicate Steps<K(!new)>(l: Load<K>, l2: Load<K>) {
    || (l2.bkts == [] && l2.ineff == 0)
    || (l.bkts == [] && |l2.bkts| == HASH_INITIAL_NUM_BUCKETS && l2.ineff == 0)
    || (l.bkts != [] && |l2.bkts| == |l.bkts| && l2.ineff == l.ineff)
    || (l.bkts != [] && !l.noexpand && |l2.bkts| == 2 * |l.bkts| && l2.ineff == (if Ineffective(l2) then l.ineff + 1 else 0))
  }

  lemma StepSettles<K(!new)>(hash: K -> nat, m: map<K, Handle<K>>, op: Op<K>, l: Load<K>, l2: Load<K>)
    requires OpDone(hash, m, op, l, l2) && Settled(l) && (l.bkts == [] ==> l.ineff == 0)
    ensures Settled(l2) && Steps(l, l2) && (l2.bkts == [] ==> l2.ineff == 0)
  {
    hide Doubled, BucketOf;
    FreshSize<K>();
    DoubledParts(l.(items := l.items + 1), l2);
    DoubledParts(Fresh<K>().(items := 1), l2);
  }

  /** On a trace that starts without items. */
  lemma {:induction false} TraceSettles<K(!new)>(hash: K -> nat, m: map<K, Handle<K>>, ops: seq<Op<K>>, trace: seq<Load<K>>, n: nat)
    requires Traced(hash, m, ops, trace) && trace[0] == Unloaded() && n < |trace|
    ensures Settled(trace[n]) && (trace[n].bkts == [] ==> trace[n].ineff == 0)
    ensures forall i :: 0 <= i < n ==> Steps(trace[i], trace[i + 1])
  {
    hide OpDone, MapAfter, Steps;
    if n > 0 {
      TraceSettles(hash, m, ops, trace, n - 1);
      StepSettles(hash, MapAfter(m, ops, n - 1), ops[n - 1], trace[n - 1], trace[n]);
    }
  }

  /** The tenth item of a chain is never on the initial buckets: a table that has not expanded has fewer in each. */
  lemma InitialChainsShort<K(!new)>(hash: K -> nat, m: map<K, Handle<K>>, ops: seq<Op<K>>, trace: seq<Load<K>>, n: nat, b: nat)
    requires Traced(hash, m, ops, trace) && trace[0] == Unloaded() && n < |trace|
    requires |trace[n].bkts| == HASH_INITIAL_NUM_BUCKETS && b < HASH_INITIAL_NUM_BUCKETS
    ensures trace[n].bkts[b].count < HASH_BKT_CAPACITY_THRESH
  {
    hide Traced;
    TraceSettles(hash, m, ops, trace, n);
  }

  ghost predicate Doubles<K(!new)>(trace: seq<Load<K>>, i: nat) {
    i + 1 < |trace| && trace[i].bkts != [] && |trace[i + 1].bkts| == 2 * |trace[i].bkts|
  }

  /** Operation i doubles the buckets, and is the last before state n to do so; the table has had items ever since. */
  ghost predicate LastDoubling<K(!new)>(trace: seq<Load<K>>, i: nat, n: nat) {
    && i < n < |trace| && Doubles(trace, i)
    && (forall x :: i < x < n ==> !Doubles(trace, x)) && (forall x :: i < x <= n ==> trace[x].bkts != [])
  }

  /** Nothing but a doubling changes the count of ineffective expansions. */
  lemma {:induction false} CountStays<K(!new)>(trace: seq<Load<K>>, i: nat, n: nat)
    requires LastDoubling(trace, i, n) && forall x :: 0 <= x < n ==> Steps(trace[x], trace[x + 1])
    ensures trace[n].ineff == trace[i + 1].ineff
    ensures trace[i + 1].ineff == if Ineffective(trace[i + 1]) then trace[i].ineff + 1 else 0
  {
    assert Steps(trace[n - 1], trace[n]);
    if i + 1 < n {
      CountStays(trace, i, n - 1);
      assert !Doubles(trace, n - 1) && trace[n - 1].bkts != [] && trace[n].bkts != [];
    }
  }

  lemma {:induction false} LastDoublingFound<K(!new)>(trace: seq<Load<K>>, n: nat) returns (i: nat)
    requires n < |trace| && trace[0].ineff == 0 && trace[n].ineff > 0 && forall x :: 0 <= x < n ==> Steps(trace[x], trace[x + 1])
    requires forall x :: 0 <= x <= n && trace[x].bkts == [] ==> trace[x].ineff == 0
    ensures LastDoubling(trace, i, n)
  {
    i := n - 1;
    assert Steps(trace[n - 1], trace[n]);
    if !Doubles(trace, n - 1) {
      i := LastDoublingFound(trace, n - 1);
    }
  }

  /** Operations i and j were the last two to double the buckets before state n, and both in vain. */
  ghost predicate StoppedBy<K(!new)>(trace: seq<Load<K>>, i: nat, j: nat, n: nat) {
    LastDoubling(trace, j, n) && LastDoubling(trace, i, j) && Ineffective(trace[i + 1]) && Ineffective(trace[j + 1])
  }

  lemma TwoInVain<K(!new)>(trace: seq<Load<K>>, i: nat, j: nat, n: nat)
    requires StoppedBy(trace, i, j, n) && forall x :: 0 <= x < n ==> Steps(trace[x], trace[x + 1])
    ensures trace[n].ineff > 1
  {
    hide Steps, Doubles, Ineffective;
    CountStays(trace, j, n);
    CountStays(trace, i, j);
  }

  /** The table stops expanding exactly when the last two expansions, one after the other, were ineffective. */
  lemma NoexpandIff<K(!new)>(hash: K -> nat, m: map<K, Handle<K>>, ops: seq<Op<K>>, trace: seq<Load<K>>, n: nat)
    requires Traced(hash, m, ops, trace) && trace[0] == Unloaded() && n < |trace|
    ensures trace[n].noexpand <==> exists i, j :: StoppedBy(trace, i, j, n)
  {
    hide Traced, Steps, Doubles, LastDoubling, Ineffective;
    forall x | 0 <= x <= n ensures Settled(trace[x]) && (trace[x].bkts == [] ==> trace[x].ineff == 0) { TraceSettles(hash, m, ops, trace, x); }
    TraceSettles(hash, m, ops, trace, n);
    if trace[n].noexpand {
      var j := LastDoublingFound(trace, n);
      LastDoublingAt(trace, j, n);
      CountStays(trace, j, n);
      var i := LastDoublingFound(trace, j);
      LastDoublingAt(trace, i, j);
      CountStays(trace, i, j);
      assert StoppedBy(trace, i, j, n);
    }
    hide StoppedBy;
    if i, j :| StoppedBy(trace, i, j, n) { TwoInVain(trace, i, j, n); }
  }

  lemma LastDoublingAt<K(!new)>(trace: seq<Load<K>>, i: nat, n: nat)
    requires LastDoubling(trace, i, n)
    ensures i < n < |trace|
  {
  }

  /** Once noexpand is set, and as long as items are left, the number of buckets stays. */
  lemma NoexpandStays<K(!new)>(hash: K -> nat, m: map<K, Handle<K>>, ops: seq<Op<K>>, trace: seq<Load<K>>, i: nat, n: nat)
    requires Traced(hash, m, ops, trace) && i <= n < |trace| && trace[i].noexpand && forall x :: i <= x <= n ==> trace[x].bkts != []
    ensures trace[n].noexpand && |trace[n].bkts| == |trace[i].bkts|
  {
    hide OpDone, MapAfter;
    if i < n {
      NoexpandStays(hash, m, ops, trace, i, n - 1);
      StepStays(hash, MapAfter(m, ops, n - 1), ops[n - 1], trace[n - 1], trace[n]);
    }
  }

  lemma StepStays<K(!new)>(hash: K -> nat, m: map<K, Handle<K>>, op: Op<K>, l: Load<K>, l2: Load<K>)
    requires OpDone(hash, m, op, l, l2) && l.noexpand && l.bkts != [] && l2.bkts != []
    ensures l2.noexpand && |l2.bkts| == |l.bkts|
  {
    hide Doubled, BucketOf;
  }

  // ----- Runs in place -----

  /**
   * Any run of additions of fresh keys, deletions and look-ups, whatever the hash: the table stays valid across all
   * expansions, holds exactly what the finite map of the run holds, and every look-up returns the item the map would.
   */
  method Run<K(!new, ==)>(hash: K -> nat, ops: seq<Op<K>>) returns (t: Table<K>, found: seq<Handle?<K>>, ghost trace: seq<Load<K>>)
    modifies ItemsOf(ops)
    ensures t.Valid() && Holds(t.order, MapAfter(map[], ops, |ops|))
    ensures |found| == |ops| && forall i :: 0 <= i < |ops| ==> found[i] == Lookup(MapAfter(map[], ops, i), ops[i].Key())
    ensures |trace| == |ops| + 1 && trace[0] == Unloaded() && trace[|ops|] == t.LoadNow() && Traced(hash, map[], ops, trace)
  {
    hide *;
    t := new Table(hash);
    EmptyModel(t.order);
    found, trace := RunOn(t, ops);
  }

  /** A run on any valid table, with the trace of its buckets. */
  method RunOn<K(!new, ==)>(t: Table<K>, ops: seq<Op<K>>) returns (found: seq<Handle?<K>>, ghost trace: seq<Load<K>>)
    requires t.Valid() && KeysDistinct(t.order)
    modifies t, t.buckets, t.order, ItemsOf(ops)
    ensures t.Valid() && Holds(t.order, MapAfter(old(Model(t.order)), ops, |ops|))
    ensures |found| == |ops| && forall i :: 0 <= i < |ops| ==> found[i] == Lookup(MapAfter(old(Model(t.order)), ops, i), ops[i].Key())
    ensures |trace| == |ops| + 1 && trace[0] == old(t.LoadNow()) && trace[|ops|] == t.LoadNow()
    ensures Traced(t.hash, old(Model(t.order)), ops, trace)
  {
    hide *;
    ghost var m := Model(t.order);
    trace := [t.LoadNow()];
    TraceStarts(t.hash, m, ops, t.LoadNow());
    found := [];
    StartsWith(t.order, ops);
    for i := 0 to |ops|
      invariant t.buckets == old(t.buckets) || fresh(t.buckets)
      invariant forall h :: h in t.order ==> h in old(t.order) || h in ItemsOf(ops)
      invariant t.Valid() && Holds(t.order, MapAfter(m, ops, i))
      invariant |found| == i && forall j :: 0 <= j < i ==> found[j] == Lookup(MapAfter(m, ops, j), ops[j].Key())
      invariant |trace| == i + 1 && trace[0] == old(t.LoadNow()) && trace[i] == t.LoadNow() && Traced(t.hash, m, ops, trace)
    {
      MapStep(t.order, m, ops, i);
      var out := Perform(t, ops[i]);
      HoldsNow(t.order, MapAfter(m, ops, i + 1));
      found := found + [out];
      TraceGrows(t.hash, m, ops, trace, i, t.LoadNow());
      trace := trace + [t.LoadNow()];
    }
  }

  /** One operation, preceded by a look-up as its callers do. */
  method Perform<K(!new, ==)>(t: Table<K>, op: Op<K>) returns (found: Handle?<K>)
    requires t.Valid() && KeysDistinct(t.order)
    modifies t, t.buckets, t.order, op.Items()
    ensures t.Valid() && KeysDistinct(t.order) && (t.buckets == old(t.buckets) || fresh(t.buckets))
    ensures forall h :: h in t.order ==> h in old(t.order) || h in op.Items()
    ensures found == Lookup(old(Model(t.order)), op.Key())
    ensures Model(t.order) == Applied(old(Model(t.order)), op)
    ensures OpDone(t.hash, old(Model(t.order)), op, old(t.LoadNow()), t.LoadNow())
  {
    hide *;
    ghost var items, l := t.order, t.LoadNow();
    LoadIsEmpty(t);
    ModelItems(items);
    LookupIs(Model(items), op);
    found := t.Find(op.Key());
    NothingDone(t.hash, Model(items), op, l);
    match op {
      case AddItem(item) =>
        if found == null {
          t.Add(item);
          AddDone(t.hash, Model(items), op, l, t.LoadNow());
        }
      case DeleteKey(key) =>
        if found != null {
          assert items != [] && found.key == key;
          t.Delete(found);
          RemovedSubset(items, t.order, found);
          DeleteDone(t.hash, Model(items), op, l, t.LoadNow());
        }
      case FindKey(_) =>
    }
    t.ValidParts();
  }

  lemma LoadIsEmpty<K(!new)>(t: Table<K>)
    requires t.Valid()
    ensures (if t.head == null then Fresh() else t.LoadNow()) == (if t.LoadNow().bkts == [] then Fresh() else t.LoadNow())
    ensures t.order != [] ==> |t.LoadNow().bkts| == t.buckets.Length
  {
  }

  lemma NothingDone<K(!new)>(hash: K -> nat, m: map<K, Handle<K>>, op: Op<K>, l: Load<K>)
    ensures op.FindKey? || (op.Key() in m <==> op.AddItem?) ==> OpDone(hash, m, op, l, l)
  {
  }

  lemma AddDone<K(!new)>(hash: K -> nat, m: map<K, Handle<K>>, op: Op<K>, l: Load<K>, l2: Load<K>)
    requires op.AddItem? && op.Key() !in m
    requires var l1 := if l.bkts == [] then Fresh() else l; |l1.bkts| > 0 && AddedTo(l1, l2, BucketOf(hash(op.item.key), |l1.bkts|), op.item)
    ensures OpDone(hash, m, op, l, l2)
  {
    hide AddedTo, Fresh;
  }

  lemma DeleteDone<K(!new)>(hash: K -> nat, m: map<K, Handle<K>>, op: Op<K>, l: Load<K>, l2: Load<K>)
    requires op.DeleteKey? && op.Key() in m && |l.bkts| > 0 && RemovedFrom(l, l2, BucketOf(hash(op.which), |l.bkts|))
    ensures OpDone(hash, m, op, l, l2)
  {
    hide RemovedFrom;
  }

  lemma ModelItems<K(!new)>(order: seq<Handle<K>>)
    requires KeysDistinct(order)
    ensures forall h :: h in order ==> h.key in Model(order)
    ensures forall k :: k in Model(order) ==> Model(order)[k] in order && Model(order)[k].key == k
  {
  }

  lemma LookupIs<K(!new)>(m: map<K, Handle<K>>, op: Op<K>)
    ensures Lookup(m, op.Key()) == if op.Key() in m then m[op.Key()] else null
    ensures op.AddItem? ==> op.Key() == op.item.key && op.Items() == {op.item}
    ensures op.AddItem? ==> Applied(m, op) == if op.Key() in m then m else m[op.Key() := op.item]
    ensures op.DeleteKey? ==> op.Key() == op.which && Applied(m, op) == m - {op.which} && (op.which !in m ==> Applied(m, op) == m)
    ensures op.FindKey? ==> Applied(m, op) == m
  {
  }

  lemma RemovedSubset<K(!new)>(order: seq<Handle<K>>, order2: seq<Handle<K>>, h: Handle<K>)
    requires exists k :: 0 <= k < |order| && order[k] == h && order2 == Removed(order, k)
    ensures forall x :: x in order2 ==> x in order
  {
  }

  lemma EmptyModel<K(!new)>(order: seq<Handle<K>>)
    requires order == []
    ensures KeysDistinct(order) && Model(order) == map[]
  {
  }

  lemma StartsWith<K(!new)>(order: seq<Handle<K>>, ops: seq<Op<K>>)
    requires KeysDistinct(order)
    ensures Holds(order, MapAfter(Model(order), ops, 0))
  {
  }

  lemma MapStep<K(!new)>(order: seq<Handle<K>>, m: map<K, Handle<K>>, ops: seq<Op<K>>, i: nat)
    requires i < |ops| && Holds(order, MapAfter(m, ops, i))
    ensures KeysDistinct(order) && Model(order) == MapAfter(m, ops, i) && MapAfter(m, ops, i + 1) == Applied(MapAfter(m, ops, i), ops[i])
    ensures ops[i].Items() <= ItemsOf(ops)
  {
    hide Model, Applied;
  }

  lemma HoldsNow<K(!new)>(order: seq<Handle<K>>, m: map<K, Handle<K>>)
    requires KeysDistinct(order) && Model(order) == m
    ensures Holds(order, m)
  {
  }
}
