/** The bundled hash table: intrusive handles on bucket chains and on one list in the order the application added them. */
module HashTable {
  import opened HashBits
  import opened HashLists

  const HASH_INITIAL_NUM_BUCKETS: nat := 32
  const HASH_INITIAL_NUM_BUCKETS_LOG2: nat := 5
  const HASH_BKT_CAPACITY_THRESH: nat := 10

  datatype Bucket<K(!new, ==)> = Bucket(head: Handle?<K>, count: nat, expandMult: nat)

  /** Which items are listed, and the chain and bucket each is on. */
  datatype Placement<!K(!new, ==)> = Placement(hash: K -> nat, order: seq<Handle<K>>, chains: seq<seq<Handle<K>>>, bkts: seq<Bucket<K>>)

  lemma {:induction false} AndAtMost(a: nat, b: nat)
    ensures And(a, b) <= b
    decreases b
  {
    if a > 0 && b > 0 { AndAtMost(a / 2, b / 2); }
  }

  /** HASH_TO_BKT */
  function BucketOf(hashv: nat, numBuckets: nat): (b: nat)
    requires numBuckets > 0
    ensures b < numBuckets
  {
    AndAtMost(hashv, numBuckets - 1);
    And(hashv, numBuckets - 1)
  }

  /** The bucket an item belongs to. */
  function Home<K(!new)>(hash: K -> nat, h: Handle<K>, n: nat): nat
    requires n > 0
  {
    BucketOf(hash(h.key), n)
  }

  /** Bucket b of n holds chain c: its head, its count, and only items that belong there. */
  ghost predicate BucketFits<K(!new)>(hash: K -> nat, bkt: Bucket<K>, c: seq<Handle<K>>, b: nat, n: nat)
    reads c`hhPrev, c`hhNext
  {
    && n > 0 && ChainLinked(c)
    && bkt.head == First(c) && bkt.count == |c|
    && forall i :: 0 <= i < |c| ==> Home(hash, c[i], n) == b
  }

  /** Every bucket fits its chain. */
  ghost predicate ChainsFit<K(!new)>(hash: K -> nat, order: seq<Handle<K>>, chains: seq<seq<Handle<K>>>, bkts: seq<Bucket<K>>)
    reads order`hhPrev, order`hhNext
  {
    && |chains| == |bkts| > 0
    && (forall b, i :: 0 <= b < |chains| && 0 <= i < |chains[b]| ==> chains[b][i] in order)
    && (forall b :: 0 <= b < |chains| ==> BucketFits(hash, bkts[b], chains[b], b, |chains|))
  }

  /** The chain of every listed item holds it. */
  ghost predicate Complete<K(!new)>(hash: K -> nat, order: seq<Handle<K>>, chains: seq<seq<Handle<K>>>)
  {
    |chains| > 0 && forall i :: 0 <= i < |order| ==> order[i] in chains[Home(hash, order[i], |chains|)]
  }

  /** The list in application order, with its head, tail and length. */
  ghost predicate AppFits<K(!new)>(order: seq<Handle<K>>, head: Handle?<K>, tail: Handle?<K>, numItems: nat)
    reads order`prev, order`next
  {
    && AppLinked(order) && |order| > 0
    && head == order[0] && tail == order[|order| - 1] && numItems == |order|
  }

  /** Every item carries the hash of its key, and no two the same key. */
  ghost predicate Keyed<K(!new)>(order: seq<Handle<K>>, hash: K -> nat)
    reads order`hashv
  {
    && (forall i :: 0 <= i < |order| ==> order[i].hashv == hash(order[i].key))
    && KeysDistinct(order)
  }

  ghost predicate KeysDistinct<K(!new)>(order: seq<Handle<K>>) {
    forall i, j :: 0 <= i < j < |order| ==> order[i].key != order[j].key
  }

  /** What the items represent: the finite map from keys to the handles that carry them. */
  ghost function Model<K(!new)>(order: seq<Handle<K>>): (m: map<K, Handle<K>>)
    requires KeysDistinct(order)
  {
    map h | h in order :: h.key := h
  }

  /** The buckets and the counters that steer the expansion; a table without items has no buckets. */
  datatype Load<K(!new, ==)> = Load(bkts: seq<Bucket<K>>, items: nat, ideal: nat, nonideal: nat, ineff: nat, noexpand: bool)

  /** HASH_MAKE_TABLE: empty buckets. */
  ghost function Fresh<K(!new)>(): Load<K> { Load(seq(HASH_INITIAL_NUM_BUCKETS, _ => Bucket(null, 0, 0)), 0, 0, 0, 0, false) }

  ghost function Unloaded<K(!new)>(): Load<K> { Load([], 0, 0, 0, 0, false) }

  /**
   * The buckets have doubled. An expansion that leaves more than half the items beyond the ideal length is ineffective, and
   * the second such in a row is the last.
   */
  ghost predicate Doubled<K(!new)>(l: Load<K>, l2: Load<K>) {
    && |l2.bkts| == 2 * |l.bkts| && l2.items == l.items
    && IsCeil(l2.ideal, l2.items, |l2.bkts|) && Counted(l2.bkts, l2.ideal, l2.nonideal)
    && l2.ineff == (if l2.nonideal > l2.items / 2 then l.ineff + 1 else 0)
    && l2.noexpand == (l2.ineff > 1)
  }

  /** Bucket b has got item h: its chain is one longer, unless that makes it too long for its bucket; then the buckets double. */
  ghost predicate AddedTo<K(!new)>(l: Load<K>, l2: Load<K>, b: nat, h: Handle<K>) {
    && b < |l.bkts|
    && var longer := l.bkts[b].count + 1;
       if !l.noexpand && longer >= (l.bkts[b].expandMult + 1) * HASH_BKT_CAPACITY_THRESH then Doubled(l.(items := l.items + 1), l2)
       else l2 == l.(bkts := l.bkts[b := Bucket(h, longer, l.bkts[b].expandMult)], items := l.items + 1)
  }

  /** Bucket b has lost an item; the last one takes the table with it. */
  ghost predicate RemovedFrom<K(!new)>(l: Load<K>, l2: Load<K>, b: nat) {
    && b < |l.bkts| && l.bkts[b].count > 0
    && if l.items == 1 then l2 == Unloaded()
       else && |l2.bkts| == |l.bkts| && l.items > 0
            && l2 == l.(bkts := l.bkts[b := Bucket(l2.bkts[b].head, l.bkts[b].count - 1, l.bkts[b].expandMult)], items := l.items - 1)
  }

  class Table<K(!new, ==)> {
    const hash: K -> nat
    var head: Handle?<K>
    var tail: Handle?<K>
    var buckets: array<Bucket<K>>
    var log2NumBuckets: nat
    var numItems: nat
    var idealChainMaxlen: nat
    var nonidealItems: nat
    var ineffExpands: nat
    var noexpand: bool
    ghost var order: seq<Handle<K>>
    ghost var chains: seq<seq<Handle<K>>>

    ghost predicate Valid()
      reads this, buckets, order
    {
      if head == null then order == []
      else
        && AppFits(order, head, tail, numItems)
        && ChainsFit(hash, order, chains, buckets[..]) && Complete(hash, order, chains)
        && buckets.Length == Pow2(log2NumBuckets)
        && Keyed(order, hash)
    }

    ghost function LoadNow(): Load<K>
      reads this, buckets
    {
      if head == null then Unloaded() else Load(buckets[..], numItems, idealChainMaxlen, nonidealItems, ineffExpands, noexpand)
    }

    constructor (hash: K -> nat)
      ensures LoadNow() == Unloaded()
      ensures Valid() && order == [] && this.hash == hash && fresh(buckets)
    {
      this.hash := hash;
      head, tail := null, null;
      buckets := new Bucket<K>[0];
      order, chains := [], [];
    }

    /** HASH_FIND: what the finite map holds for the key, or nothing. */
    method Find(key: K) returns (out: Handle?<K>)
      requires Valid()
      ensures key !in Model(order) ==> out == null
      ensures key in Model(order) ==> out == Model(order)[key]
    {
      out := null;
      if head != null {
        var hashv := hash(key);
        ghost var c := chains[BucketOf(hashv, buckets.Length)];
        out := FindInBucket(buckets[BucketOf(hashv, buckets.Length)].head, c, key, hashv);
        FindIsModel(hash, order, chains, key, out);
      }
    }

    /** HASH_ADD_TO_BKT without the expansion test */
    method AddToBucket(h: Handle<K>, b: nat)
      requires ChainsFit(hash, order, chains, buckets[..]) && b < |chains|
      requires h in order && Home(hash, h, |chains|) == b && h !in chains[b]
      modifies this`chains, buckets, h`hhPrev, h`hhNext, chains[b]`hhPrev
      ensures chains == old(chains)[b := [h] + old(chains)[b]]
      ensures ChainsFit(hash, order, chains, buckets[..])
      ensures b < buckets.Length && buckets[..] == old(buckets[..])[b := Bucket(h, old(buckets[..])[b].count + 1, old(buckets[..])[b].expandMult)]
    {
      ghost var c, bkts := chains[b], buckets[..];
      ghost var c2 := [h] + c;
      assert BucketFits(hash, bkts[b], c, b, |chains|);
      var bkt := buckets[b];
      bkt := bkt.(count := bkt.count + 1);
      PushFront(h, bkt.head, c);
      buckets[b] := bkt.(head := h);
      hide ChainLinked, BucketOf;
      OneBucketReplaced(Placement(hash, order, chains, bkts), b, c2, buckets[b]);
      assert buckets[..] == bkts[b := buckets[b]];
      chains := chains[b := c2];
    }

    /** HASH_DEL_IN_BKT */
    method DelInBucket(h: Handle<K>, b: nat, ghost k: nat)
      requires ChainsFit(hash, order, chains, buckets[..]) && b < |chains| && k < |chains[b]| && chains[b][k] == h
      modifies this`chains, buckets, chains[b]`hhPrev, chains[b]`hhNext
      ensures chains == old(chains)[b := Removed(old(chains)[b], k)]
      ensures ChainsFit(hash, order, chains, buckets[..])
      ensures b < buckets.Length && buckets[b].expandMult == old(buckets[..])[b].expandMult && buckets[b].count + 1 == old(buckets[..])[b].count
      ensures buckets[..] == old(buckets[..])[b := buckets[b]]
    {
      ghost var c, bkts := chains[b], buckets[..];
      assert BucketFits(hash, bkts[b], c, b, |chains|);
      RemovedFirst(c, k);
      var bkt := buckets[b];
      bkt := bkt.(count := bkt.count - 1);
      if bkt.head == h {
        bkt := bkt.(head := h.hhNext);
      }
      buckets[b] := bkt;
      hide ChainLinked, BucketOf;
      UnlinkFromChain(h, c, k);
      OneBucketReplaced(Placement(hash, order, chains, bkts), b, Removed(c, k), buckets[b]);
      assert buckets[..] == bkts[b := buckets[b]];
      chains := chains[b := Removed(c, k)];
    }

    /** HASH_EXPAND_BUCKETS */
    method ExpandBuckets()
      requires ChainsFit(hash, order, chains, buckets[..]) && Complete(hash, order, chains)
      requires buckets.Length == Pow2(log2NumBuckets) && numItems == |order|
      requires forall h :: h in order ==> h.hashv == hash(h.key)
      modifies this`buckets, this`log2NumBuckets, this`idealChainMaxlen, this`nonidealItems, this`ineffExpands, this`noexpand, this`chains
      modifies order`hhPrev, order`hhNext
      ensures fresh(buckets) && buckets.Length == 2 * old(buckets.Length) == Pow2(log2NumBuckets)
      ensures log2NumBuckets == old(log2NumBuckets) + 1
      ensures Expanded(hash, order, chains, buckets[..], idealChainMaxlen, nonidealItems)
      ensures IsCeil(idealChainMaxlen, numItems, buckets.Length)
      ensures ineffExpands == if nonidealItems > numItems / 2 then old(ineffExpands) + 1 else 0
      ensures noexpand == (old(noexpand) || ineffExpands > 1)
    {
      hide *;
      DoublePow2(log2NumBuckets);
      var n2 := 2 * buckets.Length;
      var newBuckets := new Bucket<K>[n2](_ => Bucket(null, 0, 0));
      var ideal := Shr(numItems, log2NumBuckets + 1) + (if And(numItems, n2 - 1) != 0 then 1 else 0);
      CeilOfItems(numItems, log2NumBuckets + 1, ideal);
      idealChainMaxlen := ideal;
      ghost var chains2;
      nonidealItems, chains2 := MoveAllChains(buckets, newBuckets, ideal, hash, order, chains);
      log2NumBuckets := log2NumBuckets + 1;
      buckets := newBuckets;
      chains := chains2;
      ShrIsDiv(numItems, 1);
      ineffExpands := if nonidealItems > Shr(numItems, 1) then ineffExpands + 1 else 0;
      if ineffExpands > 1 {
        noexpand := true;
      }
    }

    /** HASH_MAKE_TABLE: a table whose only item is not yet in a bucket. */
    method MakeTable(h: Handle<K>)
      requires h.hashv == hash(h.key)
      modifies this
      ensures head == h && tail == h && order == [h] && numItems == 0
      ensures fresh(buckets) && buckets.Length == Pow2(log2NumBuckets) == HASH_INITIAL_NUM_BUCKETS
      ensures ChainsFit(hash, order, chains, buckets[..]) && |chains| == buckets.Length && Complete(hash, [], chains)
      ensures forall b :: 0 <= b < |chains| ==> chains[b] == []
      ensures LoadNow() == Fresh()
    {
      hide *;
      tail := h;
      log2NumBuckets := HASH_INITIAL_NUM_BUCKETS_LOG2;
      buckets := new Bucket<K>[HASH_INITIAL_NUM_BUCKETS](_ => Bucket(null, 0, 0));
      numItems, idealChainMaxlen, nonidealItems, ineffExpands, noexpand := 0, 0, 0, 0, false;
      head := h;
      order := [h];
      chains := seq(HASH_INITIAL_NUM_BUCKETS, _ => []);
      InitialPow2();
      EmptyFits(hash, order, chains, buckets[..]);
      assert LoadNow() == Fresh() by { FreshLoad(); }
    }

    lemma FreshLoad()
      requires head != null && numItems == 0 && idealChainMaxlen == 0 && nonidealItems == 0 && ineffExpands == 0 && !noexpand
      requires buckets.Length == HASH_INITIAL_NUM_BUCKETS && forall b :: 0 <= b < buckets.Length ==> buckets[b] == Bucket(null, 0, 0)
      ensures LoadNow() == Fresh()
    {
      assert buckets[..] == Fresh<K>().bkts;
    }

    /** HASH_ADD_TO_TABLE: put the last listed item in its bucket, and expand when the bucket is too full. */
    method AddToTable(h: Handle<K>)
      requires AppFits(order, head, tail, numItems + 1) && order[|order| - 1] == h && Keyed(order, hash)
      requires ChainsFit(hash, order, chains, buckets[..]) && Complete(hash, order[..|order| - 1], chains)
      requires buckets.Length == Pow2(log2NumBuckets) && forall b :: 0 <= b < |chains| ==> h !in chains[b]
      modifies this`numItems, this`buckets, this`log2NumBuckets, this`idealChainMaxlen, this`nonidealItems, this`ineffExpands, this`noexpand, this`chains
      modifies buckets, order`hhPrev, order`hhNext
      ensures Valid() && (buckets == old(buckets) || fresh(buckets))
      ensures old(buckets.Length) > 0 && AddedTo(old(LoadNow()), LoadNow(), BucketOf(hash(h.key), old(buckets.Length)), h)
    {
      hide *;
      ghost var l := LoadNow();
      ChainHeads(hash, order, chains, buckets[..]);
      LastItem(hash, order, head, tail, numItems + 1, |chains|);
      LoadIs();
      numItems := numItems + 1;
      var b := BucketOf(h.hashv, buckets.Length);
      NowComplete(hash, order, chains, h);
      assert h.hashv == hash(h.key) by { KeyedHashes(order, hash); }
      AddToBucket(h, b);
      ghost var l1 := LoadNow();
      LoadIs();
      ExpandIfFull(b);
      IsValid();
      LoadAdded(l, l1, LoadNow(), b, h);
    }

    /** The expansion test of HASH_ADD_TO_BKT */
    method ExpandIfFull(b: nat)
      requires b < buckets.Length == Pow2(log2NumBuckets) && numItems == |order| && Keyed(order, hash) && head != null
      requires ChainsFit(hash, order, chains, buckets[..]) && Complete(hash, order, chains)
      modifies this`buckets, this`log2NumBuckets, this`idealChainMaxlen, this`nonidealItems, this`ineffExpands, this`noexpand, this`chains
      modifies order`hhPrev, order`hhNext
      ensures buckets == old(buckets) || fresh(buckets)
      ensures ChainsFit(hash, order, chains, buckets[..]) && Complete(hash, order, chains) && buckets.Length == Pow2(log2NumBuckets)
      ensures if !old(noexpand) && old(buckets[b].count) >= (old(buckets[b].expandMult) + 1) * HASH_BKT_CAPACITY_THRESH
              then Doubled(old(LoadNow()), LoadNow()) else LoadNow() == old(LoadNow())
    {
      hide *;
      ghost var l := LoadNow();
      LoadIs();
      if buckets[b].count >= (buckets[b].expandMult + 1) * HASH_BKT_CAPACITY_THRESH && !noexpand {
        KeyedHashes(order, hash);
        ExpandBuckets();
        ExpandedParts(hash, order, chains, buckets[..], idealChainMaxlen, nonidealItems);
        LoadIs();
        IsDoubled(l, LoadNow());
      }
    }

    lemma LoadIs()
      requires head != null
      ensures LoadNow() == Load(buckets[..], numItems, idealChainMaxlen, nonidealItems, ineffExpands, noexpand)
    {
    }

    lemma IsValid()
      requires head != null && AppFits(order, head, tail, numItems) && Keyed(order, hash)
      requires ChainsFit(hash, order, chains, buckets[..]) && Complete(hash, order, chains) && buckets.Length == Pow2(log2NumBuckets)
      ensures Valid()
    {
    }

    /** HASH_ADD: append the item to the list, then put it in its bucket. */
    method Add(h: Handle<K>)
      requires Valid() && h !in order && forall x :: x in order ==> x.key != h.key
      modifies this, buckets, order, h
      ensures Valid() && order == old(order) + [h] && (buckets == old(buckets) || fresh(buckets))
      ensures Model(order) == old(Model(order))[h.key := h]
      ensures var l := if old(head) == null then Fresh() else old(LoadNow());
              |l.bkts| > 0 && AddedTo(l, LoadNow(), BucketOf(hash(h.key), |l.bkts|), h)
    {
      hide *;
      ghost var items := order;
      LoadParts();
      FreshSize<K>();
      ValidParts();
      ModelGrows(items, h);
      h.hashv := hash(h.key);
      KeyedGrows(items, hash, h);
      if head == null {
        assert items + [h] == [h];
        AddFirst(h);
      } else {
        AppendItem(h);
      }
    }

    /** HASH_ADD to a table without items. */
    method AddFirst(h: Handle<K>)
      requires h.hashv == hash(h.key) && Keyed([h], hash)
      modifies this, h
      ensures Valid() && order == [h] && fresh(buckets)
      ensures |Fresh<K>().bkts| > 0 && AddedTo(Fresh(), LoadNow(), BucketOf(hash(h.key), |Fresh<K>().bkts|), h)
    {
      hide *;
      FreshSize<K>();
      h.next := null;
      h.prev := null;
      MakeTable(h);
      OneItem(h);
      assert order[..|order| - 1] == [];
      AddToTable(h);
    }

    /** HASH_ADD to a table that already has items. */
    method AppendItem(h: Handle<K>)
      requires Valid() && head != null && h !in order && Keyed(order + [h], hash)
      modifies this, buckets, order, h
      ensures Valid() && order == old(order) + [h] && (buckets == old(buckets) || fresh(buckets))
      ensures old(buckets.Length) > 0 && AddedTo(old(LoadNow()), LoadNow(), BucketOf(hash(h.key), old(buckets.Length)), h)
    {
      hide *;
      ghost var items := order;
      LoadIs();
      ValidParts();
      ListGrows(hash, items, chains, buckets[..], h);
      AppendBack(h, tail, order);
      tail := h;
      order := order + [h];
      AppGrows(items, head, h, numItems);
      SnocFront(items, h);
      LoadIs();
      AddToTable(h);
    }

    lemma LoadParts()
      ensures head == null ==> LoadNow() == Unloaded()
      ensures head != null ==> LoadNow() == Load(buckets[..], numItems, idealChainMaxlen, nonidealItems, ineffExpands, noexpand)
    {
    }

    /** HASH_DELETE: the last item takes the table with it, any other is unlinked from both lists. The bucket count and
        the counters of the expansion stay as they are. */
    method Delete(h: Handle<K>)
      requires Valid() && h in order
      modifies this`head, this`tail, this`numItems, this`order, this`chains, buckets, order
      ensures Valid() && buckets == old(buckets) && noexpand == old(noexpand)
      ensures old(buckets.Length) > 0 && RemovedFrom(old(LoadNow()), LoadNow(), BucketOf(hash(h.key), old(buckets.Length)))
      ensures exists k :: 0 <= k < |old(order)| && old(order)[k] == h && order == Removed(old(order), k)
      ensures Model(order) == old(Model(order)) - {h.key}
    {
      hide *;
      ValidParts();
      ghost var items := order;
      ghost var k :| 0 <= k < |items| && items[k] == h;
      DeletedModel(items, k);
      EndsOfList(items, k);
      LoadParts();
      if h.prev == null && h.next == null {
        OnlyItem(h);
        ghost var b := BucketOf(hash(h.key), buckets.Length);
        head := null;
        order := [];
        chains := [];
        NullIsValid();
        LoadParts();
        LastRemoved(old(LoadNow()), LoadNow(), b);
      } else {
        UnlinkItem(h, k);
      }
    }

    /** A deletion that leaves other items in the table. */
    method UnlinkItem(h: Handle<K>, ghost k: nat)
      requires Valid() && k < |order| && order[k] == h && |order| > 1
      modifies this`head, this`tail, this`numItems, this`order, this`chains, buckets, order
      ensures Valid() && order == Removed(old(order), k)
      ensures old(buckets.Length) > 0 && RemovedFrom(old(LoadNow()), LoadNow(), BucketOf(hash(h.key), old(buckets.Length)))
    {
      hide *;
      ValidParts();
      EndsOfList(order, k);
      LoadParts();
      RemovedHead(order, k);
      if h == tail {
        tail := h.prev;
      }
      if h.prev == null {
        head := h.next;
      }
      LoadParts();
      UnlinkFromApp(h, order, k);
      LoadParts();
      DeleteFromTable(h, k);
    }

    lemma NullIsValid()
      requires head == null && order == []
      ensures Valid()
    {
    }

    /** The table half of a deletion, once the item is off the application's list. */
    method DeleteFromTable(h: Handle<K>, ghost k: nat)
      requires k < |order| && order[k] == h && |order| > 1 && numItems == |order|
      requires AppLinked(Removed(order, k)) && head == Removed(order, k)[0] && tail == Removed(order, k)[|order| - 2]
      requires ChainsFit(hash, order, chains, buckets[..]) && Complete(hash, order, chains) && Keyed(order, hash)
      requires buckets.Length == Pow2(log2NumBuckets)
      modifies this`numItems, this`chains, this`order, buckets, order`hhPrev, order`hhNext
      ensures Valid() && order == Removed(old(order), k) && head == old(head)
      ensures old(buckets.Length) > 0 && RemovedFrom(old(LoadNow()), LoadNow(), BucketOf(hash(h.key), old(buckets.Length)))
    {
      hide *;
      ghost var l := LoadNow();
      RemovedHead(order, k);
      LoadParts();
      ghost var items, chains0, rest := order, chains, Removed(order, k);
      assert AppLinked(rest);
      ChainHeads(hash, order, chains, buckets[..]);
      KeyedHashes(order, hash);
      var b := BucketOf(h.hashv, buckets.Length);
      ghost var p := PlaceInChain(hash, order, chains, h);
      GoneFromChains(hash, order, chains, buckets[..], b, p);
      assert h.hashv == hash(h.key);
      DelInBucket(h, b, p);
      assert AppLinked(rest);
      numItems := numItems - 1;
      order := rest;
      DeletedFits(hash, items, k, chains, buckets[..]);
      DeletedKeyed(hash, items, k);
      DeletedComplete(hash, items, k, chains0, b, p);
      DeletedApp(items, k, head, tail, numItems);
      IsValid();
      LoadParts();
      OneRemoved(l, LoadNow(), b);
    }

    /** The only item of a table is in its bucket. */
    lemma OnlyItem(h: Handle<K>)
      requires Valid() && head != null && order == [h]
      ensures buckets.Length > 0 && numItems == 1 && buckets[BucketOf(hash(h.key), buckets.Length)].count > 0
    {
      ChainHeads(hash, order, chains, buckets[..]);
      var p := PlaceInChain(hash, order, chains, h);
      assert BucketFits(hash, buckets[..][Home(hash, h, |chains|)], chains[Home(hash, h, |chains|)], Home(hash, h, |chains|), |chains|);
    }

    lemma ValidParts()
      requires Valid()
      ensures head == null ==> order == []
      ensures head != null ==>
                && AppLinked(order) && |order| > 0 && head == order[0] && tail == order[|order| - 1] && numItems == |order|
                && ChainsFit(hash, order, chains, buckets[..]) && Complete(hash, order, chains)
                && buckets.Length == Pow2(log2NumBuckets)
      ensures Keyed(order, hash) && KeysDistinct(order)
    {
    }
  }

  lemma FreshSize<K(!new)>()
    ensures |Fresh<K>().bkts| == HASH_INITIAL_NUM_BUCKETS
  {
  }

  lemma RemovedHead<K(!new)>(order: seq<Handle<K>>, k: nat)
    requires k < |order| && |order| > 1
    ensures |Removed(order, k)| == |order| - 1
  {
  }

  lemma LoadAdded<K(!new)>(l: Load<K>, l1: Load<K>, l2: Load<K>, b: nat, h: Handle<K>)
    requires b < |l.bkts| && l1 == l.(bkts := l.bkts[b := Bucket(h, l.bkts[b].count + 1, l.bkts[b].expandMult)], items := l.items + 1)
    requires if !l1.noexpand && l1.bkts[b].count >= (l1.bkts[b].expandMult + 1) * HASH_BKT_CAPACITY_THRESH then Doubled(l1, l2) else l2 == l1
    ensures AddedTo(l, l2, b, h)
  {
    hide IsCeil, Counted;
  }

  lemma IsDoubled<K(!new)>(l: Load<K>, l2: Load<K>)
    requires !l.noexpand && |l2.bkts| == 2 * |l.bkts| && l2.items == l.items
    requires IsCeil(l2.ideal, l2.items, |l2.bkts|) && Counted(l2.bkts, l2.ideal, l2.nonideal)
    requires l2.ineff == (if l2.nonideal > l2.items / 2 then l.ineff + 1 else 0) && l2.noexpand == (l.noexpand || l2.ineff > 1)
    ensures Doubled(l, l2)
  {
  }

  lemma LastRemoved<K(!new)>(l: Load<K>, l2: Load<K>, b: nat)
    requires b < |l.bkts| && l.items == 1 && l.bkts[b].count > 0 && l2 == Unloaded()
    ensures RemovedFrom(l, l2, b)
  {
  }

  lemma OneRemoved<K(!new)>(l: Load<K>, l2: Load<K>, b: nat)
    requires b < |l.bkts| && l.items > 1 && |l2.bkts| == |l.bkts|
    requires l2.bkts[b].expandMult == l.bkts[b].expandMult && l2.bkts[b].count + 1 == l.bkts[b].count && l2.bkts == l.bkts[b := l2.bkts[b]]
    requires l2 == l.(bkts := l2.bkts, items := l.items - 1)
    ensures RemovedFrom(l, l2, b)
  {
  }

  lemma SnocFront<T>(s: seq<T>, x: T)
    ensures |s + [x]| == |s| + 1 && (s + [x])[|s|] == x && (s + [x])[..|s|] == s
  {
  }

  lemma KeyedGrows<K(!new)>(order: seq<Handle<K>>, hash: K -> nat, h: Handle<K>)
    requires Keyed(order, hash) && h.hashv == hash(h.key) && forall x :: x in order ==> x.key != h.key
    ensures Keyed(order + [h], hash)
  {
  }

  lemma OneItem<K(!new)>(h: Handle<K>)
    requires h.prev == null && h.next == null
    ensures AppFits([h], h, h, 1)
  {
  }

  lemma AppGrows<K(!new)>(order: seq<Handle<K>>, head: Handle?<K>, h: Handle<K>, numItems: nat)
    requires AppLinked(order + [h]) && |order| > 0 && head == order[0] && numItems == |order|
    ensures AppFits(order + [h], head, h, numItems + 1)
  {
  }

  lemma RemovedFirst<K(!new)>(c: seq<Handle<K>>, k: nat)
    requires ChainLinked(c) && k < |c|
    ensures First(Removed(c, k)) == if c[k] == First(c) then c[k].hhNext else First(c)
  {
  }

  /** Relinking the items of one bucket leaves every other bucket as it was: no item is on two chains. */
  twostate lemma OneBucketReplaced<K(!new)>(was: Placement<K>, new b: nat, new c: seq<Handle<K>>, new bkt: Bucket<K>)
    requires old(ChainsFit(was.hash, was.order, was.chains, was.bkts)) && b < |was.chains|
    requires BucketFits(was.hash, bkt, c, b, |was.chains|) && forall i :: 0 <= i < |c| ==> c[i] in was.order
    requires forall h :: h in was.order && h !in was.chains[b] && h !in c ==> h.hhPrev == old(h.hhPrev) && h.hhNext == old(h.hhNext)
    ensures ChainsFit(was.hash, was.order, was.chains[b := c], was.bkts[b := bkt])
  {
    var Placement(hash, order, chains, bkts) := was;
    forall b2 | 0 <= b2 < |chains| && b2 != b ensures BucketFits(hash, bkts[b2], chains[b2], b2, |chains|) {
      assert old(BucketFits(hash, bkts[b2], chains[b2], b2, |chains|));
      assert old(BucketFits(hash, bkts[b], chains[b], b, |chains|));
      forall i | 0 <= i < |chains[b2]| ensures chains[b2][i] !in chains[b] && chains[b2][i] !in c {
        assert Home(hash, chains[b2][i], |chains|) == b2;
      }
    }
  }

  /** HASH_FIND_IN_BKT: the first item of the chain with that hash and key. */
  method FindInBucket<K(!new, ==)>(first: Handle?<K>, ghost c: seq<Handle<K>>, key: K, hashv: nat) returns (out: Handle?<K>)
    requires ChainLinked(c) && first == First(c)
    ensures out == null ==> forall i :: 0 <= i < |c| ==> !(c[i].hashv == hashv && c[i].key == key)
    ensures out != null ==> out in c && out.hashv == hashv && out.key == key
  {
    out := first;
    ghost var i := 0;
    while out != null && !(out.hashv == hashv && out.key == key)
      invariant i <= |c| && ChainLinked(c) && (out == null <==> i == |c|) && (out != null ==> out == c[i])
      invariant forall j :: 0 <= j < i ==> !(c[j].hashv == hashv && c[j].key == key)
      decreases |c| - i
    {
      assert i < |c| - 1 ==> c[i].hhNext == c[i + 1];
      out := out.hhNext;
      i := i + 1;
    }
  }

  lemma FindIsModel<K(!new)>(hash: K -> nat, order: seq<Handle<K>>, chains: seq<seq<Handle<K>>>, key: K, out: Handle?<K>)
    requires Complete(hash, order, chains) && Keyed(order, hash)
    requires forall b, i :: 0 <= b < |chains| && 0 <= i < |chains[b]| ==> chains[b][i] in order
    requires var c := chains[BucketOf(hash(key), |chains|)];
             && (out == null ==> forall i :: 0 <= i < |c| ==> !(c[i].hashv == hash(key) && c[i].key == key))
             && (out != null ==> out in c && out.hashv == hash(key) && out.key == key)
    ensures if key in Model(order) then out == Model(order)[key] else out == null
  {
  }

  // ----- HASH_EXPAND_BUCKETS -----

  /** Items of a chain of `count` items beyond the ideal length. */
  function Excess(count: nat, ideal: nat): nat { if count > ideal then count - ideal else 0 }

  /** nonideal_items: the excess over all buckets. */
  function NonIdeal<K(!new)>(bkts: seq<Bucket<K>>, ideal: nat, k: nat): nat
    requires k <= |bkts|
  {
    if k == 0 then 0 else NonIdeal(bkts, ideal, k - 1) + Excess(bkts[k - 1].count, ideal)
  }

  lemma {:induction false} NonIdealUpdate<K(!new)>(bkts: seq<Bucket<K>>, ideal: nat, b: nat, bkt: Bucket<K>, k: nat)
    requires k <= |bkts| && b < |bkts|
    ensures NonIdeal(bkts[b := bkt], ideal, k) + (if b < k then Excess(bkts[b].count, ideal) else 0)
         == NonIdeal(bkts, ideal, k) + (if b < k then Excess(bkt.count, ideal) else 0)
  {
    if k > 0 { NonIdealUpdate(bkts, ideal, b, bkt, k - 1); }
  }

  /** expand_mult of a bucket filled one by one to `count` items during an expansion. */
  function ExpandMult(count: nat, ideal: nat): nat {
    if count <= ideal then 0
    else
      var m := ExpandMult(count - 1, ideal);
      if count > m * ideal then m + 1 else m
  }

  /** The multiplier is the chain's length over the ideal length, rounded up, except where the chain is just one item too long. */
  lemma {:induction false} ExpandMultIs(count: nat, ideal: nat)
    requires ideal > 0
    ensures var m := ExpandMult(count, ideal);
            && (m == 0 <==> count <= ideal)
            && (m > 0 ==> (m - 1) * ideal < count <= m * ideal + 1 && (count == m * ideal + 1 <==> ideal == 1 || count == ideal + 1))
  {
    if count > ideal { ExpandMultIs(count - 1, ideal); }
  }

  /** Forward links of the items of a chain still to be moved, from position j on. */
  ghost predicate PartLinked<K(!new)>(c: seq<Handle<K>>, j: nat)
    reads c`hhNext
  {
    && Distinct(c)
    && (forall k :: j <= k < |c| - 1 ==> c[k].hhNext == c[k + 1])
    && (j < |c| ==> c[|c| - 1].hhNext == null)
  }

  /** Item h is on an old chain below i, or among the first j of chain i. */
  ghost predicate HasMoved<K(!new)>(hash: K -> nat, h: Handle<K>, chains: seq<seq<Handle<K>>>, i: nat, j: nat)
    requires |chains| > 0
  {
    var b := Home(hash, h, |chains|);
    b < i || (b == i && h in chains[b] && exists k :: 0 <= k < j && k < |chains[b]| && chains[b][k] == h)
  }

  /** The old chains: items of the table, on the bucket of their hash. */
  ghost predicate OldChains<K(!new)>(hash: K -> nat, order: seq<Handle<K>>, chains: seq<seq<Handle<K>>>)
  {
    && |chains| > 0 && Complete(hash, order, chains)
    && (forall b, k :: 0 <= b < |chains| && 0 <= k < |chains[b]| ==>
          chains[b][k] in order && Home(hash, chains[b][k], |chains|) == b)
    && (forall b :: 0 <= b < |chains| ==> Distinct(chains[b]))
  }

  /** The new chains hold exactly the moved items, each in the bucket it belongs to. */
  ghost predicate MovedOver<K(!new)>(hash: K -> nat, order: seq<Handle<K>>, chains: seq<seq<Handle<K>>>, chains2: seq<seq<Handle<K>>>, i: nat, j: nat) {
    && |chains| > 0 && |chains2| > 0
    && (forall b, k :: 0 <= b < |chains2| && 0 <= k < |chains2[b]| ==> HasMoved(hash, chains2[b][k], chains, i, j))
    && (forall x :: 0 <= x < |order| && HasMoved(hash, order[x], chains, i, j) ==>
          order[x] in chains2[Home(hash, order[x], |chains2|)])
  }

  /** The items still to be moved are linked forwards. */
  ghost predicate RestLinked<K(!new)>(order: seq<Handle<K>>, chains: seq<seq<Handle<K>>>, i: nat, j: nat)
    reads order`hhNext
  {
    && (forall b, k :: 0 <= b < |chains| && 0 <= k < |chains[b]| ==> chains[b][k] in order)
    && (forall b :: i <= b < |chains| ==> PartLinked(chains[b], if b == i then j else 0))
  }

  /** Counters of the new buckets. */
  ghost predicate Counted<K(!new)>(bkts2: seq<Bucket<K>>, ideal: nat, nonideal: nat) {
    && (forall b :: 0 <= b < |bkts2| ==> bkts2[b].expandMult == ExpandMult(bkts2[b].count, ideal))
    && nonideal == NonIdeal(bkts2, ideal, |bkts2|)
  }

  /** State of the redistribution after j items of old chain i. */
  ghost predicate Expanding<K(!new)>(hash: K -> nat, order: seq<Handle<K>>, chains: seq<seq<Handle<K>>>, chains2: seq<seq<Handle<K>>>, bkts2: seq<Bucket<K>>, i: nat, j: nat, ideal: nat, nonideal: nat)
    reads order`hhPrev, order`hhNext
  {
    && OldChains(hash, order, chains) && ChainsFit(hash, order, chains2, bkts2)
    && MovedOver(hash, order, chains, chains2, i, j) && RestLinked(order, chains, i, j)
    && Counted(bkts2, ideal, nonideal)
  }

  /** Put one item in front of its new bucket, counting it as non-ideal when the chain is too long. */
  method Redistribute<K(!new, ==)>(h: Handle<K>, b: nat, bkts2: array<Bucket<K>>, ideal: nat, ghost hash: K -> nat, ghost order: seq<Handle<K>>, ghost chains2: seq<seq<Handle<K>>>)
    returns (over: bool)
    requires ChainsFit(hash, order, chains2, bkts2[..]) && b < |chains2| && h in order
    requires Home(hash, h, |chains2|) == b && h !in chains2[b]
    modifies bkts2, h`hhPrev, h`hhNext, chains2[b]`hhPrev
    ensures ChainsFit(hash, order, chains2[b := [h] + chains2[b]], bkts2[..])
    ensures over == (old(bkts2[b].count) + 1 > ideal)
    ensures bkts2[..] == old(bkts2[..])[b := bkts2[b]] && bkts2[b].count == old(bkts2[b].count) + 1
    ensures old(bkts2[b].expandMult) == ExpandMult(old(bkts2[b].count), ideal) ==> bkts2[b].expandMult == ExpandMult(bkts2[b].count, ideal)
  {
    ghost var c, old2 := chains2[b], bkts2[..];
    assert BucketFits(hash, old2[b], c, b, |chains2|);
    var bkt := bkts2[b];
    bkt := bkt.(count := bkt.count + 1);
    over := false;
    if bkt.count > ideal {
      over := true;
      if bkt.count > bkt.expandMult * ideal {
        bkt := bkt.(expandMult := bkt.expandMult + 1);
      }
    }
    var oldHead := bkt.head;
    PushFront(h, oldHead, c);
    bkts2[b] := bkt.(head := h);
    hide ChainLinked, BucketOf;
    OneBucketReplaced(Placement(hash, order, chains2, old2), b, [h] + c, bkts2[b]);
    assert bkts2[..] == old2[b := bkts2[b]];
  }

  lemma MovedOverStep<K(!new)>(hash: K -> nat, order: seq<Handle<K>>, chains: seq<seq<Handle<K>>>, chains2: seq<seq<Handle<K>>>, i: nat, j: nat)
    requires OldChains(hash, order, chains) && MovedOver(hash, order, chains, chains2, i, j)
    requires forall b, k :: 0 <= b < |chains2| && 0 <= k < |chains2[b]| ==> chains2[b][k] in order
    requires i < |chains| && j < |chains[i]|
    ensures var h := chains[i][j]; var b := Home(hash, h, |chains2|);
            MovedOver(hash, order, chains, chains2[b := [h] + chains2[b]], i, j + 1) && h !in chains2[b]
  {
  }

  lemma CountedStep<K(!new)>(bkts2: seq<Bucket<K>>, ideal: nat, nonideal: nat, b: nat, bkt: Bucket<K>)
    requires Counted(bkts2, ideal, nonideal) && b < |bkts2| && bkt.count == bkts2[b].count + 1
    requires bkts2[b].expandMult == ExpandMult(bkts2[b].count, ideal) ==> bkt.expandMult == ExpandMult(bkt.count, ideal)
    ensures Counted(bkts2[b := bkt], ideal, nonideal + if bkt.count > ideal then 1 else 0)
  {
    NonIdealUpdate(bkts2, ideal, b, bkt, |bkts2|);
  }

  twostate lemma RestLinkedStep<K(!new)>(was: Placement<K>, new i: nat, new j: nat)
    requires old(RestLinked(was.order, was.chains, i, j)) && i < |was.chains| && j < |was.chains[i]|
    requires forall b, k :: i < b < |was.chains| && 0 <= k < |was.chains[b]| ==> was.chains[b][k] != was.chains[i][j]
    requires forall x :: x in was.order && x != was.chains[i][j] ==> x.hhNext == old(x.hhNext)
    ensures RestLinked(was.order, was.chains, i, j + 1)
  {
    var chains := was.chains;
    forall b | i <= b < |chains| ensures PartLinked(chains[b], if b == i then j + 1 else 0) {
      assert old(PartLinked(chains[b], if b == i then j else 0));
      assert forall k :: (if b == i then j + 1 else 0) <= k < |chains[b]| ==> chains[b][k] != chains[i][j];
    }
  }

  /** Once a chain is exhausted, all its items have moved. */
  lemma NextChain<K(!new)>(hash: K -> nat, order: seq<Handle<K>>, chains: seq<seq<Handle<K>>>, chains2: seq<seq<Handle<K>>>, bkts2: seq<Bucket<K>>, i: nat, ideal: nat, nonideal: nat)
    requires i < |chains| && Expanding(hash, order, chains, chains2, bkts2, i, |chains[i]|, ideal, nonideal)
    ensures Expanding(hash, order, chains, chains2, bkts2, i + 1, 0, ideal, nonideal)
  {
    forall h | h in order ensures HasMoved(hash, h, chains, i + 1, 0) <==> HasMoved(hash, h, chains, i, |chains[i]|) {
      var x :| 0 <= x < |order| && order[x] == h;
      assert order[x] in chains[Home(hash, order[x], |chains|)];
    }
    hide HasMoved, Home, BucketFits, PartLinked;
  }

  /** What the new buckets must be once every item has moved. */
  ghost predicate Expanded<K(!new)>(hash: K -> nat, order: seq<Handle<K>>, chains2: seq<seq<Handle<K>>>, bkts2: seq<Bucket<K>>, ideal: nat, nonideal: nat)
    reads order`hhPrev, order`hhNext
  {
    ChainsFit(hash, order, chains2, bkts2) && Complete(hash, order, chains2) && Counted(bkts2, ideal, nonideal)
  }

  lemma AllMoved<K(!new)>(hash: K -> nat, order: seq<Handle<K>>, chains: seq<seq<Handle<K>>>, chains2: seq<seq<Handle<K>>>, bkts2: seq<Bucket<K>>, ideal: nat, nonideal: nat)
    requires Expanding(hash, order, chains, chains2, bkts2, |chains|, 0, ideal, nonideal)
    ensures Expanded(hash, order, chains2, bkts2, ideal, nonideal)
  {
    hide ChainsFit;
    forall x | 0 <= x < |order| ensures order[x] in chains2[Home(hash, order[x], |chains2|)] {
      assert HasMoved(hash, order[x], chains, |chains|, 0);
    }
  }

  lemma {:induction false} EmptyNonIdeal<K(!new)>(bkts: seq<Bucket<K>>, ideal: nat, k: nat)
    requires k <= |bkts| && forall b :: 0 <= b < |bkts| ==> bkts[b].count == 0
    ensures NonIdeal(bkts, ideal, k) == 0
  {
    if k > 0 { EmptyNonIdeal(bkts, ideal, k - 1); }
  }

  lemma NothingMoved<K(!new)>(hash: K -> nat, order: seq<Handle<K>>, chains: seq<seq<Handle<K>>>, bkts: seq<Bucket<K>>, bkts2: seq<Bucket<K>>, ideal: nat)
    requires ChainsFit(hash, order, chains, bkts) && Complete(hash, order, chains) && |bkts2| > 0
    requires forall b :: 0 <= b < |bkts2| ==> bkts2[b] == Bucket(null, 0, 0)
    ensures Expanding(hash, order, chains, seq(|bkts2|, _ => []), bkts2, 0, 0, ideal, 0)
  {
    EmptyNonIdeal(bkts2, ideal, |bkts2|);
    forall b | 0 <= b < |chains| ensures PartLinked(chains[b], 0) && forall k :: 0 <= k < |chains[b]| ==> Home(hash, chains[b][k], |chains|) == b {
      assert BucketFits(hash, bkts[b], chains[b], b, |chains|);
    }
  }

  /** The inner loop of the expansion: one old chain, item by item, onto the new ones. */
  method MoveChain<K(!new, ==)>(first: Handle?<K>, i: nat, bkts2: array<Bucket<K>>, ideal: nat, nonideal0: nat,
                                ghost hash: K -> nat, ghost order: seq<Handle<K>>, ghost chains: seq<seq<Handle<K>>>, ghost start2: seq<seq<Handle<K>>>)
    returns (nonideal: nat, ghost chains2: seq<seq<Handle<K>>>)
    requires i < |chains| && first == First(chains[i]) && bkts2.Length == |start2|
    requires Expanding(hash, order, chains, start2, bkts2[..], i, 0, ideal, nonideal0)
    requires forall h :: h in order ==> h.hashv == hash(h.key)
    modifies bkts2, order`hhPrev, order`hhNext
    ensures |chains2| == |start2| && Expanding(hash, order, chains, chains2, bkts2[..], i + 1, 0, ideal, nonideal)
  {
    hide *;
    nonideal, chains2 := nonideal0, start2;
    ghost var c, j := chains[i], 0;
    var thh := first;
    FirstOf(c);
    while thh != null
      invariant j <= |c| && (thh == null <==> j == |c|) && (thh != null ==> thh == c[j]) && |chains2| == bkts2.Length
      invariant Expanding(hash, order, chains, chains2, bkts2[..], i, j, ideal, nonideal)
      decreases |c| - j
    {
      StepFacts(hash, order, chains, chains2, bkts2[..], i, j, ideal, nonideal);
      var next := thh.hhNext;
      var b := BucketOf(thh.hashv, bkts2.Length);
      var over, chains3 := MoveItem(thh, i, j, b, bkts2, ideal, nonideal, hash, order, chains, chains2);
      chains2 := chains3;
      if over {
        nonideal := nonideal + 1;
      }
      thh := next;
      j := j + 1;
    }
    NextChain(hash, order, chains, chains2, bkts2[..], i, ideal, nonideal);
  }

  lemma FirstOf<K(!new)>(c: seq<Handle<K>>)
    ensures First(c) == if |c| == 0 then null else c[0]
  {
  }

  lemma StepFacts<K(!new)>(hash: K -> nat, order: seq<Handle<K>>, chains: seq<seq<Handle<K>>>, chains2: seq<seq<Handle<K>>>, bkts2: seq<Bucket<K>>, i: nat, j: nat, ideal: nat, nonideal: nat)
    requires i < |chains| && j < |chains[i]| && Expanding(hash, order, chains, chains2, bkts2, i, j, ideal, nonideal)
    requires forall h :: h in order ==> h.hashv == hash(h.key)
    ensures chains[i][j] in order && |chains2| == |bkts2| > 0
    ensures BucketOf(chains[i][j].hashv, |chains2|) == Home(hash, chains[i][j], |chains2|)
    ensures chains[i][j].hhNext == if j + 1 < |chains[i]| then chains[i][j + 1] else null
  {
  }

  /** One item of the inner loop. */
  method MoveItem<K(!new, ==)>(h: Handle<K>, ghost i: nat, ghost j: nat, b: nat, bkts2: array<Bucket<K>>, ideal: nat, ghost nonideal: nat,
                               ghost hash: K -> nat, ghost order: seq<Handle<K>>, ghost chains: seq<seq<Handle<K>>>, ghost chains2: seq<seq<Handle<K>>>)
    returns (over: bool, ghost chains3: seq<seq<Handle<K>>>)
    requires i < |chains| && j < |chains[i]| && h == chains[i][j] && b < bkts2.Length == |chains2| && b == Home(hash, h, |chains2|)
    requires Expanding(hash, order, chains, chains2, bkts2[..], i, j, ideal, nonideal)
    modifies bkts2, order`hhPrev, order`hhNext
    ensures |chains3| == |chains2|
    ensures Expanding(hash, order, chains, chains3, bkts2[..], i, j + 1, ideal, nonideal + if over then 1 else 0)
  {
    hide *;
    ghost var old2 := bkts2[..];
    ItemFacts(hash, order, chains, chains2, old2, i, j, ideal, nonideal);
    MovedOverStep(hash, order, chains, chains2, i, j);
    chains3 := chains2[b := [h] + chains2[b]];
    over := Redistribute(h, b, bkts2, ideal, hash, order, chains2);
    CountedStep(old2, ideal, nonideal, b, bkts2[b]);
    RestLinkedStep(Placement(hash, order, chains, old2), i, j);
    ExpandingParts(hash, order, chains, chains3, bkts2[..], i, j + 1, ideal, nonideal + if over then 1 else 0);
  }

  lemma ExpandingParts<K(!new)>(hash: K -> nat, order: seq<Handle<K>>, chains: seq<seq<Handle<K>>>, chains2: seq<seq<Handle<K>>>, bkts2: seq<Bucket<K>>, i: nat, j: nat, ideal: nat, nonideal: nat)
    requires OldChains(hash, order, chains) && ChainsFit(hash, order, chains2, bkts2)
    requires MovedOver(hash, order, chains, chains2, i, j) && RestLinked(order, chains, i, j) && Counted(bkts2, ideal, nonideal)
    ensures Expanding(hash, order, chains, chains2, bkts2, i, j, ideal, nonideal)
  {
  }

  lemma ItemFacts<K(!new)>(hash: K -> nat, order: seq<Handle<K>>, chains: seq<seq<Handle<K>>>, chains2: seq<seq<Handle<K>>>, bkts2: seq<Bucket<K>>, i: nat, j: nat, ideal: nat, nonideal: nat)
    requires i < |chains| && j < |chains[i]| && Expanding(hash, order, chains, chains2, bkts2, i, j, ideal, nonideal)
    ensures OldChains(hash, order, chains) && ChainsFit(hash, order, chains2, bkts2) && |chains2| == |bkts2|
    ensures MovedOver(hash, order, chains, chains2, i, j) && RestLinked(order, chains, i, j) && Counted(bkts2, ideal, nonideal)
    ensures chains[i][j] in order
    ensures forall b, k :: i < b < |chains| && 0 <= k < |chains[b]| ==> chains[b][k] != chains[i][j]
    ensures forall b, k :: 0 <= b < |chains2| && 0 <= k < |chains2[b]| ==> chains2[b][k] in order
  {
  }

  /** c is the quotient items / n rounded up. */
  predicate IsCeil(c: nat, items: nat, n: nat) {
    items <= c * n && (items > 0 ==> (c - 1) * n < items)
  }

  lemma CeilOfItems(items: nat, k: nat, c: nat)
    requires c == Shr(items, k) + (if And(items, Pow2(k) - 1) != 0 then 1 else 0)
    ensures IsCeil(c, items, Pow2(k))
  {
    CeilByShift(items, k);
  }

  lemma DoublePow2(k: nat)
    ensures Pow2(k + 1) == 2 * Pow2(k) && Pow2(1) == 2
  {
  }

  lemma ChainHeads<K(!new)>(hash: K -> nat, order: seq<Handle<K>>, chains: seq<seq<Handle<K>>>, bkts: seq<Bucket<K>>)
    requires ChainsFit(hash, order, chains, bkts)
    ensures |chains| == |bkts| > 0
    ensures forall b :: 0 <= b < |bkts| ==> bkts[b].head == First(chains[b])
    ensures forall b, i :: 0 <= b < |chains| && 0 <= i < |chains[b]| ==> chains[b][i] in order
  {
  }

  /** The outer loop of the expansion: every old bucket in turn. */
  method MoveAllChains<K(!new, ==)>(bkts: array<Bucket<K>>, bkts2: array<Bucket<K>>, ideal: nat, ghost hash: K -> nat, ghost order: seq<Handle<K>>, ghost chains: seq<seq<Handle<K>>>)
    returns (nonideal: nat, ghost chains2: seq<seq<Handle<K>>>)
    requires bkts != bkts2 && bkts2.Length > 0 && forall b :: 0 <= b < bkts2.Length ==> bkts2[b] == Bucket(null, 0, 0)
    requires ChainsFit(hash, order, chains, bkts[..]) && Complete(hash, order, chains)
    requires forall h :: h in order ==> h.hashv == hash(h.key)
    modifies bkts2, order`hhPrev, order`hhNext
    ensures Expanded(hash, order, chains2, bkts2[..], ideal, nonideal)
  {
    hide *;
    ghost var start := bkts[..];
    ChainHeads(hash, order, chains, start);
    NothingMoved(hash, order, chains, start, bkts2[..], ideal);
    nonideal, chains2 := 0, seq(bkts2.Length, _ => []);
    for i := 0 to bkts.Length
      invariant bkts[..] == start && |chains2| == bkts2.Length
      invariant Expanding(hash, order, chains, chains2, bkts2[..], i, 0, ideal, nonideal)
      invariant forall h :: h in order ==> h.hashv == hash(h.key)
    {
      assert bkts[i] == start[i];
      nonideal, chains2 := MoveChain(bkts[i].head, i, bkts2, ideal, nonideal, hash, order, chains, chains2);
    }
    AllMoved(hash, order, chains, chains2, bkts2[..], ideal, nonideal);
  }

  lemma EmptyFits<K(!new)>(hash: K -> nat, order: seq<Handle<K>>, chains: seq<seq<Handle<K>>>, bkts: seq<Bucket<K>>)
    requires |chains| == |bkts| > 0
    requires forall b :: 0 <= b < |bkts| ==> bkts[b] == Bucket(null, 0, 0) && chains[b] == []
    ensures ChainsFit(hash, order, chains, bkts) && Complete(hash, [], chains)
  {
  }

  lemma InitialPow2()
    ensures Pow2(HASH_INITIAL_NUM_BUCKETS_LOG2) == HASH_INITIAL_NUM_BUCKETS
  {
  }

  lemma NowComplete<K(!new)>(hash: K -> nat, order: seq<Handle<K>>, chains: seq<seq<Handle<K>>>, h: Handle<K>)
    requires |order| > 0 && order[|order| - 1] == h && Complete(hash, order[..|order| - 1], chains)
    ensures var b := Home(hash, h, |chains|); Complete(hash, order, chains[b := [h] + chains[b]])
  {
  }

  lemma KeyedHashes<K(!new)>(order: seq<Handle<K>>, hash: K -> nat)
    requires Keyed(order, hash)
    ensures forall h :: h in order ==> h.hashv == hash(h.key)
  {
  }

  lemma LastItem<K(!new)>(hash: K -> nat, order: seq<Handle<K>>, head: Handle?<K>, tail: Handle?<K>, numItems: nat, n: nat)
    requires AppFits(order, head, tail, numItems) && Keyed(order, hash) && n > 0
    ensures numItems == |order| > 0 && head != null && tail == order[|order| - 1] && tail in order
    ensures BucketOf(tail.hashv, n) == Home(hash, tail, n)
  {
  }

  lemma ExpandedParts<K(!new)>(hash: K -> nat, order: seq<Handle<K>>, chains2: seq<seq<Handle<K>>>, bkts2: seq<Bucket<K>>, ideal: nat, nonideal: nat)
    requires Expanded(hash, order, chains2, bkts2, ideal, nonideal)
    ensures ChainsFit(hash, order, chains2, bkts2) && Complete(hash, order, chains2) && Counted(bkts2, ideal, nonideal)
  {
  }

  lemma ListGrows<K(!new)>(hash: K -> nat, order: seq<Handle<K>>, chains: seq<seq<Handle<K>>>, bkts: seq<Bucket<K>>, h: Handle<K>)
    ensures ChainsFit(hash, order, chains, bkts) ==> ChainsFit(hash, order + [h], chains, bkts)
    ensures ChainsFit(hash, order, chains, bkts) && h !in order ==> forall b :: 0 <= b < |chains| ==> h !in chains[b]
  {
  }

  lemma ModelGrows<K(!new)>(order: seq<Handle<K>>, h: Handle<K>)
    requires KeysDistinct(order) && forall x :: x in order ==> x.key != h.key
    ensures KeysDistinct(order + [h]) && Model(order + [h]) == Model(order)[h.key := h]
  {
  }

  lemma DeletedModel<K(!new)>(order: seq<Handle<K>>, k: nat)
    requires KeysDistinct(order) && k < |order|
    ensures KeysDistinct(Removed(order, k)) && Model(Removed(order, k)) == Model(order) - {order[k].key}
    ensures |order| == 1 ==> Removed(order, k) == []
  {
    var r := Removed(order, k);
    assert Distinct(order);
    forall x | x in order ensures x in r <==> x != order[k] { RemovedElements(order, k, x); }
    forall x | x in r ensures x in order {
      var i :| 0 <= i < |r| && r[i] == x;
    }
  }

  /** Which items end the list once item k is out of it. */
  lemma EndsOfList<K(!new)>(order: seq<Handle<K>>, k: nat)
    requires AppLinked(order) && k < |order|
    ensures order[k].prev == null <==> k == 0
    ensures order[k].next == null <==> k == |order| - 1
    ensures |order| > 1 && k == 0 ==> order[0].next == Removed(order, k)[0]
    ensures |order| > 1 && k > 0 ==> order[0] == Removed(order, k)[0]
    ensures |order| > 1 && k == |order| - 1 ==> order[k].prev == Removed(order, k)[|order| - 2]
    ensures |order| > 1 && k < |order| - 1 ==> order[|order| - 1] == Removed(order, k)[|order| - 2]
    ensures order[k] == order[|order| - 1] <==> k == |order| - 1
  {
    assert 0 < k ==> order[k].prev == order[k - 1];
    assert k < |order| - 1 ==> order[k].next == order[k + 1];
  }

  lemma PlaceInChain<K(!new)>(hash: K -> nat, order: seq<Handle<K>>, chains: seq<seq<Handle<K>>>, h: Handle<K>) returns (p: nat)
    requires Complete(hash, order, chains) && h in order && h.hashv == hash(h.key)
    ensures var b := BucketOf(h.hashv, |chains|); b == Home(hash, h, |chains|) && p < |chains[b]| && chains[b][p] == h
  {
    var i :| 0 <= i < |order| && order[i] == h;
    assert order[i] in chains[Home(hash, order[i], |chains|)];
    p :| 0 <= p < |chains[Home(hash, h, |chains|)]| && chains[Home(hash, h, |chains|)][p] == h;
  }

  lemma DeletedComplete<K(!new)>(hash: K -> nat, order: seq<Handle<K>>, k: nat, chains: seq<seq<Handle<K>>>, b: nat, p: nat)
    requires k < |order| && Complete(hash, order, chains) && Distinct(order)
    requires b < |chains| && p < |chains[b]| && chains[b][p] == order[k] && b == Home(hash, order[k], |chains|)
    ensures Complete(hash, Removed(order, k), chains[b := Removed(chains[b], p)])
  {
  }

  lemma DeletedFits<K(!new)>(hash: K -> nat, order: seq<Handle<K>>, k: nat, chains: seq<seq<Handle<K>>>, bkts: seq<Bucket<K>>)
    requires k < |order| && ChainsFit(hash, order, chains, bkts)
    requires forall b, i :: 0 <= b < |chains| && 0 <= i < |chains[b]| ==> chains[b][i] != order[k]
    ensures ChainsFit(hash, Removed(order, k), chains, bkts)
  {
  }

  lemma GoneFromChains<K(!new)>(hash: K -> nat, order: seq<Handle<K>>, chains: seq<seq<Handle<K>>>, bkts: seq<Bucket<K>>, b: nat, p: nat)
    requires ChainsFit(hash, order, chains, bkts) && b < |chains| && p < |chains[b]|
    ensures var chains2 := chains[b := Removed(chains[b], p)];
            forall b2, i :: 0 <= b2 < |chains2| && 0 <= i < |chains2[b2]| ==> chains2[b2][i] != chains[b][p]
  {
  }

  lemma DeletedKeyed<K(!new)>(hash: K -> nat, order: seq<Handle<K>>, k: nat)
    requires k < |order| && Keyed(order, hash)
    ensures Keyed(Removed(order, k), hash) && Distinct(order)
  {
  }

  lemma DeletedApp<K(!new)>(order: seq<Handle<K>>, k: nat, head: Handle?<K>, tail: Handle?<K>, numItems: nat)
    requires k < |order| && |order| > 1 && AppLinked(Removed(order, k)) && numItems == |order| - 1
    requires head == Removed(order, k)[0] && tail == Removed(order, k)[|order| - 2]
    ensures AppFits(Removed(order, k), head, tail, numItems) && head != null
  {
  }
}
