/** The two doubly linked lists every handle is on: the application's list and its bucket chain. */
module HashLists {

  /** An element with its embedded handle. */
  class Handle<K(!new, ==)> {
    const key: K
    var hashv: nat
    var prev: Handle?<K>
    var next: Handle?<K>
    var hhPrev: Handle?<K>
    var hhNext: Handle?<K>

    constructor (key: K)
      ensures this.key == key
    {
      this.key := key;
    }
  }

  ghost predicate Distinct<T>(s: seq<T>) {
    forall i, j :: 0 <= i < j < |s| ==> s[i] != s[j]
  }

  /** s is a doubly linked list through prev and next. */
  ghost predicate AppLinked<K(!new)>(s: seq<Handle<K>>)
    reads s`prev, s`next
  {
    && Distinct(s)
    && (|s| > 0 ==> s[0].prev == null && s[|s| - 1].next == null)
    && (forall i :: 0 < i < |s| ==> s[i].prev == s[i - 1])
    && (forall i :: 0 <= i < |s| - 1 ==> s[i].next == s[i + 1])
  }

  /** c is a doubly linked list through hhPrev and hhNext. */
  ghost predicate ChainLinked<K(!new)>(c: seq<Handle<K>>)
    reads c`hhPrev, c`hhNext
  {
    && Distinct(c)
    && (|c| > 0 ==> c[0].hhPrev == null && c[|c| - 1].hhNext == null)
    && (forall i :: 0 < i < |c| ==> c[i].hhPrev == c[i - 1])
    && (forall i :: 0 <= i < |c| - 1 ==> c[i].hhNext == c[i + 1])
  }

  function First<K(!new)>(c: seq<Handle<K>>): Handle?<K> { if |c| == 0 then null else c[0] }

  function Removed<T>(s: seq<T>, k: nat): (r: seq<T>)
    requires k < |s|
    ensures |r| == |s| - 1
    ensures forall i :: 0 <= i < |r| ==> r[i] == if i < k then s[i] else s[i + 1]
  {
    s[..k] + s[k + 1..]
  }

  lemma RemovedElements<T>(s: seq<T>, k: nat, x: T)
    requires k < |s| && Distinct(s)
    ensures x in Removed(s, k) <==> x in s && x != s[k]
  {
  }

  /** Link h in front of a chain. */
  method PushFront<K(!new)>(h: Handle<K>, oldHead: Handle?<K>, ghost c: seq<Handle<K>>)
    requires ChainLinked(c) && oldHead == First(c) && h !in c
    modifies h`hhPrev, h`hhNext, c`hhPrev
    ensures ChainLinked([h] + c)
  {
    h.hhNext := oldHead;
    h.hhPrev := null;
    if oldHead != null {
      oldHead.hhPrev := h;
    }
  }

  lemma RemovedDistinct<T>(s: seq<T>, k: nat)
    requires k < |s| && Distinct(s)
    ensures Distinct(Removed(s, k))
  {
  }

  lemma ChainRemovedBack<K(!new)>(s: seq<Handle<K>>, k: nat)
    requires k < |s| && (k != 0 ==> s[0].hhPrev == null)
    requires k < |s| - 1 ==> s[k + 1].hhPrev == if k > 0 then s[k - 1] else null
    requires forall i :: 0 < i < |s| && i != k && i != k + 1 ==> s[i].hhPrev == s[i - 1]
    ensures var t := Removed(s, k);
            (t != [] ==> t[0].hhPrev == null) && forall i :: 0 < i < |t| ==> t[i].hhPrev == t[i - 1]
  {
  }

  lemma ChainRemovedOn<K(!new)>(s: seq<Handle<K>>, k: nat)
    requires k < |s| && (k != |s| - 1 ==> s[|s| - 1].hhNext == null)
    requires k > 0 ==> s[k - 1].hhNext == if k < |s| - 1 then s[k + 1] else null
    requires forall i :: 0 <= i < |s| - 1 && i != k && i != k - 1 ==> s[i].hhNext == s[i + 1]
    ensures var t := Removed(s, k);
            (t != [] ==> t[|t| - 1].hhNext == null) && forall i :: 0 <= i < |t| - 1 ==> t[i].hhNext == t[i + 1]
  {
  }

  /** Take item k out of a chain; its own links stay as they were. */
  method UnlinkFromChain<K(!new)>(h: Handle<K>, ghost c: seq<Handle<K>>, ghost k: nat)
    requires ChainLinked(c) && k < |c| && c[k] == h
    modifies c`hhPrev, c`hhNext
    ensures ChainLinked(Removed(c, k))
  {
    assert k > 0 ==> c[k].hhPrev == c[k - 1];
    assert k < |c| - 1 ==> c[k].hhNext == c[k + 1];
    if h.hhPrev != null {
      h.hhPrev.hhNext := h.hhNext;
    }
    if h.hhNext != null {
      h.hhNext.hhPrev := h.hhPrev;
    }
    RemovedDistinct(c, k);
    ChainRemovedBack(c, k);
    ChainRemovedOn(c, k);
    hide Removed, Distinct;
  }

  /** HASH_APPEND_LIST */
  method AppendBack<K(!new)>(h: Handle<K>, tail: Handle<K>, ghost s: seq<Handle<K>>)
    requires AppLinked(s) && |s| > 0 && tail == s[|s| - 1] && h !in s
    modifies h`prev, h`next, tail`next
    ensures AppLinked(s + [h])
  {
    h.next := null;
    h.prev := tail;
    tail.next := h;
  }

  lemma AppRemovedBack<K(!new)>(s: seq<Handle<K>>, k: nat)
    requires k < |s| && (k != 0 ==> s[0].prev == null)
    requires k < |s| - 1 ==> s[k + 1].prev == if k > 0 then s[k - 1] else null
    requires forall i :: 0 < i < |s| && i != k && i != k + 1 ==> s[i].prev == s[i - 1]
    ensures var t := Removed(s, k);
            (t != [] ==> t[0].prev == null) && forall i :: 0 < i < |t| ==> t[i].prev == t[i - 1]
  {
  }

  lemma AppRemovedOn<K(!new)>(s: seq<Handle<K>>, k: nat)
    requires k < |s| && (k != |s| - 1 ==> s[|s| - 1].next == null)
    requires k > 0 ==> s[k - 1].next == if k < |s| - 1 then s[k + 1] else null
    requires forall i :: 0 <= i < |s| - 1 && i != k && i != k - 1 ==> s[i].next == s[i + 1]
    ensures var t := Removed(s, k);
            (t != [] ==> t[|t| - 1].next == null) && forall i :: 0 <= i < |t| - 1 ==> t[i].next == t[i + 1]
  {
  }

  /** Take item k out of the application's list; its own links stay as they were. */
  method UnlinkFromApp<K(!new)>(h: Handle<K>, ghost s: seq<Handle<K>>, ghost k: nat)
    requires AppLinked(s) && k < |s| && s[k] == h
    modifies s`prev, s`next
    ensures AppLinked(Removed(s, k)) && h.prev == old(h.prev) && h.next == old(h.next)
  {
    assert k > 0 ==> s[k].prev == s[k - 1];
    assert k < |s| - 1 ==> s[k].next == s[k + 1];
    if h.prev != null {
      h.prev.next := h.next;
    }
    if h.next != null {
      h.next.prev := h.prev;
    }
    RemovedDistinct(s, k);
    AppRemovedBack(s, k);
    AppRemovedOn(s, k);
    hide Removed, Distinct;
  }
}
