/** Circular doubly linked lists through list heads embedded in their elements. */
module CircularList {
  import opened HashLists

  class ListHead {
    var next: ListHead
    var prev: ListHead

    /** INIT_LIST_HEAD */
    constructor ()
      ensures Ring(this, [])
    {
      next, prev := this, this;
    }
  }

  /** Element i of the list, or the head on either side of it. */
  function Nth(head: ListHead, s: seq<ListHead>, i: int): ListHead { if 0 <= i < |s| then s[i] else head }

  /** The list of `head` holds exactly the elements s, in that order, linked both ways. */
  ghost predicate Ring(head: ListHead, s: seq<ListHead>)
    reads head, s
  {
    && Distinct(s) && (forall i :: 0 <= i < |s| ==> s[i] != head)
    && head.next == Nth(head, s, 0) && head.prev == Nth(head, s, |s| - 1)
    && (forall i :: 0 <= i < |s| ==> s[i].next == Nth(head, s, i + 1))
    && (forall i :: 0 <= i < |s| ==> s[i].prev == Nth(head, s, i - 1))
  }

  lemma NthRemoved(head: ListHead, s: seq<ListHead>, k: nat, i: int)
    requires k < |s| && -1 <= i < |s|
    ensures Nth(head, Removed(s, k), i) == Nth(head, s, if i < k then i else i + 1)
  {
  }

  lemma SkippedNext(head: ListHead, s: seq<ListHead>, k: nat)
    requires k < |s| && Nth(head, s, k - 1).next == Nth(head, s, k + 1)
    requires k != 0 ==> head.next == s[0]
    requires forall i :: 0 <= i < |s| && i != k && i != k - 1 ==> s[i].next == Nth(head, s, i + 1)
    ensures var t := Removed(s, k);
            head.next == Nth(head, t, 0) && forall i :: 0 <= i < |t| ==> t[i].next == Nth(head, t, i + 1)
  {
    var t := Removed(s, k);
    NthRemoved(head, s, k, 0);
    forall i | 0 <= i < |t| ensures t[i].next == Nth(head, t, i + 1) { NthRemoved(head, s, k, i + 1); }
  }

  lemma SkippedPrev(head: ListHead, s: seq<ListHead>, k: nat)
    requires k < |s| && Nth(head, s, k + 1).prev == Nth(head, s, k - 1)
    requires k != |s| - 1 ==> head.prev == s[|s| - 1]
    requires forall i :: 0 <= i < |s| && i != k && i != k + 1 ==> s[i].prev == Nth(head, s, i - 1)
    ensures var t := Removed(s, k);
            head.prev == Nth(head, t, |t| - 1) && forall i :: 0 <= i < |t| ==> t[i].prev == Nth(head, t, i - 1)
  {
    var t := Removed(s, k);
    NthRemoved(head, s, k, |t| - 1);
    forall i | 0 <= i < |t| ensures t[i].prev == Nth(head, t, i - 1) { NthRemoved(head, s, k, i - 1); }
  }

  lemma RemovedApart(head: ListHead, s: seq<ListHead>, k: nat)
    requires k < |s| && forall i :: 0 <= i < |s| ==> s[i] != head
    ensures forall i :: 0 <= i < |Removed(s, k)| ==> Removed(s, k)[i] != head
  {
  }

  /** Skipping over element k leaves the ring of the others. */
  lemma SkippedRing(head: ListHead, s: seq<ListHead>, k: nat)
    requires k < |s| && Distinct(s) && (forall i :: 0 <= i < |s| ==> s[i] != head)
    requires Nth(head, s, k - 1).next == Nth(head, s, k + 1) && Nth(head, s, k + 1).prev == Nth(head, s, k - 1)
    requires k != 0 ==> head.next == s[0]
    requires k != |s| - 1 ==> head.prev == s[|s| - 1]
    requires forall i :: 0 <= i < |s| && i != k && i != k - 1 ==> s[i].next == Nth(head, s, i + 1)
    requires forall i :: 0 <= i < |s| && i != k && i != k + 1 ==> s[i].prev == Nth(head, s, i - 1)
    ensures Ring(head, Removed(s, k))
  {
    hide Nth, Removed, Distinct;
    SkippedNext(head, s, k);
    SkippedPrev(head, s, k);
    RemovedDistinct(s, k);
    RemovedApart(head, s, k);
  }

  /** list_del: the element's own links stay as they were. */
  method ListDel(e: ListHead, ghost head: ListHead, ghost s: seq<ListHead>, ghost k: nat)
    requires Ring(head, s) && k < |s| && s[k] == e
    modifies head, s
    ensures Ring(head, Removed(s, k))
  {
    var next, prev := e.next, e.prev;
    next.prev := prev;
    prev.next := next;
    SkippedRing(head, s, k);
  }

  /** A new last element, linked to the last one so far and to the head. */
  lemma AppendedRing(head: ListHead, s: seq<ListHead>, e: ListHead)
    requires Distinct(s) && (forall i :: 0 <= i < |s| ==> s[i] != head) && e != head && e !in s
    requires head.prev == e && e.next == head && e.prev == Nth(head, s, |s| - 1) && Nth(head, s, |s| - 1).next == e
    requires s != [] ==> head.next == s[0]
    requires forall i :: 0 <= i < |s| - 1 ==> s[i].next == Nth(head, s, i + 1)
    requires forall i :: 0 <= i < |s| ==> s[i].prev == Nth(head, s, i - 1)
    ensures Ring(head, s + [e])
  {
    var t := s + [e];
    forall i | 0 <= i < |t| ensures t[i].next == Nth(head, t, i + 1) && t[i].prev == Nth(head, t, i - 1) {
      assert i < |s| ==> t[i] == s[i];
    }
  }

  /** list_add_tail */
  method ListAddTail(e: ListHead, head: ListHead, ghost s: seq<ListHead>)
    requires Ring(head, s) && e != head && e !in s
    modifies head, s, e
    ensures Ring(head, s + [e])
  {
    head.prev.next := e;
    e.next := head;
    e.prev := head.prev;
    head.prev := e;
    assert forall i :: 0 <= i < |s| - 1 ==> s[i].next == old(s[i].next);
    AppendedRing(head, s, e);
  }

  /** list_add */
  method ListAdd(e: ListHead, head: ListHead, ghost s: seq<ListHead>)
    requires Ring(head, s) && e != head && e !in s
    modifies head, s, e
    ensures Ring(head, [e] + s)
  {
    head.next.prev := e;
    e.next := head.next;
    e.prev := head;
    head.next := e;
  }
}
