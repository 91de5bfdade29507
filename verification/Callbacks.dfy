/** The table of fdinfo callbacks: an array that grows by a fixed step, one entry per registered device. */
module Callbacks {
  const FDINFO_CALLBACK_ARRAY_INCREMENT: nat := 4

  datatype Entry<G, C> = Entry(gpu: G, callback: C, active: bool)

  /** The table with every entry of g switched. */
  function Switched<G(==), C>(es: seq<Entry<G, C>>, g: G, enable: bool): (r: seq<Entry<G, C>>)
    ensures |r| == |es| && forall i :: 0 <= i < |r| ==> r[i] == if es[i].gpu == g then es[i].(active := enable) else es[i]
  {
    seq(|es|, i requires 0 <= i < |es| => if es[i].gpu == g then es[i].(active := enable) else es[i])
  }

  class CallbackTable<G(==), C> {
    var entries: array<Entry<G, C>>
    var registered: nat

    ghost predicate Valid()
      reads this
    {
      registered <= entries.Length
    }

    ghost function Contents(): seq<Entry<G, C>>
      requires Valid()
      reads this, entries
    {
      entries[..registered]
    }

    constructor ()
      ensures Valid() && Contents() == [] && fresh(entries)
    {
      entries := new Entry<G, C>[0];
      registered := 0;
    }

    /** processinfo_register_fdinfo_callback */
    method Register(callback: C, gpu: G)
      requires Valid()
      modifies this, entries
      ensures Valid() && Contents() == old(Contents()) + [Entry(gpu, callback, true)]
      ensures entries == old(entries) || fresh(entries)
    {
      if entries.Length == registered {
        var old' := entries;
        var filler := Entry(gpu, callback, true);
        entries := new Entry<G, C>[registered + FDINFO_CALLBACK_ARRAY_INCREMENT](_ => filler);
        for i := 0 to registered
          invariant entries.Length == registered + FDINFO_CALLBACK_ARRAY_INCREMENT && fresh(entries)
          invariant registered == old(registered) && old'[..registered] == old(Contents())
          invariant forall k :: 0 <= k < i ==> entries[k] == old'[k]
        {
          entries[i] := old'[i];
        }
      }
      entries[registered] := Entry(gpu, callback, true);
      registered := registered + 1;
    }

    /** processinfo_enable_disable_callback_for */
    method EnableDisable(gpu: G, enable: bool)
      requires Valid()
      modifies entries
      ensures Valid() && Contents() == Switched(old(Contents()), gpu, enable)
    {
      for index := 0 to registered
        invariant forall k :: 0 <= k < registered ==>
                    entries[k] == if k < index && old(entries[k]).gpu == gpu then old(entries[k]).(active := enable) else old(entries[k])
      {
        if entries[index].gpu == gpu {
          entries[index] := entries[index].(active := enable);
        }
      }
    }
  }

  /** The table once every device in s has been switched. */
  function SwitchedAll<G(==), C>(es: seq<Entry<G, C>>, s: seq<G>, enable: bool): (r: seq<Entry<G, C>>)
    ensures |r| == |es| && forall i :: 0 <= i < |r| ==> r[i] == if es[i].gpu in s then es[i].(active := enable) else es[i]
  {
    seq(|es|, i requires 0 <= i < |es| => if es[i].gpu in s then es[i].(active := enable) else es[i])
  }

  lemma SwitchedStep<G, C>(es: seq<Entry<G, C>>, s: seq<G>, i: nat, enable: bool)
    requires i < |s|
    ensures Switched(SwitchedAll(es, s[..i], enable), s[i], enable) == SwitchedAll(es, s[..i + 1], enable)
  {
  }

  lemma SwitchedNone<G, C>(es: seq<Entry<G, C>>, enable: bool)
    ensures SwitchedAll(es, [], enable) == es
  {
  }
}
