/** Which devices are monitored: two lists of devices kept in step with the array of per-device options. */
module MonitoredSet {
  import opened HashLists
  import opened CircularList
  import opened Callbacks

  datatype GpuOption = GpuOption(gpu: ListHead, doNotMonitor: bool, toDraw: set<nat>)

  // ----- What the fix makes of the two halves of the options -----

  function Kept(o: seq<GpuOption>): (r: seq<GpuOption>)
    ensures |r| <= |o| && forall i :: 0 <= i < |r| ==> !r[i].doNotMonitor
  {
    if o == [] then [] else Kept(o[..|o| - 1]) + (if o[|o| - 1].doNotMonitor then [] else [o[|o| - 1]])
  }

  function Dropped(o: seq<GpuOption>): (r: seq<GpuOption>)
    ensures |r| <= |o| && forall i :: 0 <= i < |r| ==> r[i].doNotMonitor
  {
    if o == [] then [] else Dropped(o[..|o| - 1]) + (if o[|o| - 1].doNotMonitor then [o[|o| - 1]] else [])
  }

  datatype Halves = Halves(monitored: seq<GpuOption>, others: seq<GpuOption>)

  /** The monitored devices first, each half in order, newcomers at its end; then at least one monitored device. */
  function Fixed(h: Halves): Halves {
    var mon := Kept(h.monitored) + Kept(h.others);
    var non := Dropped(h.others) + Dropped(h.monitored);
    if mon == [] && non != [] then Halves([non[0].(doNotMonitor := false)], non[1..]) else Halves(mon, non)
  }

  function Gpus(o: seq<GpuOption>): (r: seq<ListHead>)
    ensures |r| == |o| && forall i :: 0 <= i < |r| ==> r[i] == o[i].gpu
  {
    seq(|o|, i requires 0 <= i < |o| => o[i].gpu)
  }

  // ----- The lists and the array -----

  /** The two lists hold the devices of the two halves, and share nothing. */
  ghost predicate Lists(mon: ListHead, non: ListHead, a: seq<ListHead>, b: seq<ListHead>)
    reads mon, non, a, b
  {
    && Ring(mon, a) && Ring(non, b)
    && mon != non && (forall i :: 0 <= i < |b| ==> b[i] != mon) && (forall i :: 0 <= i < |a| ==> a[i] != non)
    && (forall i, j :: 0 <= i < |a| && 0 <= j < |b| ==> a[i] != b[j])
  }

  /** The options array follows the two lists. */
  ghost predicate InStep(mon: ListHead, non: ListHead, o: seq<GpuOption>, h: Halves)
    reads mon, non, Gpus(h.monitored), Gpus(h.others)
  {
    o == h.monitored + h.others && Lists(mon, non, Gpus(h.monitored), Gpus(h.others))
  }

  /** list_move_tail between two lists */
  method ListMoveTail(e: ListHead, ghost from: ListHead, to: ListHead, ghost a: seq<ListHead>, ghost b: seq<ListHead>, ghost k: nat)
    requires Lists(from, to, a, b) && k < |a| && a[k] == e
    modifies from, to, a, b
    ensures Lists(from, to, Removed(a, k), b + [e])
  {
    hide Ring;
    RingApart(from, a);
    ListDel(e, from, a, k);
    ListAddTail(e, to, b);
  }

  /** list_move between two lists */
  method ListMove(e: ListHead, ghost from: ListHead, to: ListHead, ghost a: seq<ListHead>, ghost b: seq<ListHead>, ghost k: nat)
    requires Lists(from, to, a, b) && k < |a| && a[k] == e
    modifies from, to, a, b
    ensures Lists(from, to, Removed(a, k), [e] + b)
  {
    hide Ring;
    RingApart(from, a);
    ListDel(e, from, a, k);
    ListAdd(e, to, b);
  }

  lemma RingApart(head: ListHead, s: seq<ListHead>)
    requires Ring(head, s)
    ensures Distinct(s) && forall i :: 0 <= i < |s| ==> s[i] != head
  {
  }

  /** memmove of the options behind idx one place forward, the option at idx put last. */
  method RotateOut(opts: array<GpuOption>, idx: nat)
    requires idx < opts.Length
    modifies opts
    ensures opts[..] == Removed(old(opts[..]), idx) + [old(opts[idx])]
  {
    var saved := opts[idx];
    for i := idx to opts.Length - 1
      invariant forall k :: 0 <= k < opts.Length ==> opts[k] == if idx <= k < i then old(opts[k + 1]) else old(opts[k])
    {
      opts[i] := opts[i + 1];
    }
    opts[opts.Length - 1] := saved;
  }

  /** The element at idx put at place `to`, those from there on one place back. */
  function RotatedTo<T>(s: seq<T>, to: nat, idx: nat): seq<T>
    requires to <= idx < |s|
  {
    s[..to] + [s[idx]] + s[to..idx] + s[idx + 1..]
  }

  lemma RotatedParts<T>(o: seq<T>, r: seq<T>, to: nat, idx: nat)
    requires to <= idx < |o| == |r| && r[to] == o[idx]
    requires forall k :: 0 <= k < |o| && k != to ==> r[k] == o[if to < k <= idx then k - 1 else k]
    ensures r == RotatedTo(o, to, idx)
  {
    var t := RotatedTo(o, to, idx);
    forall k | 0 <= k < |o| ensures r[k] == t[k] {
      assert t[to] == o[idx];
    }
  }

  /** The shift of the second loop. */
  method RotateIn(opts: array<GpuOption>, to: nat, idx: nat)
    requires to <= idx < opts.Length
    modifies opts
    ensures opts[..] == RotatedTo(old(opts[..]), to, idx)
  {
    ghost var o := opts[..];
    var saved := opts[idx];
    var i := idx;
    while i > to
      invariant to <= i <= idx
      invariant forall k :: 0 <= k < opts.Length ==> opts[k] == if i < k <= idx then old(opts[k - 1]) else old(opts[k])
    {
      opts[i] := opts[i - 1];
      i := i - 1;
    }
    opts[to] := saved;
    RotatedParts(o, opts[..], to, idx);
  }

  /** Every device of the two halves is one of `all`. */
  ghost predicate Among(h: Halves, all: set<ListHead>) {
    && (forall i :: 0 <= i < |h.monitored| ==> h.monitored[i].gpu in all)
    && (forall i :: 0 <= i < |h.others| ==> h.others[i].gpu in all)
  }

  lemma GpusRemoved(o: seq<GpuOption>, k: nat)
    requires k < |o|
    ensures Gpus(Removed(o, k)) == Removed(Gpus(o), k)
  {
  }

  lemma GpusAppended(o: seq<GpuOption>, x: GpuOption)
    ensures Gpus(o + [x]) == Gpus(o) + [x.gpu]
  {
  }

  /** The element the walk over a list is at. */
  lemma WalkStep(head: ListHead, s: seq<ListHead>, k: nat)
    requires Ring(head, s) && k < |s|
    ensures s[k] != head && s[k].next == Nth(head, s, k + 1)
  {
  }

  lemma StepRings(mon: ListHead, non: ListHead, o: seq<GpuOption>, h: Halves)
    requires InStep(mon, non, o, h)
    ensures Ring(mon, Gpus(h.monitored)) && Ring(non, Gpus(h.others))
  {
    hide Ring, Gpus;
  }

  lemma StepOptions(mon: ListHead, non: ListHead, o: seq<GpuOption>, h: Halves)
    requires InStep(mon, non, o, h)
    ensures o == h.monitored + h.others
  {
    hide Lists, Gpus;
  }

  lemma ConcatParts<T>(a: seq<T>, b: seq<T>)
    ensures |a + b| == |a| + |b|
    ensures forall i :: 0 <= i < |a| ==> (a + b)[i] == a[i]
    ensures forall i :: 0 <= i < |b| ==> (a + b)[|a| + i] == b[i]
  {
  }

  lemma StepParts(mon: ListHead, non: ListHead, o: seq<GpuOption>, h: Halves)
    requires InStep(mon, non, o, h)
    ensures Ring(mon, Gpus(h.monitored)) && Ring(non, Gpus(h.others)) && |o| == |h.monitored| + |h.others|
    ensures forall i :: 0 <= i < |h.monitored| ==> o[i] == h.monitored[i]
    ensures forall i :: 0 <= i < |h.others| ==> o[|h.monitored| + i] == h.others[i]
  {
    hide *;
    StepRings(mon, non, o, h);
    StepOptions(mon, non, o, h);
    ConcatParts(h.monitored, h.others);
  }

  /** Device idx, which is not to be monitored, moves to the end of the other list, and its options to the end of the array. */
  method DropDevice(device: ListHead, mon: ListHead, non: ListHead, opts: array<GpuOption>, idx: nat, ghost h: Halves, ghost all: set<ListHead>)
    requires InStep(mon, non, opts[..], h) && Among(h, all) && idx < |h.monitored| && h.monitored[idx].gpu == device
    modifies mon, non, all, opts
    ensures InStep(mon, non, opts[..], Halves(Removed(h.monitored, idx), h.others + [h.monitored[idx]]))
    ensures Among(Halves(Removed(h.monitored, idx), h.others + [h.monitored[idx]]), all)
  {
    hide Lists, Gpus;
    ghost var o, m, n, x := opts[..], h.monitored, h.others, h.monitored[idx];
    GpusRemoved(m, idx);
    GpusAppended(n, x);
    AmongGpus(h, all);
    ListMoveTail(device, mon, non, Gpus(m), Gpus(n), idx);
    RotateOut(opts, idx);
    RemovedFromFront(m, n, idx);
  }

  lemma AmongGpus(h: Halves, all: set<ListHead>)
    requires Among(h, all)
    ensures forall i :: 0 <= i < |Gpus(h.monitored)| ==> Gpus(h.monitored)[i] in all
    ensures forall i :: 0 <= i < |Gpus(h.others)| ==> Gpus(h.others)[i] in all
    ensures |Gpus(h.monitored)| == |h.monitored| && |Gpus(h.others)| == |h.others|
    ensures forall i :: 0 <= i < |h.monitored| ==> Gpus(h.monitored)[i] == h.monitored[i].gpu
    ensures forall i :: 0 <= i < |h.others| ==> Gpus(h.others)[i] == h.others[i].gpu
  {
  }

  lemma RemovedFromFront<T>(m: seq<T>, n: seq<T>, k: nat)
    requires k < |m|
    ensures Removed(m + n, k) + [(m + n)[k]] == Removed(m, k) + (n + [m[k]])
  {
  }

  /** Where the first loop stands after p of the monitored devices. */
  function Dropping(h: Halves, p: nat): Halves
    requires p <= |h.monitored|
  {
    Halves(Kept(h.monitored[..p]) + h.monitored[p..], h.others + Dropped(h.monitored[..p]))
  }

  lemma DroppingStep(h: Halves, p: nat)
    requires p < |h.monitored|
    ensures var cur, x, idx := Dropping(h, p), h.monitored[p], |Kept(h.monitored[..p])|;
            && idx < |cur.monitored| && cur.monitored[idx] == x
            && (if x.doNotMonitor then
                  Dropping(h, p + 1) == Halves(Removed(cur.monitored, idx), cur.others + [x]) && |Kept(h.monitored[..p + 1])| == idx
                else Dropping(h, p + 1) == cur && |Kept(h.monitored[..p + 1])| == idx + 1)
  {
    var a := h.monitored;
    hide Kept, Dropped, Removed;
    NextFiltered(a, p);
    AtSeam(Kept(a[..p]), a[p..]);
    assert a[p..][1..] == a[p + 1..];
    assert Kept(a[..p]) + a[p..] == Kept(a[..p]) + [a[p]] + a[p + 1..];
  }

  lemma NextFiltered(o: seq<GpuOption>, p: nat)
    requires p < |o|
    ensures Kept(o[..p + 1]) == Kept(o[..p]) + (if o[p].doNotMonitor then [] else [o[p]])
    ensures Dropped(o[..p + 1]) == Dropped(o[..p]) + (if o[p].doNotMonitor then [o[p]] else [])
  {
    assert o[..p + 1][..p] == o[..p];
  }

  lemma AtSeam<T>(a: seq<T>, b: seq<T>)
    requires b != []
    ensures (a + b)[|a|] == b[0] && Removed(a + b, |a|) == a + b[1..]
  {
  }

  lemma DroppingEnds(h: Halves)
    ensures Dropping(h, 0) == h && |Kept(h.monitored[..0])| == 0
    ensures Dropping(h, |h.monitored|) == Halves(Kept(h.monitored), h.others + Dropped(h.monitored))
    ensures h.monitored[..|h.monitored|] == h.monitored
  {
    assert h.monitored[..|h.monitored|] == h.monitored;
  }

  /** The first loop: devices that are not to be monitored leave the list. */
  method DropUnmonitored(mon: ListHead, non: ListHead, opts: array<GpuOption>, ghost h: Halves, ghost all: set<ListHead>) returns (idx: nat)
    requires InStep(mon, non, opts[..], h) && Among(h, all)
    modifies mon, non, all, opts
    ensures InStep(mon, non, opts[..], Dropping(h, |h.monitored|)) && Among(Dropping(h, |h.monitored|), all)
    ensures idx == |Kept(h.monitored)|
  {
    hide InStep, Among, Dropping, Kept, Dropped, Ring, Removed;
    idx := 0;
    ghost var p, cur := 0, h;
    DroppingEnds(h);
    StepParts(mon, non, opts[..], cur);
    RingStart(mon, Gpus(cur.monitored));
    var device := mon.next;
    var tmp := device.next;
    while device != mon
      invariant p <= |h.monitored| && cur == Dropping(h, p) && idx == |Kept(h.monitored[..p])|
      invariant InStep(mon, non, opts[..], cur) && Among(cur, all)
      invariant device == Nth(mon, Gpus(cur.monitored), idx) && (device != mon ==> tmp == device.next)
      invariant |cur.monitored| - idx == |h.monitored| - p
      decreases |h.monitored| - p
    {
      StepParts(mon, non, opts[..], cur);
      WalkAt(mon, cur, idx);
      DroppingStep(h, p);
      if opts[idx].doNotMonitor {
        DropDevice(device, mon, non, opts, idx, cur, all);
      } else {
        idx := idx + 1;
      }
      p := p + 1;
      cur := Dropping(h, p);
      StepParts(mon, non, opts[..], cur);
      DroppedNth(mon, Dropping(h, p - 1), cur, idx, h.monitored[p - 1].doNotMonitor);
      device := tmp;
      tmp := device.next;
    }
    StepParts(mon, non, opts[..], cur);
    WalkedAll(mon, cur, idx);
  }

  /** The device the walk over the monitored list is at. */
  lemma WalkAt(mon: ListHead, h: Halves, idx: nat)
    requires Ring(mon, Gpus(h.monitored)) && Nth(mon, Gpus(h.monitored), idx) != mon
    ensures idx < |h.monitored| && h.monitored[idx].gpu == Nth(mon, Gpus(h.monitored), idx)
    ensures h.monitored[idx].gpu.next == Nth(mon, Gpus(h.monitored), idx + 1)
  {
  }

  lemma WalkedAll(mon: ListHead, h: Halves, idx: nat)
    requires Ring(mon, Gpus(h.monitored)) && Nth(mon, Gpus(h.monitored), idx) == mon
    ensures idx >= |h.monitored|
  {
  }

  /** The walk goes on to the same device whether or not the one it was at has been taken out. */
  lemma DroppedNth(mon: ListHead, was: Halves, h: Halves, idx: nat, dropped: bool)
    requires if dropped then idx < |was.monitored| && h.monitored == Removed(was.monitored, idx) else idx > 0 && h == was
    ensures Nth(mon, Gpus(was.monitored), if dropped then idx + 1 else idx) == Nth(mon, Gpus(h.monitored), idx)
  {
  }

  lemma ListsSwap(mon: ListHead, non: ListHead, a: seq<ListHead>, b: seq<ListHead>)
    requires Lists(mon, non, a, b)
    ensures Lists(non, mon, b, a)
  {
  }

  lemma StepLists(mon: ListHead, non: ListHead, o: seq<GpuOption>, h: Halves)
    ensures InStep(mon, non, o, h) <==> o == h.monitored + h.others && Lists(mon, non, Gpus(h.monitored), Gpus(h.others))
  {
  }

  lemma RotatedIn<T>(m: seq<T>, n: seq<T>, k: nat)
    requires k < |n|
    ensures RotatedTo(m + n, |m|, |m| + k) == (m + [n[k]]) + Removed(n, k)
  {
    var o := m + n;
    assert o[..|m|] == m;
    assert o[|m|..|m| + k] == n[..k];
    assert o[|m| + k + 1..] == n[k + 1..];
    assert m + [n[k]] + n[..k] + n[k + 1..] == (m + [n[k]]) + (n[..k] + n[k + 1..]);
  }

  lemma AmongMoved(h: Halves, k: nat, all: set<ListHead>)
    requires Among(h, all) && k < |h.others|
    ensures Among(Halves(h.monitored + [h.others[k]], Removed(h.others, k)), all)
  {
  }

  /** The device at place k of the other list, which is to be monitored, moves to the end of the monitored list,
      and its options behind those of the monitored devices. */
  method KeepDevice(device: ListHead, mon: ListHead, non: ListHead, opts: array<GpuOption>, numMonitored: nat, idx: nat, ghost h: Halves, ghost all: set<ListHead>)
    requires InStep(mon, non, opts[..], h) && Among(h, all) && numMonitored == |h.monitored| <= idx < |h.monitored| + |h.others|
    requires h.others[idx - numMonitored].gpu == device
    modifies mon, non, all, opts
    ensures InStep(mon, non, opts[..], Halves(h.monitored + [h.others[idx - numMonitored]], Removed(h.others, idx - numMonitored)))
    ensures Among(Halves(h.monitored + [h.others[idx - numMonitored]], Removed(h.others, idx - numMonitored)), all)
  {
    hide InStep, Lists, Gpus, Among, Removed, RotatedTo;
    ghost var k := idx - numMonitored;
    ghost var m, n, x, h2 := h.monitored, h.others, h.others[k], Halves(h.monitored + [h.others[k]], Removed(h.others, k));
    StepLists(mon, non, opts[..], h);
    GpusRemoved(n, k);
    GpusAppended(m, x);
    AmongGpus(h, all);
    AmongMoved(h, k, all);
    ListsSwap(mon, non, Gpus(m), Gpus(n));
    ListMoveTail(device, non, mon, Gpus(n), Gpus(m), k);
    ListsSwap(non, mon, Gpus(Removed(n, k)), Gpus(m + [x]));
    RotatedIn(m, n, k);
    assert opts[..] == m + n;
    RotateIn(opts, numMonitored, idx);
    StepLists(mon, non, opts[..], h2);
  }

  /** Where the second loop stands after p of the other devices. */
  function Keeping(h: Halves, p: nat): Halves
    requires p <= |h.others|
  {
    Halves(h.monitored + Kept(h.others[..p]), Dropped(h.others[..p]) + h.others[p..])
  }

  lemma KeepingStep(h: Halves, p: nat)
    requires p < |h.others|
    ensures var cur, x, k := Keeping(h, p), h.others[p], |Dropped(h.others[..p])|;
            && k < |cur.others| && cur.others[k] == x
            && (if x.doNotMonitor then Keeping(h, p + 1) == cur && |Dropped(h.others[..p + 1])| == k + 1
                else Keeping(h, p + 1) == Halves(cur.monitored + [x], Removed(cur.others, k)) && |Dropped(h.others[..p + 1])| == k)
  {
    var b := h.others;
    hide Kept, Dropped, Removed;
    NextFiltered(b, p);
    AtSeam(Dropped(b[..p]), b[p..]);
    assert b[p..][1..] == b[p + 1..];
    assert Dropped(b[..p]) + b[p..] == Dropped(b[..p]) + [b[p]] + b[p + 1..];
  }

  lemma KeepingEnds(h: Halves)
    ensures Keeping(h, 0) == h && |Dropped(h.others[..0])| == 0
    ensures Keeping(h, |h.others|) == Halves(h.monitored + Kept(h.others), Dropped(h.others))
    ensures h.others[..|h.others|] == h.others
  {
    assert h.others[..|h.others|] == h.others;
  }

  /** One turn of the second loop. */
  method KeepTurn(device: ListHead, ghost tmp: ListHead, mon: ListHead, non: ListHead, opts: array<GpuOption>, numMonitored0: nat, idx: nat,
                  ghost h: Halves, ghost p: nat, ghost all: set<ListHead>) returns (numMonitored: nat)
    requires p < |h.others| && InStep(mon, non, opts[..], Keeping(h, p)) && Among(Keeping(h, p), all)
    requires numMonitored0 == |Keeping(h, p).monitored| && idx == numMonitored0 + |Dropped(h.others[..p])|
    requires device == Nth(non, Gpus(Keeping(h, p).others), idx - numMonitored0) != non && tmp == device.next
    modifies mon, non, all, opts
    ensures InStep(mon, non, opts[..], Keeping(h, p + 1)) && Among(Keeping(h, p + 1), all)
    ensures numMonitored == |Keeping(h, p + 1).monitored| && idx + 1 == numMonitored + |Dropped(h.others[..p + 1])|
    ensures |Keeping(h, p + 1).others| - (idx + 1 - numMonitored) == |Keeping(h, p).others| - (idx - numMonitored0) - 1
    ensures tmp == Nth(non, Gpus(Keeping(h, p + 1).others), idx + 1 - numMonitored)
  {
    hide InStep, Among, Keeping, Kept, Dropped, Ring, Removed;
    numMonitored := numMonitored0;
    ghost var cur, k := Keeping(h, p), idx - numMonitored0;
    StepParts(mon, non, opts[..], cur);
    WalkAt(non, Swapped(cur), k);
    KeepingStep(h, p);
    if !opts[idx].doNotMonitor {
      KeepDevice(device, mon, non, opts, numMonitored, idx, cur, all);
      numMonitored := numMonitored + 1;
    }
    DroppedNth(non, Swapped(cur), Swapped(Keeping(h, p + 1)), idx + 1 - numMonitored, !h.others[p].doNotMonitor);
  }

  /** The second loop: devices that are to be monitored again go back. */
  method KeepMonitored(mon: ListHead, non: ListHead, opts: array<GpuOption>, idx0: nat, ghost h: Halves, ghost all: set<ListHead>) returns (numMonitored: nat, idx: nat)
    requires InStep(mon, non, opts[..], h) && Among(h, all) && idx0 == |h.monitored|
    modifies mon, non, all, opts
    ensures InStep(mon, non, opts[..], Keeping(h, |h.others|)) && Among(Keeping(h, |h.others|), all)
    ensures numMonitored == |Keeping(h, |h.others|).monitored| && idx == |h.monitored| + |h.others|
  {
    hide InStep, Among, Keeping, Kept, Dropped, Ring, Removed;
    numMonitored, idx := idx0, idx0;
    ghost var p, cur := 0, h;
    KeepingEnds(h);
    StepParts(mon, non, opts[..], cur);
    RingStart(non, Gpus(cur.others));
    var device := non.next;
    var tmp := device.next;
    while device != non
      invariant p <= |h.others| && cur == Keeping(h, p) && numMonitored == |cur.monitored|
      invariant idx == |h.monitored| + p == numMonitored + |Dropped(h.others[..p])|
      invariant InStep(mon, non, opts[..], cur) && Among(cur, all)
      invariant device == Nth(non, Gpus(cur.others), idx - numMonitored) && (device != non ==> tmp == device.next)
      invariant |cur.others| - (idx - numMonitored) == |h.others| - p
      decreases |h.others| - p
    {
      numMonitored := KeepTurn(device, tmp, mon, non, opts, numMonitored, idx, h, p, all);
      idx := idx + 1;
      p := p + 1;
      cur := Keeping(h, p);
      device := tmp;
      tmp := device.next;
    }
    StepParts(mon, non, opts[..], cur);
    WalkedAll(non, Swapped(cur), idx - numMonitored);
  }

  function Swapped(h: Halves): Halves { Halves(h.others, h.monitored) }

  /** At least one device stays monitored: the first of the others is taken back when the list is empty. */
  method KeepOne(mon: ListHead, non: ListHead, opts: array<GpuOption>, ghost h: Halves, ghost all: set<ListHead>)
    requires InStep(mon, non, opts[..], h) && Among(h, all) && h.monitored == [] && h.others != []
    modifies mon, non, all, opts
    ensures InStep(mon, non, opts[..], Halves([h.others[0].(doNotMonitor := false)], h.others[1..]))
  {
    hide Lists, Gpus, Among, Ring, InStep;
    ghost var b := Gpus(h.others);
    StepLists(mon, non, opts[..], h);
    AmongGpus(h, all);
    ListsSwap(mon, non, Gpus(h.monitored), b);
    FirstOther(non, mon, b);
    ListMove(non.next, non, mon, b, [], 0);
    ListsSwap(non, mon, Removed(b, 0), [b[0]] + []);
    OneMonitored(h);
    opts[0] := opts[0].(doNotMonitor := false);
    assert opts[..] == [h.others[0].(doNotMonitor := false)] + h.others[1..];
    StepLists(mon, non, opts[..], Halves([h.others[0].(doNotMonitor := false)], h.others[1..]));
  }

  lemma FirstOther(non: ListHead, mon: ListHead, b: seq<ListHead>)
    requires b != [] && Lists(non, mon, b, [])
    ensures non.next == b[0]
  {
  }

  lemma OneMonitored(h: Halves)
    requires h.others != []
    ensures Gpus([h.others[0].(doNotMonitor := false)]) == [Gpus(h.others)[0]] + []
    ensures Gpus(h.others[1..]) == Removed(Gpus(h.others), 0)
  {
  }

  /** The loops over a list that switch the callbacks of its devices. */
  method SwitchList<C>(head: ListHead, table: CallbackTable<ListHead, C>, enable: bool, ghost s: seq<ListHead>)
    requires Ring(head, s) && table.Valid()
    modifies table.entries
    ensures table.Valid() && table.Contents() == SwitchedAll(old(table.Contents()), s, enable)
  {
    hide SwitchedAll, Switched, Ring;
    ghost var es, k := table.Contents(), 0;
    SwitchedNone(es, enable);
    assert s[..0] == [];
    RingStart(head, s);
    var device := head.next;
    while device != head
      invariant k <= |s| && device == Nth(head, s, k) && Ring(head, s) && table.Valid()
      invariant table.Contents() == SwitchedAll(es, s[..k], enable)
      decreases |s| - k
    {
      WalkStep(head, s, k);
      table.EnableDisable(device, enable);
      SwitchedStep(es, s, k, enable);
      device := device.next;
      k := k + 1;
    }
    if k < |s| { RingApart(head, s); }
    assert s[..k] == s;
  }

  lemma RingStart(head: ListHead, s: seq<ListHead>)
    requires Ring(head, s)
    ensures head.next == Nth(head, s, 0)
  {
  }

  /** interface_check_and_fix_monitored_gpus */
  method CheckAndFix<C>(numDevices: nat, mon: ListHead, non: ListHead, opts: array<GpuOption>, table: CallbackTable<ListHead, C>, ghost h: Halves)
    returns (numMonitored: nat)
    requires InStep(mon, non, opts[..], h) && opts.Length == numDevices && table.Valid()
    modifies mon, non, Gpus(h.monitored), Gpus(h.others), opts, table.entries
    ensures InStep(mon, non, opts[..], Fixed(h)) && numMonitored == |Fixed(h).monitored|
    ensures table.Valid()
    ensures table.Contents() == SwitchedAll(SwitchedAll(old(table.Contents()), Gpus(Fixed(h).monitored), true), Gpus(Fixed(h).others), false)
  {
    hide *;
    ghost var all := Everyone(h);
    var kept := DropUnmonitored(mon, non, opts, h, all);
    ghost var h1 := Dropping(h, |h.monitored|);
    DroppingEnds(h);
    var idx;
    numMonitored, idx := KeepMonitored(mon, non, opts, kept, h1, all);
    ghost var h2 := Keeping(h1, |h1.others|);
    KeepingEnds(h1);
    BeforeKeepOne(h, h1, h2);
    StepParts(mon, non, opts[..], h2);
    if numDevices > 0 && numMonitored == 0 {
      KeepOne(mon, non, opts, h2, all);
      numMonitored := numMonitored + 1;
    }
    SwitchCallbacks(mon, non, opts, table, Fixed(h));
  }

  /** The loops at the end: callbacks on for the monitored devices, off for the others. */
  method SwitchCallbacks<C>(mon: ListHead, non: ListHead, opts: array<GpuOption>, table: CallbackTable<ListHead, C>, ghost h: Halves)
    requires InStep(mon, non, opts[..], h) && table.Valid()
    modifies table.entries
    ensures table.Valid()
    ensures table.Contents() == SwitchedAll(SwitchedAll(old(table.Contents()), Gpus(h.monitored), true), Gpus(h.others), false)
  {
    hide *;
    StepRings(mon, non, opts[..], h);
    SwitchList(mon, table, true, Gpus(h.monitored));
    SwitchList(non, table, false, Gpus(h.others));
  }

  ghost function Everyone(h: Halves): (all: set<ListHead>)
    ensures Among(h, all)
    ensures forall g :: g in all ==> g in Gpus(h.monitored) || g in Gpus(h.others)
  {
    (set i | 0 <= i < |h.monitored| :: h.monitored[i].gpu) + (set i | 0 <= i < |h.others| :: h.others[i].gpu)
  }

  lemma FilterLast(o: seq<GpuOption>, x: GpuOption)
    ensures Kept(o + [x]) == Kept(o) + (if x.doNotMonitor then [] else [x])
    ensures Dropped(o + [x]) == Dropped(o) + (if x.doNotMonitor then [x] else [])
  {
    assert (o + [x])[..|o|] == o;
  }

  lemma SnocAssoc<T>(a: seq<T>, b: seq<T>, x: T)
    ensures a + (b + [x]) == a + b + [x] && b + [] == b && a + b + [] == a + b
  {
  }

  lemma {:induction false} KeptConcat(a: seq<GpuOption>, b: seq<GpuOption>)
    ensures Kept(a + b) == Kept(a) + Kept(b)
  {
    if b == [] {
      assert a + b == a;
    } else {
      hide Kept, Dropped;
      var front, x := b[..|b| - 1], b[|b| - 1];
      KeptConcat(a, front);
      FilterLast(front, x);
      FilterLast(a + front, x);
      assert b == front + [x];
      SnocAssoc(a, front, x);
      SnocAssoc(Kept(a), Kept(front), x);
    }
  }

  lemma {:induction false} DroppedConcat(a: seq<GpuOption>, b: seq<GpuOption>)
    ensures Dropped(a + b) == Dropped(a) + Dropped(b)
  {
    if b == [] {
      assert a + b == a;
    } else {
      hide Kept, Dropped;
      var front, x := b[..|b| - 1], b[|b| - 1];
      DroppedConcat(a, front);
      FilterLast(front, x);
      FilterLast(a + front, x);
      assert b == front + [x];
      SnocAssoc(a, front, x);
      SnocAssoc(Dropped(a), Dropped(front), x);
    }
  }

  lemma {:induction false} AllKept(o: seq<GpuOption>)
    requires forall i :: 0 <= i < |o| ==> !o[i].doNotMonitor
    ensures Kept(o) == o && Dropped(o) == []
  {
    if o != [] { AllKept(o[..|o| - 1]); }
  }

  lemma {:induction false} AllDropped(o: seq<GpuOption>)
    requires forall i :: 0 <= i < |o| ==> o[i].doNotMonitor
    ensures Dropped(o) == o && Kept(o) == []
  {
    if o != [] { AllDropped(o[..|o| - 1]); }
  }

  lemma BeforeKeepOne(h: Halves, h1: Halves, h2: Halves)
    requires h1 == Halves(Kept(h.monitored), h.others + Dropped(h.monitored))
    requires h2 == Halves(h1.monitored + Kept(h1.others), Dropped(h1.others))
    ensures Fixed(h) == if h2.monitored == [] && h2.others != [] then Halves([h2.others[0].(doNotMonitor := false)], h2.others[1..]) else h2
  {
    KeptConcat(h.others, Dropped(h.monitored));
    DroppedConcat(h.others, Dropped(h.monitored));
    AllDropped(Dropped(h.monitored));
    hide Kept, Dropped;
  }

  // ----- What the fixed halves are -----

  lemma SnocMultiset<T>(s: seq<T>, x: T)
    ensures multiset(s + [x]) == multiset(s) + multiset{x} && s + [] == s
  {
  }

  lemma SnocBack<T>(s: seq<T>)
    requires s != []
    ensures s == s[..|s| - 1] + [s[|s| - 1]]
  {
  }

  lemma AddOne<T>(a: multiset<T>, b: multiset<T>, c: multiset<T>, x: multiset<T>)
    requires a + b == c
    ensures a + x + b == c + x && a + (b + x) == c + x
  {
  }

  lemma {:induction false} FilterMultiset(o: seq<GpuOption>)
    ensures multiset(Kept(o)) + multiset(Dropped(o)) == multiset(o)
  {
    if o != [] {
      hide *;
      var front, x := o[..|o| - 1], o[|o| - 1];
      FilterMultiset(front);
      FilterLast(front, x);
      SnocBack(o);
      SnocMultiset(front, x);
      SnocMultiset(Kept(front), x);
      SnocMultiset(Dropped(front), x);
      AddOne(multiset(Kept(front)), multiset(Dropped(front)), multiset(front), multiset{x});
    }
  }

  /** No flag of its own keeps any device monitored. */
  ghost predicate NoneWanted(h: Halves) { Kept(h.monitored) == [] && Kept(h.others) == [] }

  lemma WantedHalves(h: Halves)
    ensures var mon, non := Kept(h.monitored) + Kept(h.others), Dropped(h.others) + Dropped(h.monitored);
            && multiset(mon + non) == multiset(h.monitored + h.others) && |mon| + |non| == |h.monitored| + |h.others|
            && (forall i :: 0 <= i < |mon| ==> !mon[i].doNotMonitor) && (forall i :: 0 <= i < |non| ==> non[i].doNotMonitor)
  {
    FilterMultiset(h.monitored);
    FilterMultiset(h.others);
    hide Kept, Dropped;
    var mon, non := Kept(h.monitored) + Kept(h.others), Dropped(h.others) + Dropped(h.monitored);
    assert multiset(mon + non) == multiset(h.monitored + h.others);
    assert |multiset(mon + non)| == |multiset(h.monitored + h.others)|;
  }

  lemma FixedCases(h: Halves)
    ensures var mon, non := Kept(h.monitored) + Kept(h.others), Dropped(h.others) + Dropped(h.monitored);
            && (NoneWanted(h) <==> mon == [])
            && Fixed(h) == if mon == [] && non != [] then Halves([non[0].(doNotMonitor := false)], non[1..]) else Halves(mon, non)
  {
  }

  lemma TakenBack(non: seq<GpuOption>)
    requires non != [] && forall i :: 0 <= i < |non| ==> non[i].doNotMonitor
    ensures [non[0].(doNotMonitor := false).(doNotMonitor := true)] + non[1..] == non
  {
  }

  /** Monitored devices are exactly those without the flag, no option is lost, and only when every device carries the flag
      is it taken off one of them. */
  lemma FixedSplitsByFlag(h: Halves)
    ensures var f := Fixed(h);
            && (forall i :: 0 <= i < |f.monitored| ==> !f.monitored[i].doNotMonitor)
            && (forall i :: 0 <= i < |f.others| ==> f.others[i].doNotMonitor)
            && (!NoneWanted(h) ==> multiset(f.monitored + f.others) == multiset(h.monitored + h.others))
            && (|h.monitored| + |h.others| > 0 ==> |f.monitored| > 0)
            && (NoneWanted(h) && |h.monitored| + |h.others| > 0 ==>
                  |f.monitored| == 1 && multiset([f.monitored[0].(doNotMonitor := true)] + f.others) == multiset(h.monitored + h.others))
  {
    hide *;
    WantedHalves(h);
    FixedCases(h);
    var mon, non := Kept(h.monitored) + Kept(h.others), Dropped(h.others) + Dropped(h.monitored);
    if mon == [] && non != [] {
      TakenBack(non);
      assert mon + non == non;
    }
  }

  lemma NothingToFix(h: Halves)
    requires |h.monitored| + |h.others| == 0
    ensures Fixed(h) == Halves([], [])
  {
    AllKept(h.monitored);
    AllKept(h.others);
    hide Kept, Dropped;
  }

  /** A second call changes nothing. */
  lemma FixedTwice(h: Halves)
    ensures Fixed(Fixed(h)) == Fixed(h)
  {
    hide *;
    var f := Fixed(h);
    FixedSplitsByFlag(h);
    if |h.monitored| + |h.others| == 0 {
      NothingToFix(h);
      NothingToFix(f);
    } else {
      AllKept(f.monitored);
      AllDropped(f.others);
      FixedCases(f);
    }
  }

  /** After the call the callbacks of monitored devices are active, those of the others are not. */
  lemma ActiveExactlyMonitored<C>(es: seq<Entry<ListHead, C>>, h: Halves)
    requires forall i, j :: 0 <= i < |h.monitored| && 0 <= j < |h.others| ==> h.monitored[i].gpu != h.others[j].gpu
    ensures var r := SwitchedAll(SwitchedAll(es, Gpus(h.monitored), true), Gpus(h.others), false);
            |r| == |es| && forall i :: 0 <= i < |es| ==>
              && r[i].gpu == es[i].gpu && r[i].callback == es[i].callback
              && (es[i].gpu in Gpus(h.monitored) ==> r[i].active)
              && (es[i].gpu in Gpus(h.others) ==> !r[i].active)
              && (es[i].gpu !in Gpus(h.monitored) && es[i].gpu !in Gpus(h.others) ==> r[i] == es[i])
  {
  }

  /** r is what o has with the given flag, each once and in the order of o; idx says from where. */
  ghost predicate Picked(o: seq<GpuOption>, flag: bool, idx: seq<nat>, r: seq<GpuOption>) {
    && |idx| == |r| && (forall i :: 0 <= i < |r| ==> idx[i] < |o| && r[i] == o[idx[i]] && r[i].doNotMonitor == flag)
    && (forall i, j :: 0 <= i < j < |idx| ==> idx[i] < idx[j])
    && (forall k: nat :: k < |o| && o[k].doNotMonitor == flag ==> k in idx)
  }

  lemma {:induction false} KeptPicked(o: seq<GpuOption>) returns (idx: seq<nat>)
    ensures Picked(o, false, idx, Kept(o))
  {
    idx := [];
    if o != [] {
      var n := |o| - 1;
      idx := KeptPicked(o[..n]);
      assert forall k :: 0 <= k < n ==> o[k] == o[..n][k];
      if !o[n].doNotMonitor { idx := idx + [n]; }
    }
  }

  lemma {:induction false} DroppedPicked(o: seq<GpuOption>) returns (idx: seq<nat>)
    ensures Picked(o, true, idx, Dropped(o))
  {
    idx := [];
    if o != [] {
      var n := |o| - 1;
      idx := DroppedPicked(o[..n]);
      assert forall k :: 0 <= k < n ==> o[k] == o[..n][k];
      if o[n].doNotMonitor { idx := idx + [n]; }
    }
  }

  /**
   * The order: the monitored devices are those without the flag in the order of the array, the others those with it, newcomers last;
   * when all carry the flag, the first of the others, or the first device if there are none, is the one that loses it.
   */
  lemma FixedOrder(h: Halves) returns (kept: seq<nat>, dropped: seq<nat>)
    ensures var f := Fixed(h);
            && (!NoneWanted(h) ==> Picked(h.monitored + h.others, false, kept, f.monitored) && Picked(h.others + h.monitored, true, dropped, f.others))
            && (NoneWanted(h) && |h.monitored| + |h.others| > 0 ==>
                  && f.monitored == [(h.others + h.monitored)[0].(doNotMonitor := false)] && f.others == (h.others + h.monitored)[1..])
  {
    KeptConcat(h.monitored, h.others);
    DroppedConcat(h.others, h.monitored);
    KeptConcat(h.others, h.monitored);
    FixedCases(h);
    kept := KeptPicked(h.monitored + h.others);
    dropped := DroppedPicked(h.others + h.monitored);
    hide Kept, Dropped, Fixed;
    if NoneWanted(h) {
      NoneKept(h.others + h.monitored);
    }
  }

  lemma NoneKept(o: seq<GpuOption>)
    requires Kept(o) == []
    ensures Dropped(o) == o
  {
    var idx := KeptPicked(o);
    hide Kept;
    AllDropped(o);
  }
}
