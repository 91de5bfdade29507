/** What a sweep over /proc contributes to which device, and what the contributions add up to. */
module FdinfoLog {
  import opened Shared
  import opened Callbacks
  import opened ProcessRow

  /** A callback reads the fdinfo file of a process's descriptor into a row; it may decline the file. */
  type Callback = (nat, nat, GpuProcess) -> (bool, GpuProcess)

  /** The kcmp system call on two descriptors of a process; zero and every error mean the same open file here. */
  type Kcmp = (nat, nat, nat) -> int

  datatype FdFile = FdFile(regular: bool, numeric: bool, drm: bool, num: nat, opens: bool)
  datatype ProcDir = ProcDir(directory: bool, numeric: bool, pid: nat, readable: bool, fds: seq<FdFile>)

  predicate Candidate(f: FdFile) { f.regular && f.numeric && f.drm }

  predicate Walked(d: ProcDir) { d.directory && d.numeric && d.readable && d.pid != 0 }

  predicate Unseen(kcmp: Kcmp, pid: nat, seen: seq<nat>, num: nat) { forall i :: 0 <= i < |seen| ==> kcmp(pid, num, seen[i]) > 0 }

  /** The descriptors taken for open files of their own. */
  function Seen(kcmp: Kcmp, pid: nat, fds: seq<FdFile>): seq<nat> {
    if fds == [] then []
    else
      var before, f := Seen(kcmp, pid, fds[..|fds| - 1]), fds[|fds| - 1];
      if Candidate(f) && Unseen(kcmp, pid, before, f.num) then before + [f.num] else before
  }

  function Invalidated(f: Field): Field { Field(f.value, false) }

  /** RESET_ALL of the valid bits, and the unknown type; the values stay. */
  function Cleared(r: GpuProcess): GpuProcess {
    GpuProcess(r.pid, false, false, Invalidated(r.memory), Invalidated(r.gpuUsage), Invalidated(r.encodeUsage), Invalidated(r.decodeUsage),
               Invalidated(r.gfxEngine), Invalidated(r.computeEngine), Invalidated(r.encEngine), Invalidated(r.decEngine),
               Invalidated(r.cycles), Invalidated(r.sampleDelta))
  }

  /** The first active callback that accepts the file, and the row it filled. */
  function Dispatch<G>(es: seq<Entry<G, Callback>>, pid: nat, fd: nat, r: GpuProcess, k: nat): (Option<G>, GpuProcess)
    requires k <= |es|
    decreases |es| - k
  {
    if k == |es| then (None, r)
    else if !es[k].active then Dispatch(es, pid, fd, Cleared(r), k + 1)
    else
      var (ok, r2) := es[k].callback(pid, fd, Cleared(r));
      if ok then (Some(es[k].gpu), r2) else Dispatch(es, pid, fd, r2, k + 1)
  }

  /** The default type is graphical. */
  function Typed(r: GpuProcess): GpuProcess { if !r.graphical && !r.compute then r.(graphical := true) else r }

  datatype Contribution<G> = Contribution(gpu: G, pid: nat, fd: nat, row: GpuProcess)

  /** What one descriptor contributes, given those seen before it. */
  function FdContribution<G>(kcmp: Kcmp, es: seq<Entry<G, Callback>>, pid: nat, seen: seq<nat>, f: FdFile): seq<Contribution<G>> {
    if Candidate(f) && Unseen(kcmp, pid, seen, f.num) && f.opens then
      match Dispatch(es, pid, f.num, EmptyRow(pid), 0)
      case (Some(g), r) => [Contribution(g, pid, f.num, Typed(r))]
      case (None, _) => []
    else []
  }

  function FdLog<G>(kcmp: Kcmp, es: seq<Entry<G, Callback>>, pid: nat, fds: seq<FdFile>): seq<Contribution<G>> {
    if fds == [] then []
    else
      var front := fds[..|fds| - 1];
      FdLog(kcmp, es, pid, front) + FdContribution(kcmp, es, pid, Seen(kcmp, pid, front), fds[|fds| - 1])
  }

  /** Every contribution of a sweep, in order. */
  function SweepLog<G>(kcmp: Kcmp, es: seq<Entry<G, Callback>>, procs: seq<ProcDir>): seq<Contribution<G>> {
    if procs == [] then []
    else
      var front, d := SweepLog(kcmp, es, procs[..|procs| - 1]), procs[|procs| - 1];
      if Walked(d) then front + FdLog(kcmp, es, d.pid, d.fds) else front
  }

  // ----- Who takes a file -----

  /** The row after it has been handed to the first k entries, as long as they all decline. */
  function RowAt<G>(es: seq<Entry<G, Callback>>, pid: nat, fd: nat, r: GpuProcess, k: nat): GpuProcess
    requires k <= |es|
  {
    if k == 0 then r
    else
      var w := Cleared(RowAt(es, pid, fd, r, k - 1));
      if es[k - 1].active then es[k - 1].callback(pid, fd, w).1 else w
  }

  /** What is left on the row by entries that declined does not count: no value is valid, and the type is unknown. */
  lemma ClearedIsBlank(r: GpuProcess)
    ensures var w := Cleared(r); w.pid == r.pid && !w.graphical && !w.compute && forall v :: !Get(w, v).valid
  {
  }

  /** What entry k makes of the file, when it comes to it. */
  function Answer<G>(es: seq<Entry<G, Callback>>, pid: nat, fd: nat, k: nat): (bool, GpuProcess)
    requires k < |es|
  {
    es[k].callback(pid, fd, Cleared(RowAt(es, pid, fd, EmptyRow(pid), k)))
  }

  predicate Accepts<G>(es: seq<Entry<G, Callback>>, pid: nat, fd: nat, k: nat) { k < |es| && es[k].active && Answer(es, pid, fd, k).0 }

  /** Entry k is active and accepts the file, and every active entry before it has declined. */
  ghost predicate Takes<G>(es: seq<Entry<G, Callback>>, pid: nat, fd: nat, k: nat) {
    Accepts(es, pid, fd, k) && forall i :: 0 <= i < k ==> !Accepts(es, pid, fd, i)
  }

  lemma {:induction false} DispatchFrom<G>(es: seq<Entry<G, Callback>>, pid: nat, fd: nat, k: nat)
    requires k <= |es| && forall i :: 0 <= i < k ==> !Accepts(es, pid, fd, i)
    ensures Dispatch(es, pid, fd, EmptyRow(pid), 0) == Dispatch(es, pid, fd, RowAt(es, pid, fd, EmptyRow(pid), k), k)
  {
    if k > 0 {
      DispatchFrom(es, pid, fd, k - 1);
      assert !Accepts(es, pid, fd, k - 1);
    }
  }

  /** The file goes to the device of the entry that takes it, with the row that entry filled in. */
  lemma DispatchTakes<G>(es: seq<Entry<G, Callback>>, pid: nat, fd: nat, k: nat)
    requires Takes(es, pid, fd, k)
    ensures Dispatch(es, pid, fd, EmptyRow(pid), 0) == (Some(es[k].gpu), Answer(es, pid, fd, k).1)
  {
    DispatchFrom(es, pid, fd, k);
    hide Cleared, RowAt;
  }

  lemma {:induction false} FirstTakes<G>(es: seq<Entry<G, Callback>>, pid: nat, fd: nat, n: nat) returns (k: nat)
    requires Accepts(es, pid, fd, n)
    ensures Takes(es, pid, fd, k)
  {
    hide Answer;
    k := n;
    if i: nat :| i < n && Accepts(es, pid, fd, i) { k := FirstTakes(es, pid, fd, i); }
  }

  /** Nobody gets the file exactly when every active entry declines it; otherwise it goes to the first that does not. */
  lemma DispatchIff<G>(es: seq<Entry<G, Callback>>, pid: nat, fd: nat)
    ensures Dispatch(es, pid, fd, EmptyRow(pid), 0).0.None? <==> forall k: nat :: !Accepts(es, pid, fd, k)
    ensures Dispatch(es, pid, fd, EmptyRow(pid), 0).0.Some? ==>
              exists k: nat :: Takes(es, pid, fd, k) && Dispatch(es, pid, fd, EmptyRow(pid), 0) == (Some(es[k].gpu), Answer(es, pid, fd, k).1)
  {
    hide Accepts, Answer, Takes;
    if n: nat :| Accepts(es, pid, fd, n) {
      var k := FirstTakes(es, pid, fd, n);
      DispatchTakes(es, pid, fd, k);
    } else {
      DispatchFrom(es, pid, fd, |es|);
    }
  }

  // ----- Adding contributions up -----

  /** A row with one more contribution. */
  function Merge(p: GpuProcess, r: GpuProcess): GpuProcess {
    GpuProcess(p.pid, p.graphical || r.graphical, p.compute || r.compute,
               Plus(p.memory, r.memory), Plus(p.gpuUsage, r.gpuUsage), Plus(p.encodeUsage, r.encodeUsage), Plus(p.decodeUsage, r.decodeUsage),
               Plus(p.gfxEngine, r.gfxEngine), Plus(p.computeEngine, r.computeEngine), Plus(p.encEngine, r.encEngine), Plus(p.decEngine, r.decEngine),
               Plus(p.cycles, r.cycles), Plus(p.sampleDelta, r.sampleDelta))
  }

  /** The table with one more contribution: to its last row when that is the process's, to a new row otherwise. */
  function Added(rows: seq<GpuProcess>, pid: nat, r: GpuProcess): seq<GpuProcess> {
    if rows != [] && rows[|rows| - 1].pid == pid then rows[|rows| - 1 := Merge(rows[|rows| - 1], r)]
    else rows + [Merge(EmptyRow(pid), r)]
  }

  /** A device's table after the contributions. */
  function RowsOf<G(==)>(g: G, rows: seq<GpuProcess>, log: seq<Contribution<G>>): seq<GpuProcess> {
    if log == [] then rows
    else
      var before, c := RowsOf(g, rows, log[..|log| - 1]), log[|log| - 1];
      if c.gpu == g then Added(before, c.pid, c.row) else before
  }

  // ----- Each open file counts once -----

  /** No two contributions of a process come from the same open file. */
  ghost predicate FilesDistinct<G>(kcmp: Kcmp, log: seq<Contribution<G>>) {
    forall i, j :: 0 <= i < j < |log| && log[i].pid == log[j].pid ==> kcmp(log[j].pid, log[j].fd, log[i].fd) > 0
  }

  lemma {:induction false} FdLogDistinct<G>(kcmp: Kcmp, es: seq<Entry<G, Callback>>, pid: nat, fds: seq<FdFile>)
    ensures FilesDistinct(kcmp, FdLog(kcmp, es, pid, fds))
    ensures forall c :: c in FdLog(kcmp, es, pid, fds) ==> c.pid == pid && c.fd in Seen(kcmp, pid, fds)
  {
    hide Dispatch, Typed;
    if fds != [] {
      var front, f := fds[..|fds| - 1], fds[|fds| - 1];
      FdLogDistinct(kcmp, es, pid, front);
      OneContribution(kcmp, es, pid, Seen(kcmp, pid, front), f);
      hide FdContribution, Candidate;
      var log := FdLog(kcmp, es, pid, front);
      forall i | 0 <= i < |log| ensures log[i].fd in Seen(kcmp, pid, front) {
        assert log[i] in log;
      }
    }
  }

  lemma OneContribution<G>(kcmp: Kcmp, es: seq<Entry<G, Callback>>, pid: nat, seen: seq<nat>, f: FdFile)
    ensures var cs := FdContribution(kcmp, es, pid, seen, f);
            |cs| <= 1 && (|cs| == 1 ==> cs[0].pid == pid && cs[0].fd == f.num && Candidate(f) && Unseen(kcmp, pid, seen, f.num))
  {
  }

  /** Every descriptor of a device file is either counted itself or is the same open file as one counted before it. */
  lemma {:induction false} SeenCovers(kcmp: Kcmp, pid: nat, fds: seq<FdFile>, i: nat)
    requires i < |fds| && Candidate(fds[i])
    ensures fds[i].num in Seen(kcmp, pid, fds) || exists k :: 0 <= k < |Seen(kcmp, pid, fds)| && kcmp(pid, fds[i].num, Seen(kcmp, pid, fds)[k]) <= 0
  {
    var front, f := fds[..|fds| - 1], fds[|fds| - 1];
    var before, after := Seen(kcmp, pid, front), Seen(kcmp, pid, fds);
    assert forall k :: 0 <= k < |before| ==> after[k] == before[k];
    if i < |front| {
      SeenCovers(kcmp, pid, front, i);
      if fds[i].num in before {
        var k :| 0 <= k < |before| && before[k] == fds[i].num;
        assert after[k] == fds[i].num;
      }
    }
  }

  // ----- Each descriptor counts -----

  /** Descriptor i of a process is a device file, and not the same open file as one before it that is taken for its own. */
  ghost predicate Own(kcmp: Kcmp, pid: nat, fds: seq<FdFile>, i: nat) {
    && i < |fds| && fds[i].regular && fds[i].numeric && fds[i].drm
    && forall j: nat :: j < i && Own(kcmp, pid, fds, j) ==> kcmp(pid, fds[i].num, fds[j].num) > 0
  }

  /** What has been seen of the first n descriptors: exactly those of open files of their own. */
  ghost predicate OwnSeen(kcmp: Kcmp, pid: nat, fds: seq<FdFile>, n: nat, seen: seq<nat>) {
    && (forall i: nat :: i < n && Own(kcmp, pid, fds, i) ==> i < |fds| && fds[i].num in seen)
    && (forall x :: x in seen ==> exists i: nat :: i < n && i < |fds| && Own(kcmp, pid, fds, i) && fds[i].num == x)
  }

  lemma {:induction false} SeenAreOwn(kcmp: Kcmp, pid: nat, fds: seq<FdFile>, n: nat)
    requires n <= |fds|
    ensures OwnSeen(kcmp, pid, fds, n, Seen(kcmp, pid, fds[..n]))
  {
    if n > 0 {
      hide *;
      SeenAreOwn(kcmp, pid, fds, n - 1);
      OwnIsUnseen(kcmp, pid, fds, n - 1);
      SeenSnoc(kcmp, pid, fds, n - 1);
      OwnSeenStep(kcmp, pid, fds, n - 1, Seen(kcmp, pid, fds[..n - 1]));
    } else {
      assert fds[..0] == [];
    }
  }

  lemma OwnSeenStep(kcmp: Kcmp, pid: nat, fds: seq<FdFile>, i: nat, seen: seq<nat>)
    requires i < |fds| && OwnSeen(kcmp, pid, fds, i, seen)
    ensures OwnSeen(kcmp, pid, fds, i + 1, if Own(kcmp, pid, fds, i) then seen + [fds[i].num] else seen)
  {
    hide Own;
  }

  lemma SeenSnoc(kcmp: Kcmp, pid: nat, fds: seq<FdFile>, i: nat)
    requires i < |fds|
    ensures var before := Seen(kcmp, pid, fds[..i]);
            Seen(kcmp, pid, fds[..i + 1]) == if Candidate(fds[i]) && Unseen(kcmp, pid, before, fds[i].num) then before + [fds[i].num] else before
  {
    hide Unseen, Candidate;
    assert fds[..i + 1][..i] == fds[..i];
  }

  /** A descriptor is of an open file of its own exactly when it is seen for the first time. */
  lemma OwnIsUnseen(kcmp: Kcmp, pid: nat, fds: seq<FdFile>, i: nat)
    requires i < |fds| && OwnSeen(kcmp, pid, fds, i, Seen(kcmp, pid, fds[..i]))
    ensures Own(kcmp, pid, fds, i) <==> Candidate(fds[i]) && Unseen(kcmp, pid, Seen(kcmp, pid, fds[..i]), fds[i].num)
  {
    var seen := Seen(kcmp, pid, fds[..i]);
    hide Seen;
    if Own(kcmp, pid, fds, i) {
      forall k | 0 <= k < |seen| ensures kcmp(pid, fds[i].num, seen[k]) > 0 {
        assert seen[k] in seen;
        var j: nat :| j < i && Own(kcmp, pid, fds, j) && fds[j].num == seen[k];
      }
    }
    if Candidate(fds[i]) && Unseen(kcmp, pid, seen, fds[i].num) {
      forall j: nat | j < i && Own(kcmp, pid, fds, j) ensures kcmp(pid, fds[i].num, fds[j].num) > 0 {
        assert fds[j].num in seen;
      }
    }
  }

  /** Descriptor i contributes: it is of an open file of its own, it opens, and some active callback accepts it. */
  ghost predicate Counts<G>(kcmp: Kcmp, es: seq<Entry<G, Callback>>, pid: nat, fds: seq<FdFile>, i: nat) {
    i < |fds| && Own(kcmp, pid, fds, i) && fds[i].opens && exists k: nat :: Accepts(es, pid, fds[i].num, k)
  }

  /** What it contributes: the row of the callback that takes it, graphical unless that said it is a compute process only. */
  ghost predicate ComesFrom<G>(c: Contribution<G>, es: seq<Entry<G, Callback>>, pid: nat, fd: nat) {
    exists k: nat :: Takes(es, pid, fd, k) &&
      var r := Answer(es, pid, fd, k).1; c == Contribution(es[k].gpu, pid, fd, r.(graphical := r.graphical || !r.compute))
  }

  /** src lists the descriptors that contribute, each once and in order, and log what they contribute. */
  ghost predicate FromEach<G>(kcmp: Kcmp, es: seq<Entry<G, Callback>>, pid: nat, fds: seq<FdFile>, n: nat, src: seq<nat>, log: seq<Contribution<G>>) {
    && |src| == |log|
    && (forall a :: 0 <= a < |src| ==> src[a] < n && Counts(kcmp, es, pid, fds, src[a]) && ComesFrom(log[a], es, pid, fds[src[a]].num))
    && (forall a, b :: 0 <= a < b < |src| ==> src[a] < src[b])
    && (forall i: nat :: i < n && Counts(kcmp, es, pid, fds, i) ==> i in src)
  }

  lemma FdContributionIs<G>(kcmp: Kcmp, es: seq<Entry<G, Callback>>, pid: nat, fds: seq<FdFile>, i: nat)
    requires i < |fds|
    ensures var cs := FdContribution(kcmp, es, pid, Seen(kcmp, pid, fds[..i]), fds[i]);
            && (Counts(kcmp, es, pid, fds, i) ==> |cs| == 1 && ComesFrom(cs[0], es, pid, fds[i].num))
            && (!Counts(kcmp, es, pid, fds, i) ==> cs == [])
  {
    SeenAreOwn(kcmp, pid, fds, i);
    OwnIsUnseen(kcmp, pid, fds, i);
    DispatchIff(es, pid, fds[i].num);
    hide Own, Seen, Unseen, Candidate, Dispatch, Accepts, Answer, Takes;
    var d := Dispatch(es, pid, fds[i].num, EmptyRow(pid), 0);
    if Counts(kcmp, es, pid, fds, i) {
      var k: nat :| Takes(es, pid, fds[i].num, k) && d == (Some(es[k].gpu), Answer(es, pid, fds[i].num, k).1);
    }
  }

  /** Every descriptor that counts contributes exactly once, and nothing else does. */
  lemma {:induction false} EachCountsOnce<G>(kcmp: Kcmp, es: seq<Entry<G, Callback>>, pid: nat, fds: seq<FdFile>, n: nat) returns (src: seq<nat>)
    requires n <= |fds|
    ensures FromEach(kcmp, es, pid, fds, n, src, FdLog(kcmp, es, pid, fds[..n]))
  {
    hide Counts, ComesFrom, FdContribution, Seen;
    if n == 0 {
      src := [];
    } else {
      src := EachCountsOnce(kcmp, es, pid, fds, n - 1);
      assert fds[..n][..n - 1] == fds[..n - 1];
      FdContributionIs(kcmp, es, pid, fds, n - 1);
      if Counts(kcmp, es, pid, fds, n - 1) {
        src := src + [n - 1];
      }
    }
  }

  // ----- One row per process, holding the sums -----

  /** The contributions of one process stand together. */
  ghost predicate Grouped<G>(log: seq<Contribution<G>>) {
    forall i, j, k :: 0 <= i < j < k < |log| && log[i].pid == log[k].pid ==> log[j].pid == log[i].pid
  }

  ghost predicate Gives<G>(log: seq<Contribution<G>>, g: G, pid: int) { exists i :: 0 <= i < |log| && log[i].gpu == g && log[i].pid == pid }

  ghost predicate HasRow(rows: seq<GpuProcess>, pid: int) { exists a :: 0 <= a < |rows| && rows[a].pid == pid }

  /** Rows stand for exactly the processes that contributed to g, once each, and the last one for the latest of them. */
  ghost predicate RowPerPid<G>(g: G, rows: seq<GpuProcess>, log: seq<Contribution<G>>) {
    && (forall a :: 0 <= a < |rows| ==> Gives(log, g, rows[a].pid))
    && (forall pid :: Gives(log, g, pid) ==> HasRow(rows, pid))
    && (forall a, b :: 0 <= a < b < |rows| ==> rows[a].pid != rows[b].pid)
  }

  /** The last row belongs to the latest contribution to g. */
  ghost predicate LastRow<G>(g: G, rows: seq<GpuProcess>, log: seq<Contribution<G>>) {
    rows != [] ==> exists j :: 0 <= j < |log| && log[j].gpu == g && log[j].pid == rows[|rows| - 1].pid && forall i :: j < i < |log| ==> log[i].gpu != g
  }

  /** The sum of the valid values a process contributed to g. */
  function Sum<G(==)>(log: seq<Contribution<G>>, g: G, pid: int, v: Value): Field {
    if log == [] then UNSET
    else
      var before, c := Sum(log[..|log| - 1], g, pid, v), log[|log| - 1];
      if c.gpu == g && c.pid == pid then Plus(before, Get(c.row, v)) else before
  }

  lemma GivesSnoc<G>(log: seq<Contribution<G>>, g: G, pid: int)
    requires log != []
    ensures Gives(log, g, pid) <==> Gives(log[..|log| - 1], g, pid) || (log[|log| - 1].gpu == g && log[|log| - 1].pid == pid)
  {
  }

  /** A process that contributes again after another one has been seen would not be grouped. */
  lemma NewProcess<G>(g: G, rows: seq<GpuProcess>, log: seq<Contribution<G>>)
    requires log != [] && Grouped(log) && log[|log| - 1].gpu == g
    requires RowPerPid(g, rows, log[..|log| - 1]) && LastRow(g, rows, log[..|log| - 1])
    requires rows != [] && rows[|rows| - 1].pid != log[|log| - 1].pid
    ensures forall a :: 0 <= a < |rows| ==> rows[a].pid != log[|log| - 1].pid
  {
  }

  lemma AddedPids(rows: seq<GpuProcess>, pid: nat, r: GpuProcess)
    ensures var rows2 := Added(rows, pid, r);
            && rows2 != [] && rows2[|rows2| - 1].pid == pid
            && (if rows != [] && rows[|rows| - 1].pid == pid then |rows2| == |rows| else |rows2| == |rows| + 1)
            && forall a :: 0 <= a < |rows| ==> rows2[a].pid == rows[a].pid
  {
  }

  lemma AddedHas(rows: seq<GpuProcess>, pid: nat, r: GpuProcess, p: int)
    ensures HasRow(Added(rows, pid, r), p) <==> HasRow(rows, p) || p == pid
  {
    AddedPids(rows, pid, r);
    hide Added;
    var rows2 := Added(rows, pid, r);
    if HasRow(rows, p) {
      var a :| 0 <= a < |rows| && rows[a].pid == p;
      assert rows2[a].pid == p;
    }
    if HasRow(rows2, p) {
      var a :| 0 <= a < |rows2| && rows2[a].pid == p;
      assert a < |rows| ==> rows[a].pid == p;
    }
  }

  lemma StillLast<G>(g: G, rows: seq<GpuProcess>, log: seq<Contribution<G>>)
    requires log != [] && log[|log| - 1].gpu != g && LastRow(g, rows, log[..|log| - 1])
    ensures LastRow(g, rows, log)
  {
  }

  lemma StillRowPerPid<G>(g: G, rows: seq<GpuProcess>, log: seq<Contribution<G>>)
    requires log != [] && log[|log| - 1].gpu != g && RowPerPid(g, rows, log[..|log| - 1])
    ensures RowPerPid(g, rows, log)
  {
  }

  lemma NextRowPerPid<G>(g: G, rows: seq<GpuProcess>, log: seq<Contribution<G>>)
    requires log != [] && Grouped(log) && log[|log| - 1].gpu == g
    requires RowPerPid(g, rows, log[..|log| - 1]) && LastRow(g, rows, log[..|log| - 1])
    ensures var c := log[|log| - 1]; RowPerPid(g, Added(rows, c.pid, c.row), log)
  {
    var c := log[|log| - 1];
    var rows2 := Added(rows, c.pid, c.row);
    AddedPids(rows, c.pid, c.row);
    if rows != [] && rows[|rows| - 1].pid != c.pid { NewProcess(g, rows, log); }
    hide Gives, HasRow, Added, Grouped, LastRow;
    forall pid ensures Gives(log, g, pid) <==> Gives(log[..|log| - 1], g, pid) || pid == c.pid { GivesSnoc(log, g, pid); }
    forall pid ensures HasRow(rows2, pid) <==> HasRow(rows, pid) || pid == c.pid { AddedHas(rows, c.pid, c.row, pid); }
  }

  lemma NextLastRow<G>(g: G, rows: seq<GpuProcess>, log: seq<Contribution<G>>)
    requires log != [] && log[|log| - 1].gpu == g
    ensures var c := log[|log| - 1]; LastRow(g, Added(rows, c.pid, c.row), log)
  {
  }

  /** One row for every process that contributed to the device, whatever the other devices got in between. */
  lemma {:induction false} OneRowPerProcess<G>(g: G, log: seq<Contribution<G>>)
    requires Grouped(log)
    ensures RowPerPid(g, RowsOf(g, [], log), log) && LastRow(g, RowsOf(g, [], log), log)
  {
    if log != [] {
      hide RowPerPid, LastRow, Added, Grouped;
      var front := log[..|log| - 1];
      GroupedFront(log);
      OneRowPerProcess(g, front);
      if log[|log| - 1].gpu == g {
        NextRowPerPid(g, RowsOf(g, [], front), log);
        NextLastRow(g, RowsOf(g, [], front), log);
      } else {
        StillRowPerPid(g, RowsOf(g, [], front), log);
        StillLast(g, RowsOf(g, [], front), log);
      }
    }
  }

  lemma GroupedFront<G>(log: seq<Contribution<G>>)
    requires Grouped(log) && log != []
    ensures Grouped(log[..|log| - 1])
  {
  }

  lemma MergeAdds(p: GpuProcess, r: GpuProcess, v: Value)
    ensures Get(Merge(p, r), v) == Plus(Get(p, v), Get(r, v))
    ensures forall pid :: Get(EmptyRow(pid), v) == UNSET
  {
  }

  lemma {:induction false} SumOfNothing<G>(log: seq<Contribution<G>>, g: G, pid: int, v: Value)
    requires !Gives(log, g, pid)
    ensures Sum(log, g, pid, v) == UNSET
  {
    if log != [] {
      GivesSnoc(log, g, pid);
      SumOfNothing(log[..|log| - 1], g, pid, v);
    }
  }

  /** Every row holds, value by value, the sum of what its process contributed to the device. */
  lemma {:induction false} RowsHoldSums<G>(g: G, log: seq<Contribution<G>>, v: Value)
    requires Grouped(log)
    ensures forall a :: 0 <= a < |RowsOf(g, [], log)| ==> Get(RowsOf(g, [], log)[a], v) == Sum(log, g, RowsOf(g, [], log)[a].pid, v)
  {
    hide Grouped, RowPerPid, LastRow, Merge, Added;
    if log != [] {
      var front := log[..|log| - 1];
      GroupedFront(log);
      RowsHoldSums(g, front, v);
      if log[|log| - 1].gpu == g {
        OneRowPerProcess(g, front);
        NextSums(g, RowsOf(g, [], front), log, v);
      }
    }
  }

  lemma NotYetGiven<G>(g: G, rows: seq<GpuProcess>, log: seq<Contribution<G>>, pid: int)
    requires RowPerPid(g, rows, log) && forall a :: 0 <= a < |rows| ==> rows[a].pid != pid
    ensures !Gives(log, g, pid)
  {
  }

  lemma NextSums<G>(g: G, rows: seq<GpuProcess>, log: seq<Contribution<G>>, v: Value)
    requires log != [] && Grouped(log) && log[|log| - 1].gpu == g
    requires RowPerPid(g, rows, log[..|log| - 1]) && LastRow(g, rows, log[..|log| - 1])
    requires forall a :: 0 <= a < |rows| ==> Get(rows[a], v) == Sum(log[..|log| - 1], g, rows[a].pid, v)
    ensures var c := log[|log| - 1]; var rows2 := Added(rows, c.pid, c.row);
            forall a :: 0 <= a < |rows2| ==> Get(rows2[a], v) == Sum(log, g, rows2[a].pid, v)
  {
    var c, front := log[|log| - 1], log[..|log| - 1];
    var rows2 := Added(rows, c.pid, c.row);
    if rows != [] && rows[|rows| - 1].pid == c.pid {
      MergeAdds(rows[|rows| - 1], c.row, v);
      hide Gives, LastRow, Grouped, Merge, Get;
      assert rows2[|rows| - 1].pid == c.pid;
    } else {
      if rows != [] { NewProcess(g, rows, log); }
      NotYetGiven(g, rows, front, c.pid);
      SumOfNothing(front, g, c.pid, v);
      MergeAdds(EmptyRow(c.pid), c.row, v);
      hide Gives, LastRow, Grouped, Merge, Get;
      assert rows2[|rows|] == Merge(EmptyRow(c.pid), c.row);
    }
  }

  /** The plain total of the valid values a process contributed to g. */
  function ValidTotal<G(==)>(log: seq<Contribution<G>>, g: G, pid: int, v: Value): nat {
    if log == [] then 0
    else
      var c := log[|log| - 1];
      ValidTotal(log[..|log| - 1], g, pid, v) + (if c.gpu == g && c.pid == pid && Get(c.row, v).valid then Get(c.row, v).value else 0)
  }

  ghost predicate GivesValid<G>(log: seq<Contribution<G>>, g: G, pid: int, v: Value) {
    exists i :: 0 <= i < |log| && log[i].gpu == g && log[i].pid == pid && Get(log[i].row, v).valid
  }

  /** The sum is valid when one of its terms is, and then it is their total. */
  lemma {:induction false} SumIsTotal<G>(log: seq<Contribution<G>>, g: G, pid: int, v: Value)
    ensures Sum(log, g, pid, v) == Field(ValidTotal(log, g, pid, v), GivesValid(log, g, pid, v))
  {
    hide Get;
    if log != [] {
      SumIsTotal(log[..|log| - 1], g, pid, v);
      GivesValidSnoc(log, g, pid, v);
      hide GivesValid;
    }
  }

  lemma GivesValidSnoc<G>(log: seq<Contribution<G>>, g: G, pid: int, v: Value)
    requires log != []
    ensures var front, c := log[..|log| - 1], log[|log| - 1];
            GivesValid(log, g, pid, v) <==> GivesValid(front, g, pid, v) || (c.gpu == g && c.pid == pid && Get(c.row, v).valid)
  {
    hide Get;
    assert forall i :: 0 <= i < |log| - 1 ==> log[i] == log[..|log| - 1][i];
  }

  ghost predicate GivesGraphical<G>(log: seq<Contribution<G>>, g: G, pid: int) {
    exists i :: 0 <= i < |log| && log[i].gpu == g && log[i].pid == pid && log[i].row.graphical
  }

  ghost predicate GivesCompute<G>(log: seq<Contribution<G>>, g: G, pid: int) {
    exists i :: 0 <= i < |log| && log[i].gpu == g && log[i].pid == pid && log[i].row.compute
  }

  lemma GivesTypeSnoc<G>(log: seq<Contribution<G>>, g: G, pid: int)
    requires log != []
    ensures var front, c := log[..|log| - 1], log[|log| - 1];
            && (GivesGraphical(log, g, pid) <==> GivesGraphical(front, g, pid) || (c.gpu == g && c.pid == pid && c.row.graphical))
            && (GivesCompute(log, g, pid) <==> GivesCompute(front, g, pid) || (c.gpu == g && c.pid == pid && c.row.compute))
  {
    assert forall i :: 0 <= i < |log| - 1 ==> log[i] == log[..|log| - 1][i];
  }

  /** A row is of every type that one of its process's contributions is of. */
  lemma {:induction false} RowTypes<G>(g: G, log: seq<Contribution<G>>)
    requires Grouped(log)
    ensures forall a :: 0 <= a < |RowsOf(g, [], log)| ==>
              var r := RowsOf(g, [], log)[a];
              (r.graphical <==> GivesGraphical(log, g, r.pid)) && (r.compute <==> GivesCompute(log, g, r.pid))
  {
    hide Grouped, RowPerPid, LastRow, Added, GivesGraphical, GivesCompute;
    if log != [] {
      var front := log[..|log| - 1];
      GroupedFront(log);
      RowTypes(g, front);
      forall pid: int ensures
          && (GivesGraphical(log, g, pid) <==> GivesGraphical(front, g, pid) || (log[|log| - 1].gpu == g && log[|log| - 1].pid == pid && log[|log| - 1].row.graphical))
          && (GivesCompute(log, g, pid) <==> GivesCompute(front, g, pid) || (log[|log| - 1].gpu == g && log[|log| - 1].pid == pid && log[|log| - 1].row.compute))
      {
        GivesTypeSnoc(log, g, pid);
      }
      if log[|log| - 1].gpu == g {
        OneRowPerProcess(g, front);
        NextTypes(g, RowsOf(g, [], front), log);
      }
    }
  }

  lemma NextTypes<G>(g: G, rows: seq<GpuProcess>, log: seq<Contribution<G>>)
    requires log != [] && Grouped(log) && log[|log| - 1].gpu == g
    requires RowPerPid(g, rows, log[..|log| - 1]) && LastRow(g, rows, log[..|log| - 1])
    requires forall a :: 0 <= a < |rows| ==> (rows[a].graphical <==> GivesGraphical(log[..|log| - 1], g, rows[a].pid)) && (rows[a].compute <==> GivesCompute(log[..|log| - 1], g, rows[a].pid))
    ensures var c := log[|log| - 1]; var rows2 := Added(rows, c.pid, c.row);
            forall a :: 0 <= a < |rows2| ==> (rows2[a].graphical <==> GivesGraphical(log, g, rows2[a].pid)) && (rows2[a].compute <==> GivesCompute(log, g, rows2[a].pid))
  {
    var c, front := log[|log| - 1], log[..|log| - 1];
    var rows2 := Added(rows, c.pid, c.row);
    hide GivesGraphical, GivesCompute;
    forall a | 0 <= a < |rows2|
      ensures (rows2[a].graphical <==> GivesGraphical(log, g, rows2[a].pid)) && (rows2[a].compute <==> GivesCompute(log, g, rows2[a].pid))
    {
      GivesTypeSnoc(log, g, rows2[a].pid);
      if !(rows != [] && rows[|rows| - 1].pid == c.pid) {
        if rows != [] { NewProcess(g, rows, log); }
        NotYetGiven(g, rows, front, c.pid);
        NoTypesGiven(front, g, c.pid);
      }
      hide RowPerPid, LastRow, Grouped;
    }
  }

  lemma NoTypesGiven<G>(log: seq<Contribution<G>>, g: G, pid: int)
    requires !Gives(log, g, pid)
    ensures !GivesGraphical(log, g, pid) && !GivesCompute(log, g, pid)
  {
  }

  // ----- The whole sweep -----

  /** The contributions of one process. */
  function OfPid<G>(log: seq<Contribution<G>>, pid: nat): seq<Contribution<G>> {
    if log == [] then []
    else OfPid(log[..|log| - 1], pid) + (if log[|log| - 1].pid == pid then [log[|log| - 1]] else [])
  }

  lemma {:induction false} OfPidConcat<G>(a: seq<Contribution<G>>, b: seq<Contribution<G>>, pid: nat)
    ensures OfPid(a + b, pid) == OfPid(a, pid) + OfPid(b, pid)
    decreases |b|
  {
    if b == [] {
      assert a + b == a;
    } else {
      assert (a + b)[..|a + b| - 1] == a + b[..|b| - 1];
      OfPidConcat(a, b[..|b| - 1], pid);
    }
  }

  lemma {:induction false} OfPidAll<G>(log: seq<Contribution<G>>, pid: nat)
    ensures (forall c :: c in log ==> c.pid == pid) ==> OfPid(log, pid) == log
    ensures (forall k :: 0 <= k < |log| ==> log[k].pid != pid) ==> OfPid(log, pid) == []
  {
    if log != [] { OfPidAll(log[..|log| - 1], pid); }
  }

  /** With distinct pids, what a process of the listing contributes to the sweep is what its descriptors contribute. */
  lemma {:induction false} SweepOfProcess<G>(kcmp: Kcmp, es: seq<Entry<G, Callback>>, procs: seq<ProcDir>, i: nat)
    requires PidsDistinct(procs) && i < |procs| && Walked(procs[i])
    ensures OfPid(SweepLog(kcmp, es, procs), procs[i].pid) == FdLog(kcmp, es, procs[i].pid, procs[i].fds)
  {
    hide FdLog, OfPid, Seen;
    var n, pid := |procs| - 1, procs[i].pid;
    var front, d := procs[..n], procs[n];
    var before, fdLog := SweepLog(kcmp, es, front), FdLog(kcmp, es, d.pid, d.fds);
    FdLogDistinct(kcmp, es, d.pid, d.fds);
    OfPidAll(fdLog, pid);
    OfPidConcat(before, fdLog, pid);
    if i < n {
      SweepOfProcess(kcmp, es, front, i);
      assert Walked(d) ==> d.pid != pid;
      assert forall k :: 0 <= k < |fdLog| ==> fdLog[k] in fdLog;
    } else {
      LogFromDirs(kcmp, es, front);
      NewDir(procs);
      OfPidAll(before, pid);
    }
  }

  /**
   * A sweep loses nothing: of every process directory that can be read, every descriptor of an open file of its own that opens and
   * that some active callback accepts contributes exactly once, to the device of the first that does; nothing else contributes.
   */
  lemma SweepCountsEach<G>(kcmp: Kcmp, es: seq<Entry<G, Callback>>, procs: seq<ProcDir>, i: nat) returns (src: seq<nat>)
    requires PidsDistinct(procs) && i < |procs|
    requires procs[i].directory && procs[i].numeric && procs[i].readable && procs[i].pid != 0
    ensures FromEach(kcmp, es, procs[i].pid, procs[i].fds, |procs[i].fds|, src, OfPid(SweepLog(kcmp, es, procs), procs[i].pid))
  {
    hide FromEach, FdLog, SweepLog, OfPid;
    SweepOfProcess(kcmp, es, procs, i);
    src := EachCountsOnce(kcmp, es, procs[i].pid, procs[i].fds, |procs[i].fds|);
    assert procs[i].fds[..|procs[i].fds|] == procs[i].fds;
  }

  /** No two directories of the listing that are walked have the same pid. */
  ghost predicate PidsDistinct(procs: seq<ProcDir>) {
    forall i, j :: 0 <= i < j < |procs| && Walked(procs[i]) && Walked(procs[j]) ==> procs[i].pid != procs[j].pid
  }

  ghost predicate HasDir(procs: seq<ProcDir>, pid: nat) {
    exists i :: 0 <= i < |procs| && procs[i].directory && procs[i].numeric && procs[i].readable && procs[i].pid != 0 && procs[i].pid == pid
  }

  /** Only process directories that can be read contribute. */
  lemma {:induction false} LogFromDirs<G>(kcmp: Kcmp, es: seq<Entry<G, Callback>>, procs: seq<ProcDir>)
    ensures forall k :: 0 <= k < |SweepLog(kcmp, es, procs)| ==> HasDir(procs, SweepLog(kcmp, es, procs)[k].pid)
  {
    if procs != [] {
      hide FdLog;
      var front, d := procs[..|procs| - 1], procs[|procs| - 1];
      LogFromDirs(kcmp, es, front);
      FdLogDistinct(kcmp, es, d.pid, d.fds);
      var log, before, fdLog := SweepLog(kcmp, es, procs), SweepLog(kcmp, es, front), FdLog(kcmp, es, d.pid, d.fds);
      forall k | 0 <= k < |log| ensures HasDir(procs, log[k].pid) {
        if k < |before| {
          assert log[k] == before[k];
          var i :| 0 <= i < |front| && front[i].directory && front[i].numeric && front[i].readable && front[i].pid != 0 && front[i].pid == before[k].pid;
          assert Walked(procs[i]) && procs[i].pid == log[k].pid;
        } else {
          assert log[k] == fdLog[k - |before|] && fdLog[k - |before|] in fdLog;
          assert Walked(procs[|procs| - 1]) && procs[|procs| - 1].pid == log[k].pid;
        }
      }
    }
  }

  /** With distinct pids the contributions of a process stand together, and no open file of a process counts twice. */
  lemma {:induction false} SweepGrouped<G>(kcmp: Kcmp, es: seq<Entry<G, Callback>>, procs: seq<ProcDir>)
    requires PidsDistinct(procs)
    ensures Grouped(SweepLog(kcmp, es, procs)) && FilesDistinct(kcmp, SweepLog(kcmp, es, procs))
  {
    if procs != [] {
      hide FdLog, Seen;
      var front, d := procs[..|procs| - 1], procs[|procs| - 1];
      SweepGrouped(kcmp, es, front);
      if Walked(d) {
        LogFromDirs(kcmp, es, front);
        FdLogDistinct(kcmp, es, d.pid, d.fds);
        NewDir(procs);
        AppendGrouped(kcmp, SweepLog(kcmp, es, front), FdLog(kcmp, es, d.pid, d.fds), d.pid);
      }
    }
  }

  lemma NewDir(procs: seq<ProcDir>)
    requires procs != [] && PidsDistinct(procs) && Walked(procs[|procs| - 1])
    ensures !HasDir(procs[..|procs| - 1], procs[|procs| - 1].pid)
  {
  }

  lemma AppendGrouped<G>(kcmp: Kcmp, a: seq<Contribution<G>>, b: seq<Contribution<G>>, pid: nat)
    requires Grouped(a) && FilesDistinct(kcmp, a) && FilesDistinct(kcmp, b)
    requires (forall c :: c in b ==> c.pid == pid) && forall k :: 0 <= k < |a| ==> a[k].pid != pid
    ensures Grouped(a + b) && FilesDistinct(kcmp, a + b)
  {
  }

  lemma RowTypesOf<G>(kcmp: Kcmp, es: seq<Entry<G, Callback>>, procs: seq<ProcDir>, g: G)
    requires PidsDistinct(procs)
    ensures var log := SweepLog(kcmp, es, procs); var rows := RowsOf(g, [], log);
            forall a :: 0 <= a < |rows| ==> rows[a].graphical == GivesGraphical(log, g, rows[a].pid) && rows[a].compute == GivesCompute(log, g, rows[a].pid)
  {
    hide *;
    SweepGrouped(kcmp, es, procs);
    RowTypes(g, SweepLog(kcmp, es, procs));
  }

  /** Conservation over a sweep of a device whose table starts empty: one row per process that contributed, every value the total of
      that process's valid contributions, every type one of theirs, every open file counted at most once. */
  lemma SweepConserves<G>(kcmp: Kcmp, es: seq<Entry<G, Callback>>, procs: seq<ProcDir>, g: G, v: Value)
    requires PidsDistinct(procs)
    ensures var log := SweepLog(kcmp, es, procs); var rows := RowsOf(g, [], log);
            && RowPerPid(g, rows, log) && FilesDistinct(kcmp, log)
            && forall a :: 0 <= a < |rows| ==>
                 && Get(rows[a], v) == Field(ValidTotal(log, g, rows[a].pid, v), GivesValid(log, g, rows[a].pid, v))
                 && rows[a].graphical == GivesGraphical(log, g, rows[a].pid) && rows[a].compute == GivesCompute(log, g, rows[a].pid)
  {
    hide *;
    forall pid ensures Sum(SweepLog(kcmp, es, procs), g, pid, v) == Field(ValidTotal(SweepLog(kcmp, es, procs), g, pid, v), GivesValid(SweepLog(kcmp, es, procs), g, pid, v)) {
      SumIsTotal(SweepLog(kcmp, es, procs), g, pid, v);
    }
    RowTypesOf(kcmp, es, procs, g);
    SweepGrouped(kcmp, es, procs);
    OneRowPerProcess(g, SweepLog(kcmp, es, procs));
    RowsHoldSums(g, SweepLog(kcmp, es, procs), v);
  }
}
