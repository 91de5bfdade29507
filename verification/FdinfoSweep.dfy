/** The sweep over /proc as it runs: descriptors are deduplicated, dispatched, and added to growing process tables. */
module FdinfoSweep {
  import opened Shared
  import opened Callbacks
  import opened ProcessRow
  import opened FdinfoLog

  const COMMON_PROCESS_LINEAR_REALLOC_INC: nat := 16
  const DRM_FD_LINEAR_REALLOC_INC: nat := 8

  /** The process table of a device. */
  class Gpu {
    var processes: array<GpuProcess>
    var processesCount: nat

    ghost predicate Valid()
      reads this
    {
      processesCount <= processes.Length
    }

    ghost function Rows(): seq<GpuProcess>
      requires Valid()
      reads this, processes
    {
      processes[..processesCount]
    }

    constructor ()
      ensures Valid() && Rows() == [] && fresh(processes)
    {
      processes := new GpuProcess[0];
      processesCount := 0;
    }

    /** reallocarray */
    method Grow()
      requires Valid()
      modifies this`processes
      ensures Valid() && Rows() == old(Rows()) && fresh(processes) && processes.Length == old(processes.Length) + COMMON_PROCESS_LINEAR_REALLOC_INC
    {
      var bigger := new GpuProcess[processes.Length + COMMON_PROCESS_LINEAR_REALLOC_INC](_ => EmptyRow(0));
      for i := 0 to processes.Length
        invariant processes == old(processes) && forall k :: 0 <= k < i ==> bigger[k] == processes[k]
      {
        bigger[i] := processes[i];
      }
      processes := bigger;
    }

    /** new_empty_process_entry */
    method NewRow(pid: nat) returns (index: nat)
      requires Valid() && processesCount < processes.Length
      modifies this`processesCount, processes
      ensures Valid() && Rows() == old(Rows()) + [EmptyRow(pid)] && index == processesCount - 1
    {
      index := processesCount;
      processesCount := processesCount + 1;
      processes[index] := EmptyRow(pid);
    }

    /** The row of the process: the last one, or a new one when that is another process's. */
    method RowFor(pid: nat) returns (index: nat)
      requires Valid()
      modifies this, processes
      ensures Valid() && processesCount > 0 && index == processesCount - 1 && (processes == old(processes) || fresh(processes))
      ensures Rows() == if old(Rows()) != [] && old(Rows())[|old(Rows())| - 1].pid == pid then old(Rows()) else old(Rows()) + [EmptyRow(pid)]
    {
      index := if processesCount != 0 then processesCount - 1 else 0;
      if (processesCount == 0 || processes[index].pid != pid) && processesCount == processes.Length {
        Grow();
        index := NewRow(pid);
      }
      if processesCount == 0 || processes[index].pid != pid {
        index := NewRow(pid);
      }
    }

    /** Add a contribution up in the row of its process. */
    method AddContribution(pid: nat, local: GpuProcess)
      requires Valid()
      modifies this, processes
      ensures Valid() && Rows() == Added(old(Rows()), pid, local) && (processes == old(processes) || fresh(processes))
    {
      var index := RowFor(pid);
      assert processes[index] == Rows()[index];
      var info := AddUsages(processes[index], local);
      info := AddEngines(info, local);
      MergeInParts(processes[index], local);
      processes[index] := info;
      hide Merge;
      assert Rows() == Added(old(Rows()), pid, local);
    }
  }

  /** The type, the memory and the usages of a row with one more contribution. */
  function WithUsages(p: GpuProcess, r: GpuProcess): GpuProcess {
    p.(graphical := p.graphical || r.graphical, compute := p.compute || r.compute,
       memory := Plus(p.memory, r.memory), gpuUsage := Plus(p.gpuUsage, r.gpuUsage),
       encodeUsage := Plus(p.encodeUsage, r.encodeUsage), decodeUsage := Plus(p.decodeUsage, r.decodeUsage))
  }

  /** The engine times, cycles and sample time of a row with one more contribution. */
  function WithEngines(p: GpuProcess, r: GpuProcess): GpuProcess {
    p.(gfxEngine := Plus(p.gfxEngine, r.gfxEngine), computeEngine := Plus(p.computeEngine, r.computeEngine),
       encEngine := Plus(p.encEngine, r.encEngine), decEngine := Plus(p.decEngine, r.decEngine),
       cycles := Plus(p.cycles, r.cycles), sampleDelta := Plus(p.sampleDelta, r.sampleDelta))
  }

  lemma MergeInParts(p: GpuProcess, r: GpuProcess)
    ensures Merge(p, r) == WithEngines(WithUsages(p, r), r)
  {
  }

  method AddUsages(p: GpuProcess, local: GpuProcess) returns (info: GpuProcess)
    ensures info == WithUsages(p, local)
  {
    info := p;
    info := info.(graphical := info.graphical || local.graphical, compute := info.compute || local.compute);
    if local.memory.valid {
      info := info.(memory := Set(info.memory.value + local.memory.value));
    }
    if local.gpuUsage.valid {
      info := info.(gpuUsage := Set(info.gpuUsage.value + local.gpuUsage.value));
    }
    if local.encodeUsage.valid {
      info := info.(encodeUsage := Set(info.encodeUsage.value + local.encodeUsage.value));
    }
    if local.decodeUsage.valid {
      info := info.(decodeUsage := Set(info.decodeUsage.value + local.decodeUsage.value));
    }
  }

  method AddEngines(p: GpuProcess, local: GpuProcess) returns (info: GpuProcess)
    ensures info == WithEngines(p, local)
  {
    info := AddEngineTimes(p, local);
    info := AddCounters(info, local);
  }

  method AddEngineTimes(p: GpuProcess, local: GpuProcess) returns (info: GpuProcess)
    ensures info == p.(gfxEngine := Plus(p.gfxEngine, local.gfxEngine), computeEngine := Plus(p.computeEngine, local.computeEngine),
                       encEngine := Plus(p.encEngine, local.encEngine), decEngine := Plus(p.decEngine, local.decEngine))
  {
    info := p;
    if local.gfxEngine.valid {
      info := info.(gfxEngine := Set(info.gfxEngine.value + local.gfxEngine.value));
    }
    if local.computeEngine.valid {
      info := info.(computeEngine := Set(info.computeEngine.value + local.computeEngine.value));
    }
    if local.encEngine.valid {
      info := info.(encEngine := Set(info.encEngine.value + local.encEngine.value));
    }
    if local.decEngine.valid {
      info := info.(decEngine := Set(info.decEngine.value + local.decEngine.value));
    }
  }

  method AddCounters(p: GpuProcess, local: GpuProcess) returns (info: GpuProcess)
    ensures info == p.(cycles := Plus(p.cycles, local.cycles), sampleDelta := Plus(p.sampleDelta, local.sampleDelta))
  {
    info := p;
    if local.cycles.valid {
      info := info.(cycles := Set(info.cycles.value + local.cycles.value));
    }
    if local.sampleDelta.valid {
      info := info.(sampleDelta := Set(info.sampleDelta.value + local.sampleDelta.value));
    }
  }

  /** The descriptors seen for the process being walked; the buffer is kept between processes. */
  class SeenFds {
    var fds: array<nat>
    var len: nat

    ghost predicate Valid()
      reads this
    {
      len <= fds.Length
    }

    ghost function Contents(): seq<nat>
      requires Valid()
      reads this, fds
    {
      fds[..len]
    }

    constructor ()
      ensures Valid() && Contents() == [] && fresh(fds)
    {
      fds := new nat[0];
      len := 0;
    }

    /** A new process: the buffer is kept, what it holds is forgotten. */
    method Clear()
      requires Valid()
      modifies this`len
      ensures Valid() && Contents() == []
    {
      len := 0;
    }

    method Push(fd: nat)
      requires Valid()
      modifies this, fds
      ensures Valid() && Contents() == old(Contents()) + [fd] && (fds == old(fds) || fresh(fds))
    {
      if len == fds.Length {
        var bigger := new nat[fds.Length + DRM_FD_LINEAR_REALLOC_INC](_ => 0);
        for i := 0 to fds.Length
          invariant fds == old(fds) && len == old(len) && fds[..len] == old(fds[..len])
          invariant forall k :: 0 <= k < i ==> bigger[k] == fds[k]
        {
          bigger[i] := fds[i];
        }
        fds := bigger;
      }
      fds[len] := fd;
      len := len + 1;
    }

    /** Whether the descriptor refers to an open file of its own, by asking about every one seen. */
    method IsUnseen(kcmp: Kcmp, pid: nat, fd: nat) returns (own: bool)
      requires Valid()
      ensures own <==> Unseen(kcmp, pid, Contents(), fd)
    {
      own := true;
      for i := 0 to len
        invariant forall k :: 0 <= k < i ==> kcmp(pid, fd, fds[k]) > 0
      {
        if kcmp(pid, fd, fds[i]) <= 0 {
          assert Contents()[i] == fds[i];
          return false;
        }
      }
    }
  }

  /** Rewind the file and offer it to one callback after the other until one takes it. */
  method Offer(table: CallbackTable<Gpu, Callback>, pid: nat, fd: nat) returns (gpu: Option<Gpu>, row: GpuProcess)
    requires table.Valid()
    ensures var (g, r) := Dispatch(table.Contents(), pid, fd, EmptyRow(pid), 0); gpu == g && (g.Some? ==> row == r)
    ensures gpu.Some? ==> exists k :: 0 <= k < |table.Contents()| && table.Contents()[k].gpu == gpu.value
    ensures gpu.None? <==> forall k: nat :: !Accepts(table.Contents(), pid, fd, k)
    ensures gpu.Some? ==> exists k: nat :: Takes(table.Contents(), pid, fd, k) && gpu.value == table.Contents()[k].gpu && row == Answer(table.Contents(), pid, fd, k).1
  {
    DispatchIff(table.Contents(), pid, fd);
    hide Takes, Accepts, Answer, Cleared;
    row := EmptyRow(pid);
    gpu := None;
    var index := 0;
    while gpu.None? && index < table.registered
      invariant index <= table.registered
      invariant gpu.None? ==> Dispatch(table.Contents(), pid, fd, EmptyRow(pid), 0) == Dispatch(table.Contents(), pid, fd, row, index)
      invariant gpu.Some? ==> Dispatch(table.Contents(), pid, fd, EmptyRow(pid), 0) == (gpu, row)
      invariant gpu.Some? ==> exists k :: 0 <= k < |table.Contents()| && table.Contents()[k].gpu == gpu.value
      decreases table.registered - index
    {
      row := Cleared(row);
      var entry := table.entries[index];
      assert table.Contents()[index] == entry;
      if entry.active {
        var (ok, row2) := entry.callback(pid, fd, row);
        row := row2;
        if ok {
          gpu := Some(entry.gpu);
        }
      }
      index := index + 1;
    }
  }

  /** The devices have process tables of their own. */
  ghost predicate Apart(gpus: set<Gpu>)
    reads gpus
  {
    (forall g :: g in gpus ==> g.Valid()) && (forall g, h :: g in gpus && h in gpus && g != h ==> g.processes != h.processes)
  }

  /** Every device's table is what the contributions so far make of the one it started with. */
  ghost predicate Tables(gpus: set<Gpu>, start: map<Gpu, seq<GpuProcess>>, log: seq<Contribution<Gpu>>)
    reads gpus, set g | g in gpus :: g.processes
  {
    Apart(gpus) && forall g :: g in gpus ==> g in start && g.Rows() == RowsOf(g, start[g], log)
  }

  lemma RowsSnoc(g: Gpu, rows: seq<GpuProcess>, log: seq<Contribution<Gpu>>, c: Contribution<Gpu>)
    ensures RowsOf(g, rows, log + [c]) == if c.gpu == g then Added(RowsOf(g, rows, log), c.pid, c.row) else RowsOf(g, rows, log)
  {
  }

  /** Add one contribution to the table of its device. */
  method Contribute(c: Contribution<Gpu>, ghost gpus: set<Gpu>, ghost start: map<Gpu, seq<GpuProcess>>, ghost log: seq<Contribution<Gpu>>)
    requires Tables(gpus, start, log) && c.gpu in gpus
    modifies c.gpu, c.gpu.processes
    ensures Tables(gpus, start, log + [c]) && (c.gpu.processes == old(c.gpu.processes) || fresh(c.gpu.processes))
  {
    hide RowsOf, Added;
    c.gpu.AddContribution(c.pid, c.row);
    forall g | g in gpus ensures g.Rows() == RowsOf(g, start[g], log + [c]) {
      RowsSnoc(g, start[g], log, c);
    }
  }

  /** Every device a callback is registered for is one of gpus. */
  ghost predicate Registered(es: seq<Entry<Gpu, Callback>>, gpus: set<Gpu>) { forall k :: 0 <= k < |es| ==> es[k].gpu in gpus }

  /** Tables only ever move to new memory. */
  twostate predicate Moved(gpus: set<Gpu>)
    reads gpus
  {
    forall g :: g in gpus ==> g.processes == old(g.processes) || fresh(g.processes)
  }

  /** One descriptor of the process being walked. */
  method TakeFd(kcmp: Kcmp, pid: nat, f: FdFile, table: CallbackTable<Gpu, Callback>, seen: SeenFds,
                ghost gpus: set<Gpu>, ghost start: map<Gpu, seq<GpuProcess>>, ghost log: seq<Contribution<Gpu>>)
    requires table.Valid() && Registered(table.Contents(), gpus) && seen.Valid() && Tables(gpus, start, log)
    modifies gpus, set g | g in gpus :: g.processes
    modifies seen, seen.fds
    ensures seen.Valid() && (seen.fds == old(seen.fds) || fresh(seen.fds)) && Moved(gpus)
    ensures seen.Contents() == if Candidate(f) && Unseen(kcmp, pid, old(seen.Contents()), f.num) then old(seen.Contents()) + [f.num] else old(seen.Contents())
    ensures Tables(gpus, start, log + FdContribution(kcmp, table.Contents(), pid, old(seen.Contents()), f))
  {
    hide Tables, Dispatch, RowsOf, Unseen, Typed;
    ghost var es, before := table.Contents(), seen.Contents();
    ghost var more := FdContribution(kcmp, es, pid, before, f);
    if !(f.regular && f.numeric && f.drm) {
      assert log + more == log;
      return;
    }
    var own := seen.IsUnseen(kcmp, pid, f.num);
    if !own {
      assert log + more == log;
      return;
    }
    seen.Push(f.num);
    if !f.opens {
      assert log + more == log;
      return;
    }
    var gpu, row := Offer(table, pid, f.num);
    if gpu.None? {
      assert log + more == log;
      return;
    }
    row := DefaultType(row);
    assert more == [Contribution(gpu.value, pid, f.num, row)];
    Contribute(Contribution(gpu.value, pid, f.num, row), gpus, start, log);
  }

  method DefaultType(row: GpuProcess) returns (r: GpuProcess)
    ensures r == Typed(row)
  {
    r := row;
    if !r.graphical && !r.compute {
      r := r.(graphical := true);
    }
  }

  lemma LogStep(kcmp: Kcmp, es: seq<Entry<Gpu, Callback>>, pid: nat, fds: seq<FdFile>, i: nat)
    requires i < |fds|
    ensures Seen(kcmp, pid, fds[..i + 1]) ==
            if Candidate(fds[i]) && Unseen(kcmp, pid, Seen(kcmp, pid, fds[..i]), fds[i].num) then Seen(kcmp, pid, fds[..i]) + [fds[i].num]
            else Seen(kcmp, pid, fds[..i])
    ensures FdLog(kcmp, es, pid, fds[..i + 1]) == FdLog(kcmp, es, pid, fds[..i]) + FdContribution(kcmp, es, pid, Seen(kcmp, pid, fds[..i]), fds[i])
  {
    hide FdContribution, Unseen, Candidate;
    assert fds[..i + 1][..i] == fds[..i];
  }

  /** The descriptors of one process. */
  method WalkProcess(kcmp: Kcmp, d: ProcDir, table: CallbackTable<Gpu, Callback>, seen: SeenFds,
                     ghost gpus: set<Gpu>, ghost start: map<Gpu, seq<GpuProcess>>, ghost log: seq<Contribution<Gpu>>)
    requires table.Valid() && Registered(table.Contents(), gpus) && seen.Valid() && Tables(gpus, start, log)
    modifies gpus, set g | g in gpus :: g.processes
    modifies seen, seen.fds
    ensures seen.Valid() && (seen.fds == old(seen.fds) || fresh(seen.fds)) && Moved(gpus)
    ensures Tables(gpus, start, log + FdLog(kcmp, table.Contents(), d.pid, d.fds))
  {
    hide Tables, Seen, FdLog, FdContribution, Unseen, Candidate, RowsOf;
    ghost var es := table.Contents();
    seen.Clear();
    NoFds(kcmp, es, d.pid, log);
    assert d.fds[..0] == [];
    for i := 0 to |d.fds|
      invariant seen.Valid() && (seen.fds == old(seen.fds) || fresh(seen.fds)) && Moved(gpus)
      invariant seen.Contents() == Seen(kcmp, d.pid, d.fds[..i])
      invariant Tables(gpus, start, log + FdLog(kcmp, es, d.pid, d.fds[..i]))
    {
      LogStep(kcmp, es, d.pid, d.fds, i);
      ghost var before, more := FdLog(kcmp, es, d.pid, d.fds[..i]), FdContribution(kcmp, es, d.pid, seen.Contents(), d.fds[i]);
      TakeFd(kcmp, d.pid, d.fds[i], table, seen, gpus, start, log + before);
      assert log + before + more == log + (before + more);
    }
    assert d.fds[..|d.fds|] == d.fds;
  }

  lemma NoFds(kcmp: Kcmp, es: seq<Entry<Gpu, Callback>>, pid: nat, log: seq<Contribution<Gpu>>)
    ensures Seen(kcmp, pid, []) == [] && FdLog(kcmp, es, pid, []) == [] && log + FdLog(kcmp, es, pid, []) == log
  {
  }

  lemma SweepStep(kcmp: Kcmp, es: seq<Entry<Gpu, Callback>>, procs: seq<ProcDir>, i: nat)
    requires i < |procs|
    ensures SweepLog(kcmp, es, procs[..i + 1]) ==
            if Walked(procs[i]) then SweepLog(kcmp, es, procs[..i]) + FdLog(kcmp, es, procs[i].pid, procs[i].fds) else SweepLog(kcmp, es, procs[..i])
  {
    hide FdLog, Walked;
    assert procs[..i + 1][..i] == procs[..i];
  }

  /** With no active callback nothing is contributed. */
  lemma {:induction false} NoneActive(kcmp: Kcmp, es: seq<Entry<Gpu, Callback>>, procs: seq<ProcDir>)
    requires forall k :: 0 <= k < |es| ==> !es[k].active
    ensures SweepLog(kcmp, es, procs) == []
  {
    hide FdLog;
    if procs != [] {
      NoneActive(kcmp, es, procs[..|procs| - 1]);
      NoneActiveFds(kcmp, es, procs[|procs| - 1].pid, procs[|procs| - 1].fds);
    }
  }

  lemma {:induction false} NoneActiveFds(kcmp: Kcmp, es: seq<Entry<Gpu, Callback>>, pid: nat, fds: seq<FdFile>)
    requires forall k :: 0 <= k < |es| ==> !es[k].active
    ensures FdLog(kcmp, es, pid, fds) == []
  {
    hide Dispatch, Seen;
    if fds != [] {
      NoneActiveFds(kcmp, es, pid, fds[..|fds| - 1]);
      Declined(es, pid, fds[|fds| - 1].num, EmptyRow(pid), 0);
    }
  }

  lemma {:induction false} Declined(es: seq<Entry<Gpu, Callback>>, pid: nat, fd: nat, r: GpuProcess, k: nat)
    requires k <= |es| && forall i :: 0 <= i < |es| ==> !es[i].active
    ensures Dispatch(es, pid, fd, r, k).0 == None
    decreases |es| - k
  {
    hide Cleared;
    if k < |es| { Declined(es, pid, fd, Cleared(r), k + 1); }
  }

  /** processinfo_sweep_fdinfos, over a listing of /proc. */
  method Sweep(kcmp: Kcmp, procs: seq<ProcDir>, table: CallbackTable<Gpu, Callback>, seen: SeenFds, ghost gpus: set<Gpu>, ghost start: map<Gpu, seq<GpuProcess>>)
    requires table.Valid() && Registered(table.Contents(), gpus) && seen.Valid() && Tables(gpus, start, [])
    modifies gpus, set g | g in gpus :: g.processes
    modifies seen, seen.fds
    ensures seen.Valid() && Moved(gpus) && table.Contents() == old(table.Contents())
    ensures Tables(gpus, start, SweepLog(kcmp, table.Contents(), procs))
  {
    hide Tables, FdLog, RowsOf, SweepLog;
    ghost var es := table.Contents();
    var anyActive := false;
    var index := 0;
    while !anyActive && index < table.registered
      invariant index <= table.registered && (!anyActive ==> forall k :: 0 <= k < index ==> !es[k].active)
      decreases table.registered - index
    {
      anyActive := table.entries[index].active;
      assert es[index] == table.entries[index];
      index := index + 1;
    }
    if !anyActive {
      NoneActive(kcmp, es, procs);
      return;
    }
    NoProcs(kcmp, es);
    assert procs[..0] == [];
    for i := 0 to |procs|
      invariant seen.Valid() && (seen.fds == old(seen.fds) || fresh(seen.fds)) && Moved(gpus)
      invariant Tables(gpus, start, SweepLog(kcmp, es, procs[..i]))
    {
      SweepStep(kcmp, es, procs, i);
      if procs[i].directory && procs[i].numeric && procs[i].readable && procs[i].pid != 0 {
        WalkProcess(kcmp, procs[i], table, seen, gpus, start, SweepLog(kcmp, es, procs[..i]));
      }
    }
    assert procs[..|procs|] == procs;
  }

  lemma NoProcs(kcmp: Kcmp, es: seq<Entry<Gpu, Callback>>)
    ensures SweepLog(kcmp, es, []) == []
  {
  }
}
