/** The per-pid cache of process information: one generation being consumed, one being built, over refreshes. */
module PidCache {
  import opened Arith
  import opened Shared

  /** A heap-allocated string. */
  class CString {
    const text: string

    constructor (text: string)
      ensures this.text == text
    {
      this.text := text;
    }
  }

  /** What /proc said when it was asked about a pid. */
  datatype CpuUsage = CpuUsage(totalUser: real, totalKernel: real, timestamp: int, resident: nat, virtual: nat)
  datatype Proc = Proc(userName: Option<string>, cmdline: Option<string>, usage: Option<CpuUsage>)

  /** One row of a device's process table. */
  datatype Row = Row(pid: int, cmdline: CString?, userName: CString?, cpuUsage: Option<int>, resident: Option<nat>, virtual: Option<nat>,
                     gpuMemory: Option<nat>, gpuMemoryPercent: Option<nat>)

  class Entry {
    const pid: int
    const cmdline: CString?
    const userName: CString?
    var lastTotal: real
    var lastTime: int

    constructor (pid: int, cmdline: CString?, userName: CString?)
      ensures this.pid == pid && this.cmdline == cmdline && this.userName == userName && lastTotal == -1.0 && lastTime == 0
    {
      this.pid, this.cmdline, this.userName := pid, cmdline, userName;
      lastTotal, lastTime := -1.0, 0;
    }
  }

  /** Everything freed with an entry. */
  ghost function Parts(e: Entry): set<object> {
    {e} + (if e.cmdline != null then {e.cmdline} else {}) + (if e.userName != null then {e.userName} else {})
  }

  /** Round half away from zero of 100 * used / total, at most 100; what fmin makes of 0 / 0 is 100. */
  function MemoryPercent(used: nat, total: nat): (p: nat)
    ensures p <= 100
  {
    if total == 0 then 100
    else
      var rounded := (200 * used + total) / (2 * total);
      if rounded > 100 then 100 else rounded
  }

  /** The percentage nearest to the share of the device's memory; of a device without any memory it is 100. */
  lemma MemoryPercentNearest(used: nat, total: nat)
    requires used <= total
    ensures total == 0 ==> MemoryPercent(used, total) == 100
    ensures total > 0 ==> 2 * total * MemoryPercent(used, total) <= 200 * used + total < 2 * total * MemoryPercent(used, total) + 2 * total
  {
    if total > 0 {
      DivMod(200 * used + total, 2 * total);
      DivBound(101, 200 * used + total, 2 * total);
    }
  }

  /** The memory half of a row: more than the device has is not believed. */
  function WithMemory(r: Row, total: Option<nat>): Row {
    if total.None? || r.gpuMemory.None? then r
    else if total.value < r.gpuMemory.value then r.(gpuMemory := None)
    else r.(gpuMemoryPercent := Some(MemoryPercent(r.gpuMemory.value, total.value)))
  }

  /** The processor half: nothing to compare with counts as 0. */
  function WithCpu(r: Row, usage: Option<CpuUsage>, lastTotal: real, lastTime: int, rate: (real, int, int) -> int): Row {
    match usage
    case None => r
    case Some(u) =>
      r.(cpuUsage := Some(if lastTotal > -1.0 then rate(u.totalUser + u.totalKernel - lastTotal, lastTime, u.timestamp) else 0),
         resident := Some(u.resident), virtual := Some(u.virtual))
  }

  function WithNames(r: Row, cmdline: CString?, userName: CString?): Row {
    r.(cmdline := if cmdline != null then cmdline else r.cmdline, userName := if userName != null then userName else r.userName)
  }

  /** A row once everything known of its process is filled in. */
  function Filled(r: Row, total: Option<nat>, proc: Proc, e: Entry, lastTotal: real, lastTime: int, rate: (real, int, int) -> int): Row {
    WithMemory(WithCpu(WithNames(r, e.cmdline, e.userName), proc.usage, lastTotal, lastTime, rate), total)
  }

  /** What one sighting of a pid leaves of the previous measurement. */
  function LastTotal(usage: Option<CpuUsage>): real {
    match usage
    case None => -1.0
    case Some(u) => u.totalKernel + u.totalUser
  }

  // ----- Measurements and sightings -----

  /** What an entry remembers of the last sighting of its process. */
  datatype Measured = Never | At(total: real, time: int)

  ghost function MeasuredBy(e: Entry): Measured
    reads e
  {
    if e.lastTotal > -1.0 then At(e.lastTotal, e.lastTime) else Never
  }

  lemma FirstMeasured(e: Entry)
    ensures e.lastTotal == -1.0 ==> MeasuredBy(e) == Never
    ensures MeasuredBy(e) == if e.lastTotal > -1.0 then At(e.lastTotal, e.lastTime) else Never
  {
  }

  ghost function Measures(m: map<int, Entry>): (r: map<int, Measured>)
    reads m.Values
    ensures r.Keys == m.Keys && forall p :: p in m ==> r[p] == MeasuredBy(m[p])
  {
    map p | p in m :: MeasuredBy(m[p])
  }

  lemma MeasuresAdded(m: map<int, Entry>, pid: int, e: Entry)
    ensures Measures(m[pid := e]) == Measures(m)[pid := MeasuredBy(e)]
  {
  }

  /** What a sighting leaves for the next one. */
  function Leaves(usage: Option<CpuUsage>): Measured {
    match usage
    case None => Never
    case Some(u) => if u.totalUser + u.totalKernel > -1.0 then At(u.totalUser + u.totalKernel, u.timestamp) else Never
  }

  /** A row of a device, and what /proc said of its process when it was filled in. */
  datatype Sighting = Sighting(pid: int, usage: Option<CpuUsage>)

  /** What is remembered of every process once it has been sighted so. */
  function After(m: map<int, Measured>, s: seq<Sighting>): map<int, Measured> {
    if s == [] then m else After(m, s[..|s| - 1])[s[|s| - 1].pid := Leaves(s[|s| - 1].usage)]
  }

  function Prior(m: map<int, Measured>, pid: int): Measured { if pid in m then m[pid] else Never }

  lemma {:induction false} AfterConcat(m: map<int, Measured>, a: seq<Sighting>, b: seq<Sighting>)
    ensures After(m, a + b) == After(After(m, a), b)
    decreases |b|
  {
    if b == [] {
      assert a + b == a;
    } else {
      assert (a + b)[..|a + b| - 1] == a + b[..|b| - 1];
      AfterConcat(m, a, b[..|b| - 1]);
    }
  }

  /** Sighting i is the last of its process in s. */
  ghost predicate LastOf(s: seq<Sighting>, i: nat, pid: int) { i < |s| && s[i].pid == pid && forall k :: i < k < |s| ==> s[k].pid != pid }

  ghost predicate Sighted(s: seq<Sighting>, pid: int) { exists i :: 0 <= i < |s| && s[i].pid == pid }

  /** The last sighting counts, and without one nothing changes. */
  lemma {:induction false} AfterIsLast(m: map<int, Measured>, s: seq<Sighting>, pid: int)
    ensures forall i: nat :: LastOf(s, i, pid) ==> pid in After(m, s) && After(m, s)[pid] == Leaves(s[i].usage)
    ensures !Sighted(s, pid) ==> (pid in After(m, s) <==> pid in m) && Prior(After(m, s), pid) == Prior(m, pid)
  {
    hide Leaves;
    if s != [] {
      var front := s[..|s| - 1];
      AfterIsLast(m, front, pid);
      forall i: nat | LastOf(s, i, pid) && i < |front| ensures LastOf(front, i, pid) {
      }
      assert !Sighted(s, pid) ==> !Sighted(front, pid);
    }
  }

  /** After a refresh only the processes sighted in it are remembered. */
  function Refreshed(m: map<int, Measured>, s: seq<Sighting>): map<int, Measured> {
    map p | p in After(m, s) && p in PidsSighted(s) :: After(m, s)[p]
  }

  function PidsSighted(s: seq<Sighting>): set<int> { set i | 0 <= i < |s| :: s[i].pid }

  /** What is remembered after a number of refreshes. */
  function Remembered(refreshes: seq<seq<Sighting>>): map<int, Measured> {
    if refreshes == [] then map[] else Refreshed(Remembered(refreshes[..|refreshes| - 1]), refreshes[|refreshes| - 1])
  }

  /** The sightings of the refresh before. */
  function Before(refreshes: seq<seq<Sighting>>, n: nat): seq<Sighting>
    requires n <= |refreshes|
  {
    if n == 0 then [] else refreshes[n - 1]
  }

  /**
   * What a row is compared with, over any number of refreshes: the last sighting of its process before it in this refresh; if
   * there is none, the last in the refresh before; and nothing if it was not sighted then either.
   */
  lemma PriorIsLastSighting(refreshes: seq<seq<Sighting>>, n: nat, k: nat, pid: int)
    requires n < |refreshes| && k <= |refreshes[n]|
    ensures var prior := Prior(After(Remembered(refreshes[..n]), refreshes[n][..k]), pid);
            && (forall i: nat :: LastOf(refreshes[n][..k], i, pid) ==> prior == Leaves(refreshes[n][i].usage))
            && (!Sighted(refreshes[n][..k], pid) ==> forall i: nat :: LastOf(Before(refreshes, n), i, pid) ==> prior == Leaves(Before(refreshes, n)[i].usage))
            && (!Sighted(refreshes[n][..k], pid) && !Sighted(Before(refreshes, n), pid) ==> prior == Never)
  {
    hide Leaves, LastOf, Sighted;
    AfterIsLast(Remembered(refreshes[..n]), refreshes[n][..k], pid);
    forall i: nat | LastOf(refreshes[n][..k], i, pid) ensures i < k { LastIsThere(refreshes[n][..k], i, pid); }
    if n > 0 {
      assert refreshes[..n][..n - 1] == refreshes[..n - 1];
      AfterIsLast(Remembered(refreshes[..n - 1]), refreshes[n - 1], pid);
      RefreshedKeeps(Remembered(refreshes[..n - 1]), refreshes[n - 1], pid);
      hide Refreshed, After;
    } else {
      NoneSighted(pid);
    }
  }

  lemma NoneSighted(pid: int)
    ensures !Sighted([], pid) && forall i: nat :: !LastOf([], i, pid)
  {
  }

  lemma LastIsThere(s: seq<Sighting>, i: nat, pid: int)
    requires LastOf(s, i, pid)
    ensures i < |s| && Sighted(s, pid)
  {
  }

  lemma RefreshedKeeps(m: map<int, Measured>, s: seq<Sighting>, pid: int)
    ensures Sighted(s, pid) ==> pid in After(m, s) && Prior(Refreshed(m, s), pid) == After(m, s)[pid]
    ensures !Sighted(s, pid) ==> Prior(Refreshed(m, s), pid) == Never
    ensures forall i: nat :: LastOf(s, i, pid) ==> Sighted(s, pid)
  {
    SightedIsKnown(m, s, pid);
    assert Sighted(s, pid) <==> pid in PidsSighted(s);
    hide After;
  }

  lemma {:induction false} SightedIsKnown(m: map<int, Measured>, s: seq<Sighting>, pid: int)
    ensures Sighted(s, pid) ==> pid in After(m, s)
  {
    if s != [] {
      SightedIsKnown(m, s[..|s| - 1], pid);
      assert Sighted(s, pid) ==> Sighted(s[..|s| - 1], pid) || s[|s| - 1].pid == pid;
    }
  }

  /**
   * What a row is told: the processor use between the two measurements, 0 without an earlier one, and memory as /proc gave it;
   * device memory that the device has, with its percentage.
   */
  predicate Told(r: Row, r2: Row, total: Option<nat>, usage: Option<CpuUsage>, prior: Measured, rate: (real, int, int) -> int) {
    && r2.pid == r.pid
    && (usage.None? ==> r2.cpuUsage == r.cpuUsage && r2.resident == r.resident && r2.virtual == r.virtual)
    && (usage.Some? ==>
          var u := usage.value;
          && r2.resident == Some(u.resident) && r2.virtual == Some(u.virtual)
          && r2.cpuUsage == Some(if prior.At? then rate(u.totalUser + u.totalKernel - prior.total, prior.time, u.timestamp) else 0))
    && (total.None? || r.gpuMemory.None? ==> r2.gpuMemory == r.gpuMemory && r2.gpuMemoryPercent == r.gpuMemoryPercent)
    && (total.Some? && r.gpuMemory.Some? ==>
          if r.gpuMemory.value > total.value then r2.gpuMemory == None && r2.gpuMemoryPercent == r.gpuMemoryPercent
          else r2.gpuMemory == r.gpuMemory && r2.gpuMemoryPercent == Some(MemoryPercent(r.gpuMemory.value, total.value)))
  }

  lemma TellsPid(r: Row, r2: Row, total: Option<nat>, usage: Option<CpuUsage>, prior: Measured, rate: (real, int, int) -> int)
    requires Told(r, r2, total, usage, prior, rate)
    ensures r2.pid == r.pid
  {
  }

  lemma LiveWas(cached: map<int, Entry>, updated: map<int, Entry>, pid: int)
    ensures pid in updated ==> pid in cached + updated && (cached + updated)[pid] == updated[pid]
    ensures pid !in updated && pid in cached ==> pid in cached + updated && (cached + updated)[pid] == cached[pid]
  {
  }

  lemma FilledIsTold(r: Row, total: Option<nat>, proc: Proc, e: Entry, lastTotal: real, lastTime: int, rate: (real, int, int) -> int)
    ensures Told(r, Filled(r, total, proc, e, lastTotal, lastTime, rate), total, proc.usage, if lastTotal > -1.0 then At(lastTotal, lastTime) else Never, rate)
  {
    hide MemoryPercent;
  }

  /**
   * Two sightings of a process, with /proc answering both times: the second row's processor use is the rate of the consumption
   * between the two over the time between the two.
   */
  lemma UseBetweenSightings(refreshes: seq<seq<Sighting>>, n: nat, k: nat, i: nat, r: Row, r2: Row, total: Option<nat>, rate: (real, int, int) -> int)
    requires n < |refreshes| && k < |refreshes[n]| && refreshes[n][k].usage.Some?
    requires LastOf(Before(refreshes, n), i, refreshes[n][k].pid) && !Sighted(refreshes[n][..k], refreshes[n][k].pid) && Before(refreshes, n)[i].usage.Some?
    requires var was := Before(refreshes, n)[i].usage.value; was.totalUser + was.totalKernel >= 0.0
    requires Told(r, r2, total, refreshes[n][k].usage, Prior(After(Remembered(refreshes[..n]), refreshes[n][..k]), refreshes[n][k].pid), rate)
    ensures var was, u := Before(refreshes, n)[i].usage.value, refreshes[n][k].usage.value;
            && r2.cpuUsage == Some(rate((u.totalUser + u.totalKernel) - (was.totalUser + was.totalKernel), was.timestamp, u.timestamp))
            && r2.resident == Some(u.resident) && r2.virtual == Some(u.virtual)
  {
    PriorIsLastSighting(refreshes, n, k, refreshes[n][k].pid);
    hide After, Remembered, MemoryPercent;
  }

  /** The rows of a device as sightings. */
  function Sightings(rows: seq<Row>, procs: seq<Proc>): (s: seq<Sighting>)
    requires |rows| == |procs|
    ensures |s| == |rows| && forall j :: 0 <= j < |s| ==> s[j] == Sighting(rows[j].pid, procs[j].usage)
  {
    seq(|rows|, j requires 0 <= j < |rows| == |procs| => Sighting(rows[j].pid, procs[j].usage))
  }

  /** Row k is told what its sighting says, with m remembered before the first row. */
  predicate ToldAt(rows: seq<Row>, procs: seq<Proc>, r2: Row, m: map<int, Measured>, k: nat, total: Option<nat>, rate: (real, int, int) -> int)
    requires k < |rows| == |procs|
  {
    Told(rows[k], r2, total, procs[k].usage, Prior(After(m, Sightings(rows, procs)[..k]), rows[k].pid), rate)
  }

  /** All the rows of a device are. */
  ghost predicate DeviceTold(rows: seq<Row>, procs: seq<Proc>, rows2: seq<Row>, m: map<int, Measured>, total: Option<nat>, rate: (real, int, int) -> int) {
    && |rows2| <= |rows| == |procs|
    && forall k :: 0 <= k < |rows2| ==> ToldAt(rows, procs, rows2[k], m, k, total, rate)
  }

  /** There is an answer of /proc for every row. */
  predicate Sized(rows: seq<seq<Row>>, procs: seq<seq<Proc>>) { |rows| == |procs| && forall c :: 0 <= c < |rows| ==> |rows[c]| == |procs[c]| }

  lemma NoSightings(rows: seq<seq<Row>>, procs: seq<seq<Proc>>, m: map<int, Measured>)
    requires Sized(rows, procs)
    ensures After(m, AllSightings(rows, procs, 0)) == m
  {
  }

  /** The rows of the first d devices as sightings. */
  function AllSightings(rows: seq<seq<Row>>, procs: seq<seq<Proc>>, d: nat): seq<Sighting>
    requires Sized(rows, procs) && d <= |rows|
  {
    if d == 0 then [] else AllSightings(rows, procs, d - 1) + Sightings(rows[d - 1], procs[d - 1])
  }

  lemma {:induction false} SightingsPrefix(rows: seq<seq<Row>>, procs: seq<seq<Proc>>, d: nat, n: nat)
    requires Sized(rows, procs) && d <= n <= |rows|
    ensures AllSightings(rows, procs, d) <= AllSightings(rows, procs, n)
  {
    if d < n { SightingsPrefix(rows, procs, d, n - 1); }
  }

  /** In the order of the whole refresh: row k of device d is sighting number i, and told from what is remembered before it. */
  lemma RowInRefresh(rows: seq<seq<Row>>, procs: seq<seq<Proc>>, d: nat, k: nat, r2: Row, m: map<int, Measured>, total: Option<nat>, rate: (real, int, int) -> int)
    returns (i: nat)
    requires Sized(rows, procs) && d < |rows| && k < |rows[d]|
    requires ToldAt(rows[d], procs[d], r2, After(m, AllSightings(rows, procs, d)), k, total, rate)
    ensures var all := AllSightings(rows, procs, |rows|);
            && i < |all| && all[i] == Sighting(rows[d][k].pid, procs[d][k].usage)
            && Told(rows[d][k], r2, total, procs[d][k].usage, Prior(After(m, all[..i]), rows[d][k].pid), rate)
  {
    hide Told, After, Prior, AllSightings;
    var all, before, mine := AllSightings(rows, procs, |rows|), AllSightings(rows, procs, d), Sightings(rows[d], procs[d]);
    SightingsPrefix(rows, procs, d + 1, |rows|);
    SightingsNext(rows, procs, d);
    i := |before| + k;
    assert all[i] == (before + mine)[i];
    assert all[..i] == before + mine[..k];
    AfterConcat(m, before, mine[..k]);
  }

  lemma SightingsNext(rows: seq<seq<Row>>, procs: seq<seq<Proc>>, d: nat)
    requires Sized(rows, procs) && d < |rows|
    ensures AllSightings(rows, procs, d + 1) == AllSightings(rows, procs, d) + Sightings(rows[d], procs[d])
  {
  }

  /** The first |done| rows of a device have been populated. */
  ghost predicate Populated(c0: map<int, Entry>, u0: map<int, Entry>, m: map<int, Measured>, rows: seq<Row>, procs: seq<Proc>, done: seq<Row>,
                            cached: map<int, Entry>, updated: map<int, Entry>, known: map<int, Measured>, total: Option<nat>, rate: (real, int, int) -> int) {
    && |done| <= |rows| == |procs| && (forall k :: 0 <= k < |done| ==> done[k].pid == rows[k].pid)
    && Seen(c0, u0, cached, updated, PidsOf(rows[..|done|])) && RowsRefer(done, updated)
    && known == After(m, Sightings(rows, procs)[..|done|]) && DeviceTold(rows, procs, done, m, total, rate)
  }

  lemma NonePopulated(c0: map<int, Entry>, u0: map<int, Entry>, m: map<int, Measured>, rows: seq<Row>, procs: seq<Proc>, total: Option<nat>, rate: (real, int, int) -> int)
    requires |rows| == |procs|
    ensures Populated(c0, u0, m, rows, procs, [], c0, u0, m, total, rate)
  {
    NothingSeen(c0, u0);
  }

  lemma OneMorePopulated(c0: map<int, Entry>, u0: map<int, Entry>, m: map<int, Measured>, rows: seq<Row>, procs: seq<Proc>, done: seq<Row>,
                         c: map<int, Entry>, u: map<int, Entry>, known: map<int, Measured>, total: Option<nat>, rate: (real, int, int) -> int, row: Row, e: Entry)
    requires Populated(c0, u0, m, rows, procs, done, c, u, known, total, rate) && |done| < |rows| && c0.Keys !! u0.Keys
    requires var r := rows[|done|]; row.pid == r.pid && (r.pid in u ==> e == u[r.pid]) && (r.pid !in u && r.pid in c ==> e == c[r.pid])
    requires row.cmdline == e.cmdline && row.userName == e.userName
    requires Told(rows[|done|], row, total, procs[|done|].usage, Prior(known, rows[|done|].pid), rate)
    ensures var r := rows[|done|];
            Populated(c0, u0, m, rows, procs, done + [row], c - {r.pid}, u[r.pid := e], known[r.pid := Leaves(procs[|done|].usage)], total, rate)
  {
    var j := |done|;
    SeenStep(c0, u0, c, u, PidsOf(rows[..j]), rows[j].pid, e);
    PidsStep(rows, j);
    RowsStep(done, u, row, e);
    AfterStep(m, Sightings(rows, procs), j);
    ToldStep(rows, procs, done, m, total, rate, row);
    hide Seen, RowsRefer, DeviceTold, PidsOf, After;
  }

  lemma AfterStep(m: map<int, Measured>, s: seq<Sighting>, j: nat)
    requires j < |s|
    ensures After(m, s[..j + 1]) == After(m, s[..j])[s[j].pid := Leaves(s[j].usage)]
  {
    assert s[..j + 1][..j] == s[..j];
  }

  lemma ToldStep(rows: seq<Row>, procs: seq<Proc>, done: seq<Row>, m: map<int, Measured>, total: Option<nat>, rate: (real, int, int) -> int, row: Row)
    requires DeviceTold(rows, procs, done, m, total, rate) && |done| < |rows| == |procs| && ToldAt(rows, procs, row, m, |done|, total, rate)
    ensures DeviceTold(rows, procs, done + [row], m, total, rate)
  {
    hide ToldAt;
  }

  lemma PopulatedParts(c0: map<int, Entry>, u0: map<int, Entry>, m: map<int, Measured>, rows: seq<Row>, procs: seq<Proc>, done: seq<Row>,
                       cached: map<int, Entry>, updated: map<int, Entry>, known: map<int, Measured>, total: Option<nat>, rate: (real, int, int) -> int)
    requires Populated(c0, u0, m, rows, procs, done, cached, updated, known, total, rate) && |done| == |rows|
    ensures Seen(c0, u0, cached, updated, PidsOf(rows)) && PidsOf(done) == PidsOf(rows) && RowsRefer(done, updated)
    ensures known == After(m, Sightings(rows, procs)) && DeviceTold(rows, procs, done, m, total, rate)
    ensures forall k :: 0 <= k < |done| ==> MemoryFits(done[k], total)
  {
    assert rows[..|rows|] == rows;
    assert Sightings(rows, procs)[..|rows|] == Sightings(rows, procs);
    SamePids(rows, done);
    ToldFits(rows, procs, done, m, total, rate);
    hide Seen, RowsRefer, DeviceTold, PidsOf, After, MemoryFits;
  }

  lemma ToldFits(rows: seq<Row>, procs: seq<Proc>, done: seq<Row>, m: map<int, Measured>, total: Option<nat>, rate: (real, int, int) -> int)
    requires DeviceTold(rows, procs, done, m, total, rate)
    ensures forall k :: 0 <= k < |done| ==> MemoryFits(done[k], total)
  {
    hide After, Prior, MemoryPercent, Sightings;
    forall k | 0 <= k < |done| ensures MemoryFits(done[k], total) {
      assert ToldAt(rows, procs, done[k], m, k, total, rate);
    }
  }

  /** The first |done| devices have been populated. */
  ghost predicate AllPopulated(c0: map<int, Entry>, u0: map<int, Entry>, m: map<int, Measured>, rows: seq<seq<Row>>, procs: seq<seq<Proc>>, done: seq<seq<Row>>,
                               cached: map<int, Entry>, updated: map<int, Entry>, known: map<int, Measured>, totals: seq<Option<nat>>, rate: (real, int, int) -> int) {
    && Sized(rows, procs) && |done| <= |rows| == |totals|
    && Seen(c0, u0, cached, updated, AllPids(rows[..|done|])) && known == After(m, AllSightings(rows, procs, |done|))
    && (forall d :: 0 <= d < |done| ==> RowsRefer(done[d], updated))
    && (forall d :: 0 <= d < |done| ==> DeviceTold(rows[d], procs[d], done[d], After(m, AllSightings(rows, procs, d)), totals[d], rate))
  }

  lemma NoneOfAll(c0: map<int, Entry>, u0: map<int, Entry>, m: map<int, Measured>, rows: seq<seq<Row>>, procs: seq<seq<Proc>>, totals: seq<Option<nat>>, rate: (real, int, int) -> int)
    requires Sized(rows, procs) && |totals| == |rows|
    ensures AllPopulated(c0, u0, m, rows, procs, [], c0, u0, m, totals, rate)
  {
    NothingSeen(c0, u0);
    NoPids(rows);
    NoSightings(rows, procs, m);
    assert rows[..0] == [];
  }

  lemma OneMoreDevice(c0: map<int, Entry>, u0: map<int, Entry>, m: map<int, Measured>, rows: seq<seq<Row>>, procs: seq<seq<Proc>>, done: seq<seq<Row>>,
                      c: map<int, Entry>, u: map<int, Entry>, known: map<int, Measured>, totals: seq<Option<nat>>, rate: (real, int, int) -> int,
                      filled: seq<Row>, cached: map<int, Entry>, updated: map<int, Entry>, known2: map<int, Measured>)
    requires AllPopulated(c0, u0, m, rows, procs, done, c, u, known, totals, rate) && |done| < |rows|
    requires var r := rows[|done|];
             && |r| == |procs[|done|]| && Seen(c, u, cached, updated, PidsOf(r)) && RowsRefer(filled, updated)
             && known2 == After(known, Sightings(r, procs[|done|])) && DeviceTold(r, procs[|done|], filled, known, totals[|done|], rate)
    ensures AllPopulated(c0, u0, m, rows, procs, done + [filled], cached, updated, known2, totals, rate)
  {
    hide Seen, RowsRefer, DeviceTold, PidsOf, After, AllPids, Sightings, AllSightings;
    var d := |done|;
    AllPidsStep(rows, d);
    SightingsNext(rows, procs, d);
    AfterConcat(m, AllSightings(rows, procs, d), Sightings(rows[d], procs[d]));
    SeenTwice(c0, u0, c, u, cached, updated, AllPids(rows[..d]), PidsOf(rows[d]));
    forall e | 0 <= e < d ensures RowsRefer(done[e], updated) {
      StillRefer(done[e], c, u, cached, updated, PidsOf(rows[d]));
    }
  }

  lemma AllDone(c0: map<int, Entry>, m: map<int, Measured>, rows: seq<seq<Row>>, procs: seq<seq<Proc>>, done: seq<seq<Row>>,
                cached: map<int, Entry>, updated: map<int, Entry>, known: map<int, Measured>, totals: seq<Option<nat>>, rate: (real, int, int) -> int)
    requires AllPopulated(c0, map[], m, rows, procs, done, cached, updated, known, totals, rate) && |done| == |rows|
    ensures Seen(c0, map[], cached, updated, AllPids(rows)) && Sized(rows, procs) && known == After(m, AllSightings(rows, procs, |rows|))
    ensures |totals| == |rows| && forall d :: 0 <= d < |rows| ==> RowsRefer(done[d], updated)
    ensures forall d :: 0 <= d < |rows| ==> DeviceTold(rows[d], procs[d], done[d], After(m, AllSightings(rows, procs, d)), totals[d], rate)
  {
    assert rows[..|rows|] == rows;
    hide Seen, RowsRefer, DeviceTold, After, AllPids, AllSightings;
  }

  lemma {:induction false} PidsOfAll(rows: seq<seq<Row>>, procs: seq<seq<Proc>>, d: nat)
    requires Sized(rows, procs) && d <= |rows|
    ensures PidsSighted(AllSightings(rows, procs, d)) == AllPids(rows[..d])
  {
    if d > 0 {
      PidsOfAll(rows, procs, d - 1);
      SightingsNext(rows, procs, d - 1);
      AllPidsStep(rows, d - 1);
      PidsOfTwo(AllSightings(rows, procs, d - 1), Sightings(rows[d - 1], procs[d - 1]));
      SightedPids(rows[d - 1], procs[d - 1]);
      hide PidsSighted, AllSightings, Sightings, AllPids, PidsOf;
    }
  }

  lemma SightedPids(rows: seq<Row>, procs: seq<Proc>)
    requires |rows| == |procs|
    ensures PidsSighted(Sightings(rows, procs)) == PidsOf(rows)
  {
    var s := Sightings(rows, procs);
    assert forall i :: 0 <= i < |rows| ==> s[i].pid == rows[i].pid;
  }

  lemma PidsOfTwo(a: seq<Sighting>, b: seq<Sighting>)
    ensures PidsSighted(a + b) == PidsSighted(a) + PidsSighted(b)
  {
    var s := a + b;
    forall p | p in PidsSighted(a) + PidsSighted(b) ensures p in PidsSighted(s) {
      if p in PidsSighted(a) {
        var i :| 0 <= i < |a| && a[i].pid == p;
        assert s[i].pid == p;
      } else {
        var i :| 0 <= i < |b| && b[i].pid == p;
        assert s[|a| + i].pid == p;
      }
    }
  }

  /** The new generation remembers what was remembered of the processes sighted. */
  lemma KeptMeasures(cached: map<int, Entry>, updated: map<int, Entry>, m: map<int, Measured>, rows: seq<seq<Row>>, procs: seq<seq<Proc>>)
    requires Sized(rows, procs) && updated.Keys == AllPids(rows)
    requires Measures(cached + updated) == After(m, AllSightings(rows, procs, |rows|))
    ensures Measures(map[] + updated) == Refreshed(m, AllSightings(rows, procs, |rows|))
  {
    PidsOfAll(rows, procs, |rows|);
    assert rows[..|rows|] == rows;
    assert map[] + updated == updated;
    hide PidsSighted, AllSightings, After, AllPids;
    var r := Refreshed(m, AllSightings(rows, procs, |rows|));
    assert r.Keys == updated.Keys;
    forall p | p in r ensures r[p] == Measures(updated)[p] {
      assert (cached + updated)[p] == updated[p];
    }
  }

  ghost function Totals(devices: seq<Device>): (t: seq<Option<nat>>)
    ensures |t| == |devices| && forall d :: 0 <= d < |t| ==> t[d] == devices[d].totalMemory
  {
    seq(|devices|, d requires 0 <= d < |devices| => devices[d].totalMemory)
  }

  lemma RowsSized(devices: seq<Device>, procs: seq<seq<Proc>>)
    requires Apart(devices) && |devices| == |procs| && forall d :: 0 <= d < |devices| ==> devices[d].count == |procs[d]|
    ensures Sized(AllRows(devices), procs)
  {
  }

  lemma DeviceRows(devices: seq<Device>)
    requires Apart(devices)
    ensures |AllRows(devices)| == |devices|
    ensures forall d :: 0 <= d < |devices| ==> devices[d].count <= devices[d].processes.Length && AllRows(devices)[d] == devices[d].Rows() == devices[d].processes[..devices[d].count]
    ensures forall c, d :: 0 <= c < |devices| && 0 <= d < |devices| && c != d ==> devices[c] != devices[d] && devices[c].processes != devices[d].processes
  {
  }

  lemma StillApart(devices: seq<Device>)
    requires forall d :: 0 <= d < |devices| ==> devices[d].count <= devices[d].processes.Length
    requires forall c, d :: 0 <= c < |devices| && 0 <= d < |devices| && c != d ==> devices[c] != devices[d] && devices[c].processes != devices[d].processes
    ensures Apart(devices)
  {
  }

  ghost predicate OwnStrings(e: Entry) { e.cmdline != null ==> e.cmdline != e.userName }

  /** Entries are filed under their pid, share no memory, and none of it is freed; every entry ever made is live or freed. */
  ghost predicate Ledger(live: map<int, Entry>, made: set<Entry>, freed: set<object>) {
    && (forall p :: p in live ==> live[p].pid == p && live[p] in made && Parts(live[p]) !! freed && OwnStrings(live[p]))
    && (forall p, q :: p in live && q in live && p != q ==> Parts(live[p]) !! Parts(live[q]))
    && (forall e :: e in made ==> e in freed || (e.pid in live && live[e.pid] == e))
  }

  lemma LedgerGrows(live: map<int, Entry>, made: set<Entry>, freed: set<object>, e: Entry)
    requires Ledger(live, made, freed) && e.pid !in live && OwnStrings(e) && Parts(e) !! freed
    requires forall p :: p in live ==> Parts(live[p]) !! Parts(e)
    ensures Ledger(live[e.pid := e], made + {e}, freed)
  {
  }

  lemma LiveInBooks(live: map<int, Entry>, made: set<Entry>, freed: set<object>)
    requires Ledger(live, made, freed)
    ensures forall p :: p in live ==> live[p] in made && live[p].pid == p
  {
  }

  lemma SameLive(cached: map<int, Entry>, updated: map<int, Entry>, pid: int)
    requires pid in cached && cached.Keys !! updated.Keys
    ensures (cached - {pid}) + updated[pid := cached[pid]] == cached + updated
    ensures (cached - {pid}).Keys !! updated[pid := cached[pid]].Keys
  {
  }

  lemma MoreLive(cached: map<int, Entry>, updated: map<int, Entry>, pid: int, e: Entry)
    requires pid !in cached && pid !in updated && cached.Keys !! updated.Keys
    ensures cached + updated[pid := e] == (cached + updated)[pid := e] && cached - {pid} == cached
    ensures cached.Keys !! updated[pid := e].Keys
  {
  }

  class Device {
    var processes: array<Row>
    var count: nat
    const totalMemory: Option<nat>

    ghost function Rows(): seq<Row>
      requires count <= processes.Length
      reads this, processes
    {
      processes[..count]
    }

    constructor (processes: array<Row>, totalMemory: Option<nat>)
      ensures this.processes == processes && count == 0
    {
      this.processes, count, this.totalMemory := processes, 0, totalMemory;
    }
  }

  function PidsOf(rows: seq<Row>): set<int> { set j | 0 <= j < |rows| :: rows[j].pid }

  /** The strings of every row are those of the entry of its pid. */
  ghost predicate RowsRefer(rows: seq<Row>, m: map<int, Entry>) {
    forall j :: 0 <= j < |rows| ==> rows[j].pid in m && rows[j].cmdline == m[rows[j].pid].cmdline && rows[j].userName == m[rows[j].pid].userName
  }

  /** No row claims more memory than the device has. */
  predicate MemoryFits(r: Row, total: Option<nat>) { total.Some? && r.gpuMemory.Some? ==> r.gpuMemory.value <= total.value }

  /** What seeing the given pids makes of the two generations: they are all in the new one, entries that were known are kept. */
  ghost predicate Seen(cached: map<int, Entry>, updated: map<int, Entry>, cached2: map<int, Entry>, updated2: map<int, Entry>, pids: set<int>) {
    && cached2 == cached - pids && updated2.Keys == updated.Keys + pids
    && (forall p :: p in updated ==> updated2[p] == updated[p])
    && (forall p :: p in pids && p in cached && p !in updated ==> updated2[p] == cached[p])
  }

  lemma NothingSeen(cached: map<int, Entry>, updated: map<int, Entry>)
    ensures Seen(cached, updated, cached, updated, {}) && PidsOf([]) == {} && RowsRefer([], updated)
  {
  }

  lemma SeenStep(cached: map<int, Entry>, updated: map<int, Entry>, c: map<int, Entry>, u: map<int, Entry>, pids: set<int>, pid: int, e: Entry)
    requires Seen(cached, updated, c, u, pids) && cached.Keys !! updated.Keys
    requires pid in u ==> e == u[pid]
    requires pid !in u && pid in c ==> e == c[pid]
    ensures Seen(cached, updated, c - {pid}, u[pid := e], pids + {pid})
  {
  }

  lemma PidsStep(rows: seq<Row>, j: nat)
    requires j < |rows|
    ensures PidsOf(rows[..j + 1]) == PidsOf(rows[..j]) + {rows[j].pid}
  {
  }

  lemma SamePids(rows: seq<Row>, rows2: seq<Row>)
    requires |rows| == |rows2| && forall j :: 0 <= j < |rows| ==> rows2[j].pid == rows[j].pid
    ensures PidsOf(rows2) == PidsOf(rows)
  {
  }

  lemma RowsStep(rows: seq<Row>, u: map<int, Entry>, row: Row, e: Entry)
    requires RowsRefer(rows, u) && (row.pid in u ==> e == u[row.pid]) && row.cmdline == e.cmdline && row.userName == e.userName
    ensures RowsRefer(rows + [row], u[row.pid := e])
  {
  }

  lemma FilledFacts(r: Row, total: Option<nat>, proc: Proc, e: Entry, rate: (real, int, int) -> int)
    requires r.cmdline == null && r.userName == null
    ensures forall lastTotal, lastTime :: var f := Filled(r, total, proc, e, lastTotal, lastTime, rate);
              f.pid == r.pid && f.cmdline == e.cmdline && f.userName == e.userName && MemoryFits(f, total)
  {
  }

  /** Everything freed with the entries of a table. */
  ghost function PartsOf(m: map<int, Entry>): set<object> { set p, o | p in m && o in Parts(m[p]) :: o }

  ghost predicate SubMap(m: map<int, Entry>, m2: map<int, Entry>) { forall p :: p in m ==> p in m2 && m2[p] == m[p] }

  lemma NoParts(c0: map<int, Entry>, c: map<int, Entry>)
    requires c == c0
    ensures SubMap(c, c0) && PartsOf(c0 - c.Keys) == {}
  {
  }

  lemma PartsStep(c0: map<int, Entry>, c: map<int, Entry>, pid: int)
    requires SubMap(c, c0) && pid in c
    ensures SubMap(c - {pid}, c0) && PartsOf(c0 - (c - {pid}).Keys) == PartsOf(c0 - c.Keys) + Parts(c[pid])
  {
    hide Parts;
    var gone := c0 - (c - {pid}).Keys;
    assert gone == (c0 - c.Keys)[pid := c[pid]];
    assert pid in gone && gone[pid] == c[pid];
    forall o | o in Parts(c[pid]) ensures o in PartsOf(gone) {
      assert o in Parts(gone[pid]);
    }
    forall o | o in PartsOf(c0 - c.Keys) ensures o in PartsOf(gone) {
      var p :| p in c0 - c.Keys && o in Parts((c0 - c.Keys)[p]);
      assert p in gone && o in Parts(gone[p]);
    }
    forall o | o in PartsOf(gone) ensures o in PartsOf(c0 - c.Keys) + Parts(c[pid]) {
      var p :| p in gone && o in Parts(gone[p]);
      assert p != pid ==> p in c0 - c.Keys && o in Parts((c0 - c.Keys)[p]);
    }
  }

  lemma LedgerShrinks(live: map<int, Entry>, made: set<Entry>, freed: set<object>, pid: int)
    requires Ledger(live, made, freed) && pid in live
    ensures Ledger(live - {pid}, made, freed + Parts(live[pid])) && Parts(live[pid]) !! freed && OwnStrings(live[pid])
  {
  }

  /** The devices are distinct, and so are their process tables. */
  ghost predicate Apart(devices: seq<Device>)
    reads devices
  {
    && (forall d :: 0 <= d < |devices| ==> devices[d].count <= devices[d].processes.Length)
    && (forall c, d :: 0 <= c < d < |devices| ==> devices[c] != devices[d] && devices[c].processes != devices[d].processes)
  }

  predicate Unnamed(rows: seq<Row>) { forall j :: 0 <= j < |rows| ==> rows[j].cmdline == null && rows[j].userName == null }

  ghost function AllRows(devices: seq<Device>): (r: seq<seq<Row>>)
    requires Apart(devices)
    reads devices, set d | 0 <= d < |devices| :: devices[d].processes
    ensures |r| == |devices| && forall d :: 0 <= d < |devices| ==> r[d] == devices[d].Rows()
  {
    seq(|devices|, d requires 0 <= d < |devices| && devices[d].count <= devices[d].processes.Length reads devices, set c | 0 <= c < |devices| :: devices[c].processes => devices[d].Rows())
  }

  /** Every pid some device has a row for. */
  function AllPids(rows: seq<seq<Row>>): set<int> {
    if rows == [] then {} else AllPids(rows[..|rows| - 1]) + PidsOf(rows[|rows| - 1])
  }

  lemma AllPidsStep(rows: seq<seq<Row>>, d: nat)
    requires d < |rows|
    ensures AllPids(rows[..d + 1]) == AllPids(rows[..d]) + PidsOf(rows[d])
  {
    assert rows[..d + 1][..d] == rows[..d];
  }

  lemma SeenTwice(a: map<int, Entry>, b: map<int, Entry>, c: map<int, Entry>, d: map<int, Entry>, e: map<int, Entry>, f: map<int, Entry>, p: set<int>, q: set<int>)
    requires Seen(a, b, c, d, p) && Seen(c, d, e, f, q)
    ensures Seen(a, b, e, f, p + q)
  {
  }

  lemma StillRefer(rows: seq<Row>, c: map<int, Entry>, u: map<int, Entry>, c2: map<int, Entry>, u2: map<int, Entry>, pids: set<int>)
    requires RowsRefer(rows, u) && Seen(c, u, c2, u2, pids)
    ensures RowsRefer(rows, u2)
  {
  }

  lemma SeenAll(cached: map<int, Entry>, c: map<int, Entry>, u: map<int, Entry>, pids: set<int>)
    requires Seen(cached, map[], c, u, pids)
    ensures c == cached - pids && u.Keys == pids
    ensures forall p :: p in u && p in cached ==> u[p] == cached[p]
  {
  }

  lemma NoPids(rows: seq<seq<Row>>)
    ensures AllPids(rows[..0]) == {}
  {
  }

  lemma StartsUnnamed(a: array<Row>, n: nat)
    requires n <= a.Length && Unnamed(a[..n])
    ensures forall j :: 0 <= j < n ==> a[j].cmdline == null && a[j].userName == null
  {
  }

  lemma NoneLeft(c: map<int, Entry>, c0: map<int, Entry>)
    requires |c| == 0
    ensures c == map[] && c0 - c.Keys == c0
  {
  }

  lemma NoneIsEmpty(keys: set<int>)
    ensures |keys| == 0 || exists k :: k in keys
  {
    if forall k :: k !in keys { assert keys == {}; }
  }

  /** The entry HASH_ITER comes to next; which one does not matter. */
  method SomeKey(m: map<int, Entry>) returns (p: int)
    requires |m| > 0
    ensures p in m && |m - {p}| < |m|
  {
    var keys := m.Keys;
    assert |keys| == |m|;
    NoneIsEmpty(keys);
    p :| p in keys;
    assert (m - {p}).Keys == keys - {p};
    assert |m - {p}| == |keys - {p}|;
  }

  class Cache {
    var cached: map<int, Entry>
    var updated: map<int, Entry>
    ghost var made: set<Entry>
    ghost var freed: set<object>

    ghost function Live(): map<int, Entry>
      reads this
    {
      cached + updated
    }

    /** What is remembered of every process in the table. */
    ghost function Known(): map<int, Measured>
      reads this, Live().Values
    {
      Measures(Live())
    }

    /** The generations share no pid, and the books are in order. */
    ghost predicate Valid()
      reads this
    {
      cached.Keys !! updated.Keys && Ledger(Live(), made, freed)
    }

    constructor ()
      ensures Valid() && cached == map[] && updated == map[] && made == {} && freed == {}
    {
      cached, updated, made, freed := map[], map[], {}, {};
    }

    /** get_username_from_pid and get_command_from_pid: a string of its own, or none */
    method Duplicate(text: Option<string>) returns (c: CString?)
      ensures text.None? <==> c == null
      ensures c != null ==> fresh(c) && c.text == text.value
    {
      c := null;
      match text
      case None =>
      case Some(t) => c := new CString(t);
    }

    /** The entry of a pid seen in this refresh, made on the first sighting. */
    method Sight(pid: int, proc: Proc) returns (e: Entry)
      requires Valid()
      modifies this
      ensures Valid() && freed == old(freed)
      ensures cached == old(cached) - {pid} && updated == old(updated)[pid := e] && Live() == old(Live())[pid := e]
      ensures pid in old(Live()) ==> e == old(Live())[pid] && made == old(made)
      ensures pid !in old(Live()) ==> fresh(e) && made == old(made) + {e} && e.lastTotal == -1.0 && e.lastTime == 0
      ensures pid !in old(Live()) ==> NamedBy(e, proc)
    {
      hide Ledger;
      if pid !in cached {
        if pid !in updated {
          e := MakeEntry(pid, proc);
          MoreLive(cached, updated, pid, e);
          LedgerGrows(Live(), made, freed, e);
          updated := updated[pid := e];
          made := made + {e};
        } else {
          e := updated[pid];
          assert updated == updated[pid := e] && cached - {pid} == cached;
        }
      } else {
        e := cached[pid];
        SameLive(cached, updated, pid);
        cached := cached - {pid};
        updated := updated[pid := e];
      }
    }

    /** free: never twice, and nothing for a null pointer */
    ghost method Free(o: object?)
      requires o != null ==> o !in freed
      modifies this`freed
      ensures freed == old(freed) + (if o != null then {o} else {})
    {
      if o != null { freed := freed + {o}; }
    }

    /** Fill a row in from its entry, and remember the measurement for the next time. */
    method FillRow(row: Row, e: Entry, total: Option<nat>, proc: Proc, rate: (real, int, int) -> int) returns (row2: Row)
      modifies e
      ensures row2 == Filled(row, total, proc, e, old(e.lastTotal), old(e.lastTime), rate) && e.lastTotal == LastTotal(proc.usage)
      ensures e.lastTime == if proc.usage.Some? then proc.usage.value.timestamp else old(e.lastTime)
    {
      row2 := row;
      if e.cmdline != null {
        row2 := row2.(cmdline := e.cmdline);
      }
      if e.userName != null {
        row2 := row2.(userName := e.userName);
      }
      match proc.usage {
        case Some(usage) =>
          if e.lastTotal > -1.0 {
            row2 := row2.(cpuUsage := Some(rate(usage.totalUser + usage.totalKernel - e.lastTotal, e.lastTime, usage.timestamp)));
          } else {
            row2 := row2.(cpuUsage := Some(0));
          }
          row2 := row2.(resident := Some(usage.resident), virtual := Some(usage.virtual));
          e.lastTime := usage.timestamp;
          e.lastTotal := usage.totalKernel + usage.totalUser;
        case None =>
          e.lastTotal := -1.0;
      }
      if total.Some? && row2.gpuMemory.Some? {
        if total.value < row2.gpuMemory.value {
          row2 := row2.(gpuMemory := None);
        } else {
          row2 := row2.(gpuMemoryPercent := Some(MemoryPercent(row2.gpuMemory.value, total.value)));
        }
      }
    }

    /** One row of gpuinfo_populate_process_info. */
    method PopulateRow(row: Row, total: Option<nat>, proc: Proc, rate: (real, int, int) -> int) returns (row2: Row)
      requires Valid()
      modifies this, made
      ensures Valid() && freed == old(freed) && fresh(made - old(made)) && old(made) <= made
      ensures cached == old(cached) - {row.pid} && row.pid in updated && updated == old(updated)[row.pid := updated[row.pid]]
      ensures var e := updated[row.pid];
              && e.lastTotal == LastTotal(proc.usage)
              && (row.pid in old(Live()) ==> e == old(Live())[row.pid] && made == old(made) && row2 == Filled(row, total, proc, e, old(Live()[row.pid].lastTotal), old(Live()[row.pid].lastTime), rate))
              && (row.pid !in old(Live()) ==> fresh(e) && NamedBy(e, proc) && row2 == Filled(row, total, proc, e, -1.0, 0, rate))
      ensures forall x :: x in old(made) && x != updated[row.pid] ==> x.lastTotal == old(x.lastTotal) && x.lastTime == old(x.lastTime)
      ensures updated[row.pid].lastTime == if proc.usage.Some? then proc.usage.value.timestamp else if row.pid in old(Live()) then old(Live()[row.pid].lastTime) else 0
      ensures Told(row, row2, total, proc.usage, Prior(old(Known()), row.pid), rate)
      ensures row.cmdline == null && row.userName == null ==> row2.cmdline == updated[row.pid].cmdline && row2.userName == updated[row.pid].userName
      ensures Known() == old(Known())[row.pid := Leaves(proc.usage)]
    {
      hide *;
      var e := SightKnown(row.pid, proc);
      LiveInBooks(Live(), made, freed);
      FirstMeasured(e);
      FilledIsTold(row, total, proc, e, e.lastTotal, e.lastTime, rate);
      if row.cmdline == null && row.userName == null { FilledFacts(row, total, proc, e, rate); }
      row2 := FillKnown(row, e, total, proc, rate);
    }

    /** A first sighting remembers nothing yet. */
    method SightKnown(pid: int, proc: Proc) returns (e: Entry)
      requires Valid()
      modifies this
      ensures Valid() && freed == old(freed)
      ensures cached == old(cached) - {pid} && updated == old(updated)[pid := e] && pid in Live() && Live()[pid] == e && Ledger(Live(), made, freed)
      ensures pid in old(Live()) ==> e == old(Live())[pid] && made == old(made)
      ensures pid !in old(Live()) ==> fresh(e) && made == old(made) + {e} && e.lastTotal == -1.0 && e.lastTime == 0 && NamedBy(e, proc)
      ensures Known() == old(Known())[pid := Prior(old(Known()), pid)]
      ensures MeasuredBy(e) == Prior(old(Known()), pid)
    {
      hide Ledger, NamedBy, Measures, MeasuredBy;
      ghost var live, known := Live(), Known();
      KnownEntry(pid);
      e := Sight(pid, proc);
      assert Measures(live) == known;
      MeasuresAdded(live, pid, e);
      FirstMeasured(e);
    }

    lemma KnownEntry(pid: int)
      ensures pid in Live() ==> pid in Known() && Known()[pid] == MeasuredBy(Live()[pid])
      ensures pid !in Live() ==> pid !in Known()
    {
    }

    /** Filling a row in leaves the measurement in the entry of its process, and no other changes. */
    method FillKnown(row: Row, e: Entry, total: Option<nat>, proc: Proc, rate: (real, int, int) -> int) returns (row2: Row)
      requires row.pid in Live() && Live()[row.pid] == e && forall p :: p in Live() && p != row.pid ==> Live()[p] != e
      modifies e
      ensures row2 == Filled(row, total, proc, e, old(e.lastTotal), old(e.lastTime), rate) && e.lastTotal == LastTotal(proc.usage)
      ensures e.lastTime == if proc.usage.Some? then proc.usage.value.timestamp else old(e.lastTime)
      ensures Known() == old(Known())[row.pid := Leaves(proc.usage)]
    {
      hide Filled;
      row2 := FillRow(row, e, total, proc, rate);
      assert forall p :: p in Live() ==> MeasuredBy(Live()[p]) == if p == row.pid then Leaves(proc.usage) else old(MeasuredBy(Live()[p]));
      assert Known() == old(Known())[row.pid := Leaves(proc.usage)];
    }

    /** gpuinfo_populate_process_info */
    method PopulateDevice(device: Device, procs: seq<Proc>, rate: (real, int, int) -> int)
      requires Valid() && device.count == |procs| <= device.processes.Length
      requires forall j :: 0 <= j < device.count ==> device.processes[j].cmdline == null && device.processes[j].userName == null
      modifies this, made, device.processes
      ensures Valid() && freed == old(freed) && fresh(made - old(made)) && old(made) <= made
      ensures Seen(old(cached), old(updated), cached, updated, PidsOf(device.Rows()))
      ensures PidsOf(device.Rows()) == old(PidsOf(device.Rows()))
      ensures RowsRefer(device.Rows(), updated)
      ensures forall j :: 0 <= j < device.count ==> MemoryFits(device.processes[j], device.totalMemory)
      ensures Known() == After(old(Known()), Sightings(old(device.Rows()), procs))
      ensures DeviceTold(old(device.Rows()), procs, device.Rows(), old(Known()), device.totalMemory, rate)
    {
      hide *;
      ghost var rows, m := device.Rows(), Known();
      assert cached.Keys !! updated.Keys by { GenerationsApart(); }
      RowsAre(device);
      NonePopulated(cached, updated, m, rows, procs, device.totalMemory, rate);
      assert device.processes[..0] == [];
      for j := 0 to device.count
        invariant Valid() && freed == old(freed) && fresh(made - old(made)) && old(made) <= made
        invariant Populated(old(cached), old(updated), m, rows, procs, device.processes[..j], cached, updated, Known(), device.totalMemory, rate)
        invariant forall k :: j <= k < device.count ==> device.processes[k] == rows[k]
      {
        ghost var c, u, known, done := cached, updated, Known(), device.processes[..j];
        LiveIs();
        var row := PopulateRow(device.processes[j], device.totalMemory, procs[j], rate);
        LiveWas(c, u, rows[j].pid);
        TellsPid(rows[j], row, device.totalMemory, procs[j].usage, Prior(known, rows[j].pid), rate);
        OneMorePopulated(old(cached), old(updated), m, rows, procs, done, c, u, known, device.totalMemory, rate, row, updated[rows[j].pid]);
        assert Populated(old(cached), old(updated), m, rows, procs, done + [row], cached, updated, Known(), device.totalMemory, rate);
        KnownIs();
        device.processes[j] := row;
        assert device.processes[..j + 1] == done + [row];
        KnownIs();
      }
      RowsAre(device);
      PopulatedParts(old(cached), old(updated), m, rows, procs, device.Rows(), cached, updated, Known(), device.totalMemory, rate);
    }

    lemma KnownIs()
      ensures Known() == Measures(cached + updated)
    {
    }

    lemma LiveIs()
      ensures Live() == cached + updated
    {
    }

    lemma GenerationsApart()
      requires Valid()
      ensures cached.Keys !! updated.Keys
    {
    }

    lemma RowsAre(device: Device)
      requires device.count <= device.processes.Length
      ensures device.Rows() == device.processes[..device.count]
    {
    }

    ghost method FreeParts(e: Entry)
      requires Parts(e) !! freed && OwnStrings(e)
      modifies this`freed
      ensures freed == old(freed) + Parts(e)
    {
      Free(e.cmdline);
      Free(e.userName);
      Free(e);
    }

    /** gpuinfo_clean_old_cache: free what was not seen, and make the new generation the old one. */
    method CleanOldCache()
      requires Valid()
      modifies this
      ensures Valid() && cached == old(updated) && updated == map[] && made == old(made)
      ensures freed == old(freed) + PartsOf(old(cached))
    {
      DrainCached();
      assert Live() == updated;
      cached := updated;
      updated := map[];
      assert Live() == cached;
    }

    /** The loop that deletes and frees every entry of the old generation. */
    method DrainCached()
      requires Valid()
      modifies this`cached, this`freed
      ensures Valid() && cached == map[] && freed == old(freed) + PartsOf(old(cached))
    {
      hide Ledger, PartsOf, SubMap, Live;
      ghost var c0 := cached;
      NoParts(c0, cached);
      while |cached| > 0
        invariant Valid() && SubMap(cached, c0)
        invariant freed == old(freed) + PartsOf(c0 - cached.Keys)
        decreases |cached|
      {
        var pid := SomeKey(cached);
        PartsStep(c0, cached, pid);
        FreeEntry(pid);
      }
      NoneLeft(cached, c0);
    }

    /** Delete one entry of the old generation, and free it. */
    method FreeEntry(pid: int)
      requires Valid() && pid in cached
      modifies this`cached, this`freed
      ensures Valid() && cached == old(cached) - {pid} && freed == old(freed) + Parts(old(cached)[pid])
    {
      hide Ledger, Parts, OwnStrings;
      var e := cached[pid];
      LedgerShrinks(Live(), made, freed, pid);
      assert Live() - {pid} == (cached - {pid}) + updated;
      cached := cached - {pid};
      FreeParts(e);
    }

    /** The loop over the devices of a refresh. */
    method PopulateAll(devices: seq<Device>, procs: seq<seq<Proc>>, rate: (real, int, int) -> int)
      requires Valid() && |devices| == |procs| && Apart(devices)
      requires forall d :: 0 <= d < |devices| ==> devices[d].count == |procs[d]| && Unnamed(devices[d].Rows())
      modifies this, made, set d | 0 <= d < |devices| :: devices[d].processes
      ensures Valid() && freed == old(freed) && fresh(made - old(made)) && old(made) <= made && Apart(devices)
      ensures AllPopulated(old(cached), old(updated), old(Known()), old(AllRows(devices)), procs, AllRows(devices), cached, updated, Known(), Totals(devices), rate)
    {
      hide *;
      ghost var rows, m := AllRows(devices), Known();
      RowsSized(devices, procs);
      NoneOfAll(cached, updated, m, rows, procs, Totals(devices), rate);
      assert AllRows(devices)[..0] == [];
      for d := 0 to |devices|
        invariant Valid() && freed == old(freed) && fresh(made - old(made)) && old(made) <= made && Apart(devices)
        invariant |AllRows(devices)| == |devices| && forall c :: d <= c < |devices| ==> AllRows(devices)[c] == rows[c]
        invariant AllPopulated(old(cached), old(updated), m, rows, procs, AllRows(devices)[..d], cached, updated, Known(), Totals(devices), rate)
      {
        PopulateNext(devices, d, procs, rate, old(cached), old(updated), m, rows);
      }
      assert AllRows(devices)[..|devices|] == AllRows(devices);
    }

    /** The turn of one device. */
    method PopulateNext(devices: seq<Device>, d: nat, procs: seq<seq<Proc>>, rate: (real, int, int) -> int,
                        ghost c0: map<int, Entry>, ghost u0: map<int, Entry>, ghost m: map<int, Measured>, ghost rows: seq<seq<Row>>)
      requires Valid() && d < |devices| && Apart(devices) && |rows| == |devices| && AllRows(devices)[d] == rows[d]
      requires d < |procs| && devices[d].count == |procs[d]| && Unnamed(rows[d])
      requires AllPopulated(c0, u0, m, rows, procs, AllRows(devices)[..d], cached, updated, Known(), Totals(devices), rate)
      modifies this, made, devices[d].processes
      ensures Valid() && freed == old(freed) && fresh(made - old(made)) && old(made) <= made && Apart(devices)
      ensures forall c :: 0 <= c < |devices| && c != d ==> AllRows(devices)[c] == old(AllRows(devices)[c])
      ensures AllPopulated(c0, u0, m, rows, procs, AllRows(devices)[..d + 1], cached, updated, Known(), Totals(devices), rate)
    {
      hide *;
      ghost var c, u, before, known := cached, updated, AllRows(devices), Known();
      DeviceRows(devices);
      StartsUnnamed(devices[d].processes, devices[d].count);
      PopulateDevice(devices[d], procs[d], rate);
      StillApart(devices);
      DeviceRows(devices);
      OneMoreDevice(c0, u0, m, rows, procs, before[..d], c, u, known, Totals(devices), rate, devices[d].Rows(), cached, updated, Known());
      assert AllRows(devices)[..d + 1] == before[..d] + [devices[d].Rows()];
    }

    /** gpuinfo_refresh_processes, once the rows of every device have been collected. */
    method Refresh(devices: seq<Device>, procs: seq<seq<Proc>>, rate: (real, int, int) -> int)
      requires Valid() && updated == map[] && |devices| == |procs| && Apart(devices)
      requires forall d :: 0 <= d < |devices| ==> devices[d].count == |procs[d]| && Unnamed(devices[d].Rows())
      modifies this, made, set d | 0 <= d < |devices| :: devices[d].processes
      ensures Valid() && updated == map[] && fresh(made - old(made))
      ensures cached.Keys == AllPids(old(AllRows(devices)))
      ensures forall p :: p in cached && p in old(cached) ==> cached[p] == old(cached)[p]
      ensures freed == old(freed) + PartsOf(old(cached) - AllPids(old(AllRows(devices))))
      ensures Apart(devices) && forall d :: 0 <= d < |devices| ==> RowsRefer(AllRows(devices)[d], cached)
      ensures Sized(old(AllRows(devices)), procs) && Known() == Refreshed(old(Known()), AllSightings(old(AllRows(devices)), procs, |devices|))
      ensures forall d :: 0 <= d < |devices| ==>
                DeviceTold(old(AllRows(devices))[d], procs[d], AllRows(devices)[d], After(old(Known()), AllSightings(old(AllRows(devices)), procs, d)), devices[d].totalMemory, rate)
    {
      hide *;
      ghost var rows, m, c0 := AllRows(devices), Known(), cached;
      PopulateAll(devices, procs, rate);
      AllDone(c0, m, rows, procs, AllRows(devices), cached, updated, Known(), Totals(devices), rate);
      SeenAll(c0, cached, updated, AllPids(rows));
      KnownIs();
      KeptMeasures(cached, updated, m, rows, procs);
      assert Measures(map[] + updated) == Refreshed(m, AllSightings(rows, procs, |rows|));
      CleanOldCache();
      KnownIs();
      assert cached + map[] == cached;
    }

    /** gpuinfo_clear_cache at shutdown: everything that was ever made has been freed. */
    method ClearCache()
      requires Valid() && updated == map[]
      modifies this
      ensures Valid() && cached == map[] && updated == map[] && forall e :: e in made ==> e in freed
    {
      DrainCached();
    }

    method MakeEntry(pid: int, proc: Proc) returns (e: Entry)
      ensures fresh(Parts(e)) && e.pid == pid && e.lastTotal == -1.0 && e.lastTime == 0 && NamedBy(e, proc) && OwnStrings(e)
      ensures Parts(e) !! freed && forall p :: p in Live() ==> Parts(Live()[p]) !! Parts(e)
    {
      var userName := Duplicate(proc.userName);
      var cmdline := Duplicate(proc.cmdline);
      e := new Entry(pid, cmdline, userName);
    }
  }

  /** The strings of an entry are what /proc said when it was made. */
  ghost predicate NamedBy(e: Entry, proc: Proc) {
    && (e.cmdline == null <==> proc.cmdline.None?) && (e.cmdline != null ==> e.cmdline.text == proc.cmdline.value)
    && (e.userName == null <==> proc.userName.None?) && (e.userName != null ==> e.userName.text == proc.userName.value)
  }
}
