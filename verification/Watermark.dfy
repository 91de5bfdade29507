/** Utilisation samples of an NVIDIA device: each is consumed once, whatever the driver returns again. */
module Watermark {
  import opened ProcessRow

  datatype Sample = Sample(pid: int, sm: nat, enc: nat, dec: nat, timestamp: nat)

  /** What the driver's process utilisation query came back with. */
  datatype Reply = Unavailable | Refused | Samples(samples: seq<Sample>)

  /** A sample that is consistent and more recent than the watermark. */
  predicate Acceptable(s: Sample, watermark: nat) { s.sm <= 100 && s.enc <= 100 && s.dec <= 100 && s.timestamp > watermark }

  /** Index of the first row of the process, or the number of rows. */
  function RowOfPid(rows: seq<GpuProcess>, pid: int, j: nat): (r: nat)
    requires j <= |rows|
    ensures j <= r <= |rows| && (r < |rows| ==> rows[r].pid == pid) && forall k :: j <= k < r ==> rows[k].pid != pid
    decreases |rows| - j
  {
    if j == |rows| || rows[j].pid == pid then j else RowOfPid(rows, pid, j + 1)
  }

  predicate Accepted(rows: seq<GpuProcess>, s: Sample, watermark: nat) { Acceptable(s, watermark) && RowOfPid(rows, s.pid, 0) < |rows| }

  function WithSample(r: GpuProcess, s: Sample): GpuProcess {
    r.(gpuUsage := Set(s.sm), encodeUsage := Set(s.enc), decodeUsage := Set(s.dec))
  }

  /** The rows after one sample: at most its process's first row changes. */
  function Applied(rows: seq<GpuProcess>, s: Sample, watermark: nat): (r: seq<GpuProcess>)
    ensures |r| == |rows| && forall j :: 0 <= j < |r| ==> r[j].pid == rows[j].pid
  {
    if Accepted(rows, s, watermark) then
      var j := RowOfPid(rows, s.pid, 0);
      rows[j := WithSample(rows[j], s)]
    else rows
  }

  function AppliedAll(rows: seq<GpuProcess>, samples: seq<Sample>, watermark: nat): (r: seq<GpuProcess>)
    ensures |r| == |rows| && forall j :: 0 <= j < |r| ==> r[j].pid == rows[j].pid
  {
    if samples == [] then rows
    else Applied(AppliedAll(rows, samples[..|samples| - 1], watermark), samples[|samples| - 1], watermark)
  }

  /** The candidate for the next watermark. */
  function Newest(rows: seq<GpuProcess>, samples: seq<Sample>, watermark: nat): nat {
    if samples == [] then watermark
    else
      var before, s := Newest(rows, samples[..|samples| - 1], watermark), samples[|samples| - 1];
      if Accepted(rows, s, watermark) && s.timestamp > before then s.timestamp else before
  }

  /** A row without an update counts as idle. */
  function Idle(r: GpuProcess): GpuProcess {
    r.(gpuUsage := if r.gpuUsage.valid then r.gpuUsage else Set(0),
       encodeUsage := if r.encodeUsage.valid then r.encodeUsage else Set(0),
       decodeUsage := if r.decodeUsage.valid then r.decodeUsage else Set(0))
  }

  /** Whether the rows are looked at at all: an error of a query that is made ends the call. */
  predicate Proceeds(rows: seq<GpuProcess>, reply: Reply) { !(reply.Refused? && rows != []) }

  function SamplesOf(rows: seq<GpuProcess>, reply: Reply): seq<Sample> { if reply.Samples? && rows != [] then reply.samples else [] }

  function WatermarkAfter(rows: seq<GpuProcess>, reply: Reply, watermark: nat): nat { Newest(rows, SamplesOf(rows, reply), watermark) }

  class Device {
    var lastTimestamp: nat

    constructor ()
      ensures lastTimestamp == 0
    {
      lastTimestamp := 0;
    }

    /** Update the row of one sample; the watermark it is compared with is that of the call. */
    method TakeSample(s: Sample, processes: array<GpuProcess>, candidate: nat) returns (newest: nat)
      modifies processes
      ensures processes[..] == Applied(old(processes[..]), s, lastTimestamp)
      ensures newest == if Accepted(old(processes[..]), s, lastTimestamp) && s.timestamp > candidate then s.timestamp else candidate
    {
      newest := candidate;
      var matched, j := false, 0;
      ghost var rows := processes[..];
      while !matched && j < processes.Length
        invariant j <= processes.Length
        invariant !matched ==> processes[..] == rows && newest == candidate
        invariant !matched ==> Acceptable(s, lastTimestamp) ==> RowOfPid(rows, s.pid, 0) == RowOfPid(rows, s.pid, j)
        invariant matched ==> processes[..] == Applied(rows, s, lastTimestamp) && Accepted(rows, s, lastTimestamp)
        invariant matched ==> newest == if s.timestamp > candidate then s.timestamp else candidate
        decreases processes.Length - j, !matched
      {
        if s.pid == processes[j].pid && s.sm <= 100 && s.enc <= 100 && s.dec <= 100 && s.timestamp > lastTimestamp {
          if s.timestamp > newest {
            newest := s.timestamp;
          }
          var row := processes[j];
          row := row.(gpuUsage := Set(s.sm), encodeUsage := Set(s.enc), decodeUsage := Set(s.dec));
          processes[j] := row;
          matched := true;
        }
        j := j + 1;
      }
    }

    /** gpuinfo_nvidia_get_process_utilization */
    method GetProcessUtilization(reply: Reply, processes: array<GpuProcess>)
      modifies this, processes
      ensures lastTimestamp == WatermarkAfter(old(processes[..]), reply, old(lastTimestamp))
      ensures !Proceeds(old(processes[..]), reply) ==> processes[..] == old(processes[..])
      ensures reply.Refused? && processes.Length > 0 ==> processes[..] == old(processes[..]) && lastTimestamp == old(lastTimestamp)
      ensures reply.Unavailable? ==> lastTimestamp == old(lastTimestamp) && forall j :: 0 <= j < processes.Length ==> processes[j] == Idle(old(processes[j]))
      ensures reply.Samples? ==> lastTimestamp == Newest(old(processes[..]), reply.samples, old(lastTimestamp))
      ensures reply.Samples? ==> forall j :: 0 <= j < processes.Length ==> processes[j] == Idle(AppliedAll(old(processes[..]), reply.samples, old(lastTimestamp))[j])
      ensures Proceeds(old(processes[..]), reply) ==>
                var rows := AppliedAll(old(processes[..]), SamplesOf(old(processes[..]), reply), old(lastTimestamp));
                forall j :: 0 <= j < processes.Length ==> processes[j] == Idle(rows[j])
    {
      ghost var rows := processes[..];
      if reply.Samples? && processes.Length == 0 { NewestOfNone(rows, reply.samples, lastTimestamp); }
      if processes.Length != 0 && !reply.Unavailable? {
        if reply.Refused? {
          return;
        }
        TakeSamples(reply.samples, processes);
      }
      MarkIdle(processes);
    }

    /** The loop over the samples. */
    method TakeSamples(samples: seq<Sample>, processes: array<GpuProcess>)
      modifies this, processes
      ensures processes[..] == AppliedAll(old(processes[..]), samples, old(lastTimestamp))
      ensures lastTimestamp == Newest(old(processes[..]), samples, old(lastTimestamp))
    {
      hide Applied, Accepted;
      ghost var rows := processes[..];
      var newest := lastTimestamp;
      assert samples[..0] == [];
      for i := 0 to |samples|
        invariant lastTimestamp == old(lastTimestamp)
        invariant processes[..] == AppliedAll(rows, samples[..i], lastTimestamp) && newest == Newest(rows, samples[..i], lastTimestamp)
      {
        assert samples[..i + 1][..i] == samples[..i];
        AcceptedAlike(rows, AppliedAll(rows, samples[..i], lastTimestamp), samples[i], lastTimestamp);
        newest := TakeSample(samples[i], processes, newest);
      }
      assert samples[..|samples|] == samples;
      lastTimestamp := newest;
    }

    /** The loop over the rows at the end. */
    method MarkIdle(processes: array<GpuProcess>)
      modifies processes
      ensures forall j :: 0 <= j < processes.Length ==> processes[j] == Idle(old(processes[j]))
    {
      for j := 0 to processes.Length
        invariant forall k :: 0 <= k < processes.Length ==> processes[k] == if k < j then Idle(old(processes[k])) else old(processes[k])
      {
        if !processes[j].gpuUsage.valid {
          processes[j] := processes[j].(gpuUsage := Set(0));
        }
        if !processes[j].encodeUsage.valid {
          processes[j] := processes[j].(encodeUsage := Set(0));
        }
        if !processes[j].decodeUsage.valid {
          processes[j] := processes[j].(decodeUsage := Set(0));
        }
      }
    }
  }

  lemma AcceptedAlike(rows: seq<GpuProcess>, rows2: seq<GpuProcess>, s: Sample, watermark: nat)
    requires |rows| == |rows2| && forall k :: 0 <= k < |rows| ==> rows2[k].pid == rows[k].pid
    ensures Accepted(rows2, s, watermark) == Accepted(rows, s, watermark)
  {
  }

  lemma {:induction false} NewestOfNone(rows: seq<GpuProcess>, samples: seq<Sample>, watermark: nat)
    requires rows == []
    ensures Newest(rows, samples, watermark) == watermark
  {
    if samples != [] { NewestOfNone(rows, samples[..|samples| - 1], watermark); }
  }

  // ----- One call -----

  /** A sample is accepted when it is consistent and newer than the watermark and there is a row for its process. */
  lemma AcceptedIff(rows: seq<GpuProcess>, s: Sample, watermark: nat)
    ensures Accepted(rows, s, watermark) <==>
            s.sm <= 100 && s.enc <= 100 && s.dec <= 100 && s.timestamp > watermark && exists j :: 0 <= j < |rows| && rows[j].pid == s.pid
  {
    var r := RowOfPid(rows, s.pid, 0);
    assert r < |rows| ==> rows[r].pid == s.pid;
  }

  /** It updates the first row of its process. */
  lemma UpdatesIff(rows: seq<GpuProcess>, s: Sample, watermark: nat, j: nat)
    ensures Updates(rows, s, watermark, j) <==>
            && s.sm <= 100 && s.enc <= 100 && s.dec <= 100 && s.timestamp > watermark
            && j < |rows| && rows[j].pid == s.pid && forall k :: 0 <= k < j ==> rows[k].pid != s.pid
  {
    var r := RowOfPid(rows, s.pid, 0);
    assert r < |rows| ==> rows[r].pid == s.pid;
  }

  /** Row j after a call that proceeds: the three usages are those of the last sample that updates it, or as they were, zero if they were not known. */
  lemma RowAfterCall(rows: seq<GpuProcess>, samples: seq<Sample>, watermark: nat, j: nat)
    requires j < |rows|
    ensures forall i: nat :: LastUpdate(rows, samples, watermark, j, i) ==>
              Idle(AppliedAll(rows, samples, watermark)[j]) ==
              rows[j].(gpuUsage := Field(samples[i].sm, true), encodeUsage := Field(samples[i].enc, true), decodeUsage := Field(samples[i].dec, true))
    ensures (forall i :: 0 <= i < |samples| ==> !Updates(rows, samples[i], watermark, j)) ==>
              var r := Idle(AppliedAll(rows, samples, watermark)[j]);
              && r == rows[j].(gpuUsage := r.gpuUsage, encodeUsage := r.encodeUsage, decodeUsage := r.decodeUsage)
              && r.gpuUsage == (if rows[j].gpuUsage.valid then rows[j].gpuUsage else Field(0, true))
              && r.encodeUsage == (if rows[j].encodeUsage.valid then rows[j].encodeUsage else Field(0, true))
              && r.decodeUsage == (if rows[j].decodeUsage.valid then rows[j].decodeUsage else Field(0, true))
  {
    hide Updates, AppliedAll;
    forall i: nat | LastUpdate(rows, samples, watermark, j, i)
      ensures Idle(AppliedAll(rows, samples, watermark)[j]) ==
              rows[j].(gpuUsage := Field(samples[i].sm, true), encodeUsage := Field(samples[i].enc, true), decodeUsage := Field(samples[i].dec, true))
    {
      RowIsLastSample(rows, samples, watermark, j, i);
    }
    if forall i :: 0 <= i < |samples| ==> !Updates(rows, samples[i], watermark, j) { RowUntouched(rows, samples, watermark, j); }
  }

  /** The next watermark is the largest of the old one and the accepted timestamps. */
  lemma {:induction false} NewestIsMaximum(rows: seq<GpuProcess>, samples: seq<Sample>, watermark: nat)
    ensures var n := Newest(rows, samples, watermark);
            && n >= watermark
            && (forall i :: 0 <= i < |samples| && Accepted(rows, samples[i], watermark) ==> samples[i].timestamp <= n)
            && (n == watermark || exists i :: 0 <= i < |samples| && Accepted(rows, samples[i], watermark) && samples[i].timestamp == n)
  {
    hide Accepted;
    if samples != [] {
      var k := |samples| - 1;
      var front := samples[..k];
      NewestIsMaximum(rows, front, watermark);
      assert forall i :: 0 <= i < k ==> samples[i] == front[i];
      var n, m := Newest(rows, samples, watermark), Newest(rows, front, watermark);
      if n == m && m != watermark {
        var i :| 0 <= i < k && Accepted(rows, front[i], watermark) && front[i].timestamp == m;
        assert Accepted(rows, samples[i], watermark) && samples[i].timestamp == n;
      } else if n != m {
        assert Accepted(rows, samples[k], watermark) && samples[k].timestamp == n;
      }
    }
  }

  /** The sample updates row j. */
  predicate Updates(rows: seq<GpuProcess>, s: Sample, watermark: nat, j: nat) { Accepted(rows, s, watermark) && RowOfPid(rows, s.pid, 0) == j }

  /** Sample i is the last one that updates row j. */
  ghost predicate LastUpdate(rows: seq<GpuProcess>, samples: seq<Sample>, watermark: nat, j: nat, i: nat) {
    i < |samples| && Updates(rows, samples[i], watermark, j) && forall k :: i < k < |samples| ==> !Updates(rows, samples[k], watermark, j)
  }

  /** A row no sample updates stays as it was. */
  lemma {:induction false} RowUntouched(rows: seq<GpuProcess>, samples: seq<Sample>, watermark: nat, j: nat)
    requires j < |rows| && forall i :: 0 <= i < |samples| ==> !Updates(rows, samples[i], watermark, j)
    ensures AppliedAll(rows, samples, watermark)[j] == rows[j]
  {
    if samples != [] {
      RowUntouched(rows, samples[..|samples| - 1], watermark, j);
      NextSample(rows, samples, watermark, j);
    }
  }

  /** A row ends up with the last sample that updates it. */
  lemma {:induction false} RowIsLastSample(rows: seq<GpuProcess>, samples: seq<Sample>, watermark: nat, j: nat, i: nat)
    requires j < |rows| && LastUpdate(rows, samples, watermark, j, i)
    ensures AppliedAll(rows, samples, watermark)[j] == WithSample(rows[j], samples[i])
  {
    var n := |samples| - 1;
    NextSample(rows, samples, watermark, j);
    if i < n {
      assert samples[..n][i] == samples[i];
      RowIsLastSample(rows, samples[..n], watermark, j, i);
    } else {
      RowShape(rows, samples[..n], watermark, j);
    }
  }

  lemma NextSample(rows: seq<GpuProcess>, samples: seq<Sample>, watermark: nat, j: nat)
    requires j < |rows| && samples != []
    ensures var before, s := AppliedAll(rows, samples[..|samples| - 1], watermark)[j], samples[|samples| - 1];
            AppliedAll(rows, samples, watermark)[j] == if Updates(rows, s, watermark, j) then WithSample(before, s) else before
  {
  }

  lemma OneRowChanges(rows: seq<GpuProcess>, s: Sample, watermark: nat, j: nat)
    requires j < |rows|
    ensures Applied(rows, s, watermark)[j] == if Updates(rows, s, watermark, j) then WithSample(rows[j], s) else rows[j]
  {
  }

  /** Samples only ever overwrite the three usages, so nothing of an earlier one survives a later one. */
  lemma {:induction false} RowShape(rows: seq<GpuProcess>, samples: seq<Sample>, watermark: nat, j: nat)
    requires j < |rows|
    ensures forall s :: WithSample(AppliedAll(rows, samples, watermark)[j], s) == WithSample(rows[j], s)
  {
    if samples != [] {
      var n := |samples| - 1;
      RowShape(rows, samples[..n], watermark, j);
      OneRowChanges(AppliedAll(rows, samples[..n], watermark), samples[n], watermark, j);
    }
  }

  /** Invalid, or a percentage. */
  predicate Sane(f: Field) { f.valid ==> f.value <= 100 }

  predicate SaneRow(r: GpuProcess) { Sane(r.gpuUsage) && Sane(r.encodeUsage) && Sane(r.decodeUsage) }

  /** A call that proceeds leaves valid percentages in every row. */
  lemma {:induction false} RowsStaySane(rows: seq<GpuProcess>, samples: seq<Sample>, watermark: nat)
    requires forall j :: 0 <= j < |rows| ==> SaneRow(rows[j])
    ensures forall j :: 0 <= j < |rows| ==>
              var r := Idle(AppliedAll(rows, samples, watermark)[j]);
              SaneRow(r) && r.gpuUsage.valid && r.encodeUsage.valid && r.decodeUsage.valid
  {
    AppliedSane(rows, samples, watermark);
  }

  lemma {:induction false} AppliedSane(rows: seq<GpuProcess>, samples: seq<Sample>, watermark: nat)
    requires forall j :: 0 <= j < |rows| ==> SaneRow(rows[j])
    ensures forall j :: 0 <= j < |rows| ==> SaneRow(AppliedAll(rows, samples, watermark)[j])
  {
    if samples != [] { AppliedSane(rows, samples[..|samples| - 1], watermark); }
  }

  // ----- All calls -----

  datatype Call = Call(rows: seq<GpuProcess>, reply: Reply)

  /** The watermark after the first n calls. */
  function WatermarkAt(calls: seq<Call>, n: nat, start: nat): nat
    requires n <= |calls|
  {
    if n == 0 then start else WatermarkAfter(calls[n - 1].rows, calls[n - 1].reply, WatermarkAt(calls, n - 1, start))
  }

  /** Sample i of call c is accepted. */
  predicate AcceptedIn(calls: seq<Call>, c: nat, i: nat, start: nat)
    requires c < |calls|
  {
    var samples := SamplesOf(calls[c].rows, calls[c].reply);
    i < |samples| && Accepted(calls[c].rows, samples[i], WatermarkAt(calls, c, start))
  }

  function SampleOf(calls: seq<Call>, c: nat, i: nat): Sample
    requires c < |calls| && i < |SamplesOf(calls[c].rows, calls[c].reply)|
  {
    SamplesOf(calls[c].rows, calls[c].reply)[i]
  }

  lemma {:induction false} WatermarkNeverDecreases(calls: seq<Call>, m: nat, n: nat, start: nat)
    requires m <= n <= |calls|
    ensures WatermarkAt(calls, m, start) <= WatermarkAt(calls, n, start)
  {
    hide WatermarkAfter;
    if m < n {
      WatermarkNeverDecreases(calls, m, n - 1, start);
      StepUp(calls, n - 1, start);
    }
  }

  lemma StepUp(calls: seq<Call>, n: nat, start: nat)
    requires n < |calls|
    ensures WatermarkAt(calls, n, start) <= WatermarkAt(calls, n + 1, start)
    ensures forall i :: AcceptedIn(calls, n, i, start) ==> SampleOf(calls, n, i).timestamp <= WatermarkAt(calls, n + 1, start)
  {
    hide Accepted, Newest;
    NewestIsMaximum(calls[n].rows, SamplesOf(calls[n].rows, calls[n].reply), WatermarkAt(calls, n, start));
  }

  /** No sample is accepted in two calls: what one call accepts is not above the watermark of any later one. */
  lemma NoReplay(calls: seq<Call>, c: nat, i: nat, d: nat, j: nat, start: nat)
    requires c < d < |calls| && AcceptedIn(calls, c, i, start) && AcceptedIn(calls, d, j, start)
    ensures SampleOf(calls, c, i).timestamp < SampleOf(calls, d, j).timestamp
  {
    hide WatermarkAt;
    StepUp(calls, c, start);
    WatermarkNeverDecreases(calls, c + 1, d, start);
  }

  /** After any number of calls the watermark is the start or an accepted timestamp, and no accepted timestamp is above it. */
  lemma {:induction false} WatermarkIsNewestAccepted(calls: seq<Call>, n: nat, start: nat)
    requires n <= |calls|
    ensures forall c, i :: 0 <= c < n && AcceptedIn(calls, c, i, start) ==> SampleOf(calls, c, i).timestamp <= WatermarkAt(calls, n, start)
    ensures WatermarkAt(calls, n, start) == start
         || exists c, i :: 0 <= c < n && AcceptedIn(calls, c, i, start) && SampleOf(calls, c, i).timestamp == WatermarkAt(calls, n, start)
  {
    hide Accepted, Newest;
    if n > 0 {
      WatermarkIsNewestAccepted(calls, n - 1, start);
      StepUp(calls, n - 1, start);
      var samples := SamplesOf(calls[n - 1].rows, calls[n - 1].reply);
      NewestIsMaximum(calls[n - 1].rows, samples, WatermarkAt(calls, n - 1, start));
      if WatermarkAt(calls, n, start) != WatermarkAt(calls, n - 1, start) {
        var i :| 0 <= i < |samples| && Accepted(calls[n - 1].rows, samples[i], WatermarkAt(calls, n - 1, start)) && samples[i].timestamp == WatermarkAt(calls, n, start);
        assert AcceptedIn(calls, n - 1, i, start) && SampleOf(calls, n - 1, i).timestamp == WatermarkAt(calls, n, start);
      }
    }
  }
}
