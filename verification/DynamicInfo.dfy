/** Device totals made up from the processes of the device when the driver does not report them. */
module DynamicInfo {
  import opened Shared
  import opened ProcessRow

  /** The sum of the valid values, and whether there is any. */
  function SumValid(rows: seq<GpuProcess>, v: Value): Field {
    if rows == [] then UNSET
    else
      var before, f := SumValid(rows[..|rows| - 1], v), Get(rows[|rows| - 1], v);
      if f.valid then Set(before.value + f.value) else before
  }

  /** A rate made up from the processes: their sum, at most 100, when there is one; otherwise as it was. */
  function RateFrom(was: Field, rows: seq<GpuProcess>, v: Value): Field {
    if SumValid(rows, v).valid then Set(Min(100, SumValid(rows, v).value)) else was
  }

  lemma SumStep(rows: seq<GpuProcess>, i: nat, v: Value)
    requires i < |rows|
    ensures SumValid(rows[..i + 1], v) ==
            var before, f := SumValid(rows[..i], v), Get(rows[i], v); if f.valid then Set(before.value + f.value) else before
  {
    assert rows[..i + 1][..i] == rows[..i];
  }

  /** A running sum that stops at 100. */
  function Accumulated(rate: Field, usage: Field): Field {
    if !usage.valid then rate else if rate.valid then Field(Min(100, rate.value + usage.value), true) else Set(Min(100, usage.value))
  }

  /** Clamping at every step is clamping at the end. */
  lemma RateStep(was: Field, rows: seq<GpuProcess>, i: nat, v: Value)
    requires i < |rows| && !was.valid
    ensures RateFrom(was, rows[..i + 1], v) == Accumulated(RateFrom(was, rows[..i], v), Get(rows[i], v))
  {
    SumStep(rows, i, v);
    UnsetIsZero(rows[..i], v);
  }

  lemma NoProcesses(rows: seq<GpuProcess>)
    ensures forall v :: SumValid(rows[..0], v) == UNSET
    ensures forall was, v :: RateFrom(was, rows[..0], v) == was
  {
  }

  lemma {:induction false} UnsetIsZero(rows: seq<GpuProcess>, v: Value)
    ensures !SumValid(rows, v).valid ==> SumValid(rows, v) == UNSET
  {
    if rows != [] { UnsetIsZero(rows[..|rows| - 1], v); }
  }

  class Device {
    var gpuUtilRate: Field
    var encoderRate: Field
    var decoderRate: Field
    var usedMemory: Field
    var freeMemory: Field
    var totalMemory: Field

    constructor (gpuUtilRate: Field, encoderRate: Field, decoderRate: Field, usedMemory: Field, freeMemory: Field, totalMemory: Field)
      ensures this.gpuUtilRate == gpuUtilRate && this.encoderRate == encoderRate && this.decoderRate == decoderRate
      ensures this.usedMemory == usedMemory && this.freeMemory == freeMemory && this.totalMemory == totalMemory
    {
      this.gpuUtilRate, this.encoderRate, this.decoderRate := gpuUtilRate, encoderRate, decoderRate;
      this.usedMemory, this.freeMemory, this.totalMemory := usedMemory, freeMemory, totalMemory;
    }

    /** One process's share of a rate. */
    method Accumulate(rate: Field, usage: Field) returns (r: Field)
      ensures r == Accumulated(rate, usage)
    {
      r := rate;
      if usage.valid {
        if rate.valid {
          r := Field(Min(100, rate.value + usage.value), true);
        } else {
          r := Set(Min(100, usage.value));
        }
      }
    }

    /** The loop over the processes. */
    method SumProcesses(processes: array<GpuProcess>, count: nat, needEncode: bool, needDecode: bool, needMemory: bool)
      requires count <= processes.Length && !gpuUtilRate.valid
      requires needEncode == !encoderRate.valid && needDecode == !decoderRate.valid && (needMemory ==> !usedMemory.valid)
      modifies this`gpuUtilRate, this`encoderRate, this`decoderRate, this`usedMemory
      ensures gpuUtilRate == RateFrom(old(gpuUtilRate), processes[..count], GpuUsage)
      ensures encoderRate == if needEncode then RateFrom(old(encoderRate), processes[..count], EncodeUsage) else old(encoderRate)
      ensures decoderRate == if needDecode then RateFrom(old(decoderRate), processes[..count], DecodeUsage) else old(decoderRate)
      ensures usedMemory == if needMemory && SumValid(processes[..count], Memory).valid then SumValid(processes[..count], Memory) else old(usedMemory)
    {
      hide SumValid, RateFrom, Accumulated;
      ghost var rows := processes[..count];
      NoProcesses(rows);
      for i := 0 to count
        invariant gpuUtilRate == RateFrom(old(gpuUtilRate), rows[..i], GpuUsage)
        invariant encoderRate == if needEncode then RateFrom(old(encoderRate), rows[..i], EncodeUsage) else old(encoderRate)
        invariant decoderRate == if needDecode then RateFrom(old(decoderRate), rows[..i], DecodeUsage) else old(decoderRate)
        invariant usedMemory == if needMemory && SumValid(rows[..i], Memory).valid then SumValid(rows[..i], Memory) else old(usedMemory)
      {
        var p := processes[i];
        assert rows[i] == p;
        RateStep(old(gpuUtilRate), rows, i, GpuUsage);
        if needEncode { RateStep(old(encoderRate), rows, i, EncodeUsage); }
        if needDecode { RateStep(old(decoderRate), rows, i, DecodeUsage); }
        SumStep(rows, i, Memory);
        UnsetIsZero(rows[..i], Memory);
        gpuUtilRate := Accumulate(gpuUtilRate, p.gpuUsage);
        if needEncode {
          encoderRate := Accumulate(encoderRate, p.encodeUsage);
        }
        if needDecode {
          decoderRate := Accumulate(decoderRate, p.decodeUsage);
        }
        if needMemory && p.memory.valid {
          if usedMemory.valid {
            usedMemory := Field(usedMemory.value + p.memory.value, true);
          } else {
            usedMemory := Set(p.memory.value);
          }
        }
      }
      assert rows[..count] == rows;
    }

    /** gpuinfo_fix_dynamic_info_from_process_info for one device, but for the effective load. */
    method FixFromProcesses(processes: array<GpuProcess>, count: nat)
      requires count <= processes.Length
      modifies this
      ensures gpuUtilRate == FixedRate(old(gpuUtilRate), processes[..count])
      ensures encoderRate == if old(encoderRate.valid) then old(encoderRate) else RateFrom(old(encoderRate), processes[..count], EncodeUsage)
      ensures decoderRate == if old(decoderRate.valid) then old(decoderRate) else RateFrom(old(decoderRate), processes[..count], DecodeUsage)
      ensures totalMemory == old(totalMemory)
      ensures (usedMemory, freeMemory) == FixedMemory(old(usedMemory), old(freeMemory), totalMemory, processes[..count])
    {
      var validReported, reported := gpuUtilRate.valid, gpuUtilRate.value;
      gpuUtilRate := Field(gpuUtilRate.value, false);
      var needEncode, needDecode := !encoderRate.valid, !decoderRate.valid;
      var needMemory := !usedMemory.valid && totalMemory.valid;
      SumProcesses(processes, count, needEncode, needDecode, needMemory);
      if needMemory && usedMemory.valid && totalMemory.valid && usedMemory.value > totalMemory.value {
        usedMemory := Field(usedMemory.value, false);
      }
      if needMemory && !freeMemory.valid && usedMemory.valid && totalMemory.valid {
        freeMemory := Set(totalMemory.value - usedMemory.value);
      }
      if !gpuUtilRate.valid && validReported {
        gpuUtilRate := Set(reported);
      } else if gpuUtilRate.valid && validReported {
        gpuUtilRate := Set(if gpuUtilRate.value > reported then gpuUtilRate.value else reported);
      }
    }
  }

  /** The device rate: the larger of the reported one and the processes' clamped sum, of those that are valid. */
  function FixedRate(reported: Field, rows: seq<GpuProcess>): Field {
    var sum := SumValid(rows, GpuUsage);
    if !sum.valid then reported
    else if reported.valid then Set(Max(Min(100, sum.value), reported.value))
    else Set(Min(100, sum.value))
  }

  /** Used and free memory: derived from the processes only when the driver gives a total but no use, and not when they exceed it. */
  function FixedMemory(used: Field, free: Field, total: Field, rows: seq<GpuProcess>): (Field, Field) {
    if used.valid || !total.valid then (used, free)
    else
      var sum := SumValid(rows, Memory);
      if !sum.valid then (used, free)
      else if sum.value > total.value then (Field(sum.value, false), free)
      else (sum, if free.valid then free else Set(total.value - sum.value))
  }

  /** Taking a row out of the middle takes its value out of the sum. */
  lemma {:induction false} SumWithout(rows: seq<GpuProcess>, i: nat, v: Value)
    requires i < |rows|
    ensures SumValid(rows, v) == Plus(SumValid(rows[..i] + rows[i + 1..], v), Get(rows[i], v))
  {
    hide SumValid, Plus, Get;
    var n := |rows| - 1;
    var rest := rows[..i] + rows[i + 1..];
    SumLast(rows, v);
    if i == n {
      assert rest == rows[..n];
    } else {
      SumWithout(rows[..n], i, v);
      FrontOfRest(rows, i);
      SumLast(rest, v);
      PlusCommutes(SumValid(rest[..n - 1], v), Get(rows[i], v), Get(rows[n], v));
    }
  }

  lemma FrontOfRest<T>(s: seq<T>, i: nat)
    requires i < |s| - 1
    ensures var n, rest := |s| - 1, s[..i] + s[i + 1..];
            |rest| == n && rest[..n - 1] == s[..n][..i] + s[..n][i + 1..] && rest[n - 1] == s[n]
  {
  }

  lemma PlusCommutes(sum: Field, f: Field, g: Field)
    ensures Plus(Plus(sum, f), g) == Plus(Plus(sum, g), f)
  {
  }

  lemma SumLast(rows: seq<GpuProcess>, v: Value)
    requires rows != []
    ensures SumValid(rows, v) == Plus(SumValid(rows[..|rows| - 1], v), Get(rows[|rows| - 1], v))
  {
  }

  /** The order in which the processes are listed does not matter. */
  lemma {:induction false} SumOrderFree(a: seq<GpuProcess>, b: seq<GpuProcess>, v: Value)
    requires multiset(a) == multiset(b)
    ensures SumValid(a, v) == SumValid(b, v)
    decreases |a|
  {
    if a == [] {
      assert |multiset(b)| == 0;
    } else {
      hide SumValid, Plus;
      var n := |a| - 1;
      var front := a[..n];
      MultisetWithout(a, n);
      assert a[..n] + a[n + 1..] == front;
      var i := Occurrence(b, a[n]);
      var rest := b[..i] + b[i + 1..];
      MultisetWithout(b, i);
      SumOrderFree(front, rest, v);
      SumWithout(b, i, v);
      SumLast(a, v);
    }
  }

  lemma MultisetWithout<T>(s: seq<T>, i: nat)
    requires i < |s|
    ensures s[i] in multiset(s) && multiset(s[..i] + s[i + 1..]) == multiset(s) - multiset{s[i]}
  {
    assert s == s[..i] + [s[i]] + s[i + 1..];
  }

  lemma Occurrence<T>(s: seq<T>, x: T) returns (i: nat)
    requires x in multiset(s)
    ensures i < |s| && s[i] == x
  {
    i :| 0 <= i < |s| && s[i] == x;
  }

  lemma TotalsOrderFree(a: seq<GpuProcess>, b: seq<GpuProcess>, was: Field, free: Field, total: Field)
    requires multiset(a) == multiset(b)
    ensures FixedRate(was, a) == FixedRate(was, b) && FixedMemory(was, free, total, a) == FixedMemory(was, free, total, b)
    ensures RateFrom(was, a, EncodeUsage) == RateFrom(was, b, EncodeUsage) && RateFrom(was, a, DecodeUsage) == RateFrom(was, b, DecodeUsage)
  {
    hide SumValid;
    SumOrderFree(a, b, GpuUsage);
    SumOrderFree(a, b, EncodeUsage);
    SumOrderFree(a, b, DecodeUsage);
    SumOrderFree(a, b, Memory);
  }

  /** The plain total of the valid values. */
  function ValidTotal(rows: seq<GpuProcess>, v: Value): nat {
    if rows == [] then 0
    else ValidTotal(rows[..|rows| - 1], v) + (if Get(rows[|rows| - 1], v).valid then Get(rows[|rows| - 1], v).value else 0)
  }

  ghost predicate AnyValid(rows: seq<GpuProcess>, v: Value) { exists i :: 0 <= i < |rows| && Get(rows[i], v).valid }

  lemma {:induction false} SumIsTotal(rows: seq<GpuProcess>, v: Value)
    ensures SumValid(rows, v) == Field(ValidTotal(rows, v), AnyValid(rows, v))
  {
    hide Get;
    if rows != [] {
      var n := |rows| - 1;
      SumIsTotal(rows[..n], v);
      assert forall i :: 0 <= i < n ==> rows[i] == rows[..n][i];
      assert AnyValid(rows, v) <==> AnyValid(rows[..n], v) || Get(rows[n], v).valid;
      hide AnyValid;
    }
  }

  /**
   * What can be relied on afterwards. The rate is the larger of the reported one and the processes' total stopped at 100, of those
   * there are. A codec's rate is the reported one if there is one, otherwise that total if there is one. The used memory is made
   * up only without a reported use and with a reported total that it does not exceed; then the free amount is what is left.
   */
  lemma FixedTotals(reported: Field, codec: Field, used: Field, free: Field, total: Field, rows: seq<GpuProcess>)
    ensures var busy := Min(100, ValidTotal(rows, GpuUsage)); var r := FixedRate(reported, rows);
            && (r.valid <==> reported.valid || AnyValid(rows, GpuUsage))
            && (r.valid ==> r.value == if !AnyValid(rows, GpuUsage) then reported.value else if reported.valid then Max(reported.value, busy) else busy)
    ensures forall v :: v == EncodeUsage || v == DecodeUsage ==>
              var r := if codec.valid then codec else RateFrom(codec, rows, v);
              && (r.valid <==> codec.valid || AnyValid(rows, v))
              && (r.valid ==> r.value == if codec.valid then codec.value else Min(100, ValidTotal(rows, v)))
    ensures var (used2, free2) := FixedMemory(used, free, total, rows); var sum := ValidTotal(rows, Memory);
            && (used2.valid <==> used.valid || (total.valid && AnyValid(rows, Memory) && sum <= total.value))
            && (used2.valid ==> used2.value == if used.valid then used.value else sum)
            && (free2.valid <==> free.valid || (!used.valid && used2.valid))
            && (free2.valid ==> free2.value == if free.valid then free.value else total.value - sum)
  {
    SumIsTotal(rows, GpuUsage);
    SumIsTotal(rows, EncodeUsage);
    SumIsTotal(rows, DecodeUsage);
    SumIsTotal(rows, Memory);
    hide SumValid, ValidTotal, AnyValid;
  }
}
