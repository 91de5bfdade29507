/** The cache of DRM clients of one amdgpu device: the previous sweep's measurements, and those of the sweep under way. */
module DrmCache {
  import opened Arith
  import opened ProcessRow

  datatype ClientId = ClientId(client: nat, pid: int)

  /** Engine times of a client, and when they were read. */
  datatype Measure = Measure(gfx: Field, compute: Field, dec: Field, enc: Field, time: nat)

  /** p is the percentage of `elapsed` nearest to `busy`. */
  predicate Nearest(p: nat, busy: nat, elapsed: nat) { 2 * (p * elapsed) <= 200 * busy + elapsed && 200 * busy <= 2 * (p * elapsed) + elapsed }

  lemma NearestShare(x: nat, n: nat)
    requires n > 0
    ensures var p := (x + n / 2) / n; 2 * (p * n) <= 2 * x + n && 2 * x <= 2 * (p * n) + n
  {
    DivMod(x + n / 2, n);
  }

  /** busy_usage_from_time_usage_round */
  function BusyUsage(now: nat, before: nat, elapsed: nat): (p: nat)
    requires before <= now && elapsed > 0
    ensures now - before <= elapsed ==> p <= 100
    ensures Nearest(p, now - before, elapsed)
  {
    DivBound(101, (now - before) * 100 + elapsed / 2, elapsed);
    NearestShare((now - before) * 100, elapsed);
    ((now - before) * 100 + elapsed / 2) / elapsed
  }

  /** The measurements of one engine can be compared: both valid, not lowering, and not more than the time that went by. */
  predicate Comparable(now: Field, before: Field, elapsed: nat) {
    now.valid && before.valid && now.value >= before.value && now.value - before.value <= elapsed
  }

  function WithGfx(r: GpuProcess, before: Field, elapsed: nat): GpuProcess
    requires elapsed == 0 ==> !Comparable(r.gfxEngine, before, elapsed)
  {
    if Comparable(r.gfxEngine, before, elapsed) then r.(gpuUsage := Set(BusyUsage(r.gfxEngine.value, before.value, elapsed))) else r
  }

  /** The compute engine's usage comes on top of what the row already has. */
  function WithCompute(r: GpuProcess, before: Field, elapsed: nat): GpuProcess
    requires elapsed == 0 ==> !Comparable(r.computeEngine, before, elapsed)
  {
    if Comparable(r.computeEngine, before, elapsed) then
      r.(gpuUsage := Set((if r.gpuUsage.valid then r.gpuUsage.value else 0) + BusyUsage(r.computeEngine.value, before.value, elapsed)))
    else r
  }

  function WithDec(r: GpuProcess, before: Field, elapsed: nat): GpuProcess
    requires elapsed == 0 ==> !Comparable(r.decEngine, before, elapsed)
  {
    if Comparable(r.decEngine, before, elapsed) then r.(decodeUsage := Set(BusyUsage(r.decEngine.value, before.value, elapsed))) else r
  }

  function WithEnc(r: GpuProcess, before: Field, elapsed: nat): GpuProcess
    requires elapsed == 0 ==> !Comparable(r.encEngine, before, elapsed)
  {
    if Comparable(r.encEngine, before, elapsed) then r.(encodeUsage := Set(BusyUsage(r.encEngine.value, before.value, elapsed))) else r
  }

  /** Some engine time can be compared with the measurement m; only then is there a division by the time that went by. */
  predicate AnyComparable(r: GpuProcess, m: Measure, elapsed: nat) {
    || Comparable(r.gfxEngine, m.gfx, elapsed) || Comparable(r.computeEngine, m.compute, elapsed)
    || Comparable(r.decEngine, m.dec, elapsed) || Comparable(r.encEngine, m.enc, elapsed)
  }

  /** Usages since the measurement m, where they can be told. */
  function WithDeltas(r: GpuProcess, m: Measure, elapsed: nat): GpuProcess
    requires elapsed == 0 ==> !AnyComparable(r, m, elapsed)
  {
    WithEnc(WithDec(WithCompute(WithGfx(r, m.gfx, elapsed), m.compute, elapsed), m.dec, elapsed), m.enc, elapsed)
  }

  /** A codec's usage is told exactly when its engine times can be compared: the nearest percentage, never above 100. */
  predicate CodecTold(was: Field, told: Field, now: Field, before: Field, elapsed: nat) {
    if now.valid && before.valid && before.value <= now.value <= before.value + elapsed then
      told.valid && told.value <= 100 && Nearest(told.value, now.value - before.value, elapsed)
    else told == was
  }

  /** The graphics and the compute engine share one usage: the first starts it over, the second adds to it. */
  predicate GpuTold(r: GpuProcess, told: Field, m: Measure, elapsed: nat) {
    var gfx, compute := Comparable(r.gfxEngine, m.gfx, elapsed), Comparable(r.computeEngine, m.compute, elapsed);
    var base := if !gfx && r.gpuUsage.valid then r.gpuUsage.value else 0;
    if gfx || compute then
      && told.valid && base <= told.value <= base + (if gfx then 100 else 0) + (if compute then 100 else 0)
      && (!compute ==> Nearest(told.value, r.gfxEngine.value - m.gfx.value, elapsed))
      && (!gfx ==> Nearest(told.value - base, r.computeEngine.value - m.compute.value, elapsed))
    else told == r.gpuUsage
  }

  /** What usages a row may have been given: nothing but those that can be told, all of them, and nothing else of the row. */
  predicate Told(r: GpuProcess, w: GpuProcess, m: Measure, elapsed: nat) {
    && GpuTold(r, w.gpuUsage, m, elapsed)
    && CodecTold(r.decodeUsage, w.decodeUsage, r.decEngine, m.dec, elapsed)
    && CodecTold(r.encodeUsage, w.encodeUsage, r.encEngine, m.enc, elapsed)
    && w == r.(gpuUsage := w.gpuUsage, decodeUsage := w.decodeUsage, encodeUsage := w.encodeUsage)
  }

  lemma DeltasTell(r: GpuProcess, m: Measure, elapsed: nat)
    requires elapsed == 0 ==> !AnyComparable(r, m, elapsed)
    ensures Told(r, WithDeltas(r, m, elapsed), m, elapsed)
  {
    hide BusyUsage, Nearest;
  }

  lemma GfxKeepsCodecs(r: GpuProcess, m: Measure, elapsed: nat)
    requires elapsed == 0 ==> !AnyComparable(r, m, elapsed)
    ensures var w := WithCompute(WithGfx(r, m.gfx, elapsed), m.compute, elapsed);
            w.decEngine == r.decEngine && w.encEngine == r.encEngine
  {
    hide BusyUsage, Nearest;
  }

  function WithShared(r: GpuProcess, shared: bool): GpuProcess {
    if shared then r.(decodeUsage := Set(r.decodeUsage.value + r.encodeUsage.value)) else r
  }

  /** The two generations by their measurements. */
  datatype Tables = Tables(last: map<ClientId, Measure>, current: map<ClientId, Measure>)

  function MeasureOf(r: GpuProcess, now: nat): Measure {
    Measure(Stored(r.gfxEngine), Stored(r.computeEngine), Stored(r.decEngine), Stored(r.encEngine), now)
  }

  /** What is kept of an engine time: nothing but its absence when it was not valid. */
  function Stored(f: Field): Field { if f.valid then f else UNSET }

  datatype Event = Event(id: ClientId, row: GpuProcess, now: nat)

  /** The clock has not gone back since the last measurement, and has advanced if some engine time is to be compared. */
  predicate Since(r: GpuProcess, m: Measure, now: nat) { now >= m.time && (now == m.time ==> !AnyComparable(r, m, 0)) }

  predicate Later(t: Tables, ev: Event) { ev.id in t.last ==> Since(ev.row, t.last[ev.id], ev.now) }

  /** The row of a client, with usages since the previous sweep when that sweep measured it. */
  function RowAfter(t: Tables, shared: bool, ev: Event): GpuProcess
    requires Later(t, ev)
  {
    WithShared(if ev.id in t.last then WithDeltas(ev.row, t.last[ev.id], ev.now - t.last[ev.id].time) else ev.row, shared)
  }

  /** The tables once a client's file has been parsed: only the first measurement of a sweep is kept. */
  function TablesAfter(t: Tables, ev: Event): Tables {
    Tables(t.last - {ev.id}, if ev.id in t.current then t.current else t.current[ev.id := MeasureOf(ev.row, ev.now)])
  }

  // ----- The tables in place -----

  class CacheEntry {
    const id: ClientId
    var gfx: Field
    var compute: Field
    var enc: Field
    var dec: Field
    var time: nat

    /** calloc, with the client's id */
    constructor (id: ClientId)
      ensures this.id == id && gfx == compute == enc == dec == UNSET && time == 0
    {
      this.id := id;
      gfx, compute, enc, dec, time := UNSET, UNSET, UNSET, UNSET, 0;
    }

    ghost function Measured(): Measure
      reads this
    {
      Measure(Stored(gfx), Stored(compute), Stored(dec), Stored(enc), time)
    }
  }

  ghost function Measures(m: map<ClientId, CacheEntry>): (r: map<ClientId, Measure>)
    reads m.Values
    ensures r.Keys == m.Keys && forall k :: k in m ==> r[k] == m[k].Measured()
  {
    map k | k in m :: m[k].Measured()
  }

  /** Entries are filed under their id and none of them is freed; every entry ever made is live or freed. */
  ghost predicate Ledger(live: map<ClientId, CacheEntry>, made: set<CacheEntry>, freed: set<CacheEntry>) {
    && (forall k :: k in live ==> live[k].id == k && live[k] in made && live[k] !in freed)
    && (forall e :: e in made ==> e in freed || (e.id in live && live[e.id] == e))
  }

  class Device {
    const shared: bool
    var last: map<ClientId, CacheEntry>
    var current: map<ClientId, CacheEntry>
    ghost var made: set<CacheEntry>
    ghost var freed: set<CacheEntry>

    ghost predicate Valid()
      reads this
    {
      last.Keys !! current.Keys && Ledger(last + current, made, freed)
    }

    ghost function State(): Tables
      reads this, last.Values, current.Values
    {
      Tables(Measures(last), Measures(current))
    }

    constructor (shared: bool)
      ensures Valid() && last == map[] && current == map[] && made == {} && freed == {} && this.shared == shared
    {
      this.shared, last, current, made, freed := shared, map[], map[], {}, {};
    }

    /** free: never twice */
    ghost method Free(e: CacheEntry)
      requires e !in freed
      modifies this`freed
      ensures freed == old(freed) + {e}
    {
      freed := freed + {e};
    }

    /** The usage of the graphics and compute engines since the last measurement. */
    method FillGpuUsage(row: GpuProcess, e: CacheEntry, elapsed: nat) returns (r: GpuProcess)
      requires elapsed == 0 ==> !Comparable(row.gfxEngine, Stored(e.gfx), elapsed) && !Comparable(row.computeEngine, Stored(e.compute), elapsed)
      ensures r == WithCompute(WithGfx(row, Stored(e.gfx), elapsed), Stored(e.compute), elapsed)
    {
      hide BusyUsage;
      r := row;
      if r.gfxEngine.valid && e.gfx.valid && r.gfxEngine.value >= e.gfx.value && r.gfxEngine.value - e.gfx.value <= elapsed {
        r := r.(gpuUsage := Set(BusyUsage(r.gfxEngine.value, e.gfx.value, elapsed)));
      }
      assert r == WithGfx(row, Stored(e.gfx), elapsed);
      hide WithGfx;
      if r.computeEngine.valid && e.compute.valid && r.computeEngine.value >= e.compute.value && r.computeEngine.value - e.compute.value <= elapsed {
        var gfxUsage := if r.gpuUsage.valid then r.gpuUsage.value else 0;
        r := r.(gpuUsage := Set(gfxUsage + BusyUsage(r.computeEngine.value, e.compute.value, elapsed)));
      }
    }

    /** The usage of the decoder and the encoder since the last measurement. */
    method FillCodecUsage(row: GpuProcess, e: CacheEntry, elapsed: nat) returns (r: GpuProcess)
      requires elapsed == 0 ==> !Comparable(row.decEngine, Stored(e.dec), elapsed) && !Comparable(row.encEngine, Stored(e.enc), elapsed)
      ensures r == WithEnc(WithDec(row, Stored(e.dec), elapsed), Stored(e.enc), elapsed)
    {
      hide BusyUsage;
      r := row;
      if r.decEngine.valid && e.dec.valid && r.decEngine.value >= e.dec.value && r.decEngine.value - e.dec.value <= elapsed {
        r := r.(decodeUsage := Set(BusyUsage(r.decEngine.value, e.dec.value, elapsed)));
      }
      assert r == WithDec(row, Stored(e.dec), elapsed);
      hide WithDec;
      if r.encEngine.valid && e.enc.valid && r.encEngine.value >= e.enc.value && r.encEngine.value - e.enc.value <= elapsed {
        r := r.(encodeUsage := Set(BusyUsage(r.encEngine.value, e.enc.value, elapsed)));
      }
    }

    /** The usages since the last measurement. */
    method FillDeltas(row: GpuProcess, e: CacheEntry, now: nat) returns (r: GpuProcess)
      requires Since(row, e.Measured(), now)
      ensures r == WithDeltas(row, e.Measured(), now - e.time) && Told(row, r, e.Measured(), now - e.time)
    {
      DeltasTell(row, e.Measured(), now - e.time);
      GfxKeepsCodecs(row, e.Measured(), now - e.time);
      hide WithGfx, WithCompute, WithDec, WithEnc, Comparable, Told;
      r := FillGpuUsage(row, e, now - e.time);
      r := FillCodecUsage(r, e, now - e.time);
    }

    /** Keep this measurement in the entry. */
    method Store(row: GpuProcess, e: CacheEntry, now: nat)
      modifies e
      ensures e.Measured() == MeasureOf(row, now)
    {
      e.gfx, e.compute, e.dec, e.enc := Field(e.gfx.value, false), Field(e.compute.value, false), Field(e.dec.value, false), Field(e.enc.value, false);
      if row.gfxEngine.valid {
        e.gfx := Set(row.gfxEngine.value);
      }
      if row.computeEngine.valid {
        e.compute := Set(row.computeEngine.value);
      }
      if row.decEngine.valid {
        e.dec := Set(row.decEngine.value);
      }
      if row.encEngine.valid {
        e.enc := Set(row.encEngine.value);
      }
      e.time := now;
    }

    /** The entry of the client, taken out of the previous generation or made, and the row with the usages it allows. */
    method TakeEntry(id: ClientId, row: GpuProcess, now: nat) returns (entry: CacheEntry, r: GpuProcess)
      requires Valid() && Later(State(), Event(id, row, now))
      modifies this`last, this`made
      ensures last == old(last) - {id} && Ledger(last + current, made - {entry}, freed) && entry.id == id && entry in made && entry !in freed
      ensures if id in old(last) then entry in old(made) && made == old(made) else fresh(entry) && made == old(made) + {entry}
      ensures r == RowAfter(old(State()), shared, Event(id, row, now)) && MeasureOf(r, now) == MeasureOf(row, now)
    {
      hide WithDeltas, MeasureOf, Stored;
      ghost var was := State();
      SharedKeepsEngines(row, shared, now);
      if id in last {
        entry := last[id];
        r := FillDeltas(row, entry, now);
        DeltasKeepEngines(row, was.last[id], now - was.last[id].time, shared, now);
        LedgerTaken(last, current, made, freed, id);
        last := last - {id};
      } else {
        entry := new CacheEntry(id);
        r := row;
        LedgerSame(last + current, made, freed, entry);
        made := made + {entry};
        assert last - {id} == last && made - {entry} == old(made);
      }
      if shared {
        r := r.(decodeUsage := Set(r.decodeUsage.value + r.encodeUsage.value));
      }
    }

    /** Keep the entry for this generation, or free it when the client has been measured already. */
    method KeepEntry(id: ClientId, entry: CacheEntry, r: GpuProcess, now: nat)
      requires last.Keys !! current.Keys && id !in last && entry.id == id
      requires Ledger(last + current, made - {entry}, freed) && entry in made && entry !in freed
      modifies this`current, this`freed, entry
      ensures Valid()
      ensures if id in old(current) then current == old(current) && freed == old(freed) + {entry}
              else current == old(current)[id := entry] && freed == old(freed)
      ensures Measures(last) == old(Measures(last))
      ensures Measures(current) == if id in old(current) then old(Measures(current)) else old(Measures(current))[id := MeasureOf(r, now)]
    {
      hide MeasureOf, Ledger, Measures;
      if id in current {
        NotListed(last + current, made, freed, entry);
        if entry != current[id] {
          Free(entry);
        }
        LedgerFreed(last + current, made, freed - {entry}, entry);
        assert freed == old(freed) + {entry} && freed - {entry} == old(freed);
      } else {
        FileEntry(id, entry, r, now);
      }
    }

    /** Store the measurement, and file the entry under the current generation. */
    method FileEntry(id: ClientId, entry: CacheEntry, r: GpuProcess, now: nat)
      requires last.Keys !! current.Keys && id !in last && id !in current && entry.id == id
      requires Ledger(last + current, made - {entry}, freed) && entry in made && entry !in freed
      modifies this`current, entry
      ensures Valid() && current == old(current)[id := entry] && Measures(last) == old(Measures(last))
      ensures Measures(current) == old(Measures(current))[id := MeasureOf(r, now)]
    {
      hide MeasureOf, Ledger, Stored, Measures;
      ghost var was := current;
      NotFiled(last, was, made, freed, entry);
      Store(r, entry, now);
      current := current[id := entry];
      MeasuresAdded(was, id, entry);
    }

    /** The cache half of parse_drm_fdinfo_amd, for a file that names its client. */
    method Parse(id: ClientId, row: GpuProcess, now: nat) returns (r: GpuProcess)
      requires Valid() && Later(State(), Event(id, row, now))
      modifies this, made
      ensures Valid() && fresh(made - old(made)) && old(made) <= made
      ensures r == RowAfter(old(State()), shared, Event(id, row, now)) && State() == TablesAfter(old(State()), Event(id, row, now))
      ensures old(freed) <= freed <= old(freed) + (made - old(made))
    {
      hide *;
      TablesParts(Event(id, row, now));
      var entry;
      entry, r := TakeEntry(id, row, now);
      assert Measures(current) == old(Measures(current)) && Measures(last) == old(Measures(last - {id}));
      KeepEntry(id, entry, r, now);
      StateParts();
    }

    lemma StateParts()
      ensures State() == Tables(Measures(last), Measures(current))
    {
    }

    lemma TablesParts(ev: Event)
      ensures State() == Tables(Measures(last), Measures(current))
      ensures Valid() ==> last.Keys !! current.Keys
      ensures TablesAfter(State(), ev)
           == Tables(Measures(last - {ev.id}), if ev.id in current then Measures(current) else Measures(current)[ev.id := MeasureOf(ev.row, ev.now)])
    {
      hide MeasureOf;
      MeasuresRemoved(last, ev.id);
    }

    /** Free one entry of the previous generation. */
    method FreeEntry(id: ClientId)
      requires Valid() && id in last
      modifies this`last, this`freed
      ensures Valid() && last == old(last) - {id} && freed == old(freed) + {old(last)[id]}
    {
      hide Ledger;
      var e := last[id];
      LedgerTaken(last, current, made, freed, id);
      last := last - {id};
      Free(e);
      LedgerFreed(last + current, made, freed - {e}, e);
      assert freed - {e} == old(freed) && freed - {e} + {e} == freed;
    }

    /** swap_process_cache_for_next_update */
    method SwapForNextUpdate()
      requires Valid()
      modifies this`last, this`current, this`freed
      ensures Valid() && last == old(current) && current == map[] && freed == old(freed) + old(last).Values
    {
      hide Ledger, Drained;
      ghost var l0 := last;
      DrainStarts(l0, freed);
      while |last| > 0
        invariant Valid() && current == old(current) && Drained(l0, last, old(freed), freed)
        decreases |last|
      {
        var id := SomeClient(last);
        DrainStep(l0, last, old(freed), freed, id);
        FreeEntry(id);
      }
      DrainEnds(l0, last, old(freed), freed);
      assert last + current == current == current + map[];
      last := current;
      current := map[];
    }

    /** A sweep that parses the given files in turn, and the swap at its end. */
    method Sweep(events: seq<Event>) returns (rows: seq<GpuProcess>)
      requires Valid() && current == map[] && forall k :: 0 <= k < |events| ==> Newer(events[k], Measures(last))
      modifies this, made
      ensures Valid() && current == map[] && Measures(last) == First(events)
      ensures |rows| == |events|
      ensures forall k :: 0 <= k < |events| ==> rows[k] == SweptRow(old(Measures(last)), events, k, shared)
    {
      hide Ledger, Measures, RowAfter, SweptRow, TablesAfter, First, Newer;
      ghost var before := Measures(last);
      SweepStarts();
      rows := [];
      for k := 0 to |events|
        invariant Valid() && fresh(made - old(made)) && old(made) <= made && State() == Run(Tables(before, map[]), events[..k]) && |rows| == k
        invariant forall j :: 0 <= j < k ==> rows[j] == SweptRow(before, events, j, shared)
      {
        RowOfSweep(before, events, k, shared);
        assert events[..k + 1][..k] == events[..k] && events[..k + 1][k] == events[k];
        var r := Parse(events[k].id, events[k].row, events[k].now);
        rows := rows + [r];
      }
      assert events[..|events|] == events;
      RunTables(before, events);
      SwapForNextUpdate();
    }

    lemma SweepStarts()
      requires current == map[]
      ensures State() == Tables(Measures(last), map[])
    {
    }
  }

  /** Entries of l0 that are no longer in l have been freed. */
  ghost predicate Drained(l0: map<ClientId, CacheEntry>, l: map<ClientId, CacheEntry>, f0: set<CacheEntry>, f: set<CacheEntry>) {
    && (forall k :: k in l ==> k in l0 && l[k] == l0[k])
    && (forall e :: e in f ==> e in f0 || e in l0.Values)
    && f0 <= f && (forall k :: k in l0 && k !in l ==> l0[k] in f)
  }

  lemma DrainStarts(l0: map<ClientId, CacheEntry>, f0: set<CacheEntry>)
    ensures Drained(l0, l0, f0, f0)
  {
  }

  lemma DrainStep(l0: map<ClientId, CacheEntry>, l: map<ClientId, CacheEntry>, f0: set<CacheEntry>, f: set<CacheEntry>, id: ClientId)
    requires Drained(l0, l, f0, f) && id in l
    ensures Drained(l0, l - {id}, f0, f + {l[id]})
  {
  }

  lemma DrainEnds(l0: map<ClientId, CacheEntry>, l: map<ClientId, CacheEntry>, f0: set<CacheEntry>, f: set<CacheEntry>)
    requires Drained(l0, l, f0, f) && |l| == 0
    ensures l == map[] && f == f0 + l0.Values
  {
  }

  lemma NoneIsEmpty(keys: set<ClientId>)
    ensures |keys| == 0 || exists k :: k in keys
  {
  }

  /** The entry HASH_ITER comes to next; which one does not matter. */
  method SomeClient(m: map<ClientId, CacheEntry>) returns (id: ClientId)
    requires |m| > 0
    ensures id in m && |m - {id}| < |m|
  {
    var keys := m.Keys;
    assert |keys| == |m|;
    NoneIsEmpty(keys);
    id :| id in keys;
    assert (m - {id}).Keys == keys - {id};
    assert |m - {id}| == |keys - {id}|;
  }

  /** The engine times a row came with are still there once its usages are filled in. */
  lemma DeltasKeepEngines(r: GpuProcess, m: Measure, elapsed: nat, shared: bool, now: nat)
    requires elapsed == 0 ==> !AnyComparable(r, m, elapsed)
    ensures MeasureOf(WithShared(WithDeltas(r, m, elapsed), shared), now) == MeasureOf(r, now)
  {
    hide BusyUsage;
  }

  lemma SharedKeepsEngines(r: GpuProcess, shared: bool, now: nat)
    ensures MeasureOf(WithShared(r, shared), now) == MeasureOf(r, now)
  {
  }

  lemma NotFiled(last: map<ClientId, CacheEntry>, current: map<ClientId, CacheEntry>, made: set<CacheEntry>, freed: set<CacheEntry>, e: CacheEntry)
    requires last.Keys !! current.Keys && e.id !in last && e.id !in current
    requires Ledger(last + current, made - {e}, freed) && e in made && e !in freed
    ensures e !in last.Values && e !in current.Values
    ensures Ledger(last + current[e.id := e], made, freed) && last.Keys !! current[e.id := e].Keys
  {
    EntriesApart(last, current, made - {e}, freed);
    LedgerKept(last + current, made, freed, e);
    assert last + current[e.id := e] == (last + current)[e.id := e];
  }

  lemma MeasuresAdded(m: map<ClientId, CacheEntry>, id: ClientId, e: CacheEntry)
    ensures Measures(m[id := e]) == Measures(m)[id := e.Measured()]
  {
  }

  lemma MeasuresRemoved(m: map<ClientId, CacheEntry>, id: ClientId)
    ensures Measures(m - {id}) == Measures(m) - {id}
    ensures forall k :: k in m ==> k in Measures(m) && Measures(m)[k] == m[k].Measured()
  {
  }

  lemma EntriesApart(last: map<ClientId, CacheEntry>, current: map<ClientId, CacheEntry>, made: set<CacheEntry>, freed: set<CacheEntry>)
    requires last.Keys !! current.Keys && Ledger(last + current, made, freed)
    ensures forall k :: k in last ==> last[k].id == k && last[k] in made
    ensures forall k :: k in current ==> current[k].id == k && current[k] in made
  {
    assert forall k :: k in last ==> (last + current)[k] == last[k];
    assert forall k :: k in current ==> (last + current)[k] == current[k];
  }

  lemma LedgerTaken(last: map<ClientId, CacheEntry>, current: map<ClientId, CacheEntry>, made: set<CacheEntry>, freed: set<CacheEntry>, id: ClientId)
    requires last.Keys !! current.Keys && Ledger(last + current, made, freed) && id in last
    ensures Ledger((last - {id}) + current, made - {last[id]}, freed) && last[id].id == id && last[id] in made && last[id] !in freed
  {
    assert (last + current)[id] == last[id];
  }

  lemma LedgerSame(live: map<ClientId, CacheEntry>, made: set<CacheEntry>, freed: set<CacheEntry>, e: CacheEntry)
    requires Ledger(live, made, freed) && e !in made
    ensures Ledger(live, (made + {e}) - {e}, freed)
  {
  }

  lemma NotListed(live: map<ClientId, CacheEntry>, made: set<CacheEntry>, freed: set<CacheEntry>, e: CacheEntry)
    requires Ledger(live, made - {e}, freed) && e.id in live
    ensures live[e.id] != e
  {
  }

  lemma LedgerFreed(live: map<ClientId, CacheEntry>, made: set<CacheEntry>, freed: set<CacheEntry>, e: CacheEntry)
    requires Ledger(live, made - {e}, freed)
    ensures Ledger(live, made, freed + {e})
  {
  }

  lemma LedgerKept(live: map<ClientId, CacheEntry>, made: set<CacheEntry>, freed: set<CacheEntry>, e: CacheEntry)
    requires Ledger(live, made - {e}, freed) && e in made && e !in freed && e.id !in live
    ensures Ledger(live[e.id := e], made, freed)
  {
  }

  // ----- Whole sweeps -----

  function Run(t: Tables, events: seq<Event>): Tables {
    if events == [] then t else TablesAfter(Run(t, events[..|events| - 1]), events[|events| - 1])
  }

  /** The first measurement of every client of a sweep. */
  function First(events: seq<Event>): map<ClientId, Measure> {
    if events == [] then map[]
    else
      var before, ev := First(events[..|events| - 1]), events[|events| - 1];
      if ev.id in before then before else before[ev.id := MeasureOf(ev.row, ev.now)]
  }

  ghost predicate Occurs(events: seq<Event>, id: ClientId) { exists k :: 0 <= k < |events| && events[k].id == id }

  lemma OccursSnoc(events: seq<Event>, id: ClientId)
    requires events != []
    ensures Occurs(events, id) <==> Occurs(events[..|events| - 1], id) || events[|events| - 1].id == id
  {
  }

  /** First knows exactly the clients that occur. */
  lemma {:induction false} FirstKnows(events: seq<Event>, id: ClientId)
    ensures id in First(events) <==> Occurs(events, id)
  {
    hide MeasureOf, Occurs;
    if events != [] {
      OccursSnoc(events, id);
      FirstKnows(events[..|events| - 1], id);
    } else {
      NothingOccurs(id);
    }
  }

  lemma NothingOccurs(id: ClientId)
    ensures !Occurs([], id)
  {
  }

  /** First keeps the earliest measurement of a client. */
  lemma {:induction false} FirstIsEarliest(events: seq<Event>, k: nat)
    requires k < |events| && !Occurs(events[..k], events[k].id)
    ensures events[k].id in First(events) && First(events)[events[k].id] == MeasureOf(events[k].row, events[k].now)
  {
    hide MeasureOf, Occurs;
    var front := events[..|events| - 1];
    if k < |front| {
      assert front[..k] == events[..k];
      FirstIsEarliest(front, k);
    } else {
      FirstKnows(front, events[k].id);
    }
  }

  /** In the middle of a sweep: the previous measurements of the clients not yet seen, and the first ones of those seen. */
  lemma {:induction false} RunTables(last: map<ClientId, Measure>, events: seq<Event>)
    ensures Run(Tables(last, map[]), events) == Tables(last - First(events).Keys, First(events))
  {
    hide MeasureOf;
    if events == [] {
      assert last - {} == last;
    } else {
      var front, ev := events[..|events| - 1], events[|events| - 1];
      RunTables(last, front);
      assert First(events).Keys == First(front).Keys + {ev.id};
      assert last - First(front).Keys - {ev.id} == last - First(events).Keys;
    }
  }

  /** The event comes after the measurement of its client in the previous sweep. */
  predicate Newer(ev: Event, last: map<ClientId, Measure>) { ev.id in last ==> Since(ev.row, last[ev.id], ev.now) }

  /** The k-th row of a sweep: a usage is told only at a client's first sighting, and from the previous sweep's measurement. */
  ghost function SweptRow(last: map<ClientId, Measure>, events: seq<Event>, k: nat, shared: bool): GpuProcess
    requires k < |events| && Newer(events[k], last)
  {
    var ev := events[k];
    WithShared(if ev.id in last && !Occurs(events[..k], ev.id) then WithDeltas(ev.row, last[ev.id], ev.now - last[ev.id].time) else ev.row, shared)
  }

  lemma RowOfSweep(last: map<ClientId, Measure>, events: seq<Event>, k: nat, shared: bool)
    requires k < |events| && Newer(events[k], last)
    ensures var t := Run(Tables(last, map[]), events[..k]); Later(t, events[k]) && RowAfter(t, shared, events[k]) == SweptRow(last, events, k, shared)
  {
    hide WithDeltas, WithShared, Run, First, Occurs;
    RunTables(last, events[..k]);
    FirstKnows(events[..k], events[k].id);
  }

  /** The first sighting in a sweep of a client the previous sweep measured. */
  ghost predicate Resighted(last: map<ClientId, Measure>, events: seq<Event>, k: nat)
    requires k < |events|
  {
    events[k].id in last && !Occurs(events[..k], events[k].id)
  }

  /**
   * What a sweep does to a row: at the first sighting of a client known from the previous sweep it is given the usages
   * that can be told since then, otherwise none; with a shared codec engine the decoder's usage has the encoder's added.
   */
  lemma SweptRowTells(last: map<ClientId, Measure>, events: seq<Event>, k: nat, shared: bool) returns (told: GpuProcess)
    requires k < |events| && Newer(events[k], last)
    ensures var ev := events[k];
            && SweptRow(last, events, k, shared) == WithShared(told, shared)
            && (if Resighted(last, events, k) then Told(ev.row, told, last[ev.id], ev.now - last[ev.id].time) else told == ev.row)
  {
    hide Told, WithDeltas, Occurs, WithShared;
    var ev := events[k];
    told := ev.row;
    if Resighted(last, events, k) {
      told := WithDeltas(ev.row, last[ev.id], ev.now - last[ev.id].time);
      DeltasTell(ev.row, last[ev.id], ev.now - last[ev.id].time);
    }
  }

  /** Only the absence of an engine time that is not valid is kept, and that is all that is asked of it. */
  lemma StoredTells(was: Field, told: Field, now: Field, before: Field, elapsed: nat)
    ensures CodecTold(was, told, now, Stored(before), elapsed) == CodecTold(was, told, now, before, elapsed)
  {
  }

  lemma StoredGpuTells(r: GpuProcess, told: Field, m: Measure, gfx: Field, compute: Field, elapsed: nat)
    requires m.gfx == Stored(gfx) && m.compute == Stored(compute)
    ensures GpuTold(r, told, m, elapsed) == GpuTold(r, told, m.(gfx := gfx, compute := compute), elapsed)
  {
    hide Nearest;
  }

  /**
   * Over two sweeps: a row first sighted in the second of a client first sighted in the first is told, engine by engine, what
   * went by between the two readings of the same engine, over the time between the two sightings.
   */
  lemma TwoSweepsTell(before: seq<Event>, events: seq<Event>, i: nat, k: nat, shared: bool) returns (dec: Field)
    requires i < |before| && k < |events| && before[i].id == events[k].id
    requires !Occurs(before[..i], before[i].id) && !Occurs(events[..k], events[k].id) && Newer(events[k], First(before))
    ensures var was, r := before[i].row, events[k].row; var row := SweptRow(First(before), events, k, shared);
            && events[k].now >= before[i].now
            && var elapsed := events[k].now - before[i].now;
               && CodecTold(r.encodeUsage, row.encodeUsage, r.encEngine, was.encEngine, elapsed)
               && CodecTold(r.decodeUsage, dec, r.decEngine, was.decEngine, elapsed)
               && row.decodeUsage == (if shared then Field(dec.value + row.encodeUsage.value, true) else dec)
               && GpuTold(r, row.gpuUsage, Measure(was.gfxEngine, was.computeEngine, was.decEngine, was.encEngine, before[i].now), elapsed)
               && row == r.(gpuUsage := row.gpuUsage, decodeUsage := row.decodeUsage, encodeUsage := row.encodeUsage)
  {
    hide Occurs, First, SweptRow, CodecTold, GpuTold;
    FirstIsEarliest(before, i);
    var told := SweptRowTells(First(before), events, k, shared);
    dec := told.decodeUsage;
    var ev, was := events[k], before[i].row;
    var m, elapsed := First(before)[ev.id], ev.now - before[i].now;
    StoredTells(ev.row.encodeUsage, told.encodeUsage, ev.row.encEngine, was.encEngine, elapsed);
    StoredTells(ev.row.decodeUsage, told.decodeUsage, ev.row.decEngine, was.decEngine, elapsed);
    StoredGpuTells(ev.row, told.gpuUsage, m, was.gfxEngine, was.computeEngine, elapsed);
    OnlyEngines(ev.row, told.gpuUsage, m.(gfx := was.gfxEngine, compute := was.computeEngine), Measure(was.gfxEngine, was.computeEngine, was.decEngine, was.encEngine, before[i].now), elapsed);
  }

  lemma OnlyEngines(r: GpuProcess, told: Field, m: Measure, m2: Measure, elapsed: nat)
    requires m.gfx == m2.gfx && m.compute == m2.compute
    ensures GpuTold(r, told, m, elapsed) == GpuTold(r, told, m2, elapsed)
  {
  }
}
