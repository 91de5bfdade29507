/** The options as the program keeps them: updated in place by the handler, written line by line, loaded at start-up. */
module OptionsStore {
  import opened Shared
  import opened Ini
  import opened IniPrint
  import opened IniParser
  import opened Options
  import opened OptionsRoundTrip

  lemma {:induction false} PrintSnoc(items: seq<Item>, it: Item)
    ensures Print(items + [it]) == Print(items) + IniPrint.Text(it)
  {
    hide IniPrint.Text;
    if items == [] {
      assert [it][1..] == [];
    } else {
      PrintSnoc(items[1..], it);
      assert (items + [it])[1..] == items[1..] + [it];
    }
  }

  lemma Assoc(a: seq<Item>, b: seq<Item>, c: seq<Item>)
    ensures a + b + c == a + (b + c)
  {
  }

  /** The file being written. */
  class OptionFile {
    var contents: string
    ghost var items: seq<Item>

    ghost predicate Valid()
      reads this
    {
      contents == Print(items)
    }

    constructor ()
      ensures Valid() && items == []
    {
      contents, items := "", [];
    }

    /** fprintf of one line */
    method Put(it: Item)
      requires Valid()
      modifies this
      ensures Valid() && items == old(items) + [it]
    {
      PrintSnoc(items, it);
      contents := contents + IniPrint.Text(it);
      items := items + [it];
    }
  }

  class Store<T> {
    const codec: Codec<T>
    var opts: Options<T>
    var selected: nat

    constructor (codec: Codec<T>, opts: Options<T>)
      ensures this.codec == codec && this.opts == opts && selected == |opts.gpus|
    {
      this.codec, this.opts, selected := codec, opts, |opts.gpus|;
    }

    /** The loop over the colours of one chart line */
    method TakeColor(s: nat, value: string)
      requires s < |opts.plotColors|
      modifies this`opts
      ensures opts == WithColor(old(opts), s, PLOT_COLORS, value, |PLOT_COLORS|)
    {
      hide WithColor;
      ColorStart(opts, s, PLOT_COLORS, value);
      for i := 0 to |PLOT_COLORS|
        invariant |opts.plotColors| == |old(opts).plotColors| && opts == WithColor(old(opts), s, PLOT_COLORS, value, i)
      {
        ColorStep(old(opts), s, PLOT_COLORS, value, i);
        if value == PLOT_COLORS[i] {
          opts := opts.(plotColors := opts.plotColors[s := i]);
        }
      }
    }

    /** The loop over the keys of the chart lines */
    method TakeColors(name: string, value: string)
      requires |opts.plotColors| == |COLOR_KEYS|
      modifies this`opts
      ensures opts == WithColors(old(opts), name, value, |COLOR_KEYS|)
    {
      hide LastMatch, WithColor;
      ColorsDistinct();
      LastMatchStart(COLOR_KEYS, name);
      for s := 0 to |COLOR_KEYS|
        invariant opts == WithColors(old(opts), name, value, s)
      {
        LastMatchStep(COLOR_KEYS, name, s);
        if name == COLOR_KEYS[s] {
          if LastMatch(COLOR_KEYS, name, s).Some? { LastMatchNames(COLOR_KEYS, name, s); }
          TakeColor(s, value);
        }
      }
    }

    /** The chart section of nvtop_option_ini_handler */
    method HandleChart(name: string, value: string)
      requires |opts.plotColors| == |COLOR_KEYS|
      modifies this`opts
      ensures opts == Chart(old(opts), name, value)
    {
      hide Chart, WithColors;
      ChartIs(opts, name, value);
      if name == "ReverseChart" {
        if value == "true" {
          opts := opts.(leftToRight := true);
        }
        if value == "false" {
          opts := opts.(leftToRight := false);
        }
      }
      TakeColors(name, value);
    }

    /** The general and header sections */
    method HandleGeneral(name: string, value: string)
      modifies this`opts
      ensures opts == General(old(opts), name, value)
    {
      if name == "UseColor" {
        if value == "true" {
          opts := opts.(useColor := true);
        }
        if value == "false" {
          opts := opts.(useColor := false);
        }
      }
      if name == "UpdateInterval" {
        var scanned := ScanInt(value);
        if scanned.Some? {
          opts := opts.(updateInterval := scanned.value);
        }
      }
      if name == "ShowInfoMessages" {
        if value == "true" {
          opts := opts.(showMessages := true);
        }
        if value == "false" {
          opts := opts.(showMessages := false);
        }
      }
    }

    method HandleHeader(name: string, value: string)
      modifies this`opts
      ensures opts == HeaderOption(codec, old(opts), name, value)
    {
      if name == "UseFahrenheit" {
        if value == "true" {
          opts := opts.(fahrenheit := true);
        }
        if value == "false" {
          opts := opts.(fahrenheit := false);
        }
      }
      if name == "EncodeHideTimer" {
        var scanned := codec.scan(value);
        if scanned.Some? {
          opts := opts.(timer := scanned.value);
        }
      }
      if name == "GPUInfoBar" {
        if value == "true" {
          opts := opts.(gpuInfoBar := true);
        }
        if value == "false" {
          opts := opts.(gpuInfoBar := false);
        }
      }
    }

    /** SortBy: the loop stops before "none" */
    method TakeSort(value: string)
      modifies this`opts
      ensures opts == match LastMatch(SORT_NAMES, value, PROCESS_FIELD_COUNT) { case Some(i) => old(opts).(sortBy := i) case None => old(opts) }
    {
      hide LastMatch;
      LastMatchStart(SORT_NAMES, value);
      for i := 0 to PROCESS_FIELD_COUNT
        invariant opts == match LastMatch(SORT_NAMES, value, i) { case Some(k) => old(opts).(sortBy := k) case None => old(opts) }
      {
        LastMatchStep(SORT_NAMES, value, i);
        if value == SORT_NAMES[i] {
          opts := opts.(sortBy := i);
        }
      }
    }

    method TakeField(value: string)
      modifies this`opts
      ensures opts == old(opts).(fields := DisplayFields(old(opts).fields, value, |SORT_NAMES|))
    {
      for i := 0 to |SORT_NAMES|
        invariant opts == old(opts).(fields := DisplayFields(old(opts).fields, value, i))
      {
        if value == SORT_NAMES[i] {
          opts := opts.(fields := opts.fields + {i});
          opts := opts.(fields := opts.fields + {PROCESS_FIELD_COUNT});
        }
      }
    }

    /** The process list's section */
    method HandleProcess(name: string, value: string)
      modifies this`opts
      ensures opts == ProcessList(old(opts), name, value)
    {
      hide LastMatch, DisplayFields;
      if name == "HideNvtopProcessList" {
        if value == "true" {
          opts := opts.(hideProcesses := true);
        }
        if value == "false" {
          opts := opts.(hideProcesses := false);
        }
      }
      if name == "HideNvtopProcess" {
        if value == "true" {
          opts := opts.(filterNvtop := true);
        }
        if value == "false" {
          opts := opts.(filterNvtop := false);
        }
      }
      if name == "SortBy" {
        TakeSort(value);
      }
      if name == "DisplayField" {
        TakeField(value);
      }
      if name == "SortOrder" {
        if value == "descending" {
          opts := opts.(sortDescending := true);
        }
        if value == "ascending" {
          opts := opts.(sortDescending := false);
        }
      }
    }

    /** Which device the lines that follow are about */
    method SelectDevice(value: string)
      modifies this`selected
      ensures selected == FindPdev(opts.gpus, value, 0)
    {
      selected := |opts.gpus|;
      for i := 0 to |opts.gpus|
        invariant selected == |opts.gpus| && FindPdev(opts.gpus, value, 0) == FindPdev(opts.gpus, value, i)
      {
        if opts.gpus[i].pdev == value {
          selected := i;
          break;
        }
      }
    }

    /** Draw chart j of the selected device, and mark that the file chose charts. */
    method AddShown(j: nat)
      requires selected < |opts.gpus|
      modifies this`opts
      ensures opts == WithDraws(old(opts), selected, AddDraw(PLOT_INFORMATION_COUNT, AddDraw(j, old(opts).gpus[selected].toDraw)))
    {
      hide AddDraw;
      opts := opts.(gpus := opts.gpus[selected := opts.gpus[selected].(toDraw := AddDraw(j, opts.gpus[selected].toDraw))]);
      opts := opts.(gpus := opts.gpus[selected := opts.gpus[selected].(toDraw := AddDraw(PLOT_INFORMATION_COUNT, opts.gpus[selected].toDraw))]);
    }

    /** ShownInfo */
    method TakeDraw(value: string)
      requires selected < |opts.gpus|
      modifies this`opts
      ensures opts == WithDraws(old(opts), selected, ShowDraws(old(opts).gpus[selected].toDraw, value, |DRAW_NAMES|))
    {
      hide AddDraw, ShowDraws, WithDraws;
      ghost var draws := opts.gpus[selected].toDraw;
      DrawsStart(opts, selected, value);
      for j := 0 to |DRAW_NAMES|
        invariant |opts.gpus| == |old(opts).gpus| && opts == WithDraws(old(opts), selected, ShowDraws(draws, value, j))
      {
        DrawsStep(draws, value, j);
        if value == DRAW_NAMES[j] {
          DrawsTwice(old(opts), selected, ShowDraws(draws, value, j), ShowDraws(draws, value, j + 1));
          AddShown(j);
        }
        DrawsCount(old(opts), selected, ShowDraws(draws, value, j + 1));
      }
    }

    /** Whether the selected device is monitored */
    method TakeMonitor(value: string)
      requires selected < |opts.gpus|
      modifies this`opts
      ensures var g := old(opts).gpus[selected];
              opts == old(opts).(gpus := old(opts).gpus[selected := g.(doNotMonitor := !Flag(!g.doNotMonitor, value))])
    {
      if value == "true" {
        opts := opts.(gpus := opts.gpus[selected := opts.gpus[selected].(doNotMonitor := false)]);
      }
      if value == "false" {
        opts := opts.(gpus := opts.gpus[selected := opts.gpus[selected].(doNotMonitor := true)]);
      }
      assert opts.gpus == old(opts).gpus[selected := opts.gpus[selected]];
    }

    /** A device's section */
    method HandleDevice(name: string, value: string)
      modifies this`opts, this`selected
      ensures IniData(opts, selected) == Device(IniData(old(opts), old(selected)), name, value)
    {
      hide ShowDraws, FindPdev;
      if name == "Pdev" {
        SelectDevice(value);
      }
      if selected < |opts.gpus| {
        if name == "ShownInfo" {
          TakeDraw(value);
        }
        if name == "Monitor" {
          TakeMonitor(value);
        }
      }
    }

    /** nvtop_option_ini_handler */
    method Handle(section: string, name: string, value: string) returns (ok: bool)
      requires |opts.plotColors| == |COLOR_KEYS|
      modifies this`opts, this`selected
      ensures (IniData(opts, selected), ok) == OptionHandler(codec)(IniData(old(opts), old(selected)), section, name, value)
    {
      hide General, HeaderOption, Chart, ProcessList, Device;
      if section == "GeneralOption" {
        HandleGeneral(name, value);
      }
      if section == "HeaderOption" {
        HandleHeader(name, value);
      }
      if section == "ChartOption" {
        HandleChart(name, value);
      }
      if section == "ProcessListOption" {
        HandleProcess(name, value);
      }
      if section == "Device" {
        HandleDevice(name, value);
      }
      ok := true;
    }

    /** One line per chosen member of a set, in the order of the names, or "none" */
    method SaveSet(out: OptionFile, key: string, names: seq<string>, chosen: set<nat>)
      requires out.Valid() && names != []
      modifies out
      ensures out.Valid() && out.items == old(out.items) + SetItems(key, names, chosen)
    {
      var any := false;
      ghost var before := out.items;
      for i := 0 to |names| - 1
        invariant out.Valid() && out.items == before + MemberItems(key, names, chosen, i)
        invariant any <==> MemberItems(key, names, chosen, i) != []
      {
        if i in chosen {
          out.Put(Pair(key, names[i]));
          any := true;
        }
      }
      if !any {
        out.Put(Pair(key, names[|names| - 1]));
      }
    }

    method SaveGeneral(out: OptionFile)
      requires out.Valid()
      modifies out
      ensures out.Valid() && out.items == old(out.items) + NOTICE + GeneralItems(opts)
    {
      hide BooleanString, IntText, Concat;
      for i := 0 to |NOTICE|
        invariant out.Valid() && out.items == old(out.items) + NOTICE[..i]
      {
        out.Put(NOTICE[i]);
      }
      out.Put(Header("GeneralOption"));
      out.Put(Pair("UseColor", BooleanString(opts.useColor)));
      out.Put(Pair("UpdateInterval", IntText(opts.updateInterval)));
      out.Put(Pair("ShowInfoMessages", BooleanString(opts.showMessages)));
    }

    method SaveHeader(out: OptionFile)
      requires out.Valid()
      modifies out
      ensures out.Valid() && out.items == old(out.items) + HeaderItems(codec, opts)
    {
      out.Put(Blank);
      out.Put(Header("HeaderOption"));
      out.Put(Pair("UseFahrenheit", BooleanString(opts.fahrenheit)));
      out.Put(Pair("EncodeHideTimer", codec.text(opts.timer)));
      out.Put(Pair("GPUInfoBar", BooleanString(opts.gpuInfoBar)));
    }

    method SaveChart(out: OptionFile)
      requires out.Valid() && Printable(opts)
      modifies out
      ensures out.Valid() && out.items == old(out.items) + ChartItems(opts)
    {
      hide BooleanString;
      out.Put(Blank);
      out.Put(Header("ChartOption"));
      out.Put(Pair("ReverseChart", BooleanString(opts.leftToRight)));
      ghost var first := [Blank] + [Header("ChartOption")] + [Pair("ReverseChart", BooleanString(opts.leftToRight))];
      assert out.items == old(out.items) + first;
      SaveColors(out);
      Assoc(old(out.items), first, ColorItems(opts.plotColors, |opts.plotColors|));
    }

    method SaveColors(out: OptionFile)
      requires out.Valid() && Printable(opts)
      modifies out
      ensures out.Valid() && out.items == old(out.items) + ColorItems(opts.plotColors, |opts.plotColors|)
    {
      for s := 0 to |opts.plotColors|
        invariant out.Valid() && out.items == old(out.items) + ColorItems(opts.plotColors, s)
      {
        out.Put(Pair(COLOR_KEYS[s], PLOT_COLORS[opts.plotColors[s]]));
        Assoc(old(out.items), ColorItems(opts.plotColors, s), [Pair(COLOR_KEYS[s], PLOT_COLORS[opts.plotColors[s]])]);
      }
    }

    method SaveProcessFlags(out: OptionFile)
      requires out.Valid()
      modifies out
      ensures out.Valid() && out.items == old(out.items) + ProcessFlagItems(opts)
    {
      hide BooleanString;
      out.Put(Blank);
      out.Put(Header("ProcessListOption"));
      out.Put(Pair("HideNvtopProcessList", BooleanString(opts.hideProcesses)));
      out.Put(Pair("HideNvtopProcess", BooleanString(opts.filterNvtop)));
    }

    method SaveProcess(out: OptionFile)
      requires out.Valid() && Printable(opts)
      modifies out
      ensures out.Valid() && out.items == old(out.items) + ProcessItems(opts)
    {
      hide BooleanString, SetItems;
      ghost var flags := ProcessFlagItems(opts);
      ghost var order, sort := Pair("SortOrder", if opts.sortDescending then "descending" else "ascending"), Pair("SortBy", SORT_NAMES[opts.sortBy]);
      assert ProcessItems(opts) == flags + [order] + [sort] + SetItems("DisplayField", SORT_NAMES, opts.fields);
      hide ProcessFlagItems, ProcessItems;
      SaveProcessFlags(out);
      out.Put(Pair("SortOrder", if opts.sortDescending then "descending" else "ascending"));
      Assoc(old(out.items), flags, [order]);
      out.Put(Pair("SortBy", SORT_NAMES[opts.sortBy]));
      Assoc(old(out.items), flags + [order], [sort]);
      SaveSet(out, "DisplayField", SORT_NAMES, opts.fields);
      Assoc(old(out.items), flags + [order] + [sort], SetItems("DisplayField", SORT_NAMES, opts.fields));
    }

    method SaveDevice(out: OptionFile, g: GpuOptions)
      requires out.Valid()
      modifies out
      ensures out.Valid() && out.items == old(out.items) + DeviceItems(g)
    {
      hide BooleanString, SetItems;
      out.Put(Blank);
      out.Put(Header("Device"));
      out.Put(Pair("Pdev", g.pdev));
      out.Put(Pair("Monitor", BooleanString(!g.doNotMonitor)));
      ghost var first := [Blank] + [Header("Device")] + [Pair("Pdev", g.pdev)] + [Pair("Monitor", BooleanString(!g.doNotMonitor))];
      assert out.items == old(out.items) + first;
      SaveSet(out, "ShownInfo", DRAW_NAMES, g.toDraw);
      Assoc(old(out.items), first, SetItems("ShownInfo", DRAW_NAMES, g.toDraw));
      out.Put(Blank);
      Assoc(old(out.items), first + SetItems("ShownInfo", DRAW_NAMES, g.toDraw), [Blank]);
    }

    /** save_interface_options_to_config_file */
    method Save(out: OptionFile)
      requires out.Valid() && out.items == [] && Printable(opts)
      modifies out
      ensures out.Valid() && out.items == SaveItems(codec, opts) && out.contents == Print(SaveItems(codec, opts))
    {
      hide GeneralItems, HeaderItems, ChartItems, ProcessItems, DeviceItems, Print, Concat;
      SaveGeneral(out);
      SaveHeader(out);
      SaveChart(out);
      SaveProcess(out);
      ghost var before := out.items;
      assert before == NOTICE + GeneralItems(opts) + HeaderItems(codec, opts) + ChartItems(opts) + ProcessItems(opts);
      for i := 0 to |opts.gpus|
        invariant out.Valid() && out.items == before + AllDeviceItems(opts.gpus, i)
      {
        SaveDevice(out, opts.gpus[i]);
        assert before + AllDeviceItems(opts.gpus, i) + DeviceItems(opts.gpus[i]) == before + AllDeviceItems(opts.gpus, i + 1);
      }
    }

    /** load_interface_options_from_config_file on a file that could be opened */
    method Load(text: string) returns (ok: bool)
      requires forall k :: 0 <= k < |text| ==> text[k] != '\0'
      modifies this`opts
      ensures ok && opts == Loaded(codec, old(opts), text)
    {
      hide ParseString, DefaultSort;
      var stream := new StringContext(text);
      var parser := new Parser<IniData<T>>(OptionHandler(codec), IniData(opts, |opts.gpus|));
      var retval := parser.ParseStream(stream);
      opts := parser.user.options;
      if opts.sortBy !in opts.fields {
        opts := opts.(sortBy := DefaultSort(opts.fields));
      }
      ok := retval >= 0;
    }

    /** What nvtop does with the charts of the loaded devices before it starts. */
    method FinishGpus()
      modifies this`opts
      ensures opts == old(opts).(gpus := StartedGpus(old(opts).gpus, |old(opts).gpus|))
    {
      hide StartUpDraw, StartedGpus;
      StartedNone(opts);
      for i := 0 to |opts.gpus|
        invariant |opts.gpus| == |old(opts).gpus| && opts == old(opts).(gpus := StartedGpus(old(opts).gpus, i))
      {
        StartedStep(old(opts).gpus, i);
        StartUpDrawIs(opts.gpus[i]);
        var g := opts.gpus[i];
        if PLOT_INFORMATION_COUNT !in g.toDraw {
          g := g.(toDraw := DEFAULT_DRAW);
        } else {
          g := g.(toDraw := g.toDraw - {PLOT_INFORMATION_COUNT});
        }
        opts := opts.(gpus := opts.gpus[i := g]);
      }
    }

    /** Start-up after loading, devices and columns. */
    method FinishStartUp()
      modifies this`opts
      ensures opts == StartUp(old(opts))
    {
      hide StartedGpus, StartUp;
      FinishGpus();
      StartedAll(old(opts));
      if PROCESS_FIELD_COUNT !in opts.fields {
        opts := opts.(fields := DEFAULT_FIELDS);
      } else {
        opts := opts.(fields := opts.fields - {PROCESS_FIELD_COUNT});
      }
    }
  }

  lemma ColorStart<T>(o: Options<T>, s: nat, names: seq<string>, value: string)
    ensures WithColor(o, s, names, value, 0) == o
  {
  }

  lemma ColorStep<T>(o: Options<T>, s: nat, names: seq<string>, value: string, i: nat)
    requires s < |o.plotColors| && i < |names|
    ensures var r := WithColor(o, s, names, value, i);
            && |r.plotColors| == |o.plotColors|
            && WithColor(o, s, names, value, i + 1) == if value == names[i] then r.(plotColors := r.plotColors[s := i]) else r
  {
    hide LastMatch, PutColor;
    LastMatchStep(names, value, i);
    var r := WithColor(o, s, names, value, i);
    if LastMatch(names, value, i).Some? { PutColorTwice(o, s, LastMatch(names, value, i).value, i); }
    PutColorTwice(r, s, i, i);
  }

  /** The colours after the first n keys. */
  function WithColors<T>(o: Options<T>, name: string, value: string, n: nat): Options<T>
    requires n <= |COLOR_KEYS|
  {
    match LastMatch(COLOR_KEYS, name, n)
    case Some(s) => WithColor(o, s, PLOT_COLORS, value, |PLOT_COLORS|)
    case None => o
  }

  lemma ChartIs<T>(o: Options<T>, name: string, value: string)
    ensures Chart(o, name, value) ==
            WithColors(if name == "ReverseChart" then o.(leftToRight := Flag(o.leftToRight, value)) else o, name, value, |COLOR_KEYS|)
  {
    hide LastMatch;
    ColorsDistinct();
    if LastMatch(COLOR_KEYS, name, |COLOR_KEYS|).Some? { LastMatchNames(COLOR_KEYS, name, |COLOR_KEYS|); }
  }

  /** The devices once the first n have been through start-up. */
  function StartedGpus(gpus: seq<GpuOptions>, n: nat): seq<GpuOptions> {
    seq(|gpus|, i requires 0 <= i < |gpus| => if i < n then StartUpDraw(gpus[i]) else gpus[i])
  }

  lemma StartedNone<T>(o: Options<T>)
    ensures o == o.(gpus := StartedGpus(o.gpus, 0))
  {
  }

  lemma StartedStep(gpus: seq<GpuOptions>, n: nat)
    requires n < |gpus|
    ensures |StartedGpus(gpus, n)| == |StartedGpus(gpus, n + 1)| == |gpus| && StartedGpus(gpus, n)[n] == gpus[n]
    ensures StartedGpus(gpus, n)[n := StartUpDraw(gpus[n])] == StartedGpus(gpus, n + 1)
  {
  }

  lemma StartedAll<T>(o: Options<T>)
    ensures StartUp(o) == o.(gpus := StartedGpus(o.gpus, |o.gpus|),
                             fields := if PROCESS_FIELD_COUNT in o.fields then o.fields - {PROCESS_FIELD_COUNT} else DEFAULT_FIELDS)
  {
  }

  lemma StartUpDrawIs(g: GpuOptions)
    ensures StartUpDraw(g) ==
            if PLOT_INFORMATION_COUNT in g.toDraw then g.(toDraw := g.toDraw - {PLOT_INFORMATION_COUNT}) else g.(toDraw := DEFAULT_DRAW)
  {
  }

  function WithDraws<T>(o: Options<T>, k: nat, draws: set<nat>): Options<T>
    requires k < |o.gpus|
  {
    o.(gpus := o.gpus[k := o.gpus[k].(toDraw := draws)])
  }

  lemma DrawsStart<T>(o: Options<T>, k: nat, value: string)
    requires k < |o.gpus|
    ensures WithDraws(o, k, ShowDraws(o.gpus[k].toDraw, value, 0)) == o
  {
  }

  lemma DrawsStep(s: set<nat>, value: string, j: nat)
    requires j < |DRAW_NAMES|
    ensures ShowDraws(s, value, j + 1) ==
            if value == DRAW_NAMES[j] then AddDraw(PLOT_INFORMATION_COUNT, AddDraw(j, ShowDraws(s, value, j))) else ShowDraws(s, value, j)
  {
  }

  lemma DrawsCount<T>(o: Options<T>, k: nat, draws: set<nat>)
    requires k < |o.gpus|
    ensures |WithDraws(o, k, draws).gpus| == |o.gpus|
  {
  }

  lemma DrawsTwice<T>(o: Options<T>, k: nat, draws: set<nat>, draws2: set<nat>)
    requires k < |o.gpus|
    ensures var r := WithDraws(o, k, draws);
            |r.gpus| == |o.gpus| && r.gpus[k].toDraw == draws && WithDraws(r, k, draws2) == WithDraws(o, k, draws2)
  {
  }

  /** The colour of line s after the first n names. */
  function WithColor<T>(o: Options<T>, s: nat, names: seq<string>, value: string, n: nat): Options<T>
    requires n <= |names|
  {
    match LastMatch(names, value, n)
    case Some(i) => PutColor(o, s, i)
    case None => o
  }

  function PutColor<T>(o: Options<T>, s: nat, i: nat): Options<T> {
    if s < |o.plotColors| then o.(plotColors := o.plotColors[s := i]) else o
  }

  lemma PutColorTwice<T>(o: Options<T>, s: nat, i: nat, j: nat)
    ensures PutColor(PutColor(o, s, i), s, j) == PutColor(o, s, j)
    ensures |PutColor(o, s, i).plotColors| == |o.plotColors|
    ensures s < |o.plotColors| ==> PutColor(o, s, i) == o.(plotColors := o.plotColors[s := i])
  {
  }

  lemma LastMatchStep(names: seq<string>, value: string, n: nat)
    requires n < |names|
    ensures LastMatch(names, value, n + 1) == if names[n] == value then Some(n) else LastMatch(names, value, n)
  {
  }

  lemma LastMatchStart(names: seq<string>, value: string)
    ensures LastMatch(names, value, 0) == None
  {
  }

  lemma {:induction false} LastMatchNames(names: seq<string>, value: string, n: nat)
    requires n <= |names| && LastMatch(names, value, n).Some?
    ensures var i := LastMatch(names, value, n).value; i < n && names[i] == value
  {
    if names[n - 1] != value { LastMatchNames(names, value, n - 1); }
  }
}
