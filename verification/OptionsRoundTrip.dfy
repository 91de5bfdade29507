/** Saving the options and loading the file into fresh ones restores them. */
module OptionsRoundTrip {
  import opened Shared
  import opened Ini
  import opened IniPrint
  import opened Options

  // ----- Single names -----

  lemma FlagReads(was: bool, b: bool)
    ensures Flag(was, BooleanString(b)) == b
  {
  }

  lemma GeneralHandled<T>(c: Codec<T>, d: IniData<T>, name: string, value: string)
    ensures Handled(c, d, "GeneralOption", name, value) == d.(options := General(d.options, name, value))
  {
  }

  lemma HeaderHandled<T>(c: Codec<T>, d: IniData<T>, name: string, value: string)
    ensures Handled(c, d, "HeaderOption", name, value) == d.(options := HeaderOption(c, d.options, name, value))
  {
  }

  lemma ChartHandled<T>(c: Codec<T>, d: IniData<T>, name: string, value: string)
    ensures Handled(c, d, "ChartOption", name, value) == d.(options := Chart(d.options, name, value))
  {
  }

  lemma ProcessHandled<T>(c: Codec<T>, d: IniData<T>, name: string, value: string)
    ensures Handled(c, d, "ProcessListOption", name, value) == d.(options := ProcessList(d.options, name, value))
  {
  }

  lemma DeviceHandled<T>(c: Codec<T>, d: IniData<T>, name: string, value: string)
    ensures Handled(c, d, "Device", name, value) == Device(d, name, value)
  {
  }

  lemma GeneralNames<T>(o: Options<T>, value: string)
    ensures General(o, "UseColor", value) == o.(useColor := Flag(o.useColor, value))
    ensures ScanInt(value).Some? ==> General(o, "UpdateInterval", value) == o.(updateInterval := ScanInt(value).value)
    ensures General(o, "ShowInfoMessages", value) == o.(showMessages := Flag(o.showMessages, value))
  {
    hide Flag, ScanInt;
  }

  lemma HeaderNames<T>(c: Codec<T>, o: Options<T>, value: string)
    ensures HeaderOption(c, o, "UseFahrenheit", value) == o.(fahrenheit := Flag(o.fahrenheit, value))
    ensures HeaderOption(c, o, "EncodeHideTimer", value) == o.(timer := if c.scan(value).Some? then c.scan(value).value else o.timer)
    ensures HeaderOption(c, o, "GPUInfoBar", value) == o.(gpuInfoBar := Flag(o.gpuInfoBar, value))
  {
  }

  lemma ProcessNames<T>(o: Options<T>, value: string)
    ensures ProcessList(o, "HideNvtopProcessList", value) == o.(hideProcesses := Flag(o.hideProcesses, value))
    ensures ProcessList(o, "HideNvtopProcess", value) == o.(filterNvtop := Flag(o.filterNvtop, value))
    ensures ProcessList(o, "SortBy", value) ==
            match LastMatch(SORT_NAMES, value, PROCESS_FIELD_COUNT) { case Some(i) => o.(sortBy := i) case None => o }
    ensures ProcessList(o, "DisplayField", value) == o.(fields := DisplayFields(o.fields, value, |SORT_NAMES|))
  {
    hide Flag, LastMatch, DisplayFields;
  }

  lemma SortOrderReads<T>(o: Options<T>, b: bool)
    ensures ProcessList(o, "SortOrder", if b then "descending" else "ascending") == o.(sortDescending := b)
  {
  }

  // ----- The tables of names -----

  ghost predicate NamesDistinct(names: seq<string>) { forall i, j :: 0 <= i < j < |names| ==> names[i] != names[j] }

  lemma SortNamesDistinct()
    ensures NamesDistinct(SORT_NAMES)
  {
  }

  lemma DrawNamesDistinct()
    ensures NamesDistinct(DRAW_NAMES)
  {
  }

  lemma ColorsDistinct()
    ensures NamesDistinct(PLOT_COLORS) && NamesDistinct(COLOR_KEYS) && forall i :: 0 <= i < |COLOR_KEYS| ==> COLOR_KEYS[i] != "ReverseChart"
  {
  }

  lemma {:induction false} LastMatchIs(names: seq<string>, i: nat, n: nat)
    requires NamesDistinct(names) && i < |names| && n <= |names|
    ensures LastMatch(names, names[i], n) == if i < n then Some(i) else None
  {
    if n > 0 && i != n - 1 { LastMatchIs(names, i, n - 1); }
  }

  // ----- Groups of lines -----

  /** Reading `items` under any section leads from d to d2, under section2. */
  ghost predicate Reads<T>(c: Codec<T>, d: IniData<T>, items: seq<Item>, d2: IniData<T>, section2: string) {
    forall section :: Meaning(d, OptionHandler(c), section, items) == (d2, section2, true)
  }

  lemma ReadsHeader<T>(c: Codec<T>, d: IniData<T>, section: string)
    ensures Reads(c, d, [Header(section)], d, section)
    ensures Reads(c, d, [Blank] + [Header(section)], d, section)
  {
    forall s ensures Meaning(d, OptionHandler(c), s, [Header(section)]) == (d, section, true) {
      MeaningOne(d, OptionHandler(c), s, Header(section));
    }
    forall s ensures Meaning(d, OptionHandler(c), s, [Blank] + [Header(section)]) == (d, section, true) {
      MeaningOne(d, OptionHandler(c), s, Blank);
      MeaningConcat(d, OptionHandler(c), s, [Blank], [Header(section)]);
    }
  }

  lemma ReadsConcat<T>(c: Codec<T>, d: IniData<T>, a: seq<Item>, d2: IniData<T>, section2: string, b: seq<Item>, d3: IniData<T>, section3: string)
    requires Reads(c, d, a, d2, section2) && Meaning(d2, OptionHandler(c), section2, b) == (d3, section3, true)
    ensures Reads(c, d, a + b, d3, section3)
  {
    hide Meaning;
    forall s ensures Meaning(d, OptionHandler(c), s, a + b) == (d3, section3, true) {
      MeaningConcat(d, OptionHandler(c), s, a, b);
    }
  }

  lemma ReadsPair<T>(c: Codec<T>, d: IniData<T>, items: seq<Item>, d2: IniData<T>, section: string, name: string, value: string)
    requires Reads(c, d, items, d2, section)
    ensures Reads(c, d, items + [Pair(name, value)], Handled(c, d2, section, name, value), section)
  {
    hide Meaning, Handled, Reads;
    var d3 := Handled(c, d2, section, name, value);
    MeaningOne(d2, OptionHandler(c), section, Pair(name, value));
    ReadsConcat(c, d, items, d2, section, [Pair(name, value)], d3, section);
  }

  lemma GeneralReads<T>(c: Codec<T>, d: IniData<T>, o: Options<T>)
    ensures Reads(c, d, GeneralItems(o),
                  d.(options := d.options.(useColor := o.useColor, updateInterval := o.updateInterval, showMessages := o.showMessages)),
                  "GeneralOption")
  {
    hide Reads, General, Handled, Flag, ScanInt, BooleanString, IntText;
    var i1 := [Header("GeneralOption")];
    ReadsHeader(c, d, "GeneralOption");
    var v2, v3, v4 := BooleanString(o.useColor), IntText(o.updateInterval), BooleanString(o.showMessages);
    var i2 := i1 + [Pair("UseColor", v2)];
    var i3 := i2 + [Pair("UpdateInterval", v3)];
    ReadsPair(c, d, i1, d, "GeneralOption", "UseColor", v2);
    GeneralHandled(c, d, "UseColor", v2);
    GeneralNames(d.options, v2);
    FlagReads(d.options.useColor, o.useColor);
    var d2 := d.(options := d.options.(useColor := o.useColor));
    ReadsPair(c, d, i2, d2, "GeneralOption", "UpdateInterval", v3);
    GeneralHandled(c, d2, "UpdateInterval", v3);
    IntTextScans(o.updateInterval);
    GeneralNames(d2.options, v3);
    var d3 := d2.(options := d2.options.(updateInterval := o.updateInterval));
    ReadsPair(c, d, i3, d3, "GeneralOption", "ShowInfoMessages", v4);
    GeneralHandled(c, d3, "ShowInfoMessages", v4);
    GeneralNames(d3.options, v4);
    FlagReads(d3.options.showMessages, o.showMessages);
  }

  function Rescanned<T>(c: Codec<T>, printed: T, was: T): T {
    if c.scan(c.text(printed)).Some? then c.scan(c.text(printed)).value else was
  }

  lemma HeaderReads<T>(c: Codec<T>, d: IniData<T>, o: Options<T>)
    ensures Reads(c, d, HeaderItems(c, o),
                  d.(options := d.options.(fahrenheit := o.fahrenheit, timer := Rescanned(c, o.timer, d.options.timer), gpuInfoBar := o.gpuInfoBar)),
                  "HeaderOption")
  {
    hide Reads, HeaderOption, Handled, Flag, BooleanString;
    var i1 := [Blank] + [Header("HeaderOption")];
    ReadsHeader(c, d, "HeaderOption");
    var v2, v3, v4 := BooleanString(o.fahrenheit), c.text(o.timer), BooleanString(o.gpuInfoBar);
    var i2 := i1 + [Pair("UseFahrenheit", v2)];
    var i3 := i2 + [Pair("EncodeHideTimer", v3)];
    ReadsPair(c, d, i1, d, "HeaderOption", "UseFahrenheit", v2);
    HeaderHandled(c, d, "UseFahrenheit", v2);
    HeaderNames(c, d.options, v2);
    FlagReads(d.options.fahrenheit, o.fahrenheit);
    var d2 := d.(options := d.options.(fahrenheit := o.fahrenheit));
    ReadsPair(c, d, i2, d2, "HeaderOption", "EncodeHideTimer", v3);
    HeaderHandled(c, d2, "EncodeHideTimer", v3);
    HeaderNames(c, d2.options, v3);
    var d3 := d2.(options := d2.options.(timer := Rescanned(c, o.timer, d2.options.timer)));
    ReadsPair(c, d, i3, d3, "HeaderOption", "GPUInfoBar", v4);
    HeaderHandled(c, d3, "GPUInfoBar", v4);
    HeaderNames(c, d3.options, v4);
    FlagReads(d3.options.gpuInfoBar, o.gpuInfoBar);
  }

  lemma ChartReverse<T>(o: Options<T>, value: string)
    ensures Chart(o, "ReverseChart", value) == o.(leftToRight := Flag(o.leftToRight, value))
  {
  }

  lemma ChartColor<T>(o: Options<T>, s: nat, i: nat)
    requires s < |COLOR_KEYS| == |o.plotColors| && i < |PLOT_COLORS|
    ensures Chart(o, COLOR_KEYS[s], PLOT_COLORS[i]) == o.(plotColors := o.plotColors[s := i])
  {
    ColorsDistinct();
    hide LastMatch;
    LastMatchIs(COLOR_KEYS, s, |COLOR_KEYS|);
    LastMatchIs(PLOT_COLORS, i, |PLOT_COLORS|);
  }

  lemma {:induction false} ColorsRead<T>(c: Codec<T>, d: IniData<T>, items: seq<Item>, d2: IniData<T>, colors: seq<nat>, n: nat)
    requires n <= |colors| == |COLOR_KEYS| == |d2.options.plotColors| && forall s :: 0 <= s < |colors| ==> colors[s] < |PLOT_COLORS|
    requires Reads(c, d, items, d2, "ChartOption")
    ensures Reads(c, d, items + ColorItems(colors, n),
                  d2.(options := d2.options.(plotColors := colors[..n] + d2.options.plotColors[n..])), "ChartOption")
  {
    hide Reads, Chart, Handled;
    if n == 0 {
      assert items + ColorItems(colors, 0) == items;
      assert colors[..0] + d2.options.plotColors[0..] == d2.options.plotColors;
    } else {
      ColorsRead(c, d, items, d2, colors, n - 1);
      var d3 := d2.(options := d2.options.(plotColors := colors[..n - 1] + d2.options.plotColors[n - 1..]));
      var key, value := COLOR_KEYS[n - 1], PLOT_COLORS[colors[n - 1]];
      ReadsPair(c, d, items + ColorItems(colors, n - 1), d3, "ChartOption", key, value);
      ChartHandled(c, d3, key, value);
      ChartColor(d3.options, n - 1, colors[n - 1]);
      assert (colors[..n - 1] + d2.options.plotColors[n - 1..])[n - 1 := colors[n - 1]] == colors[..n] + d2.options.plotColors[n..];
      assert items + ColorItems(colors, n) == items + ColorItems(colors, n - 1) + [Pair(key, value)];
    }
  }

  lemma ChartReads<T>(c: Codec<T>, d: IniData<T>, o: Options<T>)
    requires Printable(o) && |d.options.plotColors| == |COLOR_KEYS|
    ensures Reads(c, d, ChartItems(o), d.(options := d.options.(leftToRight := o.leftToRight, plotColors := o.plotColors)), "ChartOption")
  {
    hide Reads, Chart, Handled, Flag, BooleanString, ColorItems;
    var i1 := [Blank] + [Header("ChartOption")];
    var v2 := BooleanString(o.leftToRight);
    ReadsHeader(c, d, "ChartOption");
    ReadsPair(c, d, i1, d, "ChartOption", "ReverseChart", v2);
    ChartHandled(c, d, "ReverseChart", v2);
    ChartReverse(d.options, v2);
    FlagReads(d.options.leftToRight, o.leftToRight);
    var d2 := d.(options := d.options.(leftToRight := o.leftToRight));
    ColorsRead(c, d, i1 + [Pair("ReverseChart", v2)], d2, o.plotColors, |COLOR_KEYS|);
    assert o.plotColors[..|COLOR_KEYS|] + d2.options.plotColors[|COLOR_KEYS|..] == o.plotColors;
  }

  // ----- Sets of columns and of charts -----

  /** What reading the members of s below n makes of an empty set: those members, and the marker once there is one. */
  function Marked(s: set<nat>, n: nat, marker: nat): set<nat> {
    var shown := set i | i in s && i < n;
    if shown == {} then {} else shown + {marker}
  }

  lemma {:induction false} DisplayOne(fields: set<nat>, i: nat, n: nat)
    requires i < |SORT_NAMES| && n <= |SORT_NAMES| && NamesDistinct(SORT_NAMES)
    ensures DisplayFields(fields, SORT_NAMES[i], n) == if i < n then fields + {i} + {PROCESS_FIELD_COUNT} else fields
  {
    if n > 0 { DisplayOne(fields, i, n - 1); }
  }

  lemma ShowsField<T>(c: Codec<T>, d: IniData<T>, i: nat)
    requires i < |SORT_NAMES|
    ensures Handled(c, d, "ProcessListOption", "DisplayField", SORT_NAMES[i])
         == d.(options := d.options.(fields := d.options.fields + {i} + {PROCESS_FIELD_COUNT}))
  {
    hide Handled, ProcessList, DisplayFields;
    ProcessHandled(c, d, "DisplayField", SORT_NAMES[i]);
    ProcessNames(d.options, SORT_NAMES[i]);
    SortNamesDistinct();
    DisplayOne(d.options.fields, i, |SORT_NAMES|);
  }

  lemma {:induction false} MembersRead<T>(c: Codec<T>, d: IniData<T>, items: seq<Item>, d2: IniData<T>, s: set<nat>, n: nat)
    requires n <= PROCESS_FIELD_COUNT && d2.options.fields == {} && Reads(c, d, items, d2, "ProcessListOption")
    ensures Reads(c, d, items + MemberItems("DisplayField", SORT_NAMES, s, n), d2.(options := d2.options.(fields := Marked(s, n, PROCESS_FIELD_COUNT))), "ProcessListOption")
    ensures MemberItems("DisplayField", SORT_NAMES, s, n) == [] <==> Marked(s, n, PROCESS_FIELD_COUNT) == {}
  {
    hide Reads, Handled;
    if n == 0 {
      assert items + MemberItems("DisplayField", SORT_NAMES, s, 0) == items;
      assert Marked(s, 0, PROCESS_FIELD_COUNT) == {};
    } else {
      MembersRead(c, d, items, d2, s, n - 1);
      var d3 := d2.(options := d2.options.(fields := Marked(s, n - 1, PROCESS_FIELD_COUNT)));
      if n - 1 in s {
        ReadsPair(c, d, items + MemberItems("DisplayField", SORT_NAMES, s, n - 1), d3, "ProcessListOption", "DisplayField", SORT_NAMES[n - 1]);
        ShowsField(c, d3, n - 1);
        assert items + MemberItems("DisplayField", SORT_NAMES, s, n)
            == items + MemberItems("DisplayField", SORT_NAMES, s, n - 1) + [Pair("DisplayField", SORT_NAMES[n - 1])];
        MarkedStep(s, n, PROCESS_FIELD_COUNT);
      } else {
        assert (set i | i in s && i < n) == (set i | i in s && i < n - 1);
        assert MemberItems("DisplayField", SORT_NAMES, s, n) == MemberItems("DisplayField", SORT_NAMES, s, n - 1);
      }
    }
  }

  lemma MarkedStep(s: set<nat>, n: nat, marker: nat)
    requires 0 < n && n - 1 in s
    ensures Marked(s, n, marker) == Marked(s, n - 1, marker) + {n - 1} + {marker}
  {
  }

  lemma MarkedAll(s: set<nat>, n: nat, marker: nat)
    requires forall i :: i in s ==> i < n
    ensures Marked(s, n, marker) == if s == {} then {} else s + {marker}
  {
  }

  /** All columns, or the "none" that stands for no column. */
  lemma FieldsRead<T>(c: Codec<T>, d: IniData<T>, items: seq<Item>, d2: IniData<T>, s: set<nat>)
    requires d2.options.fields == {} && Reads(c, d, items, d2, "ProcessListOption") && forall i :: i in s ==> i < PROCESS_FIELD_COUNT
    ensures Reads(c, d, items + SetItems("DisplayField", SORT_NAMES, s), d2.(options := d2.options.(fields := s + {PROCESS_FIELD_COUNT})), "ProcessListOption")
  {
    hide Reads, Handled, MemberItems;
    MembersRead(c, d, items, d2, s, PROCESS_FIELD_COUNT);
    MarkedAll(s, PROCESS_FIELD_COUNT, PROCESS_FIELD_COUNT);
    if s == {} {
      ReadsPair(c, d, items, d2, "ProcessListOption", "DisplayField", SORT_NAMES[PROCESS_FIELD_COUNT]);
      ShowsField(c, d2, PROCESS_FIELD_COUNT);
    }
  }

  /** The sort column as the loop over the names finds it: "none" is not among them. */
  function SortRead(sortBy: nat, was: nat): nat { if sortBy < PROCESS_FIELD_COUNT then sortBy else was }

  lemma SortByReads<T>(o: Options<T>, i: nat)
    requires i < |SORT_NAMES|
    ensures ProcessList(o, "SortBy", SORT_NAMES[i]) == o.(sortBy := SortRead(i, o.sortBy))
  {
    hide ProcessList, LastMatch;
    ProcessNames(o, SORT_NAMES[i]);
    SortNamesDistinct();
    LastMatchIs(SORT_NAMES, i, PROCESS_FIELD_COUNT);
  }

  /** The lines of the process list's section before the sort column. */
  function ProcessFlagItems<T>(o: Options<T>): seq<Item> {
    [Blank] + [Header("ProcessListOption")]
    + [Pair("HideNvtopProcessList", BooleanString(o.hideProcesses))]
    + [Pair("HideNvtopProcess", BooleanString(o.filterNvtop))]
  }

  lemma ProcessFlagsRead<T>(c: Codec<T>, d: IniData<T>, o: Options<T>)
    ensures Reads(c, d, ProcessFlagItems(o),
                  d.(options := d.options.(hideProcesses := o.hideProcesses, filterNvtop := o.filterNvtop)), "ProcessListOption")
  {
    hide Reads, ProcessList, Handled, Flag, BooleanString;
    var i1 := [Blank] + [Header("ProcessListOption")];
    var v2, v3 := BooleanString(o.hideProcesses), BooleanString(o.filterNvtop);
    var i2 := i1 + [Pair("HideNvtopProcessList", v2)];
    ReadsHeader(c, d, "ProcessListOption");
    ReadsPair(c, d, i1, d, "ProcessListOption", "HideNvtopProcessList", v2);
    ProcessHandled(c, d, "HideNvtopProcessList", v2);
    ProcessNames(d.options, v2);
    FlagReads(d.options.hideProcesses, o.hideProcesses);
    var d2 := d.(options := d.options.(hideProcesses := o.hideProcesses));
    ReadsPair(c, d, i2, d2, "ProcessListOption", "HideNvtopProcess", v3);
    ProcessHandled(c, d2, "HideNvtopProcess", v3);
    ProcessNames(d2.options, v3);
    FlagReads(d2.options.filterNvtop, o.filterNvtop);
  }

  lemma ProcessReads<T>(c: Codec<T>, d: IniData<T>, o: Options<T>)
    requires Printable(o) && d.options.fields == {} && forall i :: i in o.fields ==> i < PROCESS_FIELD_COUNT
    ensures Reads(c, d, ProcessItems(o),
                  d.(options := d.options.(hideProcesses := o.hideProcesses, filterNvtop := o.filterNvtop, sortDescending := o.sortDescending,
                                           sortBy := SortRead(o.sortBy, d.options.sortBy), fields := o.fields + {PROCESS_FIELD_COUNT})),
                  "ProcessListOption")
  {
    hide Reads, ProcessList, Handled, BooleanString, SetItems, SortRead;
    ProcessFlagsRead(c, d, o);
    var d3 := d.(options := d.options.(hideProcesses := o.hideProcesses, filterNvtop := o.filterNvtop));
    var i3, v4, v5 := ProcessFlagItems(o), if o.sortDescending then "descending" else "ascending", SORT_NAMES[o.sortBy];
    ReadsPair(c, d, i3, d3, "ProcessListOption", "SortOrder", v4);
    ProcessHandled(c, d3, "SortOrder", v4);
    SortOrderReads(d3.options, o.sortDescending);
    var d4 := d3.(options := d3.options.(sortDescending := o.sortDescending));
    var i4 := i3 + [Pair("SortOrder", v4)];
    ReadsPair(c, d, i4, d4, "ProcessListOption", "SortBy", v5);
    ProcessHandled(c, d4, "SortBy", v5);
    SortByReads(d4.options, o.sortBy);
    var d5 := d4.(options := d4.options.(sortBy := SortRead(o.sortBy, d4.options.sortBy)));
    FieldsRead(c, d, i4 + [Pair("SortBy", v5)], d5, o.fields);
  }

  // ----- Devices -----

  lemma {:induction false} DrawOne(s: set<nat>, i: nat, n: nat)
    requires i < |DRAW_NAMES| && n <= |DRAW_NAMES| && NamesDistinct(DRAW_NAMES)
    ensures ShowDraws(s, DRAW_NAMES[i], n) == if i < n then AddDraw(PLOT_INFORMATION_COUNT, AddDraw(i, s)) else s
  {
    if n > 0 {
      hide AddDraw;
      DrawOne(s, i, n - 1);
    }
  }

  lemma SubsetCount(s: set<nat>, t: set<nat>)
    requires s < t
    ensures |s| < |t|
  {
    var rest := t - s;
    assert t == s + rest && |rest| > 0;
  }

  /** Adding the next member of a set of at most four never meets the limit of four lines. */
  lemma DrawStep(s: set<nat>, n: nat)
    requires 0 < n <= PLOT_INFORMATION_COUNT && n - 1 in s && |s| <= MAX_LINES_PER_PLOT && forall i :: i in s ==> i < PLOT_INFORMATION_COUNT
    ensures AddDraw(PLOT_INFORMATION_COUNT, AddDraw(n - 1, Marked(s, n - 1, PLOT_INFORMATION_COUNT))) == Marked(s, n, PLOT_INFORMATION_COUNT)
  {
    var before, b := Marked(s, n - 1, PLOT_INFORMATION_COUNT), set i | i in s && i < n - 1;
    var a := set i | i in s && i < n;
    assert (set i | i in before && i < PLOT_INFORMATION_COUNT) == b;
    assert n - 1 !in b && b < s;
    SubsetCount(b, s);
    var next := before + {n - 1};
    assert (set i | i in next && i < PLOT_INFORMATION_COUNT) == b + {n - 1};
    MarkedStep(s, n, PLOT_INFORMATION_COUNT);
    if b == {} {
      assert |b + {n - 1}| == 1;
    }
  }

  /** Device k is selected and has been read as g. */
  function WithDevice<T>(d: IniData<T>, k: nat, g: GpuOptions): IniData<T>
    requires k < |d.options.gpus|
  {
    IniData(d.options.(gpus := d.options.gpus[k := g]), k)
  }

  lemma ShowsDraw<T>(c: Codec<T>, d: IniData<T>, k: nat, g: GpuOptions, i: nat)
    requires i < |DRAW_NAMES| && k < |d.options.gpus|
    ensures Handled(c, WithDevice(d, k, g), "Device", "ShownInfo", DRAW_NAMES[i])
         == WithDevice(d, k, g.(toDraw := AddDraw(PLOT_INFORMATION_COUNT, AddDraw(i, g.toDraw))))
  {
    hide Handled, ShowDraws;
    DeviceHandled(c, WithDevice(d, k, g), "ShownInfo", DRAW_NAMES[i]);
    DrawNamesDistinct();
    DrawOne(g.toDraw, i, |DRAW_NAMES|);
    var gpus := d.options.gpus;
    var g2 := g.(toDraw := AddDraw(PLOT_INFORMATION_COUNT, AddDraw(i, g.toDraw)));
    assert gpus[k := g][k := g2] == gpus[k := g2];
  }

  lemma {:induction false} DrawMembersRead<T>(c: Codec<T>, d: IniData<T>, items: seq<Item>, d2: IniData<T>, k: nat, g: GpuOptions, s: set<nat>, n: nat)
    requires n <= PLOT_INFORMATION_COUNT && k < |d2.options.gpus| && g.toDraw == {} && Reads(c, d, items, WithDevice(d2, k, g), "Device")
    requires |s| <= MAX_LINES_PER_PLOT && forall i :: i in s ==> i < PLOT_INFORMATION_COUNT
    ensures Reads(c, d, items + MemberItems("ShownInfo", DRAW_NAMES, s, n), WithDevice(d2, k, g.(toDraw := Marked(s, n, PLOT_INFORMATION_COUNT))), "Device")
    ensures MemberItems("ShownInfo", DRAW_NAMES, s, n) == [] <==> Marked(s, n, PLOT_INFORMATION_COUNT) == {}
  {
    hide Reads, Handled, WithDevice, AddDraw;
    if n == 0 {
      assert items + MemberItems("ShownInfo", DRAW_NAMES, s, 0) == items;
      assert Marked(s, 0, PLOT_INFORMATION_COUNT) == {};
    } else {
      DrawMembersRead(c, d, items, d2, k, g, s, n - 1);
      if n - 1 in s {
        var g2 := g.(toDraw := Marked(s, n - 1, PLOT_INFORMATION_COUNT));
        ReadsPair(c, d, items + MemberItems("ShownInfo", DRAW_NAMES, s, n - 1), WithDevice(d2, k, g2), "Device", "ShownInfo", DRAW_NAMES[n - 1]);
        ShowsDraw(c, d2, k, g2, n - 1);
        DrawStep(s, n);
        MarkedStep(s, n, PLOT_INFORMATION_COUNT);
        assert items + MemberItems("ShownInfo", DRAW_NAMES, s, n)
            == items + MemberItems("ShownInfo", DRAW_NAMES, s, n - 1) + [Pair("ShownInfo", DRAW_NAMES[n - 1])];
      } else {
        assert (set i | i in s && i < n) == (set i | i in s && i < n - 1);
        assert MemberItems("ShownInfo", DRAW_NAMES, s, n) == MemberItems("ShownInfo", DRAW_NAMES, s, n - 1);
      }
    }
  }

  lemma DrawsRead<T>(c: Codec<T>, d: IniData<T>, items: seq<Item>, d2: IniData<T>, k: nat, g: GpuOptions, s: set<nat>)
    requires k < |d2.options.gpus| && g.toDraw == {} && Reads(c, d, items, WithDevice(d2, k, g), "Device")
    requires |s| <= MAX_LINES_PER_PLOT && forall i :: i in s ==> i < PLOT_INFORMATION_COUNT
    ensures Reads(c, d, items + SetItems("ShownInfo", DRAW_NAMES, s), WithDevice(d2, k, g.(toDraw := s + {PLOT_INFORMATION_COUNT})), "Device")
  {
    hide Reads, Handled, MemberItems, WithDevice;
    DrawMembersRead(c, d, items, d2, k, g, s, PLOT_INFORMATION_COUNT);
    MarkedAll(s, PLOT_INFORMATION_COUNT, PLOT_INFORMATION_COUNT);
    if s == {} {
      ReadsPair(c, d, items, WithDevice(d2, k, g), "Device", "ShownInfo", DRAW_NAMES[PLOT_INFORMATION_COUNT]);
      ShowsDraw(c, d2, k, g, PLOT_INFORMATION_COUNT);
      NoneDrawn();
    }
  }

  lemma NoneDrawn()
    ensures AddDraw(PLOT_INFORMATION_COUNT, AddDraw(PLOT_INFORMATION_COUNT, {})) == {PLOT_INFORMATION_COUNT}
  {
  }

  ghost predicate PdevsDistinct(gpus: seq<GpuOptions>) { forall i, j :: 0 <= i < j < |gpus| ==> gpus[i].pdev != gpus[j].pdev }

  lemma {:induction false} FindsDevice(gpus: seq<GpuOptions>, k: nat, i: nat)
    requires i <= k < |gpus| && PdevsDistinct(gpus)
    ensures FindPdev(gpus, gpus[k].pdev, i) == k
    decreases k - i
  {
    if i < k { FindsDevice(gpus, k, i + 1); }
  }

  lemma DeviceNames<T>(d: IniData<T>, value: string, k: nat, g: GpuOptions, b: bool)
    requires k < |d.options.gpus|
    ensures Device(d, "Pdev", value) == d.(selected := FindPdev(d.options.gpus, value, 0))
    ensures Device(WithDevice(d, k, g), "Monitor", BooleanString(!b)) == WithDevice(d, k, g.(doNotMonitor := b))
  {
  }

  /** One device's section restores that device, whatever was selected before. */
  lemma DeviceReads<T>(c: Codec<T>, d: IniData<T>, k: nat, saved: GpuOptions)
    requires k < |d.options.gpus| && PdevsDistinct(d.options.gpus) && d.options.gpus[k].pdev == saved.pdev && d.options.gpus[k].toDraw == {}
    requires |saved.toDraw| <= MAX_LINES_PER_PLOT && forall i :: i in saved.toDraw ==> i < PLOT_INFORMATION_COUNT
    ensures Reads(c, d, DeviceItems(saved), WithDevice(d, k, saved.(toDraw := saved.toDraw + {PLOT_INFORMATION_COUNT})), "Device")
  {
    hide Reads, Handled, Device, SetItems, BooleanString;
    var g, i1 := d.options.gpus[k], [Blank] + [Header("Device")];
    var i2, v3 := i1 + [Pair("Pdev", saved.pdev)], BooleanString(!saved.doNotMonitor);
    var i3 := i2 + [Pair("Monitor", v3)];
    ReadsHeader(c, d, "Device");
    ReadsPair(c, d, i1, d, "Device", "Pdev", saved.pdev);
    DeviceHandled(c, d, "Pdev", saved.pdev);
    DeviceNames(d, saved.pdev, k, g, saved.doNotMonitor);
    FindsDevice(d.options.gpus, k, 0);
    assert WithDevice(d, k, g) == d.(selected := k) by { assert d.options.gpus[k := g] == d.options.gpus; }
    ReadsPair(c, d, i2, WithDevice(d, k, g), "Device", "Monitor", v3);
    DeviceHandled(c, WithDevice(d, k, g), "Monitor", v3);
    var g2 := g.(doNotMonitor := saved.doNotMonitor);
    DrawsRead(c, d, i3, d, k, g2, saved.toDraw);
    var g3 := g2.(toDraw := saved.toDraw + {PLOT_INFORMATION_COUNT});
    ReadsBlank(c, d, i3 + SetItems("ShownInfo", DRAW_NAMES, saved.toDraw), WithDevice(d, k, g3), "Device");
  }

  lemma ReadsBlank<T>(c: Codec<T>, d: IniData<T>, items: seq<Item>, d2: IniData<T>, section: string)
    requires Reads(c, d, items, d2, section)
    ensures Reads(c, d, items + [Blank], d2, section)
  {
    hide Reads, Meaning;
    MeaningOne(d2, OptionHandler(c), section, Blank);
    ReadsConcat(c, d, items, d2, section, [Blank], d2, section);
  }

  function MarkedDevice(g: GpuOptions): GpuOptions { g.(toDraw := g.toDraw + {PLOT_INFORMATION_COUNT}) }

  /** The charts of every device are at most four of those there are. */
  ghost predicate Drawable(gpus: seq<GpuOptions>) {
    forall k :: 0 <= k < |gpus| ==> |gpus[k].toDraw| <= MAX_LINES_PER_PLOT && forall i :: i in gpus[k].toDraw ==> i < PLOT_INFORMATION_COUNT
  }

  /** Devices that each have a bus address of their own, no chart chosen for any of them yet. */
  ghost predicate FreshDevices(gpus: seq<GpuOptions>) {
    PdevsDistinct(gpus) && forall k :: 0 <= k < |gpus| ==> gpus[k].toDraw == {}
  }

  /** A device once the first n sections have been read: as its own section says, marker included, if there was one. */
  function DeviceRead(g: GpuOptions, saved: seq<GpuOptions>, n: nat): (r: GpuOptions)
    requires n <= |saved|
    ensures r.pdev == g.pdev
  {
    if n == 0 then g else if saved[n - 1].pdev == g.pdev then MarkedDevice(saved[n - 1]) else DeviceRead(g, saved, n - 1)
  }

  /** All devices once the first n sections have been read. */
  function DevicesAfter(gpus: seq<GpuOptions>, saved: seq<GpuOptions>, n: nat): (r: seq<GpuOptions>)
    requires n <= |saved|
    ensures |r| == |gpus| && forall k :: 0 <= k < |r| ==> r[k] == DeviceRead(gpus[k], saved, n)
  {
    seq(|gpus|, k requires 0 <= k < |gpus| => DeviceRead(gpus[k], saved, n))
  }

  function SomeRead<T>(d: IniData<T>, saved: seq<GpuOptions>, n: nat, selected: nat): IniData<T>
    requires n <= |saved|
  {
    IniData(d.options.(gpus := DevicesAfter(d.options.gpus, saved, n)), selected)
  }

  lemma {:induction false} UnreadDevice(g: GpuOptions, saved: seq<GpuOptions>, n: nat)
    requires n <= |saved| && forall k :: 0 <= k < n ==> saved[k].pdev != g.pdev
    ensures DeviceRead(g, saved, n) == g
  {
    if n > 0 { UnreadDevice(g, saved, n - 1); }
  }

  lemma {:induction false} ReadDevice(g: GpuOptions, saved: seq<GpuOptions>, n: nat, k: nat)
    requires k < n <= |saved| && PdevsDistinct(saved) && saved[k].pdev == g.pdev
    ensures DeviceRead(g, saved, n) == MarkedDevice(saved[k])
  {
    if k < n - 1 { ReadDevice(g, saved, n - 1, k); }
  }

  lemma DevicesStayDistinct(gpus: seq<GpuOptions>, saved: seq<GpuOptions>, n: nat)
    requires n <= |saved| && PdevsDistinct(gpus)
    ensures PdevsDistinct(DevicesAfter(gpus, saved, n))
  {
    hide DeviceRead;
  }

  /** The next section is that of device k: the device has not been read before, and now it has. */
  lemma NextFound(gpus: seq<GpuOptions>, saved: seq<GpuOptions>, n: nat, k: nat)
    requires n < |saved| && k < |gpus| && FreshDevices(gpus) && PdevsDistinct(saved) && gpus[k].pdev == saved[n].pdev
    ensures var before := DevicesAfter(gpus, saved, n);
            before[k].pdev == saved[n].pdev && before[k].toDraw == {} && before[k := MarkedDevice(saved[n])] == DevicesAfter(gpus, saved, n + 1)
  {
    UnreadDevice(gpus[k], saved, n);
    hide MarkedDevice;
    var before, after := DevicesAfter(gpus, saved, n)[k := MarkedDevice(saved[n])], DevicesAfter(gpus, saved, n + 1);
    forall j | 0 <= j < |gpus| ensures before[j] == after[j] {
      assert j != k ==> gpus[j].pdev != gpus[k].pdev;
    }
  }

  /** The next section is that of a device which is not there: nothing changes. */
  lemma NextMissing(gpus: seq<GpuOptions>, saved: seq<GpuOptions>, n: nat)
    requires n < |saved| && forall k :: 0 <= k < |gpus| ==> gpus[k].pdev != saved[n].pdev
    ensures DevicesAfter(gpus, saved, n + 1) == DevicesAfter(gpus, saved, n)
  {
    hide MarkedDevice;
  }

  /** No device on that bus address: the search runs off the end. */
  lemma {:induction false} FindsNone(gpus: seq<GpuOptions>, pdev: string, i: nat)
    requires i <= |gpus| && forall k :: i <= k < |gpus| ==> gpus[k].pdev != pdev
    ensures FindPdev(gpus, pdev, i) == |gpus|
    decreases |gpus| - i
  {
    if i < |gpus| { FindsNone(gpus, pdev, i + 1); }
  }

  /** With no device selected, nothing but a bus address changes anything. */
  lemma NoneSelected<T>(d: IniData<T>, name: string, value: string)
    requires d.selected == |d.options.gpus| && name != "Pdev"
    ensures Device(d, name, value) == d
  {
  }

  lemma {:induction false} UnselectedMembersRead<T>(c: Codec<T>, d: IniData<T>, items: seq<Item>, d2: IniData<T>, s: set<nat>, n: nat)
    requires n <= |DRAW_NAMES| && d2.selected == |d2.options.gpus| && Reads(c, d, items, d2, "Device")
    ensures Reads(c, d, items + MemberItems("ShownInfo", DRAW_NAMES, s, n), d2, "Device")
  {
    hide Reads, Handled, Device;
    if n == 0 {
      assert items + MemberItems("ShownInfo", DRAW_NAMES, s, 0) == items;
    } else {
      UnselectedMembersRead(c, d, items, d2, s, n - 1);
      if n - 1 in s {
        ReadsPair(c, d, items + MemberItems("ShownInfo", DRAW_NAMES, s, n - 1), d2, "Device", "ShownInfo", DRAW_NAMES[n - 1]);
        DeviceHandled(c, d2, "ShownInfo", DRAW_NAMES[n - 1]);
        NoneSelected(d2, "ShownInfo", DRAW_NAMES[n - 1]);
        assert items + MemberItems("ShownInfo", DRAW_NAMES, s, n)
            == items + MemberItems("ShownInfo", DRAW_NAMES, s, n - 1) + [Pair("ShownInfo", DRAW_NAMES[n - 1])];
      } else {
        assert MemberItems("ShownInfo", DRAW_NAMES, s, n) == MemberItems("ShownInfo", DRAW_NAMES, s, n - 1);
      }
    }
  }

  lemma UnselectedDrawsRead<T>(c: Codec<T>, d: IniData<T>, items: seq<Item>, d2: IniData<T>, s: set<nat>)
    requires d2.selected == |d2.options.gpus| && Reads(c, d, items, d2, "Device")
    ensures Reads(c, d, items + SetItems("ShownInfo", DRAW_NAMES, s), d2, "Device")
  {
    hide Reads, Handled, Device, MemberItems;
    UnselectedMembersRead(c, d, items, d2, s, PLOT_INFORMATION_COUNT);
    ReadsPair(c, d, items, d2, "Device", "ShownInfo", DRAW_NAMES[PLOT_INFORMATION_COUNT]);
    DeviceHandled(c, d2, "ShownInfo", DRAW_NAMES[PLOT_INFORMATION_COUNT]);
    NoneSelected(d2, "ShownInfo", DRAW_NAMES[PLOT_INFORMATION_COUNT]);
  }

  /** The section of a device that is not there changes nothing but the selection. */
  lemma MissingDeviceReads<T>(c: Codec<T>, d: IniData<T>, saved: GpuOptions)
    requires forall k :: 0 <= k < |d.options.gpus| ==> d.options.gpus[k].pdev != saved.pdev
    ensures Reads(c, d, DeviceItems(saved), d.(selected := |d.options.gpus|), "Device")
  {
    hide Reads, Handled, Device, SetItems, BooleanString;
    var d2, i1 := d.(selected := |d.options.gpus|), [Blank] + [Header("Device")];
    var i2, v3 := i1 + [Pair("Pdev", saved.pdev)], BooleanString(!saved.doNotMonitor);
    ReadsHeader(c, d, "Device");
    ReadsPair(c, d, i1, d, "Device", "Pdev", saved.pdev);
    DeviceHandled(c, d, "Pdev", saved.pdev);
    SelectsPdev(d, saved.pdev);
    FindsNone(d.options.gpus, saved.pdev, 0);
    ReadsPair(c, d, i2, d2, "Device", "Monitor", v3);
    DeviceHandled(c, d2, "Monitor", v3);
    NoneSelected(d2, "Monitor", v3);
    var i3 := i2 + [Pair("Monitor", v3)];
    UnselectedDrawsRead(c, d, i3, d2, saved.toDraw);
    ReadsBlank(c, d, i3 + SetItems("ShownInfo", DRAW_NAMES, saved.toDraw), d2, "Device");
  }

  lemma SelectsPdev<T>(d: IniData<T>, pdev: string)
    ensures Device(d, "Pdev", pdev) == d.(selected := FindPdev(d.options.gpus, pdev, 0))
  {
  }

  /** One more section, whichever device it is of. */
  lemma NextDeviceReads<T>(c: Codec<T>, d: IniData<T>, saved: seq<GpuOptions>, n: nat, selected: nat) returns (selected2: nat)
    requires n < |saved| && FreshDevices(d.options.gpus) && PdevsDistinct(saved) && Drawable(saved)
    ensures Reads(c, SomeRead(d, saved, n, selected), DeviceItems(saved[n]), SomeRead(d, saved, n + 1, selected2), "Device")
  {
    hide Reads, DeviceItems, DeviceRead;
    var d2, gpus := SomeRead(d, saved, n, selected), d.options.gpus;
    DevicesStayDistinct(gpus, saved, n);
    if k: nat :| k < |gpus| && gpus[k].pdev == saved[n].pdev {
      selected2 := k;
      NextFound(gpus, saved, n, k);
      DeviceReads(c, d2, k, saved[n]);
    } else {
      selected2 := |gpus|;
      NextMissing(gpus, saved, n);
      MissingDeviceReads(c, d2, saved[n]);
    }
  }

  lemma {:induction false} DevicesRead<T>(c: Codec<T>, d: IniData<T>, items: seq<Item>, d2: IniData<T>, section: string, saved: seq<GpuOptions>, n: nat)
    returns (selected: nat, section2: string)
    requires n <= |saved| && FreshDevices(d2.options.gpus) && PdevsDistinct(saved) && Drawable(saved)
    requires Reads(c, d, items, d2, section)
    ensures Reads(c, d, items + AllDeviceItems(saved, n), SomeRead(d2, saved, n, selected), section2)
  {
    hide Reads, DeviceItems, WithDevice;
    if n == 0 {
      selected, section2 := d2.selected, section;
      assert items + AllDeviceItems(saved, 0) == items;
      assert DevicesAfter(d2.options.gpus, saved, 0) == d2.options.gpus;
    } else {
      var selected1, section1 := DevicesRead(c, d, items, d2, section, saved, n - 1);
      selected := NextDeviceReads(c, d2, saved, n - 1, selected1);
      section2 := "Device";
      ReadsThen(c, d, items + AllDeviceItems(saved, n - 1), SomeRead(d2, saved, n - 1, selected1), section1,
                DeviceItems(saved[n - 1]), SomeRead(d2, saved, n, selected), "Device");
      assert items + AllDeviceItems(saved, n) == items + AllDeviceItems(saved, n - 1) + DeviceItems(saved[n - 1]);
    }
  }

  lemma ReadsThen<T>(c: Codec<T>, d: IniData<T>, a: seq<Item>, d2: IniData<T>, section2: string, b: seq<Item>, d3: IniData<T>, section3: string)
    requires Reads(c, d, a, d2, section2) && Reads(c, d2, b, d3, section3)
    ensures Reads(c, d, a + b, d3, section3)
  {
    hide Meaning;
    ReadsConcat(c, d, a, d2, section2, b, d3, section3);
  }

  // ----- The whole file -----

  lemma ReadsNotice<T>(c: Codec<T>, d: IniData<T>, items: seq<Item>, d2: IniData<T>, section2: string)
    requires Reads(c, d, items, d2, section2)
    ensures Reads(c, d, NOTICE + items, d2, section2)
  {
    var h := OptionHandler(c);
    forall s ensures Meaning(d, h, s, NOTICE + items) == (d2, section2, true) {
      CommentsRead(d, h, s, NOTICE);
      MeaningConcat(d, h, s, NOTICE, items);
    }
  }

  lemma {:induction false} CommentsRead<S>(user: S, h: Handler<S>, section: string, items: seq<Item>)
    requires forall i :: 0 <= i < |items| ==> items[i].Comment?
    ensures Meaning(user, h, section, items) == (user, section, true)
  {
    if items != [] { CommentsRead(user, h, section, items[1..]); }
  }

  /** Options the interface can be in: names for everything, at most four charts a device, distinct bus addresses. */
  ghost predicate Sensible<T>(o: Options<T>) {
    Printable(o) && PdevsDistinct(o.gpus) && Drawable(o.gpus) && forall i :: i in o.fields ==> i < PROCESS_FIELD_COUNT
  }

  /** Options before a file is loaded, whatever devices there are and in whatever order. */
  ghost predicate Fresh<T>(start: Options<T>) {
    start.fields == {} && |start.plotColors| == |COLOR_KEYS| && FreshDevices(start.gpus)
  }

  /** What reading the saved file makes of fresh options, markers included. */
  function Restored<T>(c: Codec<T>, o: Options<T>, start: Options<T>): Options<T> {
    o.(timer := Rescanned(c, o.timer, start.timer), sortBy := SortRead(o.sortBy, start.sortBy),
       fields := o.fields + {PROCESS_FIELD_COUNT}, gpus := DevicesAfter(start.gpus, o.gpus, |o.gpus|))
  }

  /** The options after the four sections that come before the devices. */
  function BeforeDevices<T>(c: Codec<T>, o: Options<T>, start: Options<T>): Options<T> {
    Restored(c, o, start).(gpus := start.gpus)
  }

  lemma SectionsRead<T>(c: Codec<T>, o: Options<T>, start: Options<T>, selected: nat)
    requires Sensible(o) && Fresh(start)
    ensures Reads(c, IniData(start, selected), NOTICE + GeneralItems(o) + HeaderItems(c, o) + ChartItems(o) + ProcessItems(o),
                  IniData(BeforeDevices(c, o, start), selected), "ProcessListOption")
  {
    hide Reads, GeneralItems, HeaderItems, ChartItems, ProcessItems, DevicesAfter, Rescanned, SortRead;
    var d := IniData(start, selected);
    var d1 := d.(options := d.options.(useColor := o.useColor, updateInterval := o.updateInterval, showMessages := o.showMessages));
    GeneralReads(c, d, o);
    ReadsNotice(c, d, GeneralItems(o), d1, "GeneralOption");
    var d2 := d1.(options := d1.options.(fahrenheit := o.fahrenheit, timer := Rescanned(c, o.timer, start.timer), gpuInfoBar := o.gpuInfoBar));
    HeaderReads(c, d1, o);
    ReadsThen(c, d, NOTICE + GeneralItems(o), d1, "GeneralOption", HeaderItems(c, o), d2, "HeaderOption");
    var d3 := d2.(options := d2.options.(leftToRight := o.leftToRight, plotColors := o.plotColors));
    ChartReads(c, d2, o);
    ReadsThen(c, d, NOTICE + GeneralItems(o) + HeaderItems(c, o), d2, "HeaderOption", ChartItems(o), d3, "ChartOption");
    ProcessReads(c, d3, o);
    ReadsThen(c, d, NOTICE + GeneralItems(o) + HeaderItems(c, o) + ChartItems(o), d3, "ChartOption", ProcessItems(o),
              IniData(BeforeDevices(c, o, start), selected), "ProcessListOption");
  }

  lemma SavedFileReads<T>(c: Codec<T>, o: Options<T>, start: Options<T>, selected0: nat) returns (selected: nat, section: string)
    requires Sensible(o) && Fresh(start)
    ensures Meaning(IniData(start, selected0), OptionHandler(c), "", SaveItems(c, o)) == (IniData(Restored(c, o, start), selected), section, true)
  {
    var before := NOTICE + GeneralItems(o) + HeaderItems(c, o) + ChartItems(o) + ProcessItems(o);
    hide Meaning, GeneralItems, HeaderItems, ChartItems, ProcessItems, AllDeviceItems, Rescanned, SortRead;
    SectionsRead(c, o, start, selected0);
    var d2 := IniData(BeforeDevices(c, o, start), selected0);
    selected, section := DevicesRead(c, IniData(start, selected0), before, d2, "ProcessListOption", o.gpus, |o.gpus|);
    assert SomeRead(d2, o.gpus, |o.gpus|, selected) == IniData(Restored(c, o, start), selected);
  }

  /** The sort column after a save and a load. */
  function SavedSort(sortBy: nat, fields: set<nat>, start: nat): nat {
    var read := SortRead(sortBy, start);
    if read in fields then read else DefaultSort(fields)
  }

  /** A device after a save, a load and start-up: as it was saved, or with the default charts when it was not. */
  function RestoredDevice(g: GpuOptions, saved: seq<GpuOptions>): GpuOptions { StartUpDraw(DeviceRead(g, saved, |saved|)) }

  /** What a save and a load make of the device at j. */
  lemma DeviceRestored(start: seq<GpuOptions>, saved: seq<GpuOptions>, j: nat)
    requires j < |start| && FreshDevices(start) && PdevsDistinct(saved) && Drawable(saved)
    ensures forall k :: 0 <= k < |saved| && saved[k].pdev == start[j].pdev ==> RestoredDevice(start[j], saved) == saved[k]
    ensures (forall k :: 0 <= k < |saved| ==> saved[k].pdev != start[j].pdev)
        ==> RestoredDevice(start[j], saved) == start[j].(toDraw := DEFAULT_DRAW)
  {
    if k: nat :| k < |saved| && saved[k].pdev == start[j].pdev {
      ReadDevice(start[j], saved, |saved|, k);
      assert PLOT_INFORMATION_COUNT !in saved[k].toDraw;
      assert saved[k].toDraw + {PLOT_INFORMATION_COUNT} - {PLOT_INFORMATION_COUNT} == saved[k].toDraw;
    } else {
      UnreadDevice(start[j], saved, |saved|);
    }
  }

  lemma StripsMarkers<T>(o: Options<T>, start: Options<T>, restored: Options<T>)
    requires Sensible(o) && restored.fields == o.fields + {PROCESS_FIELD_COUNT} && restored.gpus == DevicesAfter(start.gpus, o.gpus, |o.gpus|)
    ensures StartUp(restored).fields == o.fields
    ensures |StartUp(restored).gpus| == |start.gpus|
    ensures forall j :: 0 <= j < |start.gpus| ==> StartUp(restored).gpus[j] == RestoredDevice(start.gpus[j], o.gpus)
  {
    hide DeviceRead;
  }
}
