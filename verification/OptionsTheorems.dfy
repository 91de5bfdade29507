/** Save then load: what comes back, and exactly when it is what was saved. */
module OptionsTheorems {
  import opened Shared
  import opened Ini
  import opened IniPrint
  import opened Options
  import opened OptionsRoundTrip

  // ----- The saved file is clean -----

  predicate IsWordChar(c: char) { 'a' <= c <= 'z' || 'A' <= c <= 'Z' || '0' <= c <= '9' || c == '-' }

  predicate IsWord(s: string) { 0 < |s| < 100 && forall i :: 0 <= i < |s| ==> IsWordChar(s[i]) }

  /** An item that reads back and is a line of its own. */
  ghost predicate Fine(it: Item) { Clean(it) && OneLine(it) }

  ghost predicate AllFine(items: seq<Item>) { forall i :: 0 <= i < |items| ==> Fine(items[i]) }

  lemma WordsFine(n: string, v: string)
    requires IsWord(n) && |n| < 50 && IsWord(v)
    ensures Fine(Pair(n, v)) && Fine(Header(n))
  {
    assert IsWordChar(n[0]) && IsWordChar(n[|n| - 1]) && IsWordChar(v[0]) && IsWordChar(v[|v| - 1]);
  }

  lemma BlankFine()
    ensures Fine(Blank)
  {
  }

  /** A short stretch of one line. */
  predicate IsStretch(s: string) { 0 < |s| <= 30 && forall i :: 0 <= i < |s| ==> s[i] != '\n' }

  lemma {:induction false} ConcatStretches(ss: seq<string>)
    requires forall k :: 0 <= k < |ss| ==> IsStretch(ss[k])
    ensures |Concat(ss)| <= 30 * |ss| && forall i :: 0 <= i < |Concat(ss)| ==> Concat(ss)[i] != '\n'
    ensures ss != [] && ss[0] != "" ==> Concat(ss) != "" && Concat(ss)[0] == ss[0][0]
  {
    if ss != [] {
      assert IsStretch(ss[0]);
      ConcatStretches(ss[1..]);
    }
  }

  lemma CommentFine(ss: seq<string>)
    requires 0 < |ss| <= 6 && ss[0] != "" && ss[0][0] == ';' && forall k :: 0 <= k < |ss| ==> IsStretch(ss[k])
    ensures Fine(Comment(Concat(ss)))
  {
    hide Concat;
    ConcatStretches(ss);
  }

  lemma NoticeStretches()
    ensures forall k :: 0 <= k < |NOTICE_1| ==> IsStretch(NOTICE_1[k])
    ensures forall k :: 0 <= k < |NOTICE_2| ==> IsStretch(NOTICE_2[k])
  {
  }

  lemma LastNoticeStretches()
    ensures forall k :: 0 <= k < |NOTICE_3| ==> IsStretch(NOTICE_3[k])
  {
  }

  lemma NoticeFine()
    ensures AllFine(NOTICE)
  {
    hide Fine, IsStretch, Concat;
    NoticeStretches();
    LastNoticeStretches();
    CommentFine(NOTICE_1);
    CommentFine(NOTICE_2);
    CommentFine(NOTICE_3);
  }

  lemma {:induction false} NatTextShort(n: nat, k: nat, bound: nat)
    requires k > 0 && n < bound && bound == Pow10(k)
    ensures |NatText(n)| <= k
  {
    if n >= 10 {
      NatTextShort(n / 10, k - 1, Pow10(k - 1));
    }
  }

  function Pow10(k: nat): nat { if k == 0 then 1 else 10 * Pow10(k - 1) }

  lemma IntTextWord(n: int)
    requires -0x8000_0000 <= n < 0x8000_0000
    ensures IsWord(IntText(n))
  {
    assert Pow10(5) == 100000;
    assert Pow10(10) == 10000000000;
    NatTextShort(if n < 0 then -n else n, 10, Pow10(10));
  }

  lemma BooleanWord(b: bool)
    ensures IsWord(BooleanString(b))
  {
  }

  lemma SortNamesAreWords()
    ensures forall i :: 0 <= i < |SORT_NAMES| ==> IsWord(SORT_NAMES[i])
  {
  }

  lemma DrawNamesAreWords()
    ensures forall i :: 0 <= i < |DRAW_NAMES| ==> IsWord(DRAW_NAMES[i])
  {
  }

  lemma ColorsAreWords()
    ensures forall i :: 0 <= i < |PLOT_COLORS| ==> IsWord(PLOT_COLORS[i])
    ensures forall i :: 0 <= i < |COLOR_KEYS| ==> IsWord(COLOR_KEYS[i]) && |COLOR_KEYS[i]| < 50
  {
  }

  lemma ProcessKeysAreWords()
    ensures IsWord("ProcessListOption") && IsWord("true") && IsWord("HideNvtopProcessList") && IsWord("HideNvtopProcess")
    ensures IsWord("SortOrder") && IsWord("descending") && IsWord("ascending") && IsWord("SortBy") && IsWord("DisplayField")
  {
  }

  lemma {:induction false} MembersFine(key: string, names: seq<string>, s: set<nat>, n: nat)
    requires n <= |names| && IsWord(key) && |key| < 50 && forall i :: 0 <= i < |names| ==> IsWord(names[i])
    ensures AllFine(MemberItems(key, names, s, n))
  {
    hide Fine, IsWord;
    if n > 0 {
      MembersFine(key, names, s, n - 1);
      WordsFine(key, names[n - 1]);
    }
  }

  lemma SetFine(key: string, names: seq<string>, s: set<nat>)
    requires names != [] && IsWord(key) && |key| < 50 && forall i :: 0 <= i < |names| ==> IsWord(names[i])
    ensures AllFine(SetItems(key, names, s))
  {
    hide Fine, IsWord, MemberItems;
    MembersFine(key, names, s, |names| - 1);
    WordsFine(key, names[|names| - 1]);
  }

  lemma {:induction false} ColorsFine(colors: seq<nat>, n: nat)
    requires n <= |colors| <= |COLOR_KEYS| && forall s :: 0 <= s < |colors| ==> colors[s] < |PLOT_COLORS|
    ensures AllFine(ColorItems(colors, n))
  {
    hide Fine, IsWord;
    if n > 0 {
      ColorsFine(colors, n - 1);
      ColorsAreWords();
      WordsFine(COLOR_KEYS[n - 1], PLOT_COLORS[colors[n - 1]]);
    }
  }

  lemma GeneralFine<T>(o: Options<T>)
    requires -0x8000_0000 <= o.updateInterval < 0x8000_0000
    ensures AllFine(GeneralItems(o))
  {
    hide Fine, BooleanString, IntText;
    BooleanWord(o.useColor);
    BooleanWord(o.showMessages);
    IntTextWord(o.updateInterval);
    WordsFine("GeneralOption", "true");
    WordsFine("UseColor", BooleanString(o.useColor));
    WordsFine("UpdateInterval", IntText(o.updateInterval));
    WordsFine("ShowInfoMessages", BooleanString(o.showMessages));
  }

  lemma HeaderFine<T>(c: Codec<T>, o: Options<T>)
    requires Fine(Pair("EncodeHideTimer", c.text(o.timer)))
    ensures AllFine(HeaderItems(c, o))
  {
    hide Fine, BooleanString;
    BlankFine();
    BooleanWord(o.fahrenheit);
    BooleanWord(o.gpuInfoBar);
    WordsFine("HeaderOption", "true");
    WordsFine("UseFahrenheit", BooleanString(o.fahrenheit));
    WordsFine("GPUInfoBar", BooleanString(o.gpuInfoBar));
  }

  lemma ChartFine<T>(o: Options<T>)
    requires Printable(o)
    ensures AllFine(ChartItems(o))
  {
    hide Fine, BooleanString, ColorItems;
    BlankFine();
    BooleanWord(o.leftToRight);
    WordsFine("ChartOption", "true");
    WordsFine("ReverseChart", BooleanString(o.leftToRight));
    ColorsFine(o.plotColors, |o.plotColors|);
  }

  lemma ProcessFine<T>(o: Options<T>)
    requires Printable(o)
    ensures AllFine(ProcessItems(o))
  {
    hide Fine, BooleanString, SetItems, IsWord;
    BlankFine();
    SortNamesAreWords();
    ProcessKeysAreWords();
    BooleanWord(o.hideProcesses);
    BooleanWord(o.filterNvtop);
    WordsFine("ProcessListOption", "true");
    WordsFine("HideNvtopProcessList", BooleanString(o.hideProcesses));
    WordsFine("HideNvtopProcess", BooleanString(o.filterNvtop));
    WordsFine("SortOrder", "descending");
    WordsFine("SortOrder", "ascending");
    WordsFine("SortBy", SORT_NAMES[o.sortBy]);
    SetFine("DisplayField", SORT_NAMES, o.fields);
  }

  lemma DeviceFine(g: GpuOptions)
    requires Fine(Pair("Pdev", g.pdev))
    ensures AllFine(DeviceItems(g))
  {
    hide Fine, BooleanString, SetItems;
    BlankFine();
    DrawNamesAreWords();
    BooleanWord(!g.doNotMonitor);
    WordsFine("Device", "true");
    WordsFine("Monitor", BooleanString(!g.doNotMonitor));
    SetFine("ShownInfo", DRAW_NAMES, g.toDraw);
  }

  lemma {:induction false} DevicesFine(gpus: seq<GpuOptions>, n: nat)
    requires n <= |gpus| && forall k :: 0 <= k < n ==> Fine(Pair("Pdev", gpus[k].pdev))
    ensures AllFine(AllDeviceItems(gpus, n))
  {
    hide Fine, DeviceItems;
    if n > 0 {
      DevicesFine(gpus, n - 1);
      DeviceFine(gpus[n - 1]);
    }
  }

  /** What the saved file needs of the values it prints as they are: a 32-bit interval, and a timer and bus addresses that read back. */
  ghost predicate Savable<T>(c: Codec<T>, o: Options<T>) {
    && Sensible(o) && -0x8000_0000 <= o.updateInterval < 0x8000_0000
    && Fine(Pair("EncodeHideTimer", c.text(o.timer)))
    && forall k :: 0 <= k < |o.gpus| ==> Fine(Pair("Pdev", o.gpus[k].pdev))
  }

  lemma SavedFileClean<T>(c: Codec<T>, o: Options<T>)
    requires Savable(c, o)
    ensures CleanFile(SaveItems(c, o))
  {
    hide *;
    SavableParts(c, o);
    NoticeFine();
    GeneralFine(o);
    HeaderFine(c, o);
    ChartFine(o);
    ProcessFine(o);
    DevicesFine(o.gpus, |o.gpus|);
    FineConcat(NOTICE, GeneralItems(o));
    FineConcat(NOTICE + GeneralItems(o), HeaderItems(c, o));
    FineConcat(NOTICE + GeneralItems(o) + HeaderItems(c, o), ChartItems(o));
    FineConcat(NOTICE + GeneralItems(o) + HeaderItems(c, o) + ChartItems(o), ProcessItems(o));
    FineConcat(NOTICE + GeneralItems(o) + HeaderItems(c, o) + ChartItems(o) + ProcessItems(o), AllDeviceItems(o.gpus, |o.gpus|));
    SaveStarts(c, o);
    FineItems(SaveItems(c, o));
  }

  lemma SavableParts<T>(c: Codec<T>, o: Options<T>)
    requires Savable(c, o)
    ensures Printable(o) && -0x8000_0000 <= o.updateInterval < 0x8000_0000
    ensures Fine(Pair("EncodeHideTimer", c.text(o.timer))) && forall k :: 0 <= k < |o.gpus| ==> Fine(Pair("Pdev", o.gpus[k].pdev))
    ensures o.sortBy < |SORT_NAMES| && |o.plotColors| == |COLOR_KEYS|
    ensures forall s :: 0 <= s < |o.plotColors| ==> o.plotColors[s] < |PLOT_COLORS|
  {
  }

  lemma SaveStarts<T>(c: Codec<T>, o: Options<T>)
    requires Printable(o)
    ensures SaveItems(c, o) == NOTICE + GeneralItems(o) + HeaderItems(c, o) + ChartItems(o) + ProcessItems(o) + AllDeviceItems(o.gpus, |o.gpus|)
    ensures SaveItems(c, o) != [] && SaveItems(c, o)[0].Comment?
  {
    hide GeneralItems, HeaderItems, ChartItems, ProcessItems, AllDeviceItems, Concat;
    assert SaveItems(c, o)[0] == NOTICE[0];
  }

  lemma FineConcat(a: seq<Item>, b: seq<Item>)
    requires AllFine(a) && AllFine(b)
    ensures AllFine(a + b)
  {
  }

  lemma FineItems(items: seq<Item>)
    requires AllFine(items) && items != [] && items[0].Comment?
    ensures CleanFile(items)
  {
  }

  // ----- Save, then load -----

  lemma MarkerKeepsSort(sortBy: nat, fields: set<nat>, start: nat)
    requires start < PROCESS_FIELD_COUNT && forall i :: i in fields ==> i < PROCESS_FIELD_COUNT
    ensures var read := SortRead(sortBy, start);
            SavedSort(sortBy, fields, start)
            == if read in fields + {PROCESS_FIELD_COUNT} then read else DefaultSort(fields + {PROCESS_FIELD_COUNT})
  {
  }

  lemma FixSortFields<T>(o: Options<T>)
    ensures FixSort(o) == o.(sortBy := if o.sortBy in o.fields then o.sortBy else DefaultSort(o.fields))
    ensures StartUp(FixSort(o)) == StartUp(o).(sortBy := FixSort(o).sortBy)
  {
  }

  lemma StartUpKeeps<T>(o: Options<T>)
    ensures StartUp(o) == o.(gpus := StartUp(o).gpus, fields := StartUp(o).fields)
  {
  }

  /** Parsing a saved file reports no error and restores every option, except that the timer is what its printed form
      scans to, and that a sort column which is not displayed is replaced. The devices may have come in any order: each
      one that was saved is as it was saved, and one that was not has the default charts. */
  lemma SaveThenLoad<T>(c: Codec<T>, o: Options<T>, start: Options<T>)
    requires Savable(c, o) && Fresh(start) && start.sortBy == PROCESS_MEMORY
    ensures var text := Print(SaveItems(c, o));
            var loaded := StartUp(Loaded(c, start, text));
            && ParseString(IniData(start, |start.gpus|), OptionHandler(c), text).error == 0
            && loaded == o.(sortBy := SavedSort(o.sortBy, o.fields, start.sortBy), timer := Rescanned(c, o.timer, start.timer), gpus := loaded.gpus)
            && |loaded.gpus| == |start.gpus|
            && (forall j, k :: 0 <= j < |start.gpus| && 0 <= k < |o.gpus| && start.gpus[j].pdev == o.gpus[k].pdev ==> loaded.gpus[j] == o.gpus[k])
            && (forall j :: 0 <= j < |start.gpus| && NotAmong(start.gpus[j].pdev, o.gpus) ==> loaded.gpus[j] == start.gpus[j].(toDraw := DEFAULT_DRAW))
  {
    hide SaveItems, CleanFile, Restored, FixSort, StartUp, SavedSort, Rescanned, ParseString, Meaning, Print, DevicesAfter;
    SavedFileClean(c, o);
    var selected, section := SavedFileReads(c, o, start, |start.gpus|);
    ParsingUndoesPrinting(IniData(start, |start.gpus|), OptionHandler(c), SaveItems(c, o));
    RestoredStartsUp(c, o, start);
  }

  ghost predicate NotAmong(pdev: string, gpus: seq<GpuOptions>) { forall k :: 0 <= k < |gpus| ==> gpus[k].pdev != pdev }

  lemma FoundAmong(pdev: string, gpus: seq<GpuOptions>) returns (k: nat)
    requires !NotAmong(pdev, gpus)
    ensures k < |gpus| && gpus[k].pdev == pdev
  {
    k :| 0 <= k < |gpus| && gpus[k].pdev == pdev;
  }

  lemma RestoredStartsUp<T>(c: Codec<T>, o: Options<T>, start: Options<T>)
    requires Sensible(o) && Fresh(start) && start.sortBy == PROCESS_MEMORY
    ensures var loaded := StartUp(FixSort(Restored(c, o, start)));
            && loaded == o.(sortBy := SavedSort(o.sortBy, o.fields, start.sortBy), timer := Rescanned(c, o.timer, start.timer), gpus := loaded.gpus)
            && |loaded.gpus| == |start.gpus|
            && (forall j, k :: 0 <= j < |start.gpus| && 0 <= k < |o.gpus| && start.gpus[j].pdev == o.gpus[k].pdev ==> loaded.gpus[j] == o.gpus[k])
            && (forall j :: 0 <= j < |start.gpus| && NotAmong(start.gpus[j].pdev, o.gpus) ==> loaded.gpus[j] == start.gpus[j].(toDraw := DEFAULT_DRAW))
  {
    hide FixSort, StartUp, SavedSort, Rescanned, SortRead, DevicesAfter, DefaultSort, RestoredDevice, PdevsDistinct;
    var r := Restored(c, o, start);
    StripsMarkers(o, start, r);
    FixSortFields(r);
    StartUpKeeps(r);
    MarkerKeepsSort(o.sortBy, o.fields, start.sortBy);
    forall j | 0 <= j < |start.gpus|
      ensures forall k :: 0 <= k < |o.gpus| && start.gpus[j].pdev == o.gpus[k].pdev ==> RestoredDevice(start.gpus[j], o.gpus) == o.gpus[k]
      ensures NotAmong(start.gpus[j].pdev, o.gpus) ==> RestoredDevice(start.gpus[j], o.gpus) == start.gpus[j].(toDraw := DEFAULT_DRAW)
    {
      DeviceRestored(start.gpus, o.gpus, j);
    }
  }

  /** The same devices: those on one side are on the other. */
  ghost predicate SameDevices(a: seq<GpuOptions>, b: seq<GpuOptions>) {
    && (forall j :: 0 <= j < |a| ==> !NotAmong(a[j].pdev, b))
    && (forall k :: 0 <= k < |b| ==> !NotAmong(b[k].pdev, a))
  }

  /** With the same devices, in whatever order, the settings of every device come back and no others do. */
  lemma SaveThenLoadKeepsDevices<T>(c: Codec<T>, o: Options<T>, start: Options<T>)
    requires Savable(c, o) && Fresh(start) && start.sortBy == PROCESS_MEMORY && SameDevices(start.gpus, o.gpus)
    ensures forall g :: g in StartUp(Loaded(c, start, Print(SaveItems(c, o)))).gpus <==> g in o.gpus
  {
    hide SaveItems, Loaded, StartUp, SavedSort, Rescanned, Print, Fresh, ParseString, CleanFile;
    SaveThenLoad(c, o, start);
    var loaded := StartUp(Loaded(c, start, Print(SaveItems(c, o)))).gpus;
    forall k | 0 <= k < |o.gpus| ensures o.gpus[k] in loaded {
      var j := FoundAmong(o.gpus[k].pdev, start.gpus);
      assert loaded[j] == o.gpus[k];
    }
    forall j | 0 <= j < |loaded| ensures loaded[j] in o.gpus {
      var k := FoundAmong(start.gpus[j].pdev, o.gpus);
      assert loaded[j] == o.gpus[k];
    }
  }

  ghost predicate SameOrder(a: seq<GpuOptions>, b: seq<GpuOptions>) { |a| == |b| && forall k :: 0 <= k < |a| ==> a[k].pdev == b[k].pdev }

  /** Saving and loading is the identity exactly when the timer survives its printed form, the sort column is displayed,
      or is "none" with no column displayed, and the devices come in the order they were saved in. */
  lemma SaveThenLoadIsIdentityIff<T>(c: Codec<T>, o: Options<T>, start: Options<T>)
    requires Savable(c, o) && Fresh(start) && start.sortBy == PROCESS_MEMORY
    ensures StartUp(Loaded(c, start, Print(SaveItems(c, o)))) == o
       <==> && Rescanned(c, o.timer, start.timer) == o.timer
            && (o.sortBy in o.fields || (o.sortBy == PROCESS_FIELD_COUNT && o.fields == {}))
            && SameOrder(start.gpus, o.gpus)
  {
    hide SaveItems, Loaded, StartUp, SavedSort, Rescanned, Print, CleanFile, ParseString, Fresh;
    SaveThenLoad(c, o, start);
    SavableSort(c, o);
    SavedSortIff(o.sortBy, o.fields, start.sortBy);
    var loaded := StartUp(Loaded(c, start, Print(SaveItems(c, o))));
    assert SameOrder(start.gpus, o.gpus) ==> loaded.gpus == o.gpus;
    forall j | 0 <= j < |start.gpus| ensures loaded.gpus[j].pdev == start.gpus[j].pdev {
      if k: nat :| k < |o.gpus| && o.gpus[k].pdev == start.gpus[j].pdev {
        assert loaded.gpus[j] == o.gpus[k];
      } else {
        assert NotAmong(start.gpus[j].pdev, o.gpus);
      }
    }
  }

  lemma SavableSort<T>(c: Codec<T>, o: Options<T>)
    requires Savable(c, o)
    ensures o.sortBy <= PROCESS_FIELD_COUNT && forall i :: i in o.fields ==> i < PROCESS_FIELD_COUNT
  {
  }

  lemma SavedSortIff(sortBy: nat, fields: set<nat>, start: nat)
    requires sortBy <= PROCESS_FIELD_COUNT && start < PROCESS_FIELD_COUNT && forall i :: i in fields ==> i < PROCESS_FIELD_COUNT
    ensures SavedSort(sortBy, fields, start) == sortBy <==> sortBy in fields || (sortBy == PROCESS_FIELD_COUNT && fields == {})
  {
  }

  /** Choosing charts one by one never leads to more than MAX_LINES_PER_PLOT of them: a full set refuses a further one. */
  lemma AddKeepsLimit(i: nat, s: set<nat>)
    requires CountDraw(s) <= MAX_LINES_PER_PLOT
    ensures CountDraw(AddDraw(i, s)) <= MAX_LINES_PER_PLOT
    ensures CountDraw(s) == MAX_LINES_PER_PLOT ==> AddDraw(i, s) == s
    ensures CountDraw(s) < MAX_LINES_PER_PLOT ==> i in AddDraw(i, s) && s <= AddDraw(i, s)
  {
    var before := set j | j in s && j < PLOT_INFORMATION_COUNT;
    var added := s + {i};
    var after := set j | j in added && j < PLOT_INFORMATION_COUNT;
    assert after == before || after == before + {i};
    assert |before + {i}| <= |before| + 1;
  }

  // ----- What a line of the file can do -----

  predicate IsFlag(value: string) { value == "true" || value == "false" }

  lemma {:induction false} NoMatch(names: seq<string>, value: string, n: nat)
    requires n <= |names| && forall i :: 0 <= i < n ==> names[i] != value
    ensures LastMatch(names, value, n) == None
  {
    if n > 0 { NoMatch(names, value, n - 1); }
  }

  /** A name is looked up as the last entry that is equal to it. */
  lemma {:induction false} LastMatchIs(names: seq<string>, value: string, n: nat)
    requires n <= |names|
    ensures match LastMatch(names, value, n)
            case Some(i) => i < n && names[i] == value && forall k :: i < k < n ==> names[k] != value
            case None => forall k :: 0 <= k < n ==> names[k] != value
  {
    if n > 0 { LastMatchIs(names, value, n - 1); }
  }

  lemma {:induction false} NoField(fields: set<nat>, value: string, n: nat)
    requires n <= |SORT_NAMES| && forall i :: 0 <= i < n ==> SORT_NAMES[i] != value
    ensures DisplayFields(fields, value, n) == fields
  {
    if n > 0 { NoField(fields, value, n - 1); }
  }

  lemma {:induction false} NoDraw(draws: set<nat>, value: string, n: nat)
    requires n <= |DRAW_NAMES| && forall i :: 0 <= i < n ==> DRAW_NAMES[i] != value
    ensures ShowDraws(draws, value, n) == draws
  {
    if n > 0 { NoDraw(draws, value, n - 1); }
  }

  /** The general and header lines that say something. */
  predicate GeneralLine(name: string, value: string) {
    ((name == "UseColor" || name == "ShowInfoMessages") && IsFlag(value)) || (name == "UpdateInterval" && ScanInt(value).Some?)
  }

  predicate HeaderLine<T>(c: Codec<T>, name: string, value: string) {
    ((name == "UseFahrenheit" || name == "GPUInfoBar") && IsFlag(value)) || (name == "EncodeHideTimer" && c.scan(value).Some?)
  }

  predicate ChartLine(name: string, value: string) {
    (name == "ReverseChart" && IsFlag(value)) || (name in COLOR_KEYS && value in PLOT_COLORS)
  }

  predicate ProcessLine(name: string, value: string) {
    || ((name == "HideNvtopProcessList" || name == "HideNvtopProcess") && IsFlag(value))
    || (name == "SortBy" && value in SORT_NAMES && value != "none") || (name == "DisplayField" && value in SORT_NAMES)
    || (name == "SortOrder" && (value == "ascending" || value == "descending"))
  }

  /** A device's lines say something once its bus address has been found. */
  predicate DeviceLine<T>(d: IniData<T>, name: string, value: string) {
    name == "Pdev" || (d.selected < |d.options.gpus| && ((name == "ShownInfo" && value in DRAW_NAMES) || (name == "Monitor" && IsFlag(value))))
  }

  predicate Understood<T>(c: Codec<T>, d: IniData<T>, section: string, name: string, value: string) {
    || (section == "GeneralOption" && GeneralLine(name, value)) || (section == "HeaderOption" && HeaderLine(c, name, value))
    || (section == "ChartOption" && ChartLine(name, value)) || (section == "ProcessListOption" && ProcessLine(name, value))
    || (section == "Device" && DeviceLine(d, name, value))
  }

  lemma OtherChart<T>(o: Options<T>, name: string, value: string)
    requires !ChartLine(name, value)
    ensures Chart(o, name, value) == o
  {
    if name !in COLOR_KEYS { NoMatch(COLOR_KEYS, name, |COLOR_KEYS|); } else { NoMatch(PLOT_COLORS, value, |PLOT_COLORS|); }
    hide LastMatch;
  }

  lemma OtherProcess<T>(o: Options<T>, name: string, value: string)
    requires !ProcessLine(name, value)
    ensures ProcessList(o, name, value) == o
  {
    hide LastMatch, DisplayFields;
    if name == "SortBy" { OtherSort(value); }
    if name == "DisplayField" { OtherField(o.fields, value); }
  }

  lemma OtherSort(value: string)
    requires value !in SORT_NAMES || value == "none"
    ensures LastMatch(SORT_NAMES, value, PROCESS_FIELD_COUNT) == None
  {
    NoneIsLast(value);
    NoMatch(SORT_NAMES, value, PROCESS_FIELD_COUNT);
  }

  lemma OtherField(fields: set<nat>, value: string)
    requires value !in SORT_NAMES
    ensures DisplayFields(fields, value, |SORT_NAMES|) == fields
  {
    NoField(fields, value, |SORT_NAMES|);
  }

  lemma NoneIsLast(value: string)
    requires value !in SORT_NAMES || value == "none"
    ensures forall i :: 0 <= i < PROCESS_FIELD_COUNT ==> SORT_NAMES[i] != value
  {
  }

  lemma OtherDevice<T>(d: IniData<T>, name: string, value: string)
    requires !DeviceLine(d, name, value)
    ensures Device(d, name, value) == d
  {
    if d.selected < |d.options.gpus| {
      var g := d.options.gpus[d.selected];
      if name == "ShownInfo" { NoDraw(g.toDraw, value, |DRAW_NAMES|); }
      hide ShowDraws;
      assert d.options.gpus[d.selected := g] == d.options.gpus;
    }
  }

  /** Every other line is ignored: unknown sections, names and values, and settings of a device that is not there. */
  lemma OtherLinesIgnored<T>(c: Codec<T>, d: IniData<T>, section: string, name: string, value: string)
    requires !Understood(c, d, section, name, value)
    ensures Handled(c, d, section, name, value) == d
  {
    hide Chart, ProcessList, Device, ChartLine, ProcessLine, DeviceLine;
    if section == "ChartOption" { OtherChart(d.options, name, value); }
    if section == "ProcessListOption" { OtherProcess(d.options, name, value); }
    if section == "Device" { OtherDevice(d, name, value); }
  }
}
