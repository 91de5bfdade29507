/** nvtop's options, the file they are saved to, and how the file is read back at start-up. */
module Options {
  import opened Shared
  import opened Ini
  import opened IniPrint

  const PLOT_INFORMATION_COUNT: nat := 10
  const PROCESS_FIELD_COUNT: nat := 11
  const PROCESS_MEMORY: nat := 7

  const PLOT_COLORS: seq<string> := ["Red", "Cyan", "Green", "Yellow", "Blue", "Magenta", "White"]
  const SORT_NAMES: seq<string> :=
    ["pId", "user", "gpuId", "type", "gpuRate", "encRate", "decRate", "memory", "cpuUsage", "cpuMem", "cmdline", "none"]
  const DRAW_NAMES: seq<string> :=
    ["gpuRate", "gpuMemRate", "encodeRate", "decodeRate", "temperature", "powerDrawRate", "fanSpeed", "gpuClockRate",
     "gpuMemClockRate", "effectiveLoadRate", "none"]
  const COLOR_KEYS: seq<string> := ["GpuPlotColor0", "GpuPlotColor1", "GpuPlotColor2", "GpuPlotColor3"]

  /** How the hiding timer is printed and scanned. */
  datatype Codec<!T> = Codec(text: T -> string, scan: string -> Option<T>)

  datatype GpuOptions = GpuOptions(pdev: string, toDraw: set<nat>, doNotMonitor: bool)

  datatype Options<T> = Options(
    useColor: bool, updateInterval: int, showMessages: bool,
    fahrenheit: bool, timer: T, gpuInfoBar: bool,
    leftToRight: bool, plotColors: seq<nat>,
    hideProcesses: bool, filterNvtop: bool, sortDescending: bool, sortBy: nat, fields: set<nat>,
    gpus: seq<GpuOptions>)

  // ----- Sets of charts and of columns, with a marker above the last one -----

  function CountDraw(s: set<nat>): nat { |set i | i in s && i < PLOT_INFORMATION_COUNT| }

  /** plot_add_draw_info */
  function AddDraw(i: nat, s: set<nat>): set<nat> { if CountDraw(s) < MAX_LINES_PER_PLOT then s + {i} else s }

  /** process_default_sort_by_from */
  function DefaultSort(fields: set<nat>): (r: nat)
    ensures r in fields || (r == PROCESS_FIELD_COUNT && forall i :: i in fields ==> i >= PROCESS_FIELD_COUNT)
  {
    if 7 in fields then 7
    else if 9 in fields then 9
    else if 4 in fields then 4
    else if 8 in fields then 8
    else if 10 in fields then 10
    else if 3 in fields then 3
    else if 5 in fields then 5
    else if 6 in fields then 6
    else if 1 in fields then 1
    else if 2 in fields then 2
    else if 0 in fields then 0
    else PROCESS_FIELD_COUNT
  }

  /** Columns by how gladly processes are sorted by them. */
  const SORT_PREFERENCE: seq<nat> := [7, 9, 4, 8, 10, 3, 5, 6, 1, 2, 0]

  /** The default is the first displayed column in the order of preference. */
  lemma DefaultSortPrefers(fields: set<nat>, i: nat)
    requires i < |SORT_PREFERENCE| && SORT_PREFERENCE[i] in fields && forall j :: 0 <= j < i ==> SORT_PREFERENCE[j] !in fields
    ensures DefaultSort(fields) == SORT_PREFERENCE[i]
  {
    var p := SORT_PREFERENCE;
    assert forall j :: 0 <= j < i ==> p[j] !in fields;
    assert i > 0 ==> p[0] !in fields;
    assert i > 1 ==> p[1] !in fields;
    assert i > 2 ==> p[2] !in fields;
    assert i > 3 ==> p[3] !in fields;
    assert i > 4 ==> p[4] !in fields;
    assert i > 5 ==> p[5] !in fields;
    assert i > 6 ==> p[6] !in fields;
    assert i > 7 ==> p[7] !in fields;
    assert i > 8 ==> p[8] !in fields;
    assert i > 9 ==> p[9] !in fields;
  }

  // ----- Integers as printf and sscanf treat them with %d -----

  function Digit(d: nat): char
    requires d < 10
  {
    '0' + d as char
  }

  predicate IsDigit(c: char) { '0' <= c <= '9' }

  function DigitValue(c: char): nat
    requires IsDigit(c)
  {
    c as int - '0' as int
  }

  function NatText(n: nat): (s: string)
    ensures s != "" && forall i :: 0 <= i < |s| ==> IsDigit(s[i])
  {
    if n < 10 then [Digit(n)] else NatText(n / 10) + [Digit(n % 10)]
  }

  function IntText(n: int): string { if n < 0 then "-" + NatText(-n) else NatText(n) }

  function DigitPrefix(s: string): string { if s != "" && IsDigit(s[0]) then [s[0]] + DigitPrefix(s[1..]) else "" }

  function NatValue(s: string): nat
    requires forall i :: 0 <= i < |s| ==> IsDigit(s[i])
  {
    if s == "" then 0 else 10 * NatValue(s[..|s| - 1]) + DigitValue(s[|s| - 1])
  }

  lemma {:induction false} DigitsOfPrefix(s: string)
    ensures forall i :: 0 <= i < |DigitPrefix(s)| ==> IsDigit(DigitPrefix(s)[i])
  {
    if s != "" && IsDigit(s[0]) { DigitsOfPrefix(s[1..]); }
  }

  /** sscanf with %d: optional whitespace and sign, then at least one digit. */
  function ScanInt(s: string): Option<int> {
    var t := LSkip(s);
    var signed := t != "" && (t[0] == '-' || t[0] == '+');
    var digits := DigitPrefix(if signed then t[1..] else t);
    DigitsOfPrefix(if signed then t[1..] else t);
    if digits == "" then None
    else
      var n: int := NatValue(digits);
      Some(if signed && t[0] == '-' then -n else n)
  }

  // ----- Reading: what one name and value do to the options -----

  datatype IniData<T> = IniData(options: Options<T>, selected: nat)

  function Flag(was: bool, value: string): bool { if value == "true" then true else if value == "false" then false else was }

  /** The last index below n whose name is `value`. */
  function LastMatch(names: seq<string>, value: string, n: nat): Option<nat>
    requires n <= |names|
  {
    if n == 0 then None else if names[n - 1] == value then Some(n - 1) else LastMatch(names, value, n - 1)
  }

  function General<T>(o: Options<T>, name: string, value: string): Options<T> {
    if name == "UseColor" then o.(useColor := Flag(o.useColor, value))
    else if name == "UpdateInterval" then
      match ScanInt(value)
      case Some(n) => o.(updateInterval := n)
      case None => o
    else if name == "ShowInfoMessages" then o.(showMessages := Flag(o.showMessages, value))
    else o
  }

  function HeaderOption<T>(c: Codec<T>, o: Options<T>, name: string, value: string): Options<T> {
    if name == "UseFahrenheit" then o.(fahrenheit := Flag(o.fahrenheit, value))
    else if name == "EncodeHideTimer" then
      match c.scan(value)
      case Some(t) => o.(timer := t)
      case None => o
    else if name == "GPUInfoBar" then o.(gpuInfoBar := Flag(o.gpuInfoBar, value))
    else o
  }

  function Chart<T>(o: Options<T>, name: string, value: string): Options<T> {
    if name == "ReverseChart" then o.(leftToRight := Flag(o.leftToRight, value))
    else
      match LastMatch(COLOR_KEYS, name, |COLOR_KEYS|)
      case Some(s) =>
        (match LastMatch(PLOT_COLORS, value, |PLOT_COLORS|)
         case Some(i) => if s < |o.plotColors| then o.(plotColors := o.plotColors[s := i]) else o
         case None => o)
      case None => o
  }

  /** Every column below n called `value` is displayed, and the marker says the file chose columns. */
  function DisplayFields(fields: set<nat>, value: string, n: nat): set<nat>
    requires n <= |SORT_NAMES|
  {
    if n == 0 then fields
    else
      var before := DisplayFields(fields, value, n - 1);
      if SORT_NAMES[n - 1] == value then before + {n - 1} + {PROCESS_FIELD_COUNT} else before
  }

  function ProcessList<T>(o: Options<T>, name: string, value: string): Options<T> {
    if name == "HideNvtopProcessList" then o.(hideProcesses := Flag(o.hideProcesses, value))
    else if name == "HideNvtopProcess" then o.(filterNvtop := Flag(o.filterNvtop, value))
    else if name == "SortBy" then
      match LastMatch(SORT_NAMES, value, PROCESS_FIELD_COUNT)
      case Some(i) => o.(sortBy := i)
      case None => o
    else if name == "DisplayField" then o.(fields := DisplayFields(o.fields, value, |SORT_NAMES|))
    else if name == "SortOrder" then
      if value == "descending" then o.(sortDescending := true)
      else if value == "ascending" then o.(sortDescending := false)
      else o
    else o
  }

  /** Index of the first device on that bus address, or the number of devices. */
  function FindPdev(gpus: seq<GpuOptions>, pdev: string, i: nat): (r: nat)
    requires i <= |gpus|
    ensures i <= r <= |gpus| && (r < |gpus| ==> gpus[r].pdev == pdev) && forall k :: i <= k < r ==> gpus[k].pdev != pdev
    decreases |gpus| - i
  {
    if i == |gpus| || gpus[i].pdev == pdev then i else FindPdev(gpus, pdev, i + 1)
  }

  function ShowDraws(s: set<nat>, value: string, n: nat): set<nat>
    requires n <= |DRAW_NAMES|
  {
    if n == 0 then s
    else
      var before := ShowDraws(s, value, n - 1);
      if DRAW_NAMES[n - 1] == value then AddDraw(PLOT_INFORMATION_COUNT, AddDraw(n - 1, before)) else before
  }

  function Device<T>(d: IniData<T>, name: string, value: string): IniData<T> {
    var gpus := d.options.gpus;
    if name == "Pdev" then d.(selected := FindPdev(gpus, value, 0))
    else if d.selected >= |gpus| then d
    else
      var g := gpus[d.selected];
      if name == "ShownInfo" then
        d.(options := d.options.(gpus := gpus[d.selected := g.(toDraw := ShowDraws(g.toDraw, value, |DRAW_NAMES|))]))
      else if name == "Monitor" then
        d.(options := d.options.(gpus := gpus[d.selected := g.(doNotMonitor := !Flag(!g.doNotMonitor, value))]))
      else d
  }

  /** nvtop_option_ini_handler */
  function Handled<T>(c: Codec<T>, d: IniData<T>, section: string, name: string, value: string): IniData<T> {
    if section == "GeneralOption" then d.(options := General(d.options, name, value))
    else if section == "HeaderOption" then d.(options := HeaderOption(c, d.options, name, value))
    else if section == "ChartOption" then d.(options := Chart(d.options, name, value))
    else if section == "ProcessListOption" then d.(options := ProcessList(d.options, name, value))
    else if section == "Device" then Device(d, name, value)
    else d
  }

  function OptionHandler<T>(c: Codec<T>): Handler<IniData<T>> {
    (d: IniData<T>, section, name, value) => (Handled(c, d, section, name, value), true)
  }

  /** The end of load_interface_options_from_config_file: a sort column that is not displayed is replaced. */
  function FixSort<T>(o: Options<T>): Options<T> {
    if o.sortBy in o.fields then o else o.(sortBy := DefaultSort(o.fields))
  }

  function Loaded<T>(c: Codec<T>, o: Options<T>, text: string): Options<T> {
    FixSort(ParseString(IniData(o, |o.gpus|), OptionHandler(c), text).user.options)
  }

  const DEFAULT_DRAW: set<nat> := {0, 1}
  const DEFAULT_FIELDS: set<nat> := {0, 1, 2, 3, 4, 7, 8, 9, 10}

  function StartUpDraw(g: GpuOptions): GpuOptions {
    g.(toDraw := if PLOT_INFORMATION_COUNT in g.toDraw then g.toDraw - {PLOT_INFORMATION_COUNT} else DEFAULT_DRAW)
  }

  /** Start-up after loading: strip the markers, or fall back to the defaults where the file chose nothing. */
  function StartUp<T>(o: Options<T>): Options<T> {
    o.(gpus := seq(|o.gpus|, i requires 0 <= i < |o.gpus| => StartUpDraw(o.gpus[i])),
       fields := if PROCESS_FIELD_COUNT in o.fields then o.fields - {PROCESS_FIELD_COUNT} else DEFAULT_FIELDS)
  }

  // ----- Writing -----

  function BooleanString(b: bool): string { if b then "true" else "false" }

  /** The notice at the top of the file. */
  const NOTICE_1: seq<string> := ["; Please do not edit", " this file."]
  const NOTICE_2: seq<string> := ["; The file is automatically", " generated and modified", " by nvtop by pressing F12."]
  const NOTICE_3: seq<string> :=
    ["; If you wish to modify an", " option, use nvtop's setup", " window (F2) and follow up", " by saving the preference", " (F12)."]
  const NOTICE: seq<Item> := [Comment(Concat(NOTICE_1)), Comment(Concat(NOTICE_2)), Comment(Concat(NOTICE_3))]

  function GeneralItems<T>(o: Options<T>): seq<Item> {
    [Header("GeneralOption")]
    + [Pair("UseColor", BooleanString(o.useColor))]
    + [Pair("UpdateInterval", IntText(o.updateInterval))]
    + [Pair("ShowInfoMessages", BooleanString(o.showMessages))]
  }

  function HeaderItems<T>(c: Codec<T>, o: Options<T>): seq<Item> {
    [Blank] + [Header("HeaderOption")]
    + [Pair("UseFahrenheit", BooleanString(o.fahrenheit))]
    + [Pair("EncodeHideTimer", c.text(o.timer))]
    + [Pair("GPUInfoBar", BooleanString(o.gpuInfoBar))]
  }

  function ColorItems(colors: seq<nat>, n: nat): seq<Item>
    requires n <= |colors| <= |COLOR_KEYS| && forall s :: 0 <= s < |colors| ==> colors[s] < |PLOT_COLORS|
  {
    if n == 0 then [] else ColorItems(colors, n - 1) + [Pair(COLOR_KEYS[n - 1], PLOT_COLORS[colors[n - 1]])]
  }

  function ChartItems<T>(o: Options<T>): seq<Item>
    requires |o.plotColors| == |COLOR_KEYS| && forall s :: 0 <= s < |o.plotColors| ==> o.plotColors[s] < |PLOT_COLORS|
  {
    [Blank] + [Header("ChartOption")] + [Pair("ReverseChart", BooleanString(o.leftToRight))]
    + ColorItems(o.plotColors, |o.plotColors|)
  }

  /** One line for every member of s below n. */
  function MemberItems(key: string, names: seq<string>, s: set<nat>, n: nat): seq<Item>
    requires n <= |names|
  {
    if n == 0 then []
    else MemberItems(key, names, s, n - 1) + (if n - 1 in s then [Pair(key, names[n - 1])] else [])
  }

  /** The members of s, or the last name, "none", when there is none. */
  function SetItems(key: string, names: seq<string>, s: set<nat>): seq<Item>
    requires names != []
  {
    var shown := MemberItems(key, names, s, |names| - 1);
    if shown == [] then [Pair(key, names[|names| - 1])] else shown
  }

  function ProcessItems<T>(o: Options<T>): seq<Item>
    requires o.sortBy < |SORT_NAMES|
  {
    [Blank] + [Header("ProcessListOption")]
    + [Pair("HideNvtopProcessList", BooleanString(o.hideProcesses))]
    + [Pair("HideNvtopProcess", BooleanString(o.filterNvtop))]
    + [Pair("SortOrder", if o.sortDescending then "descending" else "ascending")]
    + [Pair("SortBy", SORT_NAMES[o.sortBy])]
    + SetItems("DisplayField", SORT_NAMES, o.fields)
  }

  function DeviceItems(g: GpuOptions): seq<Item> {
    [Blank] + [Header("Device")]
    + [Pair("Pdev", g.pdev)]
    + [Pair("Monitor", BooleanString(!g.doNotMonitor))]
    + SetItems("ShownInfo", DRAW_NAMES, g.toDraw)
    + [Blank]
  }

  function AllDeviceItems(gpus: seq<GpuOptions>, n: nat): seq<Item>
    requires n <= |gpus|
  {
    if n == 0 then [] else AllDeviceItems(gpus, n - 1) + DeviceItems(gpus[n - 1])
  }

  /** Array indices the saver uses are in range. */
  predicate Printable<T>(o: Options<T>) {
    && o.sortBy < |SORT_NAMES|
    && |o.plotColors| == |COLOR_KEYS| && forall s :: 0 <= s < |o.plotColors| ==> o.plotColors[s] < |PLOT_COLORS|
  }

  /** save_interface_options_to_config_file */
  function SaveItems<T>(c: Codec<T>, o: Options<T>): seq<Item>
    requires Printable(o)
  {
    NOTICE + GeneralItems(o) + HeaderItems(c, o) + ChartItems(o) + ProcessItems(o) + AllDeviceItems(o.gpus, |o.gpus|)
  }

  // ----- What is printed with %d is scanned back -----

  lemma {:induction false} NatTextValue(n: nat)
    ensures NatValue(NatText(n)) == n
  {
    if n >= 10 {
      NatTextValue(n / 10);
      var s := NatText(n / 10) + [Digit(n % 10)];
      assert s[..|s| - 1] == NatText(n / 10);
    } else {
      assert NatValue([Digit(n)]) == 10 * NatValue([Digit(n)][..0]) + DigitValue(Digit(n));
    }
  }

  lemma {:induction false} AllDigits(s: string)
    requires forall i :: 0 <= i < |s| ==> IsDigit(s[i])
    ensures DigitPrefix(s) == s
  {
    if s != "" { AllDigits(s[1..]); }
  }

  lemma IntTextScans(n: int)
    ensures ScanInt(IntText(n)) == Some(n)
  {
    var t := IntText(n);
    var digits := NatText(if n < 0 then -n else n);
    NatTextValue(if n < 0 then -n else n);
    AllDigits(digits);
    assert t[0] == if n < 0 then '-' else digits[0];
    assert n < 0 ==> t[1..] == digits;
    hide NatText, NatValue, DigitPrefix;
    LSkipTo(t, 0);
    assert t[0..] == t;
  }

  /** A number is read after whitespace and a sign, up to the first character that is no digit. */
  lemma ScanIntReads(ws: string, sign: string, digits: string, rest: string)
    requires (forall i :: 0 <= i < |ws| ==> IsSpace(ws[i])) && (sign == "" || sign == "-" || sign == "+")
    requires (forall i :: 0 <= i < |digits| ==> IsDigit(digits[i])) && (rest != "" ==> !IsDigit(rest[0]))
    requires digits == "" && sign == "" && rest != "" ==> !IsSpace(rest[0]) && rest[0] != '-' && rest[0] != '+'
    ensures var n: int := NatValue(digits); ScanInt(ws + (sign + (digits + rest))) == if digits == "" then None else Some(if sign == "-" then -n else n)
  {
    hide NatValue, LSkip, DigitPrefix;
    var t := sign + (digits + rest);
    assert (ws + t)[|ws|..] == t;
    assert forall i :: 0 <= i < |ws| ==> (ws + t)[i] == ws[i];
    SignStops(sign, digits, rest);
    LSkipTo(ws + t, |ws|);
    PrefixOf(digits, rest);
    SignTaken(sign, digits + rest);
  }

  lemma SignStops(sign: string, digits: string, rest: string)
    requires (sign == "" || sign == "-" || sign == "+") && (forall i :: 0 <= i < |digits| ==> IsDigit(digits[i]))
    requires digits == "" && sign == "" && rest != "" ==> !IsSpace(rest[0])
    ensures var t := sign + (digits + rest); t != "" ==> !IsSpace(t[0])
  {
    assert digits != "" ==> (digits + rest)[0] == digits[0];
  }

  lemma SignTaken(sign: string, s: string)
    requires sign == "" || sign == "-" || sign == "+"
    ensures var t := sign + s; if sign == "" then t == s else t != "" && t[0] == sign[0] && t[1..] == s
  {
    assert sign == "" ==> sign + s == s;
  }

  lemma {:induction false} PrefixOf(digits: string, rest: string)
    requires (forall i :: 0 <= i < |digits| ==> IsDigit(digits[i])) && (rest != "" ==> !IsDigit(rest[0]))
    ensures DigitPrefix(digits + rest) == digits
  {
    if digits != "" {
      PrefixOf(digits[1..], rest);
      assert (digits + rest)[1..] == digits[1..] + rest;
    } else {
      assert digits + rest == rest;
    }
  }
}
