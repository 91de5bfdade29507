/** Printing INI files, and what reading a printed file back yields. */
module IniPrint {
  import opened Ini

  datatype Item = Comment(text: string) | Blank | Header(name: string) | Pair(name: string, value: string)

  /** One printed line, newline included. */
  function Text(it: Item): string {
    match it
    case Comment(t) => t + "\n"
    case Blank => "\n"
    case Header(n) => "[" + n + "]\n"
    case Pair(n, v) => n + " = " + v + "\n"
  }

  function Print(items: seq<Item>): string { if items == [] then "" else Text(items[0]) + Print(items[1..]) }

  predicate Trimmed(s: string) { s != "" ==> !IsSpace(s[0]) && !IsSpace(s[|s| - 1]) }

  /** No ';' after whitespace, which would start a comment. */
  predicate CommentFree(s: string) { forall k :: 0 < k < |s| ==> !(IsSpace(s[k - 1]) && s[k] == ';') }

  predicate CleanPair(n: string, v: string) {
    && n != "" && Trimmed(n) && n[0] !in ";#[" && CommentFree(n) && (forall c :: c in n ==> c != '=' && c != ':')
    && CleanValue(v)
  }

  predicate CleanValue(v: string) { Trimmed(v) && CommentFree(v) && (v != "" ==> v[0] != ';') }

  /** A line that means what it was printed from. */
  predicate Clean(it: Item) {
    match it
    case Comment(t) => t != "" && t[0] in ";#"
    case Blank => true
    case Header(n) => |n| < MAX_SECTION && ']' !in n && CommentFree(n)
    case Pair(n, v) => CleanPair(n, v)
  }

  /** The printed line is one line, and fits the reader's buffer. */
  predicate OneLine(it: Item) {
    |Text(it)| < INI_MAX_LINE && forall k :: 0 <= k < |Text(it)| - 1 ==> Text(it)[k] != '\n'
  }

  // ----- Single lines -----

  /** A printed pair without its trailing whitespace. */
  function PairText(n: string, v: string): string { n + " =" + (if v == "" then "" else " " + v) }

  lemma StripPair(n: string, v: string)
    requires v != "" ==> !IsSpace(v[|v| - 1])
    ensures RStrip(n + " = " + v + "\n") == PairText(n, v)
  {
    var line, t := n + " = " + v + "\n", PairText(n, v);
    assert v == "" ==> line == t + " \n";
    assert v != "" ==> line == t + "\n";
    assert t[|t| - 1] == if v == "" then '=' else v[|v| - 1];
    RStripTo(line, |t|);
  }

  lemma FindSeparator(n: string, v: string)
    requires CommentFree(n) && forall c :: c in n ==> c != '=' && c != ':'
    ensures Find(PairText(n, v), "=:", false) == |n| + 1
  {
    var t := PairText(n, v);
    assert t[|n|] == ' ' && t[|n| + 1] == '=';
    forall i | 0 <= i < |n| + 1 ensures !Stop(t, "=:", false, i) {
      if i < |n| {
        assert t[i] == n[i] && n[i] in n;
        assert i > 0 ==> t[i - 1] == n[i - 1];
      }
    }
    FindAt(t, "=:", false, |n| + 1);
  }

  lemma ValueBack(v: string)
    requires CleanValue(v)
    ensures v == "" ==> ValueOf("") == v
    ensures v != "" ==> ValueOf(" " + v) == v
  {
    if v != "" {
      var t := " " + v;
      forall i | 0 <= i < |t| ensures !Stop(t, "", false, i) {
        assert i > 0 ==> t[i] == v[i - 1];
        assert i > 1 ==> t[i - 1] == v[i - 2];
      }
      FindAt(t, "", false, |t|);
      LSkipTo(t, 1);
      RStripTo(v, |v|);
      assert t[..|t|] == t && t[1..] == v && v[..|v|] == v;
    }
  }

  /** The separator splits a stripped clean pair into its name and value. */
  lemma SplitPair<S>(p: Parse<S>, h: Handler<S>, n: string, v: string)
    requires CleanPair(n, v)
    ensures PairLine(p, h, PairText(n, v)) == p.(prevName := Clip(n, MAX_NAME)).Call(h, n, v)
  {
    hide RStrip, LSkip, Find, ValueOf;
    var t := PairText(n, v);
    FindSeparator(n, v);
    assert t[..|n| + 1] == n + " ";
    RStripTo(n + " ", |n|);
    assert (n + " ")[..|n|] == n;
    ValueBack(v);
    assert t[|n| + 2..] == if v == "" then "" else " " + v;
  }

  /** Reading a clean printed pair calls the handler with exactly that name and value. */
  lemma ReadPair<S>(p: Parse<S>, h: Handler<S>, n: string, v: string)
    requires CleanPair(n, v) && (p.lineno == 0 ==> !HasBom(Text(Pair(n, v))))
    ensures Step(p, h, Text(Pair(n, v))) == p.(lineno := p.lineno + 1, prevName := Clip(n, MAX_NAME)).Call(h, n, v)
  {
    hide RStrip, LSkip, PairLine, SectionLine, HasBom;
    var t := PairText(n, v);
    StripPair(n, v);
    assert t[0] == n[0];
    LSkipTo(t, 0);
    assert t[0..] == t;
    SplitPair(p.(lineno := p.lineno + 1), h, n, v);
  }

  lemma HeaderStripped(n: string)
    ensures RStrip(Text(Header(n))) == "[" + n + "]" && LSkip("[" + n + "]") == "[" + n + "]"
  {
    hide RStrip, LSkip;
    var line, t := Text(Header(n)), "[" + n + "]";
    assert line == t + "\n";
    RStripTo(line, |t|);
    LSkipTo(t, 0);
    assert line[..|t|] == t && t[0..] == t;
  }

  lemma HeaderEnds(n: string)
    requires ']' !in n && CommentFree(n)
    ensures Find(n + "]", "]", false) == |n|
  {
    hide Find;
    var u := n + "]";
    forall i | 0 <= i < |n| ensures !Stop(u, "]", false, i) {
      assert u[i] == n[i];
      assert i > 0 ==> u[i - 1] == n[i - 1];
    }
    FindAt(u, "]", false, |n|);
  }

  lemma ReadHeader<S>(p: Parse<S>, h: Handler<S>, n: string)
    requires |n| < MAX_SECTION && ']' !in n && CommentFree(n)
    ensures Step(p, h, Text(Header(n))) == p.(lineno := p.lineno + 1, section := n, prevName := "")
  {
    hide RStrip, LSkip, Find, PairLine;
    HeaderStripped(n);
    HeaderEnds(n);
    var t := "[" + n + "]";
    assert t[1..] == n + "]" && t[1..1 + |n|] == n;
  }

  lemma ReadOther<S>(p: Parse<S>, h: Handler<S>, it: Item)
    requires Clean(it) && (it.Comment? || it.Blank?)
    ensures Step(p, h, Text(it)) == p.(lineno := p.lineno + 1)
  {
    hide RStrip, LSkip, Find;
    var line := Text(it);
    RStripFacts(line);
    var r := RStrip(line);
    if it.Comment? {
      assert line[0] == it.text[0];
      assert |r| == 0 ==> IsSpace(line[0]);
      LSkipTo(r, 0);
      assert r[0..] == r;
    } else {
      RStripTo(line, 0);
      LSkipTo("", 0);
    }
  }

  // ----- Whole files -----

  lemma {:induction false} PieceOfLine(t: string, rest: string, limit: nat)
    requires t != "" && |t| <= limit && t[|t| - 1] == '\n' && forall k :: 0 <= k < |t| - 1 ==> t[k] != '\n'
    ensures PieceLength(t + rest, limit) == |t|
  {
    assert (t + rest)[0] == t[0];
    if |t| > 1 {
      PieceOfLine(t[1..], rest, limit - 1);
      assert (t + rest)[1..] == t[1..] + rest;
    }
  }

  function Texts(items: seq<Item>): seq<string> { if items == [] then [] else [Text(items[0])] + Texts(items[1..]) }

  /** The reader hands a printed file back line by line. */
  lemma {:induction false} PiecesOfPrint(items: seq<Item>)
    requires forall i :: 0 <= i < |items| ==> OneLine(items[i])
    ensures Pieces(Print(items), INI_MAX_LINE - 1) == Texts(items)
  {
    if items != [] {
      hide Text, Pieces, PieceLength;
      var t, rest := Text(items[0]), Print(items[1..]);
      TextEnds(items[0]);
      PieceOfLine(t, rest, INI_MAX_LINE - 1);
      PiecesUnfold(t + rest, INI_MAX_LINE - 1, |t|);
      assert (t + rest)[..|t|] == t && (t + rest)[|t|..] == rest;
      PiecesOfPrint(items[1..]);
    } else {
      NoPieces(INI_MAX_LINE - 1);
    }
  }

  lemma NoPieces(limit: nat)
    requires limit > 0
    ensures Pieces("", limit) == []
  {
  }

  lemma TextEnds(it: Item)
    ensures var t := Text(it); t != "" && t[|t| - 1] == '\n'
  {
  }

  /** What one printed line means to the handler, under a section. */
  function ItemMeaning<S>(user: S, h: Handler<S>, section: string, it: Item): (S, string, bool) {
    match it
    case Comment(_) => (user, section, true)
    case Blank => (user, section, true)
    case Header(n) => (user, n, true)
    case Pair(n, v) => var (user2, ok) := h(user, section, n, v); (user2, section, ok)
  }

  /** The meaning of a printed file: the pairs in order, each under the last header before it. */
  function Meaning<S>(user: S, h: Handler<S>, section: string, items: seq<Item>): (S, string, bool)
    decreases |items|
  {
    if items == [] then (user, section, true)
    else
      var (user2, section2, ok) := ItemMeaning(user, h, section, items[0]);
      var (user3, section3, rest) := Meaning(user2, h, section2, items[1..]);
      (user3, section3, ok && rest)
  }

  lemma {:induction false} MeaningConcat<S>(user: S, h: Handler<S>, section: string, a: seq<Item>, b: seq<Item>)
    ensures var (user2, section2, ok) := Meaning(user, h, section, a); var (user3, section3, rest) := Meaning(user2, h, section2, b);
            Meaning(user, h, section, a + b) == (user3, section3, ok && rest)
    decreases |a|
  {
    if a == [] {
      assert a + b == b;
    } else {
      hide ItemMeaning;
      var (user2, section2, ok) := ItemMeaning(user, h, section, a[0]);
      MeaningConcat(user2, h, section2, a[1..], b);
      assert (a + b)[1..] == a[1..] + b && (a + b)[0] == a[0];
    }
  }

  lemma MeaningOne<S>(user: S, h: Handler<S>, section: string, it: Item)
    ensures Meaning(user, h, section, [it]) == ItemMeaning(user, h, section, it)
  {
  }

  /** A file that reads back as printed: clean lines that fit the buffer, the first not taken for a byte order mark. */
  predicate CleanFile(items: seq<Item>) {
    && (forall i :: 0 <= i < |items| ==> Clean(items[i]) && OneLine(items[i]))
    && (items != [] ==> !HasBom(Text(items[0])))
  }

  lemma {:induction false} ReadItems<S>(p: Parse<S>, h: Handler<S>, items: seq<Item>)
    requires forall i :: 0 <= i < |items| ==> Clean(items[i])
    requires items != [] && p.lineno == 0 ==> !HasBom(Text(items[0]))
    ensures var (user2, _, ok) := Meaning(p.user, h, p.section, items); var q := Steps(p, h, Texts(items));
            q.user == user2 && (q.error == 0 <==> p.error == 0 && ok)
    decreases |items|
  {
    if items != [] {
      hide Step, Text, Steps, ItemMeaning;
      var q := Step(p, h, Text(items[0]));
      StepsCons(p, h, Text(items[0]), Texts(items[1..]));
      ReadItem(p, h, items[0]);
      ReadItems(q, h, items[1..]);
    }
  }

  lemma ReadItem<S>(p: Parse<S>, h: Handler<S>, it: Item)
    requires Clean(it) && (p.lineno == 0 ==> !HasBom(Text(it)))
    ensures var (user2, section2, ok) := ItemMeaning(p.user, h, p.section, it); var q := Step(p, h, Text(it));
            && q.user == user2 && q.section == section2 && q.lineno == p.lineno + 1
            && (q.error == 0 <==> p.error == 0 && ok)
  {
    hide Step, Text, CleanPair;
    match it
    case Comment(_) => ReadOther(p, h, it);
    case Blank => ReadOther(p, h, it);
    case Header(n) => ReadHeader(p, h, n);
    case Pair(n, v) => ReadPair(p, h, n, v);
  }

  lemma StepsCons<S>(p: Parse<S>, h: Handler<S>, line: string, lines: seq<string>)
    ensures Steps(p, h, [line] + lines) == Steps(Step(p, h, line), h, lines)
  {
  }

  /** Parsing undoes printing: the handler sees exactly the printed pairs, in order, and no error is reported of its own. */
  lemma ParsingUndoesPrinting<S>(user: S, h: Handler<S>, items: seq<Item>)
    requires CleanFile(items)
    ensures var q := ParseString(user, h, Print(items)); var (user2, _, ok) := Meaning(user, h, "", items);
            q.user == user2 && (q.error == 0 <==> ok)
  {
    hide *;
    CleanFileParts(items);
    PiecesOfPrint(items);
    ReadItems(Parse(user, "", "", 0, 0), h, items);
    ParseStringIs(user, h, Print(items));
  }

  lemma CleanFileParts(items: seq<Item>)
    requires CleanFile(items)
    ensures forall i :: 0 <= i < |items| ==> Clean(items[i]) && OneLine(items[i])
    ensures items != [] ==> !HasBom(Text(items[0]))
  {
  }

  lemma ParseStringIs<S>(user: S, h: Handler<S>, text: string)
    ensures ParseString(user, h, text) == Steps(Parse(user, "", "", 0, 0), h, Pieces(text, INI_MAX_LINE - 1))
  {
  }

  // ----- The clean pairs are the only ones that read back -----

  /** A handler that records every call and accepts it. */
  function Recorder(): Handler<seq<(string, string, string)>> {
    (calls: seq<(string, string, string)>, section, name, value) => (calls + [(section, name, value)], true)
  }

  lemma ValueIsClean(v: string)
    requires v != "" && ValueOf(" " + v) == v
    ensures CommentFree(v) && v[0] != ';'
  {
    hide RStrip, LSkip, Find;
    var t := " " + v;
    var f := Find(t, "", false);
    var x := t[..f];
    FindStopsFirst(t, "", false);
    LSkipFacts(x);
    RStripFacts(LSkip(x));
    assert |x| > 0 ==> x[0] == ' ';
    assert f == |t|;
    assert !Stop(t, "", false, 1) && t[1] == v[0];
    forall k | 0 < k < |v| ensures !(IsSpace(v[k - 1]) && v[k] == ';') {
      assert !Stop(t, "", false, k + 1) && t[k] == v[k - 1] && t[k + 1] == v[k];
    }
  }

  lemma ValueIsTrimmed(rest: string)
    ensures Trimmed(ValueOf(rest))
  {
    hide RStrip, LSkip, Find;
    var x := rest[..Find(rest, "", false)];
    LSkipFacts(x);
    RStripFacts(LSkip(x));
  }

  /** What must hold of a name the parser cut out in front of a separator. */
  lemma NameIsClean(start: string, n: string)
    requires start != "" && !IsSpace(start[0]) && start[0] !in ";#[" && n != ""
    requires n == RStrip(start[..Find(start, "=:", false)])
    ensures Trimmed(n) && n[0] !in ";#[" && CommentFree(n) && forall c :: c in n ==> c != '=' && c != ':'
  {
    hide RStrip, Find, IsSpace;
    var end := Find(start, "=:", false);
    FindStopsFirst(start, "=:", false);
    RStripFacts(start[..end]);
    forall i | 0 <= i < |n|
      ensures n[i] != '=' && n[i] != ':' && (i > 0 ==> !(IsSpace(n[i - 1]) && n[i] == ';'))
    {
      assert n[i] == start[i] && !Stop(start, "=:", false, i);
      assert i > 0 ==> n[i - 1] == start[i - 1];
    }
  }

  /** A line without a byte order mark to take off. */
  lemma PlainStep<S>(p: Parse<S>, h: Handler<S>, line: string)
    requires p.lineno == 0 ==> !HasBom(line)
    ensures var start := LSkip(RStrip(line)); var q := p.(lineno := p.lineno + 1);
            Step(p, h, line) == (
              if start == "" || start[0] in ";#" then q
              else if q.prevName != "" && |start| < |RStrip(line)| then q.Call(h, q.prevName, start)
              else if start[0] == '[' then SectionLine(q, start)
              else PairLine(q, h, start))
  {
    hide RStrip, LSkip, SectionLine, PairLine, HasBom;
  }

  /** States of a parser between lines: a name kept from an earlier line starts with no space, and none is kept before the first. */
  predicate Between<S>(p: Parse<S>) {
    (p.prevName != "" ==> !IsSpace(p.prevName[0])) && (p.lineno == 0 ==> p.prevName == "")
  }

  lemma {:induction false} StepsStayBetween<S>(p: Parse<S>, h: Handler<S>, lines: seq<string>)
    requires Between(p)
    ensures Between(Steps(p, h, lines))
    decreases |lines|
  {
    if lines != [] {
      StepStaysBetween(p, h, lines[0]);
      StepsStayBetween(Step(p, h, lines[0]), h, lines[1..]);
    }
  }

  lemma StepStaysBetween<S>(p: Parse<S>, h: Handler<S>, line: string)
    requires Between(p)
    ensures Between(Step(p, h, line))
  {
    hide RStrip, LSkip, Find, ValueOf, HasBom;
    var start := LSkip(RStrip(Body(p.lineno + 1, line)));
    LSkipFacts(RStrip(Body(p.lineno + 1, line)));
    RStripFacts(start[..Find(start, "=:", false)]);
  }

  /** What a printed pair needs to reach the handler unchanged: to be clean, or to be a clean value without a name right after a header. */
  predicate ReadsBack<S>(p: Parse<S>, n: string, v: string) {
    && (p.lineno == 0 ==> !HasBom(Text(Pair(n, v))))
    && (CleanPair(n, v) || (p.prevName == "" && n == "" && CleanValue(v)))
  }

  /** In every state between lines, the printed pair is handed to the handler unchanged exactly then. */
  lemma PairReadsBackIff(p: Parse<seq<(string, string, string)>>, n: string, v: string)
    requires p.user == [] && Between(p)
    ensures Step(p, Recorder(), Text(Pair(n, v))).user == [(p.section, n, v)] <==> ReadsBack(p, n, v)
  {
    hide CleanPair, CleanValue, HasBom, Step;
    if Step(p, Recorder(), Text(Pair(n, v))).user == [(p.section, n, v)] {
      if p.lineno == 0 && HasBom(Text(Pair(n, v))) {
        BomIsLost(p, n, v);
      } else {
        ReadBackIsClean(p, n, v);
      }
    }
    if ReadsBack(p, n, v) {
      if CleanPair(n, v) {
        ReadPair(p, Recorder(), n, v);
      } else {
        ReadNameless(p, v);
      }
    }
  }

  lemma ReadNameless(p: Parse<seq<(string, string, string)>>, v: string)
    requires p.user == [] && p.prevName == "" && CleanValue(v) && (p.lineno == 0 ==> !HasBom(Text(Pair("", v))))
    ensures Step(p, Recorder(), Text(Pair("", v))).user == [(p.section, "", v)]
  {
    hide RStrip, LSkip, Find, ValueOf, HasBom;
    PlainStep(p, Recorder(), Text(Pair("", v)));
    StripPair("", v);
    var t := PairText("", v);
    LSkipTo(t, 1);
    var start := t[1..];
    FindAt(start, "=:", false, 0);
    RStripTo("", 0);
    ValueBack(v);
    assert start[..0] == "" && start[1..] == if v == "" then "" else " " + v;
    var q := PairLineCases(p.(lineno := p.lineno + 1), Recorder(), start);
  }

  /** A first pair whose name starts with a byte order mark loses it. */
  lemma BomIsLost(p: Parse<seq<(string, string, string)>>, n: string, v: string)
    requires p.user == [] && p.prevName == "" && p.lineno == 0 && HasBom(Text(Pair(n, v)))
    ensures Step(p, Recorder(), Text(Pair(n, v))).user != [(p.section, n, v)]
  {
    hide RStrip, LSkip, Find, ValueOf, PairLine, Recorder;
    var line := Text(Pair(n, v));
    var q := p.(lineno := 1);
    var r := RStrip(line[3..]);
    var start := LSkip(r);
    BomShortens(n, v, start);
    if Step(p, Recorder(), line).user == [(p.section, n, v)] { RecordedPair(q, start, n, v); }
  }

  lemma TextAt(n: string, v: string)
    ensures var line := Text(Pair(n, v));
            && |line| == |n| + |v| + 4 && line[|n|] == ' ' && line[|n| + 1] == '='
            && forall i :: 0 <= i < |n| ==> line[i] == n[i]
  {
  }

  lemma BomShortens(n: string, v: string, start: string)
    requires HasBom(Text(Pair(n, v))) && start == LSkip(RStrip(Text(Pair(n, v))[3..]))
    ensures |RStrip(start[..Find(start, "=:", false)])| < |n|
  {
    hide RStrip, LSkip, Find;
    var body := Text(Pair(n, v))[3..];
    TextAt(n, v);
    var e := |n| - 2;
    assert body[e] == Text(Pair(n, v))[|n| + 1];
    RStripFacts(body);
    LSkipFacts(RStrip(body));
    FindStopsFirst(start, "=:", false);
    var skipped := |RStrip(body)| - |start|;
    assert skipped <= e && start[e - skipped] == body[e];
    assert Stop(start, "=:", false, e - skipped);
    RStripFacts(start[..Find(start, "=:", false)]);
  }

  lemma RecordedCall(p: Parse<seq<(string, string, string)>>, name: string, value: string, n: string, v: string)
    requires p.user == [] && p.Call(Recorder(), name, value).user == [(p.section, n, v)]
    ensures name == n && value == v
  {
    assert ([] + [(p.section, name, value)])[0] == (p.section, name, value);
  }

  lemma PairLineCases<S>(p: Parse<S>, h: Handler<S>, start: string) returns (q: Parse<S>)
    ensures var end := Find(start, "=:", false);
            if end < |start| && (start[end] == '=' || start[end] == ':') then
              && q.user == p.user && q.section == p.section
              && PairLine(p, h, start) == q.Call(h, RStrip(start[..end]), ValueOf(start[end + 1..]))
            else PairLine(p, h, start).user == p.user
  {
    hide RStrip, Find, ValueOf;
    q := p.(prevName := Clip(RStrip(start[..Find(start, "=:", false)]), MAX_NAME));
  }

  /** The one recorded call of a pair line. */
  lemma RecordedPair(p: Parse<seq<(string, string, string)>>, start: string, n: string, v: string)
    requires p.user == [] && PairLine(p, Recorder(), start).user == [(p.section, n, v)]
    ensures var end := Find(start, "=:", false);
            end < |start| && n == RStrip(start[..end]) && v == ValueOf(start[end + 1..])
  {
    hide *;
    var q := PairLineCases(p, Recorder(), start);
    assert |PairLine(p, Recorder(), start).user| == 1;
    var end := Find(start, "=:", false);
    if end < |start| && (start[end] == '=' || start[end] == ':') {
      RecordedCall(q, RStrip(start[..end]), ValueOf(start[end + 1..]), n, v);
    }
  }

  lemma ReadBackIsClean(p: Parse<seq<(string, string, string)>>, n: string, v: string)
    requires p.user == [] && Between(p) && (p.lineno == 0 ==> !HasBom(Text(Pair(n, v))))
    requires Step(p, Recorder(), Text(Pair(n, v))).user == [(p.section, n, v)]
    ensures CleanPair(n, v) || (p.prevName == "" && n == "" && CleanValue(v))
  {
    hide RStrip, LSkip, Find, ValueOf, Step, PairLine, Recorder, CleanValue, HasBom;
    var line := Text(Pair(n, v));
    PlainStep(p, Recorder(), line);
    var q := p.(lineno := p.lineno + 1);
    var r := RStrip(line);
    var start := LSkip(r);
    LineStart(n, v);
    if p.prevName != "" && |start| < |r| {
      RecordedCall(q, p.prevName, start, n, v);
    } else {
      RecordedPair(q, start, n, v);
      if n == "" {
        CutNameless(v, start);
      } else {
        NameStarts(start, n);
        CutPair(n, v, start, Find(start, "=:", false));
      }
    }
  }

  /** What is left of a line with a character that is no space, once it is stripped on both sides. */
  lemma StrippedStart(line: string, k: nat)
    requires k < |line| && !IsSpace(line[k])
    ensures var r := RStrip(line); var start := LSkip(r);
            && start != "" && !IsSpace(start[0]) && |start| <= |r|
            && (IsSpace(line[0]) ==> |start| < |r|) && (!IsSpace(line[0]) ==> start == r && start[0] == line[0])
  {
    hide RStrip, LSkip, IsSpace;
    var r := RStrip(line);
    RStripFacts(line);
    LSkipFacts(r);
    assert k < |r| && r[0] == line[0];
  }

  /** Spaces at the start of a printed pair are those of its name, or the one in front of the separator. */
  lemma LineStart(n: string, v: string)
    ensures var r := RStrip(Text(Pair(n, v))); var start := LSkip(r);
            && start != "" && !IsSpace(start[0]) && |start| <= |r|
            && (n == "" || IsSpace(n[0]) ==> |start| < |r|)
            && (n != "" && !IsSpace(n[0]) ==> start == r)
  {
    hide RStrip, LSkip;
    TextAt(n, v);
    StrippedStart(Text(Pair(n, v)), |n| + 1);
  }

  lemma NameStarts(start: string, n: string)
    requires n != "" && start != "" && n == RStrip(start[..Find(start, "=:", false)])
    ensures n[0] == start[0]
  {
    hide RStrip, Find;
    RStripFacts(start[..Find(start, "=:", false)]);
  }

  /** The value of a line without a name. */
  lemma CutNameless(v: string, start: string)
    requires start == LSkip(RStrip("" + " = " + v + "\n"))
    requires var end := Find(start, "=:", false); end < |start| && v == ValueOf(start[end + 1..])
    ensures CleanValue(v)
  {
    hide RStrip, LSkip, Find, ValueOf;
    ValueIsTrimmed(start[Find(start, "=:", false) + 1..]);
    StripPair("", v);
    LSkipTo(PairText("", v), 1);
    FindAt(start, "=:", false, 0);
    if v != "" {
      assert start[1..] == " " + v;
      ValueIsClean(v);
    }
  }

  /** A stripped line with no leading space, cut into n and v at the separator, is a clean pair. */
  lemma CutPair(n: string, v: string, start: string, end: nat)
    requires start != "" && !IsSpace(start[0]) && start[0] !in ";#[" && n != ""
    requires start == RStrip(n + " = " + v + "\n") && end == Find(start, "=:", false) && end < |start|
    requires n == RStrip(start[..end]) && v == ValueOf(start[end + 1..])
    ensures CleanPair(n, v)
  {
    hide RStrip, Find, ValueOf;
    NameIsClean(start, n);
    ValueIsTrimmed(start[end + 1..]);
    StripPair(n, v);
    FindSeparator(n, v);
    if v != "" {
      assert start[end + 1..] == " " + v;
      ValueIsClean(v);
    }
  }
}
