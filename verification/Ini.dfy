/** The INI format as ini_parse_stream reads it: one state step per line, over strings without NULs. */
module Ini {
  const INI_MAX_LINE: nat := 200
  const MAX_SECTION: nat := 50
  const MAX_NAME: nat := 50

  /** isspace in the C locale */
  predicate IsSpace(c: char) { c == ' ' || '\t' <= c <= '\r' }

  function RStrip(s: string): string {
    if s != "" && IsSpace(s[|s| - 1]) then RStrip(s[..|s| - 1]) else s
  }

  function LSkip(s: string): string {
    if s != "" && IsSpace(s[0]) then LSkip(s[1..]) else s
  }

  /** Offset of the first of `chars`, or of a ';' after whitespace, or of the end. */
  function Find(s: string, chars: string, wasSpace: bool): (k: nat)
    ensures k <= |s|
  {
    if s == "" || s[0] in chars || (wasSpace && s[0] == ';') then 0
    else 1 + Find(s[1..], chars, IsSpace(s[0]))
  }

  /** What strncpy0 keeps of s in a buffer of `size` characters. */
  function Clip(s: string, size: nat): (r: string)
    requires size > 0
    ensures r <= s && |r| < size && (r == s || |r| == size - 1)
  {
    if |s| < size then s else s[..size - 1]
  }

  /** The handler's effect on the user's state, and whether it accepted the pair. */
  type Handler<!S> = (S, string, string, string) -> (S, bool)

  datatype Parse<S> = Parse(user: S, section: string, prevName: string, lineno: nat, error: nat)
  {
    /** Call the handler, recording the line when it refuses. */
    function Call(h: Handler<S>, name: string, value: string): Parse<S> {
      var (user2, ok) := h(user, section, name, value);
      this.(user := user2).Check(ok)
    }

    /** Only the first failing line is recorded. */
    function Check(ok: bool): Parse<S> {
      if !ok && error == 0 then this.(error := lineno) else this
    }
  }

  predicate HasBom(s: string) { |s| >= 3 && s[0] == '\U{EF}' && s[1] == '\U{BB}' && s[2] == '\U{BF}' }

  /** The line without the byte order mark a first line may start with. */
  function Body(lineno: nat, line: string): string { if lineno == 1 && HasBom(line) then line[3..] else line }

  /** A line that starts with '[' */
  function SectionLine<S>(p: Parse<S>, start: string): Parse<S>
    requires start != ""
  {
    var end := Find(start[1..], "]", false);
    if end < |start| - 1 && start[1 + end] == ']' then
      p.(section := Clip(start[1..1 + end], MAX_SECTION), prevName := "")
    else p.Check(false)
  }

  function ValueOf(rest: string): string { RStrip(LSkip(rest[..Find(rest, "", false)])) }

  /** A line that should read name=value or name:value */
  function PairLine<S>(p: Parse<S>, h: Handler<S>, start: string): Parse<S> {
    var end := Find(start, "=:", false);
    if end < |start| && (start[end] == '=' || start[end] == ':') then
      var name := RStrip(start[..end]);
      p.(prevName := Clip(name, MAX_NAME)).Call(h, name, ValueOf(start[end + 1..]))
    else p.Check(false)
  }

  /** One turn of the loop of ini_parse_stream. */
  function Step<S>(p: Parse<S>, h: Handler<S>, line: string): Parse<S> {
    var q := p.(lineno := p.lineno + 1);
    var stripped := RStrip(Body(q.lineno, line));
    var start := LSkip(stripped);
    if start == "" || start[0] == ';' || start[0] == '#' then q
    else if q.prevName != "" && |start| < |stripped| + (|line| - |Body(q.lineno, line)|) then q.Call(h, q.prevName, start)
    else if start[0] == '[' then SectionLine(q, start)
    else PairLine(q, h, start)
  }

  function Steps<S>(p: Parse<S>, h: Handler<S>, lines: seq<string>): Parse<S>
    decreases |lines|
  {
    if lines == [] then p else Steps(Step(p, h, lines[0]), h, lines[1..])
  }

  // ----- What the scanning functions find -----

  lemma {:induction false} RStripFacts(s: string)
    ensures var r := RStrip(s);
            && |r| <= |s| && r == s[..|r|] && (r != "" ==> !IsSpace(r[|r| - 1]))
            && forall k :: |r| <= k < |s| ==> IsSpace(s[k])
  {
    if s != "" && IsSpace(s[|s| - 1]) { RStripFacts(s[..|s| - 1]); }
  }

  lemma {:induction false} LSkipFacts(s: string)
    ensures var r := LSkip(s);
            && |r| <= |s| && r == s[|s| - |r|..] && (r != "" ==> !IsSpace(r[0]))
            && forall k :: 0 <= k < |s| - |r| ==> IsSpace(s[k])
  {
    if s != "" && IsSpace(s[0]) {
      hide IsSpace;
      LSkipFacts(s[1..]);
      var r := LSkip(s[1..]);
      assert LSkip(s) == r && s[1..][|s| - 1 - |r|..] == s[|s| - |r|..];
      assert forall k :: 0 < k < |s| - |r| ==> s[k] == s[1..][k - 1];
    } else {
      assert s[0..] == s;
    }
  }

  /** Where Find stops: at one of the characters, or at a ';' after whitespace. */
  predicate Stop(s: string, chars: string, wasSpace: bool, i: nat)
    requires i < |s|
  {
    s[i] in chars || ((if i == 0 then wasSpace else IsSpace(s[i - 1])) && s[i] == ';')
  }

  lemma {:induction false} FindStopsFirst(s: string, chars: string, wasSpace: bool)
    ensures var k := Find(s, chars, wasSpace);
            && (k < |s| ==> Stop(s, chars, wasSpace, k))
            && forall i :: 0 <= i < k ==> !Stop(s, chars, wasSpace, i)
  {
    if s != "" && !Stop(s, chars, wasSpace, 0) {
      FindStopsFirst(s[1..], chars, IsSpace(s[0]));
      var k := Find(s, chars, wasSpace);
      forall i | 0 < i < |s| ensures Stop(s, chars, wasSpace, i) == Stop(s[1..], chars, IsSpace(s[0]), i - 1) {
      }
    }
  }

  /** A string is its own RStrip up to the last character that is no space. */
  lemma RStripTo(s: string, k: nat)
    requires k <= |s| && (k > 0 ==> !IsSpace(s[k - 1])) && forall i :: k <= i < |s| ==> IsSpace(s[i])
    ensures RStrip(s) == s[..k]
  {
  }

  lemma LSkipTo(s: string, k: nat)
    requires k <= |s| && (k < |s| ==> !IsSpace(s[k])) && forall i :: 0 <= i < k ==> IsSpace(s[i])
    ensures LSkip(s) == s[k..]
  {
    LSkipFacts(s);
    var r := LSkip(s);
    assert |r| > 0 ==> s[|s| - |r|] == r[0];
  }

  lemma FindAt(s: string, chars: string, wasSpace: bool, k: nat)
    requires k <= |s| && (k < |s| ==> Stop(s, chars, wasSpace, k))
    requires forall i :: 0 <= i < k ==> !Stop(s, chars, wasSpace, i)
    ensures Find(s, chars, wasSpace) == k
  {
    FindStopsFirst(s, chars, wasSpace);
  }

  // ----- Lines as the string reader hands them out -----

  /** Length of the next piece: through a newline, or `limit` characters, or all that is left. */
  function PieceLength(s: string, limit: nat): (k: nat)
    ensures k <= |s| && k <= limit && (s != "" && limit > 0 ==> k > 0)
  {
    if s == "" || limit == 0 then 0
    else if s[0] == '\n' then 1
    else 1 + PieceLength(s[1..], limit - 1)
  }

  /** Everything a buffer of limit + 1 characters is filled with, in order. */
  function Pieces(s: string, limit: nat): seq<string>
    requires limit > 0
    decreases |s|
  {
    if s == "" then []
    else
      var k := PieceLength(s, limit);
      [s[..k]] + Pieces(s[k..], limit)
  }

  function ParseString<S>(user: S, h: Handler<S>, text: string): Parse<S> {
    Steps(Parse(user, "", "", 0, 0), h, Pieces(text, INI_MAX_LINE - 1))
  }

  function Concat(ss: seq<string>): string { if ss == [] then "" else ss[0] + Concat(ss[1..]) }

  lemma {:induction false} PieceShape(s: string, limit: nat)
    requires s != "" && limit > 0
    ensures var k := PieceLength(s, limit);
            && (forall i :: 0 <= i < k - 1 ==> s[i] != '\n')
            && (k < limit && k < |s| ==> s[k - 1] == '\n')
  {
    if s[0] != '\n' && |s| > 1 && limit > 1 { PieceShape(s[1..], limit - 1); }
  }

  /** A piece fits the buffer, and is cut only after a newline, when the buffer is full, or at the end of the text. */
  ghost predicate IsPiece(p: string, limit: nat, last: bool) {
    && 0 < |p| <= limit && (forall k :: 0 <= k < |p| - 1 ==> p[k] != '\n')
    && (p[|p| - 1] == '\n' || |p| == limit || last)
  }

  lemma PiecesUnfold(s: string, limit: nat, k: nat)
    requires s != "" && limit > 0 && k == PieceLength(s, limit)
    ensures 0 < k <= |s| && Pieces(s, limit) == [s[..k]] + Pieces(s[k..], limit)
    ensures IsPiece(s[..k], limit, Pieces(s[k..], limit) == [])
  {
    PieceShape(s, limit);
    hide PieceLength;
  }

  lemma ConcatCons(x: string, ss: seq<string>)
    ensures Concat([x] + ss) == x + Concat(ss)
  {
  }

  /** The pieces put together are the text, and each is cut only where it has to be. */
  lemma {:induction false} PiecesCoverText(s: string, limit: nat)
    requires limit > 0
    ensures Concat(Pieces(s, limit)) == s
    ensures forall i :: 0 <= i < |Pieces(s, limit)| ==> IsPiece(Pieces(s, limit)[i], limit, i == |Pieces(s, limit)| - 1)
    decreases |s|
  {
    if s != "" {
      hide IsPiece, Pieces, PieceLength, Concat;
      var k := PieceLength(s, limit);
      PiecesUnfold(s, limit, k);
      ConcatCons(s[..k], Pieces(s[k..], limit));
      PiecesCoverText(s[k..], limit);
    }
  }

  // ----- The return value -----

  /** Characters a .. b - 1 are s from `from` on without the whitespace around it. */
  ghost predicate Trims(s: string, from: nat, a: nat, b: nat) {
    && from <= a <= b <= |s|
    && (forall k :: from <= k < a || b <= k < |s| ==> IsSpace(s[k]))
    && (a < b ==> !IsSpace(s[a]) && !IsSpace(s[b - 1]))
  }

  /** An inline comment starts at t[i]: a ';' after whitespace. */
  predicate CommentAt(t: string, i: nat) { 0 < i < |t| && IsSpace(t[i - 1]) && t[i] == ';' }

  /** The section name in front of t[e] is closed there: at the first ']', with no inline comment before it. */
  predicate Closes(t: string, e: nat) {
    0 < e < |t| && t[e] == ']' && forall i :: 0 < i < e ==> t[i] != ']' && !CommentAt(t, i)
  }

  /** Name and value are separated at t[e]: the first '=' or ':', with no inline comment before it. */
  predicate Separates(t: string, e: nat) {
    e < |t| && (t[e] == '=' || t[e] == ':') && forall i :: 0 <= i < e ==> t[i] != '=' && t[i] != ':' && !CommentAt(t, i)
  }

  /** The value behind t[e] ends at t[c]: at the end of the line, or where an inline comment starts. */
  predicate ValueEnds(t: string, e: nat, c: nat) {
    e < c <= |t| && (c == |t| || CommentAt(t, c)) && forall i :: e < i < c ==> !CommentAt(t, i)
  }

  /** The value behind the separator at t[e]: up to where it ends, without the whitespace around it. */
  ghost predicate ValueAt(t: string, e: nat, value: string) {
    exists c: nat, x: nat, y: nat :: ValueEnds(t, e, c) && Trims(t[..c], e + 1, x, y) && value == t[x..y]
  }

  /** The name in front of the separator at t[e], without the whitespace behind it. */
  ghost predicate NameAt(t: string, e: nat, name: string) {
    e <= |t| && exists n: nat :: Trims(t[..e], 0, 0, n) && name == t[..n]
  }

  ghost predicate PairAt(t: string, e: nat, name: string, value: string) { Separates(t, e) && NameAt(t, e, name) && ValueAt(t, e, value) }

  /** Where the line proper starts: after the byte order mark of a first line. */
  function BodyStart<S>(p: Parse<S>, line: string): (k: nat)
    ensures k <= |line|
  {
    if p.lineno == 0 && HasBom(line) then 3 else 0
  }

  /**
   * The parser cannot use the line, or the handler refuses what it says: a continuation whose call is refused, a section name
   * that is not closed, or a line without a separator or whose call is refused.
   */
  ghost predicate BadLine<S>(p: Parse<S>, h: Handler<S>, line: string) {
    exists a: nat, b: nat :: Trims(line, BodyStart(p, line), a, b) && a < b && BadText(p, h, line[a..b], a > 0)
  }

  ghost predicate BadText<S>(p: Parse<S>, h: Handler<S>, t: string, indented: bool)
    requires t != ""
  {
    && t[0] != ';' && t[0] != '#'
    && if p.prevName != "" && indented then !h(p.user, p.section, p.prevName, t).1
       else if t[0] == '[' then forall e: nat :: !Closes(t, e)
       else (forall e: nat :: !Separates(t, e)) || exists e: nat, name, value :: PairAt(t, e, name, value) && !h(p.user, p.section, name, value).1
  }

  lemma TrimmedOnce(s: string, from: nat, a: nat, b: nat, a2: nat, b2: nat)
    requires Trims(s, from, a, b) && Trims(s, from, a2, b2) && a < b
    ensures a2 == a && b2 == b
  {
  }

  /** What stripping on both sides leaves. */
  lemma StrippedTrims(s: string, from: nat)
    requires from <= |s|
    ensures var r := RStrip(s[from..]); var t := LSkip(r); var b := from + |r|;
            |t| <= |r| <= |s| - from && Trims(s, from, b - |t|, b) && t == s[b - |t|..b]
  {
    hide RStrip, LSkip, IsSpace;
    var r := RStrip(s[from..]);
    var t := LSkip(r);
    RStripFacts(s[from..]);
    LSkipFacts(r);
    assert forall k :: 0 <= k < |r| ==> r[k] == s[from + k];
    assert forall k :: from <= k < |s| ==> s[k] == s[from..][k - from];
  }

  /** The scan for ']' finds where the section name is closed. */
  lemma FindCloses(t: string)
    requires t != "" && !IsSpace(t[0])
    ensures var e := 1 + Find(t[1..], "]", false);
            && (e < |t| && t[e] == ']' ==> Closes(t, e))
            && (!(e < |t| && t[e] == ']') ==> forall x: nat :: !Closes(t, x))
  {
    hide Find, IsSpace;
    FindStopsFirst(t[1..], "]", false);
    assert forall i :: 0 <= i < |t| - 1 ==> (Stop(t[1..], "]", false, i) <==> t[i + 1] == ']' || CommentAt(t, i + 1));
    var e := 1 + Find(t[1..], "]", false);
    forall i | 0 < i < e ensures t[i] != ']' && !CommentAt(t, i) {
      assert !Stop(t[1..], "]", false, i - 1);
    }
  }

  lemma ClosesOnce(t: string, e: nat, e2: nat)
    requires Closes(t, e) && Closes(t, e2)
    ensures e == e2
  {
  }

  lemma SeparatesOnce(t: string, e: nat, e2: nat)
    requires Separates(t, e) && Separates(t, e2)
    ensures e == e2
  {
  }

  /** The scan for a separator finds it. */
  lemma FindSeparates(t: string)
    ensures var e := Find(t, "=:", false);
            && (e < |t| && (t[e] == '=' || t[e] == ':') ==> Separates(t, e))
            && (!(e < |t| && (t[e] == '=' || t[e] == ':')) ==> forall x: nat :: !Separates(t, x))
  {
    hide Find, IsSpace;
    FindStopsFirst(t, "=:", false);
    assert forall i :: 0 <= i < |t| ==> (Stop(t, "=:", false, i) <==> t[i] == '=' || t[i] == ':' || CommentAt(t, i));
  }

  /** The value is what is behind the separator up to an inline comment, without the whitespace around it. */
  lemma ValueOfIs(t: string, e: nat)
    requires e < |t| && !IsSpace(t[e])
    ensures ValueAt(t, e, ValueOf(t[e + 1..]))
  {
    hide Find, RStrip, LSkip, IsSpace;
    var rest := t[e + 1..];
    var f := Find(rest, "", false);
    var c := e + 1 + f;
    FindStopsFirst(rest, "", false);
    assert forall i :: 0 <= i < |rest| ==> (Stop(rest, "", false, i) <==> CommentAt(t, e + 1 + i));
    forall i | e < i < c ensures !CommentAt(t, i) {
      assert !Stop(rest, "", false, i - e - 1);
    }
    assert rest[..f] == t[..c][e + 1..];
    var x, y := TrimmedValue(t[..c], e + 1);
    assert t[x..y] == t[..c][x..y];
    hide Trims;
    assert ValueEnds(t, e, c);
  }

  /** Skipping first and stripping afterwards leaves the same. */
  lemma TrimmedValue(s: string, from: nat) returns (x: nat, y: nat)
    requires from <= |s|
    ensures Trims(s, from, x, y) && RStrip(LSkip(s[from..])) == s[x..y]
  {
    hide RStrip, LSkip, IsSpace;
    var t := LSkip(s[from..]);
    var r := RStrip(t);
    LSkipFacts(s[from..]);
    RStripFacts(t);
    x := |s| - |t|;
    y := x + |r|;
    assert forall k :: from <= k < |s| ==> s[k] == s[from..][k - from];
    assert forall k :: 0 <= k < |t| ==> t[k] == s[x + k];
  }

  lemma NameIs(t: string, e: nat) returns (n: nat)
    requires e <= |t| && (e > 0 ==> !IsSpace(t[0]))
    ensures Trims(t[..e], 0, 0, n) && RStrip(t[..e]) == t[..n] && NameAt(t, e, RStrip(t[..e]))
  {
    hide RStrip, IsSpace;
    RStripFacts(t[..e]);
    n := |RStrip(t[..e])|;
    assert forall k :: 0 <= k < e ==> t[..e][k] == t[k];
  }

  /** What a line with text t does to the state q in which it is counted already. */
  ghost predicate TextDone<S>(q: Parse<S>, h: Handler<S>, t: string, indented: bool, q2: Parse<S>)
    requires t != ""
  {
    if t[0] == ';' || t[0] == '#' then q2 == q
    else if q.prevName != "" && indented then q2 == q.Call(h, q.prevName, t)
    else if t[0] == '[' then SectionDone(q, t, q2)
    else PairDone(q, h, t, q2)
  }

  ghost predicate SectionDone<S>(q: Parse<S>, t: string, q2: Parse<S>) {
    && ((forall e: nat :: !Closes(t, e)) ==> q2 == q.Check(false))
    && (forall e: nat :: Closes(t, e) ==> q2 == q.(section := Clip(t[1..e], MAX_SECTION), prevName := ""))
  }

  ghost predicate PairDone<S>(q: Parse<S>, h: Handler<S>, t: string, q2: Parse<S>) {
    && ((forall e: nat :: !Separates(t, e)) ==> q2 == q.Check(false))
    && (forall e: nat, name, value :: PairAt(t, e, name, value) ==> q2 == q.(prevName := Clip(name, MAX_NAME)).Call(h, name, value))
  }

  lemma SectionLineDone<S>(q: Parse<S>, t: string)
    requires t != "" && !IsSpace(t[0])
    ensures SectionDone(q, t, SectionLine(q, t))
  {
    hide Find, Closes, Clip, IsSpace;
    FindCloses(t);
    var e := 1 + Find(t[1..], "]", false);
    assert t[1..][..e - 1] == t[1..e];
    forall x: nat | Closes(t, x) && Closes(t, e) ensures x == e { ClosesOnce(t, x, e); }
  }

  lemma PairLineDone<S>(q: Parse<S>, h: Handler<S>, t: string)
    requires t != "" && !IsSpace(t[0])
    ensures PairDone(q, h, t, PairLine(q, h, t))
  {
    hide Find, RStrip, ValueOf, NameAt, ValueAt, Separates, IsSpace;
    FindSeparates(t);
    var e := Find(t, "=:", false);
    if e < |t| && (t[e] == '=' || t[e] == ':') {
      var n := NameIs(t, e);
      SeparatorIsNoSpace(t, e);
      ValueOfIs(t, e);
      forall x: nat, name, value | PairAt(t, x, name, value) ensures x == e && name == RStrip(t[..e]) && value == ValueOf(t[e + 1..]) {
        PairOnce(t, e, RStrip(t[..e]), ValueOf(t[e + 1..]), x, name, value);
      }
    }
  }

  lemma SeparatorIsNoSpace(t: string, e: nat)
    requires e < |t| && (t[e] == '=' || t[e] == ':')
    ensures !IsSpace(t[e])
  {
  }

  lemma BlankTrims(s: string, from: nat, a: nat, a2: nat, b2: nat)
    requires Trims(s, from, a, a) && Trims(s, from, a2, b2)
    ensures a2 == b2
  {
    assert forall k :: from <= k < |s| ==> IsSpace(s[k]);
  }

  lemma TrimsEqual(s: string, from: nat, a: nat, b: nat, a2: nat, b2: nat)
    requires Trims(s, from, a, b) && Trims(s, from, a2, b2)
    ensures s[a..b] == s[a2..b2] && b - a == b2 - a2
  {
    if a < b { TrimmedOnce(s, from, a, b, a2, b2); } else { BlankTrims(s, from, a, a2, b2); }
  }

  lemma PairOnce(t: string, e: nat, name: string, value: string, e2: nat, name2: string, value2: string)
    requires PairAt(t, e, name, value) && PairAt(t, e2, name2, value2)
    ensures e == e2 && name == name2 && value == value2
  {
    SeparatesOnce(t, e, e2);
    hide Separates, ValueEnds, Trims;
    var n: nat :| Trims(t[..e], 0, 0, n) && name == t[..n];
    var n2: nat :| Trims(t[..e], 0, 0, n2) && name2 == t[..n2];
    TrimsEqual(t[..e], 0, 0, n, 0, n2);
    ValueOnce(t, e, value, value2);
  }

  lemma ValueOnce(t: string, e: nat, value: string, value2: string)
    requires ValueAt(t, e, value) && ValueAt(t, e, value2)
    ensures value == value2
  {
    var c: nat, x: nat, y: nat :| ValueEnds(t, e, c) && Trims(t[..c], e + 1, x, y) && value == t[x..y];
    var c2: nat, x2: nat, y2: nat :| ValueEnds(t, e, c2) && Trims(t[..c2], e + 1, x2, y2) && value2 == t[x2..y2];
    EndsOnce(t, e, c, c2);
    TrimsEqual(t[..c], e + 1, x, y, x2, y2);
    assert t[..c][x..y] == t[x..y] && t[..c][x2..y2] == t[x2..y2];
  }

  lemma EndsOnce(t: string, e: nat, c: nat, c2: nat)
    requires ValueEnds(t, e, c) && ValueEnds(t, e, c2)
    ensures c == c2
  {
  }

  /** One turn of the loop, on the characters of the line: blank lines are counted, the others do what their text says. */
  lemma StepOnChars<S>(p: Parse<S>, h: Handler<S>, line: string, a: nat, b: nat)
    requires Trims(line, BodyStart(p, line), a, b)
    ensures a == b ==> Step(p, h, line) == p.(lineno := p.lineno + 1)
    ensures a < b ==> TextDone(p.(lineno := p.lineno + 1), h, line[a..b], a > 0, Step(p, h, line))
  {
    var from, q := BodyStart(p, line), p.(lineno := p.lineno + 1);
    StrippedTrims(line, from);
    hide RStrip, LSkip, SectionLine, PairLine, HasBom, TextDone;
    var r := RStrip(line[from..]);
    var t := LSkip(r);
    assert Body(q.lineno, line) == line[from..];
    if a < b {
      TrimmedOnce(line, from, a, b, from + |r| - |t|, from + |r|);
      TextSteps(p, h, line, a, b, r, t);
    } else {
      BlankTrims(line, from, a, from + |r| - |t|, from + |r|);
    }
  }

  lemma TextSteps<S>(p: Parse<S>, h: Handler<S>, line: string, a: nat, b: nat, r: string, t: string)
    requires a < b <= |line| && t == line[a..b] && !IsSpace(t[0])
    requires r == RStrip(Body(p.lineno + 1, line)) && t == LSkip(r) && a == |line| - |Body(p.lineno + 1, line)| + |r| - |t|
    ensures TextDone(p.(lineno := p.lineno + 1), h, line[a..b], a > 0, Step(p, h, line))
  {
    hide RStrip, LSkip, SectionLine, PairLine, Body, SectionDone, PairDone, IsSpace;
    var q := p.(lineno := p.lineno + 1);
    SectionLineDone(q, t);
    PairLineDone(q, h, t);
  }

  lemma DoneFails<S>(p: Parse<S>, h: Handler<S>, t: string, indented: bool, q: Parse<S>)
    requires t != "" && p.error == 0 && TextDone(p.(lineno := p.lineno + 1), h, t, indented, q)
    requires forall e: nat :: Separates(t, e) ==> exists name, value :: PairAt(t, e, name, value)
    ensures q.error != 0 <==> BadText(p, h, t, indented)
  {
    hide Closes, Separates, Clip, PairAt;
  }

  lemma PairsThere(t: string)
    requires t != "" && !IsSpace(t[0])
    ensures forall e: nat :: Separates(t, e) ==> exists name, value :: PairAt(t, e, name, value)
  {
    hide NameAt, ValueAt, RStrip, ValueOf;
    forall e: nat | Separates(t, e) ensures exists name, value :: PairAt(t, e, name, value) {
      var n := NameIs(t, e);
      ValueOfIs(t, e);
      assert PairAt(t, e, RStrip(t[..e]), ValueOf(t[e + 1..]));
    }
  }

  /** A line fails exactly when it is bad. */
  lemma StepFails<S>(p: Parse<S>, h: Handler<S>, line: string)
    requires p.error == 0
    ensures Step(p, h, line).error != 0 <==> BadLine(p, h, line)
  {
    hide Step, RStrip, LSkip, TextDone, BadText, BodyStart, PairAt, Separates;
    var from := BodyStart(p, line);
    StrippedTrims(line, from);
    var r := RStrip(line[from..]);
    var a, b := from + |r| - |LSkip(r)|, from + |r|;
    StepOnChars(p, h, line, a, b);
    if a < b {
      PairsThere(line[a..b]);
      hide Trims;
      DoneFails(p, h, line[a..b], a > 0, Step(p, h, line));
      if BadLine(p, h, line) {
        var a2: nat, b2: nat :| Trims(line, from, a2, b2) && a2 < b2 <= |line| && BadText(p, h, line[a2..b2], a2 > 0);
        TrimmedOnce(line, from, a, b, a2, b2);
      }
    } else {
      forall a2: nat, b2: nat | Trims(line, from, a2, b2) ensures a2 == b2 { BlankTrims(line, from, a, a2, b2); }
    }
  }

  lemma StepError<S>(p: Parse<S>, h: Handler<S>, line: string)
    ensures var q, q0 := Step(p, h, line), Step(p.(error := 0), h, line);
            && q.lineno == p.lineno + 1 && (q0.error == 0 || q0.error == q.lineno)
            && q == q0.(error := if p.error != 0 then p.error else q0.error)
  {
  }

  lemma {:induction false} StepsSnoc<S>(p: Parse<S>, h: Handler<S>, lines: seq<string>, line: string)
    ensures Steps(p, h, lines + [line]) == Step(Steps(p, h, lines), h, line)
    decreases |lines|
  {
    hide Step;
    if lines == [] {
      assert Steps(Step(p, h, line), h, [line][1..]) == Step(p, h, line);
      assert [] + [line] == [line];
    } else {
      StepsSnoc(Step(p, h, lines[0]), h, lines[1..], line);
      assert (lines + [line])[1..] == lines[1..] + [line];
    }
  }

  /** Line k of the run is one the parser cannot use or the handler refuses. */
  ghost predicate Fails<S>(p: Parse<S>, h: Handler<S>, lines: seq<string>, k: nat)
    requires k < |lines|
  {
    BadLine(Steps(p, h, lines[..k]), h, lines[k])
  }

  /** q is what a run over all the lines ends in: it counted them, and its error is the first that fails, or 0. */
  ghost predicate FirstFailure<S>(p: Parse<S>, h: Handler<S>, lines: seq<string>, q: Parse<S>) {
    && q.lineno == |lines| && q.error <= |lines|
    && (q.error > 0 ==> Fails(p, h, lines, q.error - 1))
    && (forall k :: 0 <= k < (if q.error > 0 then q.error - 1 else |lines|) ==> !Fails(p, h, lines, k))
  }

  /** The error is the number of the first line that fails, or 0 when none does. */
  lemma {:induction false} ErrorIsFirstFailure<S>(p: Parse<S>, h: Handler<S>, lines: seq<string>)
    requires p.error == 0 && p.lineno == 0
    ensures FirstFailure(p, h, lines, Steps(p, h, lines))
    decreases |lines|
  {
    if lines != [] {
      hide *;
      var n := |lines| - 1;
      var front := lines[..n];
      ErrorIsFirstFailure(p, h, front);
      StepsSnoc(p, h, front, lines[n]);
      assert lines == front + [lines[n]];
      OneMoreLine(p, h, front, lines[n]);
    } else {
      hide Step, Fails;
    }
  }

  lemma BadWhateverError<S>(p: Parse<S>, h: Handler<S>, line: string)
    ensures BadLine(p.(error := 0), h, line) == BadLine(p, h, line)
  {
    hide BadText;
    forall t, indented | t != "" ensures BadText(p.(error := 0), h, t, indented) == BadText(p, h, t, indented) { TextWhateverError(p, h, t, indented); }
  }

  lemma TextWhateverError<S>(p: Parse<S>, h: Handler<S>, t: string, indented: bool)
    requires t != ""
    ensures BadText(p.(error := 0), h, t, indented) == BadText(p, h, t, indented)
  {
    hide Closes, Separates, PairAt;
  }

  lemma OneMoreLine<S>(p: Parse<S>, h: Handler<S>, front: seq<string>, line: string)
    requires FirstFailure(p, h, front, Steps(p, h, front))
    ensures FirstFailure(p, h, front + [line], Step(Steps(p, h, front), h, line))
  {
    hide Step, Steps, BadLine;
    var lines := front + [line];
    StepError(Steps(p, h, front), h, line);
    StepFails(Steps(p, h, front).(error := 0), h, line);
    BadWhateverError(Steps(p, h, front), h, line);
    assert lines[..|front|] == front;
    forall k | 0 <= k < |front| ensures Fails(p, h, lines, k) <==> Fails(p, h, front, k) {
      assert lines[..k] == front[..k];
    }
  }
}
