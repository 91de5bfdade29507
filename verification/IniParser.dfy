/** ini_parse_stream and its reader as they run: over character buffers ended by a NUL, cut up in place. */
module IniParser {
  import opened Ini

  /** The buffer holds s from position i on, followed by a NUL. */
  ghost predicate Holds(b: seq<char>, i: nat, s: string) {
    i + |s| < |b| && b[i + |s|] == '\0' && forall j :: i <= j < i + |s| ==> b[j] == s[j - i] && b[j] != '\0'
  }

  lemma HoldsSuffix(b: seq<char>, i: nat, s: string, n: nat)
    requires Holds(b, i, s) && n <= |s|
    ensures Holds(b, i + n, s[n..])
  {
  }

  lemma HoldsPrefix(b: seq<char>, i: nat, s: string, n: nat)
    requires Holds(b, i, s) && n <= |s|
    ensures Holds(b[i + n := '\0'], i, s[..n])
  {
  }

  /** s + strlen(s) */
  method StrEnd(buf: array<char>, i: nat, ghost s: string) returns (e: nat)
    requires Holds(buf[..], i, s)
    ensures e == i + |s|
  {
    e := i;
    while buf[e] != '\0'
      invariant i <= e <= i + |s|
      invariant buf[i + |s|] == '\0' && forall j :: i <= j < i + |s| ==> buf[j] != '\0'
      decreases i + |s| - e
    {
      e := e + 1;
    }
  }

  /** The string a pointer into a buffer stands for. */
  method Text(buf: array<char>, i: nat, ghost s: string) returns (t: string)
    requires Holds(buf[..], i, s)
    ensures t == s
  {
    var e := StrEnd(buf, i, s);
    t := buf[i..e];
  }

  /** Strip whitespace off the end of the string at i, in place. */
  method RstripInPlace(buf: array<char>, i: nat, ghost s: string)
    requires Holds(buf[..], i, s)
    modifies buf
    ensures Holds(buf[..], i, RStrip(s))
    ensures forall k :: 0 <= k < buf.Length && !(i <= k < i + |s|) ==> buf[k] == old(buf[k])
  {
    var p := StrEnd(buf, i, s);
    ghost var t := s;
    while p > i
      invariant p == i + |t| && Holds(buf[..], i, t) && RStrip(s) == RStrip(t) && |t| <= |s|
      invariant forall k :: 0 <= k < buf.Length && !(i <= k < i + |s|) ==> buf[k] == old(buf[k])
    {
      p := p - 1;
      if !IsSpace(buf[p]) {
        break;
      }
      buf[p] := '\0';
      t := t[..|t| - 1];
    }
  }

  /** Position of the first non-whitespace character of the string at i. */
  method LskipFrom(buf: array<char>, i: nat, ghost s: string) returns (j: nat)
    requires Holds(buf[..], i, s)
    ensures i <= j <= i + |s| && Holds(buf[..], j, LSkip(s)) && |LSkip(s)| == |s| - (j - i)
  {
    j := i;
    ghost var t := s;
    while buf[j] != '\0' && IsSpace(buf[j])
      invariant i <= j <= i + |s| && |t| == |s| - (j - i) && Holds(buf[..], j, t) && LSkip(s) == LSkip(t)
      decreases |t|
    {
      j := j + 1;
      t := t[1..];
    }
  }

  /** find_chars_or_comment */
  method FindCharsOrComment(buf: array<char>, i: nat, chars: string, ghost s: string) returns (j: nat)
    requires Holds(buf[..], i, s)
    ensures j == i + Find(s, chars, false)
  {
    j := i;
    var wasSpace := false;
    ghost var t := s;
    while buf[j] != '\0' && buf[j] !in chars && !(wasSpace && buf[j] == ';')
      invariant i <= j <= i + |s| && |t| == |s| - (j - i) && Holds(buf[..], j, t)
      invariant Find(s, chars, false) == (j - i) + Find(t, chars, wasSpace)
      decreases |t|
    {
      wasSpace := IsSpace(buf[j]);
      j := j + 1;
      t := t[1..];
    }
  }

  /** Copy the string at i, or as much of it as fits, into dest. */
  method Strncpy0(dest: array<char>, src: array<char>, i: nat, ghost s: string)
    requires Holds(src[..], i, s) && dest != src && dest.Length > 0
    modifies dest
    ensures Holds(dest[..], 0, Clip(s, dest.Length))
  {
    var k: nat := 0;
    while k < dest.Length - 1 && src[i + k] != '\0'
      invariant k <= |s| && k < dest.Length
      invariant forall j :: 0 <= j < k ==> dest[j] == s[j] && dest[j] != '\0'
      decreases |s| - k
    {
      dest[k] := src[i + k];
      k := k + 1;
    }
    dest[k] := '\0';
  }

  /** The state of ini_reader_string. */
  class StringContext {
    const text: string
    var pos: nat

    constructor (text: string)
      ensures this.text == text && pos == 0
    {
      this.text := text;
      pos := 0;
    }

    /** The loop: characters are copied up to a newline, the end of the text, or the last place but one of the buffer. */
    method CopyPiece(str: array<char>, num: nat) returns (n: nat)
      requires pos <= |text| && 0 < num <= str.Length
      modifies this, str
      ensures n < num && pos == old(pos) + n <= |text| && n == PieceLength(text[old(pos)..], num - 1)
      ensures forall k :: 0 <= k < n ==> str[k] == text[old(pos) + k]
    {
      hide PieceLength;
      n := 0;
      var left := num;
      ghost var start := pos;
      while left > 1 && pos < |text|
        invariant start <= pos == start + n <= |text| && 1 <= left && n + left == num
        invariant forall k :: 0 <= k < n ==> str[k] == text[start + k]
        invariant PieceLength(text[start..], num - 1) == n + PieceLength(text[pos..], left - 1)
        decreases left
      {
        var c := text[pos];
        PieceGoesOn(text, pos, left - 1);
        pos := pos + 1;
        str[n] := c;
        n := n + 1;
        if c == '\n' { return n; }
        left := left - 1;
      }
      PieceStops(text, pos, left - 1);
    }

    /** Fill str with the next piece of the text; false at the end of the text. */
    method Read(str: array<char>, num: nat) returns (more: bool)
      requires pos <= |text| && num <= str.Length && forall k :: 0 <= k < |text| ==> text[k] != '\0'
      modifies this, str
      ensures more <==> old(pos) < |text| && num >= 2
      ensures !more ==> pos == old(pos)
      ensures more ==> pos == old(pos) + PieceLength(text[old(pos)..], num - 1) <= |text| && Holds(str[..], 0, text[old(pos)..pos])
    {
      if pos == |text| || num < 2 {
        return false;
      }
      hide PieceLength, Holds;
      var n := CopyPiece(str, num);
      str[n] := '\0';
      PieceHeld(str[..], text, old(pos), n);
      more := true;
    }
  }

  lemma PieceHeld(buffer: seq<char>, text: string, start: nat, n: nat)
    requires start + n <= |text| && n < |buffer| && buffer[n] == '\0' && forall k :: 0 <= k < n ==> buffer[k] == text[start + k]
    requires forall k :: 0 <= k < |text| ==> text[k] != '\0'
    ensures Holds(buffer, 0, text[start..start + n])
  {
  }

  lemma PieceGoesOn(text: string, pos: nat, limit: nat)
    requires pos < |text| && limit > 0
    ensures PieceLength(text[pos..], limit) == if text[pos] == '\n' then 1 else 1 + PieceLength(text[pos + 1..], limit - 1)
  {
    assert text[pos..][1..] == text[pos + 1..];
  }

  lemma PieceStops(text: string, pos: nat, limit: nat)
    requires pos <= |text|
    ensures pos == |text| || limit == 0 ==> PieceLength(text[pos..], limit) == 0
  {
  }

  /** The variables of ini_parse_stream. */
  class Parser<S> {
    const handler: Handler<S>
    const line: array<char>
    const section: array<char>
    const prevName: array<char>
    var user: S
    var lineno: nat
    var error: nat

    constructor (handler: Handler<S>, user: S)
      ensures this.handler == handler && fresh(line) && fresh(section) && fresh(prevName)
      ensures Is(Parse(user, "", "", 0, 0))
    {
      this.handler, this.user := handler, user;
      lineno, error := 0, 0;
      line := new char[INI_MAX_LINE](_ => '\0');
      section := new char[MAX_SECTION](_ => '\0');
      prevName := new char[MAX_NAME](_ => '\0');
    }

    /** The buffers and counters stand for parser state p. */
    ghost predicate Is(p: Parse<S>)
      reads this, section, prevName
    {
      && line.Length == INI_MAX_LINE && section.Length == MAX_SECTION && prevName.Length == MAX_NAME
      && line != section && line != prevName && section != prevName
      && Holds(section[..], 0, p.section) && Holds(prevName[..], 0, p.prevName)
      && user == p.user && lineno == p.lineno && error == p.error
    }

    method CallHandler(name: string, value: string, ghost p: Parse<S>)
      requires Is(p)
      modifies this`user, this`error
      ensures Is(p.Call(handler, name, value))
    {
      var sectionText := Text(section, 0, p.section);
      var (user2, ok) := handler(user, sectionText, name, value);
      user := user2;
      if !ok && error == 0 {
        error := lineno;
      }
    }

    /** A line that starts with '[' */
    method TakeSection(start: nat, ghost p: Parse<S>, ghost s: string)
      requires Is(p) && s != "" && Holds(line[..], start, s)
      modifies this`error, line, section, prevName
      ensures Is(SectionLine(p, s))
    {
      hide Find, Clip;
      HoldsSuffix(line[..], start, s, 1);
      var end := FindCharsOrComment(line, start + 1, "]", s[1..]);
      ghost var e := end - (start + 1);
      if line[end] == ']' {
        HoldsPrefix(line[..], start + 1, s[1..], e);
        line[end] := '\0';
        assert s[1..][..e] == s[1..1 + e];
        Strncpy0(section, line, start + 1, s[1..1 + e]);
        prevName[0] := '\0';
      } else if error == 0 {
        error := lineno;
      }
    }

    /** The value behind a separator: cut before an inline comment, trimmed. */
    method TakeValue(start: nat, ghost rest: string) returns (value: nat)
      requires Holds(line[..], start, rest)
      modifies line
      ensures Holds(line[..], value, ValueOf(rest))
      ensures forall k :: 0 <= k < start && k < line.Length ==> line[k] == old(line[k])
    {
      hide Find, RStrip, LSkip;
      var end := FindCharsOrComment(line, start, "", rest);
      ghost var cut := rest[..end - start];
      HoldsPrefix(line[..], start, rest, end - start);
      assert line[..][end := '\0'] == line[..end] + ['\0'] + line[end + 1..];
      if line[end] != '\0' {
        line[end] := '\0';
      }
      assert Holds(line[..], start, cut);
      value := LskipFrom(line, start, cut);
      RstripInPlace(line, value, LSkip(cut));
    }

    /** The two halves of a line at its separator, name first. */
    method TakeHalves(start: nat, end: nat, ghost p: Parse<S>, ghost s: string)
      requires Is(p) && start <= end < line.Length && Holds(line[..], start, s) && end - start == Find(s, "=:", false) < |s|
      modifies this`user, this`error, line, prevName
      ensures var name := RStrip(s[..end - start]);
              Is(p.(prevName := Clip(name, MAX_NAME)).Call(handler, name, ValueOf(s[end - start + 1..])))
    {
      hide Find, Clip, RStrip, LSkip, ValueOf;
      ghost var e := end - start;
      ghost var name, rest := RStrip(s[..e]), s[e + 1..];
      HoldsPrefix(line[..], start, s, e);
      HoldsSuffix(line[..], start, s, e + 1);
      line[end] := '\0';
      RstripInPlace(line, start, s[..e]);
      RStripFacts(s[..e]);
      var value := TakeValue(end + 1, rest);
      Strncpy0(prevName, line, start, name);
      var nameText := Text(line, start, name);
      var valueText := Text(line, value, ValueOf(rest));
      CallHandler(nameText, valueText, p.(prevName := Clip(name, MAX_NAME)));
    }

    /** A line that should read name=value or name:value */
    method TakePair(start: nat, ghost p: Parse<S>, ghost s: string)
      requires Is(p) && s != "" && Holds(line[..], start, s)
      modifies this`user, this`error, line, prevName
      ensures Is(PairLine(p, handler, s))
    {
      hide Find, Clip, RStrip, LSkip, ValueOf;
      var end := FindCharsOrComment(line, start, "=:", s);
      if line[end] == '=' || line[end] == ':' {
        TakeHalves(start, end, p, s);
      } else if error == 0 {
        error := lineno;
      }
    }

    /** Where a line starts once a byte order mark is skipped and the whitespace stripped. */
    method StripLine(ghost s: string) returns (start: nat)
      requires line.Length == INI_MAX_LINE && s != "" && Holds(line[..], 0, s)
      modifies line
      ensures var body := Body(lineno, s);
              && Holds(line[..], start, LSkip(RStrip(body)))
              && (start > 0 <==> |LSkip(RStrip(body))| < |RStrip(body)| + (|s| - |body|))
    {
      hide RStrip, LSkip;
      start := 0;
      if lineno == 1 && line[0] == '\U{EF}' && line[1] == '\U{BB}' && line[2] == '\U{BF}' {
        start := 3;
      }
      ghost var body := Body(lineno, s);
      HoldsSuffix(line[..], 0, s, start);
      RstripInPlace(line, start, body);
      start := LskipFrom(line, start, RStrip(body));
    }

    /** One turn of the loop. */
    method TakeLine(ghost p: Parse<S>, ghost s: string)
      requires Is(p) && s != "" && Holds(line[..], 0, s)
      modifies this`user, this`lineno, this`error, line, section, prevName
      ensures Is(Step(p, handler, s))
    {
      hide RStrip, LSkip, Body, SectionLine, PairLine;
      lineno := lineno + 1;
      ghost var q := p.(lineno := p.lineno + 1);
      var start := StripLine(s);
      ghost var t := LSkip(RStrip(Body(lineno, s)));
      if line[start] == '\0' || line[start] == ';' || line[start] == '#' {
      } else if prevName[0] != '\0' && line[start] != '\0' && start > 0 {
        var nameText := Text(prevName, 0, q.prevName);
        var valueText := Text(line, start, t);
        CallHandler(nameText, valueText, q);
      } else if line[start] == '[' {
        TakeSection(start, q, t);
      } else {
        TakePair(start, q, t);
      }
    }

    /** ini_parse_stream, reading from a string: the state and the return value. */
    method ParseStream(stream: StringContext) returns (result: nat)
      requires Is(Parse(user, "", "", 0, 0)) && stream.pos == 0 && forall k :: 0 <= k < |stream.text| ==> stream.text[k] != '\0'
      modifies this, stream, line, section, prevName
      ensures var q := ParseString(old(user), handler, stream.text); user == q.user && result == q.error
      ensures IsFirstBadLine(Parse(old(user), "", "", 0, 0), handler, Pieces(stream.text, INI_MAX_LINE - 1), result)
    {
      hide Step, Steps, Holds, PieceLength, Pieces, ParseString, IsFirstBadLine;
      ResultIsFirstBadLine(user, handler, stream.text);
      ghost var p, goal := Parse(user, "", "", 0, 0), ParseString(user, handler, stream.text);
      var more := stream.Read(line, INI_MAX_LINE);
      ghost var piece := stream.text[..stream.pos];
      FirstPiece(p, handler, stream.text);
      while more
        invariant stream.pos <= |stream.text| && Is(p)
        invariant if more then piece != "" && Holds(line[..], 0, piece) && Remaining(p, handler, piece, stream.text[stream.pos..], goal) else p == goal
        decreases |stream.text| - stream.pos, more
      {
        ghost var pos0 := stream.pos;
        TakeLine(p, piece);
        NextPiece(p, handler, piece, stream.text[pos0..], goal);
        p := Step(p, handler, piece);
        more := stream.Read(line, INI_MAX_LINE);
        piece := stream.text[pos0..stream.pos];
        assert more ==> stream.text[pos0..][..|piece|] == piece && stream.text[pos0..][|piece|..] == stream.text[stream.pos..];
      }
      result := error;
    }
  }

  /** What is left to do: the line in the buffer, then the pieces of the text not read yet. */
  ghost predicate Remaining<S>(p: Parse<S>, h: Handler<S>, piece: string, rest: string, goal: Parse<S>) {
    Steps(p, h, [piece] + Pieces(rest, INI_MAX_LINE - 1)) == goal
  }

  lemma PiecesDone<S>(p: Parse<S>, h: Handler<S>, rest: string)
    ensures rest == "" ==> Steps(p, h, Pieces(rest, INI_MAX_LINE - 1)) == p
    ensures rest != "" ==> var k := PieceLength(rest, INI_MAX_LINE - 1);
                           k > 0 && Remaining(p, h, rest[..k], rest[k..], Steps(p, h, Pieces(rest, INI_MAX_LINE - 1)))
  {
  }

  lemma FirstPiece<S>(p: Parse<S>, h: Handler<S>, text: string)
    requires p == Parse(p.user, "", "", 0, 0)
    ensures text == "" ==> ParseString(p.user, h, text) == p
    ensures text != "" ==> var k := PieceLength(text, INI_MAX_LINE - 1);
                           k > 0 && Remaining(p, h, text[..k], text[k..], ParseString(p.user, h, text))
  {
  }

  lemma NextPiece<S>(p: Parse<S>, h: Handler<S>, piece: string, rest: string, goal: Parse<S>)
    requires Remaining(p, h, piece, rest, goal)
    ensures var q := Step(p, h, piece);
            && (rest == "" ==> q == goal)
            && (rest != "" ==> var k := PieceLength(rest, INI_MAX_LINE - 1); k > 0 && Remaining(q, h, rest[..k], rest[k..], goal))
  {
    hide Step, PieceLength, Pieces;
    var pieces := Pieces(rest, INI_MAX_LINE - 1);
    assert ([piece] + pieces)[1..] == pieces;
    PiecesDone(Step(p, h, piece), h, rest);
  }

  /** The number of the first line that fails, or 0 when none does. */
  ghost predicate IsFirstBadLine<S>(p: Parse<S>, h: Handler<S>, lines: seq<string>, result: nat) {
    && result <= |lines| && (result > 0 ==> Fails(p, h, lines, result - 1))
    && forall k :: 0 <= k < |lines| && (result == 0 || k < result - 1) ==> !Fails(p, h, lines, k)
  }

  lemma ResultIsFirstBadLine<S>(user: S, h: Handler<S>, text: string)
    ensures IsFirstBadLine(Parse(user, "", "", 0, 0), h, Pieces(text, INI_MAX_LINE - 1), ParseString(user, h, text).error)
  {
    hide Fails, Steps, Pieces;
    ErrorIsFirstFailure(Parse(user, "", "", 0, 0), h, Pieces(text, INI_MAX_LINE - 1));
  }
}
