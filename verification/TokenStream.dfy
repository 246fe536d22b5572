/** The token stream from the server's word-by-word frames to the text a panel accumulates. */
module TokenStream {
  import opened Basics

  datatype Event = Meta(payload: string) | Token(text: string) | Finished | Failed

  // ---- Words ---------------------------------------------------------------------------------

  /** What Python's str.split() treats as white space. */
  predicate IsSpace(c: char) {
    var n := c as int;
    || 0x09 <= n <= 0x0D || 0x1C <= n <= 0x20 || n == 0x85 || n == 0xA0 || n == 0x1680
    || 0x2000 <= n <= 0x200A || n == 0x2028 || n == 0x2029 || n == 0x202F || n == 0x205F || n == 0x3000
  }

  /** The white space among the ASCII characters: blank, tab, line and page breaks, and the four
      separators below the blank. */
  lemma AsciiSpaces(c: char)
    requires c as int < 0x80
    ensures IsSpace(c) <==> c in " \t\n\r" || 0x0B <= c as int <= 0x0C || 0x1C <= c as int <= 0x1F
  {
  }

  function Words(s: string): (w: seq<string>)
    ensures s != "" && !IsSpace(s[|s| - 1]) ==> w != []
  {
    if s == "" then []
    else
      var n := |s| - 1;
      var before := Words(s[..n]);
      if IsSpace(s[n]) then before
      else if n == 0 || IsSpace(s[n - 1]) then before + [[s[n]]]
      else GrowLast(before, s[n])
  }

  function GrowLast(words: seq<string>, c: char): (r: seq<string>)
    requires words != []
    ensures r != []
  {
    words[..|words| - 1] + [words[|words| - 1] + [c]]
  }

  function Join(words: seq<string>): string {
    if words == [] then ""
    else if |words| == 1 then words[0]
    else Join(words[..|words| - 1]) + " " + words[|words| - 1]
  }

  function Concat(parts: seq<string>): string {
    if parts == [] then "" else Concat(parts[..|parts| - 1]) + parts[|parts| - 1]
  }

  predicate Clean(w: string) { w != "" && forall c :: c in w ==> !IsSpace(c) }

  lemma {:induction false} WordsAreClean(s: string)
    ensures forall w :: w in Words(s) ==> Clean(w)
  {
    if s != "" {
      var n := |s| - 1;
      var before := Words(s[..n]);
      WordsAreClean(s[..n]);
      if !IsSpace(s[n]) && n > 0 && !IsSpace(s[n - 1]) {
        var last := before[|before| - 1];
        assert last in before && Clean(last);
        assert Clean(last + [s[n]]);
        forall w | w in Words(s) ensures Clean(w) {
          assert w in before || w == last + [s[n]];
        }
      }
    }
  }

  /** No word holds a blank, a tab or a line break. */
  lemma WordsAreOneLine(s: string, w: string)
    requires w in Words(s)
    ensures w != "" && ' ' !in w && '\t' !in w && '\n' !in w && '\r' !in w
  {
    WordsAreClean(s);
    assert Clean(w);
  }

  lemma ConcatNext(parts: seq<string>, last: string)
    ensures Concat(parts + [last]) == Concat(parts) + last
  {
    assert (parts + [last])[..|parts|] == parts;
  }

  lemma GrowLastContent(words: seq<string>, c: char)
    requires words != []
    ensures Concat(GrowLast(words, c)) == Concat(words) + [c]
  {
    var front, last := words[..|words| - 1], words[|words| - 1];
    ConcatNext(front, last + [c]);
    ConcatNext(front, last);
    assert words == front + [last];
  }

  /** Splitting loses nothing but white space. */
  lemma {:induction false} WordsKeepContent(s: string)
    ensures Concat(Words(s)) == Printable(s)
  {
    if s != "" {
      var n := |s| - 1;
      var before := Words(s[..n]);
      WordsKeepContent(s[..n]);
      if !IsSpace(s[n]) {
        if n == 0 || IsSpace(s[n - 1]) { ConcatNext(before, [s[n]]); } else { GrowLastContent(before, s[n]); }
      }
    }
  }

  function Printable(s: string): string {
    if s == "" then ""
    else Printable(s[..|s| - 1]) + if IsSpace(s[|s| - 1]) then "" else [s[|s| - 1]]
  }

  lemma {:induction false} WordsOfAppended(a: string, w: string)
    requires Clean(w) && (a == "" || IsSpace(a[|a| - 1]))
    ensures Words(a + w) == Words(a) + [w]
  {
    var n := |w| - 1;
    var front, c := w[..n], w[n];
    assert c in w && w == front + [c];
    if n == 0 {
      WordStarts(a, c);
    } else {
      assert front[n - 1] in w;
      assert forall x :: x in front ==> x in w;
      WordsOfAppended(a, front);
      assert a + w == (a + front) + [c] && (a + front)[|a + front| - 1] == front[n - 1];
      WordGrows(a + front, Words(a), front, c);
    }
  }

  lemma WordStarts(s: string, c: char)
    requires (s == "" || IsSpace(s[|s| - 1])) && !IsSpace(c)
    ensures Words(s + [c]) == Words(s) + [[c]]
  {
    assert (s + [c])[..|s|] == s;
  }

  lemma LastGrows(before: seq<string>, w: string, c: char)
    ensures GrowLast(before + [w], c) == before + [w + [c]]
  {
    assert (before + [w])[..|before|] == before;
  }

  lemma WordContinues(s: string, c: char)
    requires s != "" && !IsSpace(s[|s| - 1]) && !IsSpace(c)
    ensures Words(s + [c]) == GrowLast(Words(s), c)
  {
    var t := s + [c];
    assert t[..|t| - 1] == s && t[|t| - 1] == c && t[|t| - 2] == s[|s| - 1];
  }

  lemma WordGrows(s: string, before: seq<string>, w: string, c: char)
    requires s != "" && !IsSpace(s[|s| - 1]) && !IsSpace(c) && Words(s) == before + [w]
    ensures Words(s + [c]) == before + [w + [c]]
  {
    WordContinues(s, c);
    LastGrows(before, w, c);
  }

  lemma WordsOfSpaced(a: string)
    ensures Words(a + " ") == Words(a)
  {
    assert (a + " ")[..|a|] == a;
  }

  lemma {:induction false} WordsOfJoin(words: seq<string>)
    requires forall w :: w in words ==> Clean(w)
    ensures Words(Join(words)) == words
  {
    if words != [] {
      var n := |words| - 1;
      assert words[n] in words && words == words[..n] + [words[n]];
      if n == 0 {
        WordsOfAppended("", words[0]);
        assert "" + words[0] == words[0];
      } else {
        var a := Join(words[..n]);
        assert forall w :: w in words[..n] ==> w in words;
        WordsOfJoin(words[..n]);
        WordsOfSpaced(a);
        assert (a + " ")[|a + " "| - 1] == ' ';
        WordsOfAppended(a + " ", words[n]);
      }
    }
  }

  // ---- The server ----------------------------------------------------------------------------

  /** The command stream: every word carries the space before the next one. */
  function CommandChunks(words: seq<string>): (chunks: seq<string>)
    ensures |chunks| == |words|
  {
    seq(|words|, i requires 0 <= i < |words| => words[i] + (if i < |words| - 1 then " " else ""))
  }

  /** The news stream: every word carries a space. */
  function NewsChunks(words: seq<string>): (chunks: seq<string>)
    ensures |chunks| == |words|
  {
    seq(|words|, i requires 0 <= i < |words| => words[i] + " ")
  }

  lemma {:induction false} NewsChunksJoin(words: seq<string>)
    ensures Concat(NewsChunks(words)) == if words == [] then "" else Join(words) + " "
  {
    if words != [] {
      var n := |words| - 1;
      NewsChunksJoin(words[..n]);
      assert NewsChunks(words)[..n] == NewsChunks(words[..n]);
      if n == 0 {
        assert Concat(NewsChunks(words)) == "" + (words[0] + " ");
      } else {
        assert Join(words[..n]) + " " + (words[n] + " ") == Join(words) + " ";
      }
    }
  }

  lemma CommandChunksJoin(words: seq<string>)
    ensures Concat(CommandChunks(words)) == Join(words)
  {
    if words != [] {
      var n := |words| - 1;
      NewsChunksJoin(words[..n]);
      assert CommandChunks(words)[..n] == NewsChunks(words[..n]);
      if n == 0 {
        assert Concat(CommandChunks(words)) == "" + (words[0] + "");
      } else {
        assert words[n] + "" == words[n];
      }
    }
  }

  function TokenEvents(chunks: seq<string>): (events: seq<Event>)
    ensures |events| == |chunks|
  {
    seq(|chunks|, i requires 0 <= i < |chunks| => Token(chunks[i]))
  }

  /** The command generator: the meta event, a token per word, and the end. */
  method StreamCommand(report: string, meta: string) returns (events: seq<Event>)
    ensures events == [Meta(meta)] + TokenEvents(CommandChunks(Words(report))) + [Finished]
  {
    events := [Meta(meta)];
    var words := Words(report);
    for i := 0 to |words|
      invariant events == [Meta(meta)] + TokenEvents(CommandChunks(words))[..i]
    {
      var chunk := words[i] + (if i < |words| - 1 then " " else "");
      events := events + [Token(chunk)];
    }
    assert TokenEvents(CommandChunks(words))[..|words|] == TokenEvents(CommandChunks(words));
    events := events + [Finished];
  }

  /** The news generator: a token per word, and the end. */
  method StreamNews(text: string) returns (events: seq<Event>)
    ensures events == TokenEvents(NewsChunks(Words(text))) + [Finished]
  {
    events := [];
    var words := Words(text);
    for i := 0 to |words|
      invariant events == TokenEvents(NewsChunks(words))[..i]
    {
      events := events + [Token(words[i] + " ")];
    }
    assert TokenEvents(NewsChunks(words))[..|words|] == TokenEvents(NewsChunks(words));
    events := events + [Finished];
  }

  /** How events are written as JSON text and read back. */
  datatype Codec = Codec(encode: Event -> string, decode: string -> Option<Event>)

  predicate JsonSpace(s: string) { forall c :: c in s ==> c == ' ' || c == '\t' || c == '\n' || c == '\r' }

  /** Printing is undone by parsing, white space after the value is ignored (section 2 of RFC 8259),
      and printed values have no raw line break. */
  ghost predicate RoundTrips(j: Codec) {
    && (forall e :: '\n' !in j.encode(e))
    && (forall e, s :: JsonSpace(s) ==> j.decode(j.encode(e) + s) == Some(e))
  }

  /** What the server writes: an event frame, or any line that is not a data field, such as a
      keep-alive comment. */
  datatype Block = Frame(name: string, event: Event) | Noise(line: string)

  const DATA := "data: "

  predicate StartsWith(s: string, prefix: string) { |prefix| <= |s| && s[..|prefix|] == prefix }

  predicate LineEnd(eol: string) { eol == "\n" || eol == "\r\n" }

  predicate WellFormed(b: Block) {
    match b
    case Frame(name, _) => '\n' !in name
    case Noise(line) => '\n' !in line && !StartsWith(line, DATA)
  }

  /** Section 9.2.6 of the WHATWG HTML Living Standard: fields on lines of their own, then a blank line. */
  function Render(j: Codec, eol: string, b: Block): string {
    match b
    case Frame(name, e) => "event: " + name + eol + DATA + j.encode(e) + eol + eol
    case Noise(line) => line + eol + eol
  }

  function Wire(j: Codec, eol: string, blocks: seq<Block>): string {
    if blocks == [] then "" else Wire(j, eol, blocks[..|blocks| - 1]) + Render(j, eol, blocks[|blocks| - 1])
  }

  function EventsOf(blocks: seq<Block>): seq<Event> {
    if blocks == [] then []
    else
      var b := blocks[|blocks| - 1];
      EventsOf(blocks[..|blocks| - 1]) + if b.Frame? then [b.event] else []
  }

  // ---- The client ----------------------------------------------------------------------------

  /** `complete, rest` of text.split('\n') with the last piece popped off. */
  datatype Lines = Lines(complete: seq<string>, rest: string)

  function Split(s: string): Lines {
    if s == "" then Lines([], "")
    else
      var before := Split(s[..|s| - 1]);
      var c := s[|s| - 1];
      if c == '\n' then Lines(before.complete + [before.rest], "") else Lines(before.complete, before.rest + [c])
  }

  /** Splitting can be resumed from the unfinished line. */
  lemma {:induction false} SplitResumes(a: string, b: string)
    ensures Split(a + b).complete == Split(a).complete + Split(Split(a).rest + b).complete
    ensures Split(a + b).rest == Split(Split(a).rest + b).rest
  {
    if b == "" {
      SplitRest(a);
      assert a + b == a && Split(a).rest + b == Split(a).rest;
    } else {
      var n := |b| - 1;
      SplitResumes(a, b[..n]);
      assert (a + b)[..|a + b| - 1] == a + b[..n];
      assert (Split(a).rest + b)[..|Split(a).rest + b| - 1] == Split(a).rest + b[..n];
    }
  }

  lemma {:induction false} SplitRest(a: string)
    ensures '\n' !in Split(a).rest
    ensures Split(Split(a).rest) == Lines([], Split(a).rest)
  {
    if a != "" {
      SplitRest(a[..|a| - 1]);
      SplitUnbroken(Split(a).rest);
    }
  }

  lemma {:induction false} SplitUnbroken(s: string)
    requires '\n' !in s
    ensures Split(s) == Lines([], s)
  {
    if s != "" {
      SplitUnbroken(s[..|s| - 1]);
      assert s[..|s| - 1] + [s[|s| - 1]] == s;
    }
  }

  lemma SplitLine(line: string)
    requires '\n' !in line
    ensures Split(line + "\n") == Lines([line], "")
  {
    SplitUnbroken(line);
    assert (line + "\n")[..|line|] == line;
  }

  /** What one line tells the client: the event of a data line that parses, and otherwise nothing. */
  function LineEvent(j: Codec, line: string): Option<Event> {
    if StartsWith(line, DATA) then j.decode(line[|DATA|..]) else None
  }

  function LineEvents(j: Codec, lines: seq<string>): seq<Event> {
    if lines == [] then []
    else
      var e := LineEvent(j, lines[|lines| - 1]);
      LineEvents(j, lines[..|lines| - 1]) + if e.Some? then [e.value] else []
  }

  lemma {:induction false} LineEventsAppend(j: Codec, a: seq<string>, b: seq<string>)
    ensures LineEvents(j, a + b) == LineEvents(j, a) + LineEvents(j, b)
  {
    if b == [] {
      assert a + b == a;
    } else {
      LineEventsAppend(j, a, b[..|b| - 1]);
      assert (a + b)[..|a + b| - 1] == a + b[..|b| - 1];
    }
  }

  datatype Panel = Panel(content: string, meta: Option<string>, streaming: bool)

  function HandleCommand(p: Panel, e: Event): Panel {
    match e
    case Meta(payload) => p.(meta := Some(payload))
    case Token(text) => p.(content := p.content + text)
    case Finished => p.(streaming := false)
    case Failed => p
  }

  const NEW_PANEL := Panel("", None, true)

  datatype Summary = Summary(text: string, done: bool, error: bool)

  const NEW_SUMMARY := Summary("", false, false)

  function HandleNews(s: Summary, e: Event): Summary {
    match e
    case Meta(_) => s
    case Token(text) => s.(text := s.text + text)
    case Finished => s.(done := true)
    case Failed => s.(done := true, error := true)
  }

  function Fold<T>(handle: (T, Event) -> T, start: T, events: seq<Event>): T {
    if events == [] then start else handle(Fold(handle, start, events[..|events| - 1]), events[|events| - 1])
  }

  lemma {:induction false} FoldAppend<T>(handle: (T, Event) -> T, start: T, a: seq<Event>, b: seq<Event>)
    ensures Fold(handle, start, a + b) == Fold(handle, Fold(handle, start, a), b)
  {
    if b == [] {
      assert a + b == a;
    } else {
      FoldAppend(handle, start, a, b[..|b| - 1]);
      assert (a + b)[..|a + b| - 1] == a + b[..|b| - 1];
    }
  }

  /** Skip what is not a data line, skip what does not parse, and handle the rest in order. */
  method HandleLines<T>(j: Codec, handle: (T, Event) -> T, start: T, lines: seq<string>) returns (state: T)
    ensures state == Fold(handle, start, LineEvents(j, lines))
  {
    state := start;
    for k := 0 to |lines|
      invariant state == Fold(handle, start, LineEvents(j, lines[..k]))
    {
      assert lines[..k + 1][..k] == lines[..k];
      ghost var before := LineEvents(j, lines[..k]);
      if StartsWith(lines[k], DATA) {
        var event := j.decode(lines[k][|DATA|..]);
        if event.Some? {
          state := handle(state, event.value);
          assert (before + [event.value])[..|before|] == before;
        }
      }
      assert LineEvent(j, lines[k]).None? ==> before + [] == before;
    }
    assert lines[..|lines|] == lines;
  }

  /** The read loop of both hooks, over the chunks read before the stream ends or is cancelled:
      whatever the chunks, the state is that of the complete lines of all the text received. */
  method ReadStream<T>(j: Codec, handle: (T, Event) -> T, start: T, chunks: seq<string>) returns (state: T)
    ensures state == Fold(handle, start, LineEvents(j, Split(Concat(chunks)).complete))
  {
    state := start;
    var buffer := "";
    var i := 0;
    while i < |chunks|
      invariant 0 <= i <= |chunks|
      invariant buffer == Split(Concat(chunks[..i])).rest
      invariant state == Fold(handle, start, LineEvents(j, Split(Concat(chunks[..i])).complete))
    {
      ghost var received := Concat(chunks[..i]);
      assert chunks[..i + 1][..i] == chunks[..i];
      SplitResumes(received, chunks[i]);
      buffer := buffer + chunks[i];
      var lines := Split(buffer);
      buffer := lines.rest;
      state := HandleLines(j, handle, state, lines.complete);
      LineEventsAppend(j, Split(received).complete, lines.complete);
      FoldAppend(handle, start, LineEvents(j, Split(received).complete), LineEvents(j, lines.complete));
      i := i + 1;
    }
    assert chunks[..|chunks|] == chunks;
  }

  // ---- End to end ----------------------------------------------------------------------------

  /** One block is whole lines, and the only line of it that carries an event is a frame's data line. */
  lemma BlockLines(j: Codec, eol: string, b: Block)
    requires RoundTrips(j) && LineEnd(eol) && WellFormed(b)
    ensures Split(Render(j, eol, b)).rest == ""
    ensures LineEvents(j, Split(Render(j, eol, b)).complete) == if b.Frame? then [b.event] else []
  {
    var cr := eol[..|eol| - 1];
    assert eol == cr + "\n";
    match b {
      case Frame(name, e) =>
        FrameText(j, eol, cr, name, e);
        FrameLines(j, cr, name, e);
      case Noise(line) =>
        assert Render(j, eol, b) == ((line + cr) + "\n") + (cr + "\n");
        NoiseLines(j, cr, line);
    }
  }

  lemma NoiseLines(j: Codec, cr: string, line: string)
    requires (cr == "" || cr == "\r") && '\n' !in line && !StartsWith(line, DATA)
    ensures var text := ((line + cr) + "\n") + (cr + "\n");
            Split(text).rest == "" && LineEvents(j, Split(text).complete) == []
  {
    SplitTwo(line + cr, cr);
    NoiseEvent(line, cr);
    assert [line + cr, cr][..1] == [line + cr] && [line + cr][..0] == [];
    assert LineEvents(j, [line + cr]) == [];
  }

  lemma FrameText(j: Codec, eol: string, cr: string, name: string, e: Event)
    requires eol == cr + "\n"
    ensures Render(j, eol, Frame(name, e))
            == (("event: " + name + cr) + "\n") + (((DATA + j.encode(e) + cr) + "\n") + (cr + "\n"))
  {
    var a, b := "event: " + name, DATA + j.encode(e);
    assert Render(j, eol, Frame(name, e)) == a + (cr + "\n") + b + (cr + "\n") + (cr + "\n");
  }

  lemma NameLineIsNotData(rest: string)
    ensures !StartsWith("event: " + rest, DATA)
  {
    assert ("event: " + rest)[..|DATA|][0] == 'e' && DATA[0] == 'd';
  }

  lemma DataLineEvent(j: Codec, e: Event, cr: string)
    requires RoundTrips(j) && (cr == "" || cr == "\r")
    ensures LineEvent(j, DATA + j.encode(e) + cr) == Some(e)
  {
    var line := DATA + j.encode(e) + cr;
    assert line[|DATA|..] == j.encode(e) + cr && line[..|DATA|] == DATA;
    assert JsonSpace(cr);
  }

  lemma FrameLines(j: Codec, cr: string, name: string, e: Event)
    requires RoundTrips(j) && (cr == "" || cr == "\r") && '\n' !in name
    ensures var l1, l2 := "event: " + name + cr, DATA + j.encode(e) + cr;
            var text := (l1 + "\n") + ((l2 + "\n") + (cr + "\n"));
            Split(text).rest == "" && LineEvents(j, Split(text).complete) == [e]
  {
    var l1, l2 := "event: " + name + cr, DATA + j.encode(e) + cr;
    SplitTwo(l2, cr);
    SplitHead(l1, (l2 + "\n") + (cr + "\n"));
    assert [l1] + [l2, cr] == [l1, l2, cr];
    NameLineIsNotData(name + cr);
    assert l1 == "event: " + (name + cr);
    DataLineEvent(j, e, cr);
    ThreeLineEvents(j, l1, l2, cr);
  }

  /** A frame is three lines: its name, its data and the blank line that ends it. */
  lemma FrameIsThreeLines(j: Codec, eol: string, name: string, e: Event)
    requires RoundTrips(j) && LineEnd(eol) && '\n' !in name
    ensures var cr := eol[..|eol| - 1];
            Split(Render(j, eol, Frame(name, e)))
            == Lines(["event: " + name + cr, "data: " + j.encode(e) + cr, cr], "")
  {
    var cr := eol[..|eol| - 1];
    assert eol == cr + "\n";
    FrameText(j, eol, cr, name, e);
    var l1, l2 := "event: " + name + cr, DATA + j.encode(e) + cr;
    SplitTwo(l2, cr);
    SplitHead(l1, (l2 + "\n") + (cr + "\n"));
    assert [l1] + [l2, cr] == [l1, l2, cr];
  }

  lemma NoiseEvent(line: string, cr: string)
    requires !StartsWith(line, DATA) && (cr == "" || cr == "\r")
    ensures !StartsWith(line + cr, DATA)
  {
    if |line| >= |DATA| {
      assert (line + cr)[..|DATA|] == line[..|DATA|];
    } else if |line + cr| >= |DATA| {
      assert (line + cr)[..|DATA|][5] == '\r' && DATA[5] == ' ';
    }
  }

  lemma ThreeLineEvents(j: Codec, l1: string, l2: string, l3: string)
    requires !StartsWith(l1, DATA) && |l3| < |DATA|
    ensures LineEvents(j, [l1, l2, l3]) == if LineEvent(j, l2).Some? then [LineEvent(j, l2).value] else []
  {
    assert [l1, l2, l3][..2] == [l1, l2] && [l1, l2][..1] == [l1] && [l1][..0] == [];
    assert LineEvents(j, [l1]) == [];
    assert LineEvents(j, [l1, l2]) == if LineEvent(j, l2).Some? then [LineEvent(j, l2).value] else [];
  }

  lemma SplitHead(line: string, rest: string)
    requires '\n' !in line
    ensures Split((line + "\n") + rest) == Lines([line] + Split(rest).complete, Split(rest).rest)
  {
    SplitLine(line);
    SplitResumes(line + "\n", rest);
    assert "" + rest == rest;
  }

  lemma SplitTwo(a: string, b: string)
    requires '\n' !in a && '\n' !in b
    ensures Split((a + "\n") + (b + "\n")) == Lines([a, b], "")
  {
    SplitLine(b);
    SplitHead(a, b + "\n");
  }

  lemma {:induction false} WireLines(j: Codec, eol: string, blocks: seq<Block>)
    requires RoundTrips(j) && LineEnd(eol) && forall b :: b in blocks ==> WellFormed(b)
    ensures Split(Wire(j, eol, blocks)).rest == ""
    ensures LineEvents(j, Split(Wire(j, eol, blocks)).complete) == EventsOf(blocks)
  {
    if blocks != [] {
      var n := |blocks| - 1;
      WireLines(j, eol, blocks[..n]);
      BlockLines(j, eol, blocks[n]);
      SplitResumes(Wire(j, eol, blocks[..n]), Render(j, eol, blocks[n]));
      assert "" + Render(j, eol, blocks[n]) == Render(j, eol, blocks[n]);
      LineEventsAppend(j, Split(Wire(j, eol, blocks[..n])).complete, Split(Render(j, eol, blocks[n])).complete);
    }
  }

  function TokensOf(events: seq<Event>): seq<string> {
    if events == [] then []
    else
      var e := events[|events| - 1];
      TokensOf(events[..|events| - 1]) + if e.Token? then [e.text] else []
  }

  lemma {:induction false} CommandFold(events: seq<Event>)
    ensures Fold(HandleCommand, NEW_PANEL, events).content == Concat(TokensOf(events))
  {
    if events != [] {
      CommandFold(events[..|events| - 1]);
      TokensStep(events);
    }
  }

  lemma {:induction false} CommandStreaming(events: seq<Event>)
    ensures Fold(HandleCommand, NEW_PANEL, events).streaming <==> Finished !in events
  {
    if events != [] {
      var n := |events| - 1;
      CommandStreaming(events[..n]);
      assert events == events[..n] + [events[n]];
    }
  }

  lemma {:induction false} NewsFlags(events: seq<Event>)
    ensures Fold(HandleNews, NEW_SUMMARY, events).done <==> Finished in events || Failed in events
    ensures Fold(HandleNews, NEW_SUMMARY, events).error <==> Failed in events
  {
    if events != [] {
      var n := |events| - 1;
      NewsFlags(events[..n]);
      assert events == events[..n] + [events[n]];
    }
  }

  lemma {:induction false} NewsFold(events: seq<Event>)
    ensures Fold(HandleNews, NEW_SUMMARY, events).text == Concat(TokensOf(events))
  {
    if events != [] {
      NewsFold(events[..|events| - 1]);
      TokensStep(events);
    }
  }

  lemma TokensStep(events: seq<Event>)
    requires events != []
    ensures var e, before := events[|events| - 1], Concat(TokensOf(events[..|events| - 1]));
            Concat(TokensOf(events)) == if e.Token? then before + e.text else before
  {
    var e, before := events[|events| - 1], TokensOf(events[..|events| - 1]);
    if e.Token? {
      assert (before + [e.text])[..|before|] == before;
    } else {
      assert TokensOf(events) == before;
    }
  }

  lemma {:induction false} TokensOfTokenEvents(chunks: seq<string>)
    ensures TokensOf(TokenEvents(chunks)) == chunks
    ensures Finished !in TokenEvents(chunks) && Failed !in TokenEvents(chunks)
  {
    if chunks != [] {
      var n := |chunks| - 1;
      TokensOfTokenEvents(chunks[..n]);
      assert TokenEvents(chunks)[..n] == TokenEvents(chunks[..n]);
      assert chunks == chunks[..n] + [chunks[n]];
    }
  }

  lemma {:induction false} TokensAppend(a: seq<Event>, b: seq<Event>)
    ensures TokensOf(a + b) == TokensOf(a) + TokensOf(b)
  {
    if b == [] {
      assert a + b == a;
    } else {
      TokensAppend(a, b[..|b| - 1]);
      assert (a + b)[..|a + b| - 1] == a + b[..|b| - 1];
    }
  }

  /** For every report, every way of cutting the wire text into chunks and every interleaving of
      other lines: the command panel shows the report's words joined by single spaces, which split
      into the same words again, with the meta event in place and streaming ended. */
  lemma CommandStreamDelivers(j: Codec, eol: string, blocks: seq<Block>, chunks: seq<string>,
                              report: string, meta: string)
    requires RoundTrips(j) && LineEnd(eol) && (forall b :: b in blocks ==> WellFormed(b))
    requires EventsOf(blocks) == [Meta(meta)] + TokenEvents(CommandChunks(Words(report))) + [Finished]
    requires Concat(chunks) == Wire(j, eol, blocks)
    ensures var panel := Fold(HandleCommand, NEW_PANEL, LineEvents(j, Split(Concat(chunks)).complete));
            && panel.content == Join(Words(report)) && Words(panel.content) == Words(report)
            && panel.meta == Some(meta) && !panel.streaming
  {
    WireLines(j, eol, blocks);
    CommandOutcome(Words(report), meta);
    WordsSurvive(report);
  }

  lemma WordsSurvive(report: string)
    ensures Words(Join(Words(report))) == Words(report)
    ensures Words(Join(Words(report)) + " ") == Words(report)
  {
    WordsAreClean(report);
    WordsOfJoin(Words(report));
    WordsOfSpaced(Join(Words(report)));
  }

  lemma CommandOutcome(words: seq<string>, meta: string)
    ensures var panel := Fold(HandleCommand, NEW_PANEL, [Meta(meta)] + TokenEvents(CommandChunks(words)) + [Finished]);
            panel.content == Join(words) && panel.meta == Some(meta) && !panel.streaming
  {
    var tokens := TokenEvents(CommandChunks(words));
    TokensOfFrame(meta, CommandChunks(words));
    CommandFold([Meta(meta)] + tokens + [Finished]);
    CommandStreaming([Meta(meta)] + tokens + [Finished]);
    CommandChunksJoin(words);
    FirstMetaStays(meta, tokens);
  }

  lemma TokensOfFrame(meta: string, chunks: seq<string>)
    ensures TokensOf([Meta(meta)] + TokenEvents(chunks) + [Finished]) == chunks
    ensures TokensOf(TokenEvents(chunks) + [Finished]) == chunks
  {
    var tokens := TokenEvents(chunks);
    TokensOfTokenEvents(chunks);
    assert (tokens + [Finished])[..|tokens|] == tokens;
    TokensAppend([Meta(meta)], tokens);
    assert [Meta(meta)][..0] == [];
    var head := [Meta(meta)] + tokens;
    assert (head + [Finished])[..|head|] == head;
  }

  lemma {:induction false} FirstMetaStays(meta: string, events: seq<Event>)
    requires forall e :: e in events ==> !e.Meta?
    ensures Fold(HandleCommand, NEW_PANEL, [Meta(meta)] + events).meta == Some(meta)
    ensures Fold(HandleCommand, NEW_PANEL, [Meta(meta)] + events + [Finished]).meta == Some(meta)
  {
    var all := [Meta(meta)] + events;
    assert (all + [Finished])[..|all|] == all;
    if events == [] {
      assert all[..0] == [];
    } else {
      var n := |events| - 1;
      FirstMetaStays(meta, events[..n]);
      assert all[..|all| - 1] == [Meta(meta)] + events[..n];
      assert all[|all| - 1] == events[n] && events[n] in events;
    }
  }

  /** The news stream delivers the same words with one space after the last. */
  lemma NewsStreamDelivers(j: Codec, eol: string, blocks: seq<Block>, chunks: seq<string>, text: string)
    requires RoundTrips(j) && LineEnd(eol) && (forall b :: b in blocks ==> WellFormed(b))
    requires EventsOf(blocks) == TokenEvents(NewsChunks(Words(text))) + [Finished]
    requires Concat(chunks) == Wire(j, eol, blocks)
    ensures var s := Fold(HandleNews, NEW_SUMMARY, LineEvents(j, Split(Concat(chunks)).complete));
            && s.text == (if Words(text) == [] then "" else Join(Words(text)) + " ")
            && Words(s.text) == Words(text) && s.done && !s.error
  {
    WireLines(j, eol, blocks);
    NewsOutcome(Words(text));
    WordsSurvive(text);
  }

  lemma NewsOutcome(words: seq<string>)
    ensures var s := Fold(HandleNews, NEW_SUMMARY, TokenEvents(NewsChunks(words)) + [Finished]);
            s.text == (if words == [] then "" else Join(words) + " ") && s.done && !s.error
  {
    TokensOfFrame("", NewsChunks(words));
    TokensOfTokenEvents(NewsChunks(words));
    NewsFold(TokenEvents(NewsChunks(words)) + [Finished]);
    NewsFlags(TokenEvents(NewsChunks(words)) + [Finished]);
    NewsChunksJoin(words);
  }

  /** The command hook on any chunks of the wire text. Nothing in the result depends on the chunks, on
      the line ending or on what stands between the frames. */
  method ReceiveCommand(j: Codec, chunks: seq<string>, ghost eol: string, ghost blocks: seq<Block>,
                        ghost report: string, ghost meta: string)
    returns (panel: Panel)
    requires RoundTrips(j) && LineEnd(eol) && (forall b :: b in blocks ==> WellFormed(b))
    requires EventsOf(blocks) == [Meta(meta)] + TokenEvents(CommandChunks(Words(report))) + [Finished]
    requires Concat(chunks) == Wire(j, eol, blocks)
    ensures panel == Panel(Join(Words(report)), Some(meta), false)
    ensures Words(panel.content) == Words(report)
  {
    panel := ReadStream(j, HandleCommand, NEW_PANEL, chunks);
    CommandStreamDelivers(j, eol, blocks, chunks, report, meta);
  }

  /** The news hook on any chunks of the wire text. */
  method ReceiveNews(j: Codec, chunks: seq<string>, ghost eol: string, ghost blocks: seq<Block>, ghost text: string)
    returns (summary: Summary)
    requires RoundTrips(j) && LineEnd(eol) && (forall b :: b in blocks ==> WellFormed(b))
    requires EventsOf(blocks) == TokenEvents(NewsChunks(Words(text))) + [Finished]
    requires Concat(chunks) == Wire(j, eol, blocks)
    ensures summary == Summary(if Words(text) == [] then "" else Join(Words(text)) + " ", true, false)
    ensures Words(summary.text) == Words(text)
  {
    summary := ReadStream(j, HandleNews, NEW_SUMMARY, chunks);
    NewsStreamDelivers(j, eol, blocks, chunks, text);
  }
}
