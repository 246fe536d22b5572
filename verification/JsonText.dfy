/** A concrete JSON text for the stream's events, written the way Python's json.dumps writes strings,
    to show that the codec the stream relies on exists. */
module JsonText {
  import opened Basics
  import opened TokenStream

  function HexDigit(n: nat): char
    requires n < 16
  {
    if n < 10 then '0' + n as char else 'a' + (n - 10) as char
  }

  function HexValue(c: char): Option<nat> {
    if '0' <= c <= '9' then Some((c - '0') as nat)
    else if 'a' <= c <= 'f' then Some((c - 'a') as nat + 10)
    else if 'A' <= c <= 'F' then Some((c - 'A') as nat + 10)
    else None
  }

  /** The letter after the backslash, for the characters that have a short escape. */
  function ShortEscape(c: char): Option<char> {
    if c == '"' then Some('"')
    else if c == '\\' then Some('\\')
    else if c == '\n' then Some('n')
    else if c == '\r' then Some('r')
    else if c == '\t' then Some('t')
    else if c as int == 8 then Some('b')
    else if c as int == 12 then Some('f')
    else None
  }

  function ShortValue(c: char): Option<char> {
    if c == '"' || c == '\\' || c == '/' then Some(c)
    else if c == 'n' then Some('\n')
    else if c == 'r' then Some('\r')
    else if c == 't' then Some('\t')
    else if c == 'b' then Some(8 as char)
    else if c == 'f' then Some(12 as char)
    else None
  }

  function EscapeChar(c: char): string {
    if ShortEscape(c).Some? then ['\\', ShortEscape(c).value]
    else if c as int < 0x20 then ['\\', 'u', '0', '0', HexDigit(c as int / 16), HexDigit(c as int % 16)]
    else [c]
  }

  function Escape(s: string): string {
    if s == "" then "" else EscapeChar(s[0]) + Escape(s[1..])
  }

  datatype Scan = Stuck | Scanned(text: string, rest: string)

  /** Read string characters up to the closing quote. */
  function Unescape(s: string): Scan {
    if s == "" then Stuck
    else if s[0] == '"' then Scanned("", s[1..])
    else if s[0] == '\\' then
      if |s| < 2 then Stuck
      else if ShortValue(s[1]).Some? then Prepend(ShortValue(s[1]).value, Unescape(s[2..]))
      else if s[1] == 'u' && |s| >= 6 && CodeUnit(s[2..6]).Some? then Prepend(CodeUnit(s[2..6]).value, Unescape(s[6..]))
      else Stuck
    else if s[0] as int < 0x20 then Stuck
    else Prepend(s[0], Unescape(s[1..]))
  }

  function Prepend(c: char, scan: Scan): Scan {
    if scan.Stuck? then Stuck else Scanned([c] + scan.text, scan.rest)
  }

  /** Four hex digits; surrogates are not characters of their own and are not read here. */
  function CodeUnit(h: string): Option<char>
    requires |h| == 4
  {
    var a, b, c, d := HexValue(h[0]), HexValue(h[1]), HexValue(h[2]), HexValue(h[3]);
    if a.None? || b.None? || c.None? || d.None? then None
    else
      var n := ((a.value * 16 + b.value) * 16 + c.value) * 16 + d.value;
      if 0 <= n < 0xD800 || 0xE000 <= n < 0x10000 then Some(n as char) else None
  }

  lemma HexRoundTrip(n: nat)
    requires n < 16
    ensures HexValue(HexDigit(n)) == Some(n)
  {
  }

  lemma CharRoundTrip(c: char, rest: string)
    ensures Unescape(EscapeChar(c) + rest) == Prepend(c, Unescape(rest))
  {
    var s := EscapeChar(c) + rest;
    if ShortEscape(c).Some? {
      assert s[2..] == rest;
    } else if c as int < 0x20 {
      HexRoundTrip(c as int / 16);
      HexRoundTrip(c as int % 16);
      assert s[2..6] == ['0', '0', HexDigit(c as int / 16), HexDigit(c as int % 16)];
      assert s[6..] == rest;
      assert CodeUnit(s[2..6]) == Some(c);
    } else {
      assert s[1..] == rest;
    }
  }

  lemma CharOnOneLine(c: char)
    ensures '\n' !in EscapeChar(c)
  {
  }

  lemma EscapeCons(text: string, more: string)
    requires text != ""
    ensures Escape(text) + more == EscapeChar(text[0]) + (Escape(text[1..]) + more)
  {
  }

  /** Reading an escaped string gives it back, up to whatever follows its closing quote. */
  lemma {:induction false} StringRoundTrip(text: string, rest: string)
    ensures Unescape(Escape(text) + (['"'] + rest)) == Scanned(text, rest)
  {
    var more := ['"'] + rest;
    if text == "" {
      assert Escape(text) + more == more && more[1..] == rest;
    } else {
      EscapeCons(text, more);
      StringRoundTrip(text[1..], rest);
      CharRoundTrip(text[0], Escape(text[1..]) + more);
      assert [text[0]] + text[1..] == text;
    }
  }

  lemma {:induction false} EscapedOnOneLine(text: string)
    ensures '\n' !in Escape(text)
  {
    if text != "" {
      EscapedOnOneLine(text[1..]);
      CharOnOneLine(text[0]);
    }
  }

  const META_HEAD := "{\"type\": \"meta\", \"payload\": \""
  const DONE := "{\"type\": \"done\"}"
  const ERROR := "{\"type\": \"error\"}"

  /** The two streams name the token's text differently: "content" and "text". */
  function TokenHead(key: string): string { "{\"type\": \"token\", \"" + key + "\": \"" }

  function Encode(key: string, e: Event): string {
    match e
    case Meta(payload) => META_HEAD + (Escape(payload) + "\"" + "}")
    case Token(text) => TokenHead(key) + (Escape(text) + "\"" + "}")
    case Finished => DONE
    case Failed => ERROR
  }

  /** A string body, its closing quote and brace, and white space. */
  function Body(s: string): Option<string> {
    var scan := Unescape(s);
    if scan.Scanned? && StartsWith(scan.rest, "}") && JsonSpace(scan.rest[1..]) then Some(scan.text) else None
  }

  function Decode(key: string, s: string): Option<Event> {
    if StartsWith(s, TokenHead(key)) then
      var text := Body(s[|TokenHead(key)|..]);
      if text.Some? then Some(Token(text.value)) else None
    else if StartsWith(s, META_HEAD) then
      var payload := Body(s[|META_HEAD|..]);
      if payload.Some? then Some(Meta(payload.value)) else None
    else if StartsWith(s, DONE) && JsonSpace(s[|DONE|..]) then Some(Finished)
    else if StartsWith(s, ERROR) && JsonSpace(s[|ERROR|..]) then Some(Failed)
    else None
  }

  lemma BodyRoundTrip(text: string, space: string)
    requires JsonSpace(space)
    ensures Body((Escape(text) + "\"" + "}") + space) == Some(text)
  {
    StringRoundTrip(text, "}" + space);
    assert (Escape(text) + "\"" + "}") + space == Escape(text) + (['"'] + ("}" + space));
    assert ("}" + space)[1..] == space;
  }

  /** The character at index 10 tells the four kinds of event apart. */
  lemma HeadsDiffer(s: string, head: string, other: string)
    requires StartsWith(s, head) && |head| > 10 && |other| > 10 && head[10] != other[10]
    ensures !StartsWith(s, other)
  {
    assert s[..|head|][10] == s[10];
    if |other| <= |s| { assert s[..|other|][10] == s[10]; }
  }

  lemma HeadSplits(head: string, body: string, space: string)
    ensures StartsWith(head + body + space, head) && (head + body + space)[|head|..] == body + space
  {
  }

  lemma HeadLetters(key: string)
    ensures |TokenHead(key)| > 10 && TokenHead(key)[10] == 't'
    ensures |META_HEAD| > 10 && META_HEAD[10] == 'm'
    ensures |DONE| > 10 && DONE[10] == 'd' && |ERROR| > 10 && ERROR[10] == 'e'
  {
  }

  lemma TokenRoundTrip(key: string, text: string, space: string)
    requires JsonSpace(space)
    ensures Decode(key, Encode(key, Token(text)) + space) == Some(Token(text))
  {
    BodyRoundTrip(text, space);
    HeadSplits(TokenHead(key), Escape(text) + "\"" + "}", space);
  }

  lemma MetaRoundTrip(key: string, payload: string, space: string)
    requires JsonSpace(space)
    ensures Decode(key, Encode(key, Meta(payload)) + space) == Some(Meta(payload))
  {
    BodyRoundTrip(payload, space);
    HeadSplits(META_HEAD, Escape(payload) + "\"" + "}", space);
    HeadLetters(key);
    HeadsDiffer(Encode(key, Meta(payload)) + space, META_HEAD, TokenHead(key));
  }

  lemma EndRoundTrip(key: string, space: string)
    requires JsonSpace(space)
    ensures Decode(key, Encode(key, Finished) + space) == Some(Finished)
    ensures Decode(key, Encode(key, Failed) + space) == Some(Failed)
  {
    HeadLetters(key);
    HeadsDiffer(DONE + space, DONE, TokenHead(key));
    HeadsDiffer(DONE + space, DONE, META_HEAD);
    HeadsDiffer(ERROR + space, ERROR, TokenHead(key));
    HeadsDiffer(ERROR + space, ERROR, META_HEAD);
    HeadsDiffer(ERROR + space, ERROR, DONE);
  }

  lemma EventRoundTrip(key: string, e: Event, space: string)
    requires JsonSpace(space)
    ensures Decode(key, Encode(key, e) + space) == Some(e)
  {
    match e {
      case Token(text) => TokenRoundTrip(key, text, space);
      case Meta(payload) => MetaRoundTrip(key, payload, space);
      case Finished => EndRoundTrip(key, space);
      case Failed => EndRoundTrip(key, space);
    }
  }

  lemma EncodedOnOneLine(key: string, e: Event)
    requires '\n' !in key
    ensures '\n' !in Encode(key, e)
  {
    match e {
      case Token(text) => EscapedOnOneLine(text);
      case Meta(payload) => EscapedOnOneLine(payload);
      case Finished =>
      case Failed =>
    }
  }

  /** So the requirement on the codec is met by real JSON text, for either token key. */
  lemma JsonCodecRoundTrips(key: string)
    requires '\n' !in key
    ensures RoundTrips(Codec(e => Encode(key, e), s => Decode(key, s)))
  {
    var j := Codec(e => Encode(key, e), s => Decode(key, s));
    forall e ensures '\n' !in j.encode(e) {
      EncodedOnOneLine(key, e);
    }
    forall e, space | JsonSpace(space) ensures j.decode(j.encode(e) + space) == Some(e) {
      EventRoundTrip(key, e, space);
    }
  }
}
