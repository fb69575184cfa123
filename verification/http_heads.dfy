/**
 A header block that is complete by itself is parsed in the same way whatever follows it: the
 loaders of HttpMessage and the parser of HttpHeader never look past the empty line.
 */
module HttpHeads {
  import opened HttpText
  import opened HttpHeaders
  import opened HttpMessages
  import opened HttpRoundTrip

  // ---- scanning a text that goes on ----

  lemma {:induction false} RunGoesOn(s: string, more: string, f: char -> bool)
    requires Run(s, f) < |s|
    ensures Run(s + more, f) == Run(s, f)
  {
    var n := Run(s, f);
    assert (s + more)[..n] == s[..n];
    RunIs(s + more, f, n);
  }

  lemma HeadGoesOn(s: string, more: string)
    requires s != ""
    ensures Head(s + more) == Head(s) && Tail(s + more) == Tail(s) + more
  {
  }

  lemma RestGoesOn(s: string, more: string, n: nat)
    requires n <= |s|
    ensures (s + more)[n..] == s[n..] + more && (s + more)[..n] == s[..n]
  {
  }

  // What a loader makes of a text that goes on, when it stopped before the end.
  function GoesOn(r: First, more: string): First {
    if r.Loaded? then Loaded(r.rest + more, r.m) else r
  }

  lemma MinorGoesOn(s: string, more: string, m: Fields)
    requires LoadMinor(s, m).Loaded? && LoadMinor(s, m).rest != ""
    ensures LoadMinor(s + more, m) == GoesOn(LoadMinor(s, m), more)
  {
    RunGoesOn(s, more, IsDigit);
    RestGoesOn(s, more, Run(s, IsDigit));
    hide Run, IsDigit, DecValue;
  }

  lemma VersionGoesOn(s: string, more: string, m: Fields)
    requires LoadVersion(s, m).Loaded? && LoadVersion(s, m).rest != ""
    ensures LoadVersion(s + more, m) == GoesOn(LoadVersion(s, m), more)
  {
    hide LoadMinor, DecValue;
    var d := Run(s, IsDigit);
    assert s[d..] != "";
    RunGoesOn(s, more, IsDigit);
    RestGoesOn(s, more, d);
    HeadGoesOn(s[d..], more);
    hide Run, IsDigit;
    MinorGoesOn(Tail(s[d..]), more, m.(major := DecValue(s[..d])));
  }

  lemma ProtocolGoesOn(s: string, more: string, m: Fields)
    requires LoadProtocol(s, m).Loaded? && LoadProtocol(s, m).rest != ""
    ensures LoadProtocol(s + more, m) == GoesOn(LoadProtocol(s, m), more)
  {
    hide LoadVersion;
    var n := |m.protocol|;
    RestGoesOn(s, more, n);
    assert s[n..] != "" && m.protocol == s[..n];
    HeadGoesOn(s[n..], more);
    VersionGoesOn(Tail(s[n..]), more, m);
  }

  lemma EndGoesOn(s: string, more: string, m: Fields, kind: Kind)
    requires LoadEnd(s, m, kind).Loaded?
    ensures LoadEnd(s + more, m, kind) == GoesOn(LoadEnd(s, m, kind), more)
  {
    HeadGoesOn(s, more);
    HeadGoesOn(Tail(s), more);
  }

  lemma CodeGoesOn(s: string, more: string, m: Fields)
    requires LoadCode(s, m).Loaded?
    ensures LoadCode(s + more, m) == GoesOn(LoadCode(s, m), more)
  {
    var t := Tail(s);
    var d := Run(t, IsDigit);
    HeadGoesOn(s, more);
    assert t[d..] != "";
    RunGoesOn(t, more, IsDigit);
    RestGoesOn(t, more, d);
    HeadGoesOn(t[d..], more);
    hide Run, IsDigit, DecValue;
  }

  lemma ReasonGoesOn(s: string, more: string, m: Fields)
    requires LoadReason(s, m).Loaded?
    ensures LoadReason(s + more, m) == GoesOn(LoadReason(s, m), more)
  {
    var t := Run(s, IsText);
    assert s[t..] != "";
    RunGoesOn(s, more, IsText);
    RestGoesOn(s, more, t);
    hide Run, IsText, LoadEnd;
    EndGoesOn(s[t..], more, m.(status := seq(|m.protocol|, i => '\0') + s[..t]), Response);
  }

  lemma StatusLineGoesOn(s: string, more: string, m: Fields)
    requires LoadStatusLine(s, m).Loaded?
    ensures LoadStatusLine(s + more, m) == GoesOn(LoadStatusLine(s, m), more)
  {
    var protocol := LoadProtocol(s, m);
    var code := LoadCode(protocol.rest, protocol.m);
    assert protocol.rest != "";
    hide LoadProtocol, LoadCode, LoadReason;
    ProtocolGoesOn(s, more, m);
    CodeGoesOn(protocol.rest, more, protocol.m);
    ReasonGoesOn(code.rest, more, code.m);
  }

  lemma MethodGoesOn(s: string, more: string, m: Fields)
    requires LoadMethod(s, m).Loaded?
    ensures LoadMethod(s + more, m) == GoesOn(LoadMethod(s, m), more)
  {
    var n := Run(s, IsToken);
    assert s[n..] != "";
    RunGoesOn(s, more, IsToken);
    RestGoesOn(s, more, n);
    HeadGoesOn(s[n..], more);
    hide Run, IsToken;
  }

  lemma UriGoesOn(s: string, more: string, m: Fields)
    requires LoadUri(s, m).Loaded?
    ensures LoadUri(s + more, m) == GoesOn(LoadUri(s, m), more)
  {
    var n := Run(s, IsUriChar);
    assert s[n..] != "";
    RunGoesOn(s, more, IsUriChar);
    RestGoesOn(s, more, n);
    HeadGoesOn(s[n..], more);
    hide Run, IsUriChar;
  }

  lemma RequestLineGoesOn(s: string, more: string, m: Fields)
    requires LoadRequestLine(s, m).Loaded?
    ensures LoadRequestLine(s + more, m) == GoesOn(LoadRequestLine(s, m), more)
  {
    var command := LoadMethod(s, m);
    var uri := LoadUri(command.rest, command.m);
    var protocol := LoadProtocol(uri.rest, uri.m);
    assert protocol.rest != "";
    hide LoadMethod, LoadUri, LoadProtocol, LoadEnd;
    MethodGoesOn(s, more, m);
    UriGoesOn(command.rest, more, command.m);
    ProtocolGoesOn(uri.rest, more, uri.m);
    EndGoesOn(protocol.rest, more, protocol.m, Request);
  }

  // A request line is no status line, with or without what follows.
  lemma RequestIsNoStatus(s: string, more: string, m: Fields, n: Fields)
    requires All(m.protocol, IsToken) && LoadRequestLine(s, n).Loaded?
    ensures LoadStatusLine(s, m) == NotLoaded(m) && LoadStatusLine(s + more, m) == NotLoaded(m)
  {
    hide LoadUri, LoadProtocol, LoadEnd, LoadStatusLine;
    var k := Run(s, IsToken);
    assert LoadMethod(s, n).Loaded? && Head(s[k..]) == ' ';
    NoStatusLine(s, m);
    assert s[k..] != "";
    RunGoesOn(s, more, IsToken);
    RestGoesOn(s, more, k);
    HeadGoesOn(s[k..], more);
    NoStatusLine(s + more, m);
  }

  lemma FirstLineGoesOn(s: string, more: string, m: Fields)
    requires All(m.protocol, IsToken) && LoadFirstLine(s, m).Loaded?
    ensures LoadFirstLine(s + more, m) == GoesOn(LoadFirstLine(s, m), more)
  {
    hide LoadStatusLine, LoadRequestLine;
    var status := LoadStatusLine(s, m);
    if status.Loaded? {
      StatusLineGoesOn(s, more, m);
    } else {
      RequestIsNoStatus(s, more, m, status.m);
      RequestLineGoesOn(s, more, m);
    }
  }

  // ---- header fields ----

  lemma ValueGoesOn(name: string, s: string, more: string)
    requires ParseValue(name, s).Entry?
    ensures ParseValue(name, s + more) ==
            Entry(ParseValue(name, s).header, ParseValue(name, s).rest + more)
  {
    var v := Run(s, NotReturn);
    RunGoesOn(s, more, NotReturn);
    RestGoesOn(s, more, v);
    RestGoesOn(s, more, v + 1);
    hide Run, NotReturn, CStr;
  }

  lemma EntryGoesOn(s: string, more: string)
    requires ParseEntry(s).Entry?
    ensures ParseEntry(s + more) == Entry(ParseEntry(s).header, ParseEntry(s).rest + more)
  {
    hide ParseValue;
    var n := Run(s, IsToken);
    assert s[n..] != "";
    RunGoesOn(s, more, IsToken);
    RestGoesOn(s, more, n);
    HeadGoesOn(s[n..], more);
    hide Run, IsToken;
    var s2 := Tail(s[n..]);
    var s3 := if Head(s2) == ' ' then Tail(s2) else s2;
    assert ParseEntry(s) == ParseValue(s[..n], s3);
    ValueNotEmpty(s[..n], s3);
    HeadGoesOn(s2, more);
    ValueGoesOn(s[..n], s3, more);
  }

  lemma ValueNotEmpty(name: string, s: string)
    requires ParseValue(name, s).Entry?
    ensures s != ""
  {
  }

  lemma {:induction false} HeadersGoOn(s: string, done: seq<Header>, more: string)
    requires ParseHeaders(s, done).Good?
    ensures ParseHeaders(s + more, done) ==
            Good(ParseHeaders(s, done).headers, ParseHeaders(s, done).rest + more)
    decreases |s|
  {
    hide IsToken, ParseEntry;
    Separators();
    assert s != "";
    HeadGoesOn(s, more);
    if IsToken(Head(s)) && Head(s) != ' ' && Head(s) != '\t' {
      var e := ParseEntry(s);
      EntryGoesOn(s, more);
      assert e.rest != "";
      HeadGoesOn(e.rest, more);
      HeadersGoOn(Tail(e.rest), done + [e.header], more);
    } else {
      assert Tail(s) != "";
      HeadGoesOn(Tail(s), more);
    }
  }

  // ---- complete heads ----

  // A first line that is accepted and header fields up to the empty line, with nothing behind it.
  predicate CompleteHead(head: string, m: Fields) {
    var first := LoadFirstLine(head, m);
    first.Loaded? && ParseHeaders(first.rest, []).Good? && ParseHeaders(first.rest, []).rest == "\n"
  }

  function HeadFields(head: string, m: Fields): Fields
    requires CompleteHead(head, m)
  {
    LoadFirstLine(head, m).m
  }

  function HeadHeaders(head: string, m: Fields): seq<Header>
    requires CompleteHead(head, m)
  {
    ParseHeaders(LoadFirstLine(head, m).rest, []).headers
  }

  /** A complete head is parsed as it stands, whatever follows it, and what follows is the body. */
  lemma HeadParsed(head: string, into: Message, data: string)
    requires All(into.fields.protocol, IsToken) && CompleteHead(head, into.fields)
    ensures ParseMessage(into, head + data) ==
            ParseBody(Message(HeadFields(head, into.fields), HeadHeaders(head, into.fields), into.body), data)
  {
    var first := LoadFirstLine(head, into.fields);
    FirstLineGoesOn(head, data, into.fields);
    HeadersGoOn(first.rest, [], data);
    assert Tail("\n" + data) == data;
    hide LoadFirstLine, ParseHeaders, ParseBody, IsToken;
  }

  /** What is printed for a well-formed message is a complete head, with the fields and headers printed. */
  lemma PrintedRequestHead(f: Fields, hs: seq<Header>, m: Fields)
    requires WellFormedRequest(f, hs) && m.protocol == f.protocol
    ensures All(m.protocol, IsToken)
    ensures CompleteHead(PrintHead(f, hs), m) && HeadHeaders(PrintHead(f, hs), m) == hs
    ensures HeadFields(PrintHead(f, hs), m) ==
            m.(kind := Request, command := f.command, uri := f.uri, major := f.major, minor := f.minor)
  {
    hide ParseHeaders, PrintHead, PrintHeaders, FirstLine;
    var rest := PrintHeaders(hs) + "\r\n" + "";
    HeadSplit(f, hs, "");
    assert PrintHead(f, hs) + "" == PrintHead(f, hs);
    FirstLineOfRequest(f, hs, m, rest);
    hide LoadFirstLine;
    HeadersBack(hs, [], "");
    assert [] + hs == hs && "\n" + "" == "\n";
  }

  lemma PrintedResponseHead(f: Fields, hs: seq<Header>, m: Fields)
    requires WellFormedResponse(f, hs) && m.protocol == f.protocol
    ensures All(m.protocol, IsToken)
    ensures CompleteHead(PrintHead(f, hs), m) && HeadHeaders(PrintHead(f, hs), m) == hs
    ensures HeadFields(PrintHead(f, hs), m) ==
            m.(kind := Response, major := f.major, minor := f.minor, code := f.code,
               status := ReasonField(|f.protocol|, CStr(f.status)))
  {
    hide ParseHeaders, PrintHead, PrintHeaders, FirstLine, ReasonField, CStr;
    var rest := PrintHeaders(hs) + "\r\n" + "";
    HeadSplit(f, hs, "");
    assert PrintHead(f, hs) + "" == PrintHead(f, hs);
    FirstLineOfResponse(f, hs, m, rest);
    hide LoadFirstLine;
    HeadersBack(hs, [], "");
    assert [] + hs == hs && "\n" + "" == "\n";
  }
}
