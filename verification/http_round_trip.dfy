/**
 What HttpMessage prints and what it parses: requests survive the round trip, responses
 lose their reason, and no first line is both a request line and a status line.
 */
module HttpRoundTrip {
  import opened HttpText
  import opened HttpHeaders
  import opened HttpContents
  import opened HttpMessages

  // A message whose lines are not cut and whose parts have no separators in them.
  predicate PrintsWhole(f: Fields, hs: seq<Header>) {
    && |f.protocol| < 8 && All(f.protocol, IsToken)
    && f.major >= 0 && f.minor >= 0
    && |FirstLine(f)| < 256 && AllWellFormed(hs)
  }

  // A stored request whose method has a terminator and whose text the parser does not find too short.
  predicate WellFormedRequest(f: Fields, hs: seq<Header>) {
    StoredRequest(f, hs) && |f.command| < 32 && |PrintHead(f, hs)| >= 14
  }

  // A request whose method and URI fit into their fields, the method also without its terminator.
  predicate StoredRequest(f: Fields, hs: seq<Header>) {
    && f.kind == Request && PrintsWhole(f, hs)
    && f.command != "" && All(f.command, IsToken) && |f.command| <= 32
    && f.uri != "" && All(f.uri, IsUriChar) && |f.uri| <= 256
  }

  predicate WellFormedResponse(f: Fields, hs: seq<Header>) {
    && f.kind == Response && PrintsWhole(f, hs) && |PrintHead(f, hs)| >= 14
    && f.code >= 0 && All(CStr(f.status), IsText) && |f.protocol| + |CStr(f.status)| <= 256
  }

  lemma DigitsBack(n: nat, rest: string)
    requires rest == "" || !IsDigit(rest[0])
    ensures Run(Dec(n) + rest, IsDigit) == |Dec(n)| > 0
    ensures (Dec(n) + rest)[..|Dec(n)|] == Dec(n) && (Dec(n) + rest)[|Dec(n)|..] == rest
    ensures DecValue(Dec(n)) == n
  {
    RunOf(Dec(n), rest, IsDigit);
    DecBack(n);
  }

  lemma MinorBack(m: Fields, minor: nat, rest: string)
    requires rest == "" || !IsDigit(rest[0])
    ensures LoadMinor(Dec(minor) + rest, m) == Loaded(rest, m.(minor := minor))
  {
    hide Run, IsDigit, Dec, DecValue;
    DigitsBack(minor, rest);
  }

  lemma VersionBack(m: Fields, major: nat, minor: nat, rest: string)
    requires rest == "" || !IsDigit(rest[0])
    ensures LoadVersion(Dec(major) + ("." + (Dec(minor) + rest)), m) == Loaded(rest, m.(major := major, minor := minor))
  {
    hide Run, Dec, DecValue, LoadMinor;
    DigitsBack(major, "." + (Dec(minor) + rest));
    assert Tail("." + (Dec(minor) + rest)) == Dec(minor) + rest;
    MinorBack(m.(major := major), minor, rest);
  }

  function VersionText(f: Fields): string {
    "/" + PrintInt(f.major) + "." + PrintInt(f.minor)
  }

  lemma ProtocolBack(m: Fields, f: Fields, rest: string)
    requires f.major >= 0 && f.minor >= 0 && m.protocol == f.protocol && (rest == "" || !IsDigit(rest[0]))
    ensures LoadProtocol(f.protocol + (VersionText(f) + rest), m) == Loaded(rest, m.(major := f.major, minor := f.minor))
  {
    hide Dec, LoadVersion;
    var ver := Dec(f.major) + ("." + (Dec(f.minor) + rest));
    assert VersionText(f) + rest == "/" + ver;
    var s := f.protocol + ("/" + ver);
    assert s[..|f.protocol|] == f.protocol && s[|f.protocol|..] == "/" + ver;
    assert Tail("/" + ver) == ver;
    VersionBack(m, f.major, f.minor, rest);
  }

  lemma EndBack(m: Fields, kind: Kind, rest: string)
    ensures LoadEnd("\r\n" + rest, m, kind) == Loaded(rest, m.(kind := kind))
  {
    assert Tail("\r\n" + rest) == "\n" + rest && Tail("\n" + rest) == rest;
  }

  // ---- requests ----

  lemma MethodBack(m: Fields, command: string, rest: string)
    requires command != "" && All(command, IsToken) && |command| <= METHOD_LEN
    ensures LoadMethod(command + (" " + rest), m) == Loaded(rest, m.(command := command))
  {
    hide Run, IsToken;
    Separators();
    RunOf(command, " " + rest, IsToken);
    assert Tail(" " + rest) == rest;
  }

  lemma UriBack(m: Fields, uri: string, rest: string)
    requires uri != "" && All(uri, IsUriChar) && |uri| <= URI_LEN
    ensures LoadUri(uri + (" " + rest), m) == Loaded(rest, m.(uri := uri))
  {
    hide Run, IsUriChar;
    Separators();
    RunOf(uri, " " + rest, IsUriChar);
    assert Tail(" " + rest) == rest;
  }

  function RequestText(f: Fields, rest: string): string {
    f.command + (" " + (f.uri + (" " + (f.protocol + (VersionText(f) + ("\r\n" + rest))))))
  }

  lemma RequestParts(f: Fields, rest: string)
    requires f.kind == Request && |f.command| < METHOD_LEN
    ensures FirstLine(f) + rest == RequestText(f, rest)
  {
    hide PrintInt;
    Joined10(f.command, " ", f.uri, " ", f.protocol, "/", PrintInt(f.major), ".", PrintInt(f.minor), "\r\n", rest);
  }

  lemma Joined(a: string, b: string, c: string)
    ensures (a + b) + c == a + (b + c)
  {
  }

  // Ten texts in front of another one, put together in two ways.
  lemma Joined10(a: string, b: string, c: string, d: string, e: string, f: string, g: string, h: string, i: string,
                 j: string, rest: string)
    ensures a + b + c + d + e + f + g + h + i + j + rest ==
            a + (b + (c + (d + (e + ((f + g + h + i) + (j + rest))))))
  {
    var back := (f + g + h + i) + (j + rest);
    Joined(a + b + c + d + e + f + g + h + i, j, rest);
    Joined5(a + b + c + d + e, f, g, h, i);
    Joined(a + b + c + d + e, f + g + h + i, j + rest);
    Joined(a + b + c + d, e, back);
    Joined(a + b + c, d, e + back);
    Joined(a + b, c, d + (e + back));
    Joined(a, b, c + (d + (e + back)));
  }

  lemma Joined5(a: string, b: string, c: string, d: string, e: string)
    ensures a + b + c + d + e == a + (b + c + d + e)
  {
    Joined(a, b, c);
    Joined(a, b + c, d);
    Joined(a, b + c + d, e);
  }

  lemma RequestLineBack(f: Fields, hs: seq<Header>, m: Fields, rest: string)
    requires WellFormedRequest(f, hs) && m.protocol == f.protocol
    requires |FirstLine(f)| + |rest| >= FIRST_LINE_MIN_LEN
    ensures LoadRequestLine(RequestText(f, rest), m) ==
            Loaded(rest, m.(kind := Request, command := f.command, uri := f.uri, major := f.major, minor := f.minor))
  {
    hide LoadMethod, LoadUri, LoadProtocol, LoadEnd, Dec, IsToken, IsUriChar, FirstLine;
    Separators();
    var tail := f.protocol + (VersionText(f) + ("\r\n" + rest));
    var m1 := m.(command := f.command);
    var m2 := m1.(uri := f.uri);
    var m3 := m2.(major := f.major, minor := f.minor);
    MethodBack(m, f.command, f.uri + (" " + tail));
    UriBack(m1, f.uri, tail);
    ProtocolBack(m2, f, "\r\n" + rest);
    EndBack(m3, Request, rest);
    RequestParts(f, rest);
  }

  // A protocol identifier of token characters does not end where a method does.
  lemma NoStatusLine(s: string, m: Fields)
    requires All(m.protocol, IsToken) && Head(s[Run(s, IsToken)..]) != '/'
    ensures LoadStatusLine(s, m) == NotLoaded(m)
  {
    hide IsToken, LoadVersion, LoadCode, LoadReason;
    if m.protocol <= s && Head(s[|m.protocol|..]) == '/' {
      Separators();
      var n := |m.protocol|;
      assert s[..n] == m.protocol;
      RunIs(s, IsToken, n);
      assert false;
    }
  }

  lemma FirstLineOfRequest(f: Fields, hs: seq<Header>, m: Fields, rest: string)
    requires WellFormedRequest(f, hs) && m.protocol == f.protocol
    requires |FirstLine(f)| + |rest| >= FIRST_LINE_MIN_LEN
    ensures LoadFirstLine(FirstLine(f) + rest, m) ==
            Loaded(rest, m.(kind := Request, command := f.command, uri := f.uri, major := f.major, minor := f.minor))
  {
    hide Run, IsToken, IsUriChar, LoadStatusLine, LoadRequestLine, Dec, FirstLine;
    Separators();
    RequestParts(f, rest);
    RunOf(f.command, RequestText(f, rest)[|f.command|..], IsToken);
    assert RequestText(f, rest) == f.command + RequestText(f, rest)[|f.command|..];
    NoStatusLine(RequestText(f, rest), m);
    RequestLineBack(f, hs, m, rest);
  }

  // A first token longer than the protocol identifier is no identifier followed by a slash.
  lemma LongToken(s: string, m: Fields)
    requires |m.protocol| < Run(s, IsToken)
    ensures LoadStatusLine(s, m) == NotLoaded(m)
  {
    var n := |m.protocol|;
    assert IsToken(s[..Run(s, IsToken)][n]);
    Separators();
    hide IsToken, LoadVersion, LoadCode, LoadReason;
  }

  // With a full method field, method and URI run together into a first token that is too long, or
  // that no space follows.
  lemma FullMethod(f: Fields, m: Fields, rest: string)
    requires f.kind == Request && |f.command| == METHOD_LEN && All(f.command, IsToken)
    requires f.uri != "" && All(f.uri, IsUriChar) && |m.protocol| < METHOD_LEN
    ensures !LoadFirstLine(FirstLine(f) + rest, m).Loaded?
  {
    var s := FirstLine(f) + rest;
    assert f.command[..METHOD_LEN] == f.command;
    assert s[..METHOD_LEN] == f.command && s[METHOD_LEN] == f.uri[0];
    TokensRun(s, METHOD_LEN);
    LongToken(s, m);
    assert f.uri[0] != ' ';
    hide IsToken, IsUriChar, LoadStatusLine, LoadUri, FirstLine;
    var n := Run(s, IsToken);
    assert n == METHOD_LEN ==> Head(s[n..]) == s[n];
    assert !LoadMethod(s, m).Loaded?;
  }

  lemma {:induction false} TokensRun(s: string, n: nat)
    requires n <= |s| && All(s[..n], IsToken)
    ensures Run(s, IsToken) >= n
  {
    if n > 0 {
      assert s[0] == s[..n][0];
      assert s[1..][..n - 1] == s[..n][1..];
      TokensRun(s[1..], n - 1);
    }
  }

  // ---- responses ----

  function ResponseText(f: Fields, rest: string): string {
    f.protocol + (VersionText(f) + (" " + (PrintInt(f.code) + (" " + (CStr(f.status) + ("\r\n" + rest))))))
  }

  lemma ResponseParts(f: Fields, rest: string)
    requires f.kind == Response
    ensures FirstLine(f) + rest == ResponseText(f, rest)
  {
    hide PrintInt, CStr;
    var version := "/" + PrintInt(f.major) + "." + PrintInt(f.minor);
    Joined5(f.protocol, "/", PrintInt(f.major), ".", PrintInt(f.minor));
    Joined7(f.protocol, version, " ", PrintInt(f.code), " ", CStr(f.status), "\r\n", rest);
  }

  lemma Joined7(a: string, b: string, c: string, d: string, e: string, f: string, g: string, rest: string)
    ensures a + b + c + d + e + f + g + rest == a + (b + (c + (d + (e + (f + (g + rest))))))
  {
    Joined(a + b + c + d + e + f, g, rest);
    Joined(a + b + c + d + e, f, g + rest);
    Joined(a + b + c + d, e, f + (g + rest));
    Joined(a + b + c, d, e + (f + (g + rest)));
    Joined(a + b, c, d + (e + (f + (g + rest))));
    Joined(a, b, c + (d + (e + (f + (g + rest)))));
  }

  lemma CodeBack(m: Fields, code: nat, rest: string)
    ensures LoadCode(" " + (Dec(code) + (" " + rest)), m) == Loaded(rest, m.(code := code))
  {
    hide Run, Dec, DecValue;
    var t := Dec(code) + (" " + rest);
    assert Tail(" " + t) == t;
    DigitsBack(code, " " + rest);
    assert Tail(" " + rest) == rest;
  }

  // The field of a reason read after a protocol identifier of n characters.
  function ReasonField(n: nat, reason: string): string {
    seq(n, i => '\0') + reason
  }

  lemma ReasonBack(m: Fields, reason: string, rest: string)
    requires All(reason, IsText) && |m.protocol| + |reason| <= STATUS_LEN
    ensures LoadReason(reason + ("\r\n" + rest), m) ==
            Loaded(rest, m.(status := ReasonField(|m.protocol|, reason), kind := Response))
  {
    hide Run, IsText, LoadEnd;
    Separators();
    RunOf(reason, "\r\n" + rest, IsText);
    assert ReasonField(|m.protocol|, reason) == seq(|m.protocol|, i => '\0') + reason;
    EndBack(m.(status := ReasonField(|m.protocol|, reason)), Response, rest);
  }

  lemma FirstLineOfResponse(f: Fields, hs: seq<Header>, m: Fields, rest: string)
    requires WellFormedResponse(f, hs) && m.protocol == f.protocol
    requires |FirstLine(f)| + |rest| >= FIRST_LINE_MIN_LEN
    ensures LoadFirstLine(FirstLine(f) + rest, m) ==
            Loaded(rest, m.(kind := Response, major := f.major, minor := f.minor, code := f.code,
                            status := ReasonField(|f.protocol|, CStr(f.status))))
  {
    hide LoadProtocol, LoadCode, LoadReason, Dec, IsToken, IsText, CStr, FirstLine, ReasonField;
    Separators();
    ResponseParts(f, rest);
    var tail := CStr(f.status) + ("\r\n" + rest);
    var m1 := m.(major := f.major, minor := f.minor);
    ProtocolBack(m, f, " " + (PrintInt(f.code) + (" " + tail)));
    CodeBack(m1, f.code, tail);
    ReasonBack(m1.(code := f.code), CStr(f.status), rest);
  }

  /** The reason reads back as it was printed only without a protocol identifier, and else as empty. */
  lemma ReasonLost(n: nat, reason: string)
    requires '\0' !in reason
    ensures CStr(ReasonField(n, reason)) == if n == 0 then reason else ""
  {
    if n == 0 {
      assert ReasonField(n, reason) == reason;
    } else {
      assert ReasonField(n, reason)[0] == '\0';
    }
  }

  // ---- whole messages ----

  // The body after a parse: without an announced length, the one from before.
  function BodyAfter(was: Body, n: nat, data: string): Body {
    if n == 0 then was else Appended(Body(n, ""), data)
  }

  lemma RestBack(msg: Message, hs: seq<Header>, data: string)
    requires AllWellFormed(hs) && ContentLength(hs) <= HTTP_CONTENT_MAX_SIZE
    ensures ParseRest(msg, PrintHeaders(hs) + "\r\n" + data) ==
            Done(msg.(headers := hs, body := BodyAfter(msg.body, ContentLength(hs), data)), ParseOk)
  {
    hide PrintHeaders, ContentLength, AllWellFormed, ParseHeaders, Appended;
    HeadersBack(hs, [], data);
    assert [] + hs == hs;
    assert Tail("\n" + data) == data;
  }

  lemma HeadSplit(f: Fields, hs: seq<Header>, data: string)
    requires |FirstLine(f)| < LINE_LEN
    ensures PrintHead(f, hs) + data == FirstLine(f) + (PrintHeaders(hs) + "\r\n" + data)
    ensures |FirstLine(f)| + |PrintHeaders(hs) + "\r\n" + data| == |PrintHead(f, hs)| + |data|
  {
    hide FirstLine, PrintHeaders;
  }

  /** The printed head of a request, followed by whatever has come of the body. */
  lemma RequestParsed(f: Fields, hs: seq<Header>, into: Message, n: nat, data: string)
    requires WellFormedRequest(f, hs) && into.fields.protocol == f.protocol
    requires Announces(hs, n) && n <= HTTP_CONTENT_MAX_SIZE
    ensures ParseMessage(into, PrintHead(f, hs) + data) ==
            Done(Message(into.fields.(kind := Request, command := f.command, uri := f.uri, major := f.major, minor := f.minor),
                         hs, BodyAfter(into.body, n, data)), ParseOk)
  {
    ContentLengthIs(hs, n);
    hide Announces;
    hide FirstLine, PrintHeaders, ContentLength, LoadFirstLine, ParseRest, BodyAfter;
    HeadSplit(f, hs, data);
    FirstLineOfRequest(f, hs, into.fields, PrintHeaders(hs) + "\r\n" + data);
    var read := into.fields.(kind := Request, command := f.command, uri := f.uri, major := f.major, minor := f.minor);
    RestBack(into.(fields := read), hs, data);
  }

  lemma ResponseParsed(f: Fields, hs: seq<Header>, into: Message, n: nat, data: string)
    requires WellFormedResponse(f, hs) && into.fields.protocol == f.protocol
    requires Announces(hs, n) && n <= HTTP_CONTENT_MAX_SIZE
    ensures ParseMessage(into, PrintHead(f, hs) + data) ==
            Done(Message(into.fields.(kind := Response, major := f.major, minor := f.minor, code := f.code,
                                      status := ReasonField(|f.protocol|, CStr(f.status))),
                         hs, BodyAfter(into.body, n, data)), ParseOk)
  {
    ContentLengthIs(hs, n);
    hide Announces;
    hide FirstLine, PrintHeaders, ContentLength, LoadFirstLine, ParseRest, BodyAfter, ReasonField, CStr;
    HeadSplit(f, hs, data);
    FirstLineOfResponse(f, hs, into.fields, PrintHeaders(hs) + "\r\n" + data);
    RestBack(into.(fields := into.fields.(kind := Response, major := f.major, minor := f.minor, code := f.code,
                                          status := ReasonField(|f.protocol|, CStr(f.status)))),
             hs, data);
  }

  // The body is all there and as long as the header fields say.
  ghost predicate Complete(msg: Message) {
    Full(msg.body) && Announces(msg.headers, msg.body.size) && msg.body.size <= 0x80_0000
  }

  lemma WholeBody(was: Body, body: Body)
    requires Full(body)
    ensures Padded(body) == body.data
    ensures BodyAfter(was, body.size, body.data) == if body.size > 0 then body else was
  {
    assert body.data + [] == body.data && "" + body.data == body.data;
    assert seq(0, i => '\0') == [];
  }

  /** Method, URI, version, header sequence and body come back from the printed request. */
  lemma RequestRoundTrip(msg: Message, into: Message)
    requires WellFormedRequest(msg.fields, msg.headers) && Complete(msg)
    requires into.fields.protocol == msg.fields.protocol
    ensures var parsed := ParseMessage(into, Print(msg));
            && parsed.Done? && parsed.ret == ParseOk
            && parsed.msg.fields.kind == Request
            && parsed.msg.fields.command == msg.fields.command && parsed.msg.fields.uri == msg.fields.uri
            && parsed.msg.fields.major == msg.fields.major && parsed.msg.fields.minor == msg.fields.minor
            && parsed.msg.headers == msg.headers
            && parsed.msg.body == if msg.body.size > 0 then msg.body else into.body
  {
    hide ParseMessage, PrintHead, WellFormedRequest, Announces;
    WholeBody(into.body, msg.body);
    RequestParsed(msg.fields, msg.headers, into, msg.body.size, msg.body.data);
  }

  /** Version, code, header sequence and body come back from a response; its reason only without a
      protocol identifier, and else as empty. */
  lemma ResponseRoundTrip(msg: Message, into: Message)
    requires WellFormedResponse(msg.fields, msg.headers) && Complete(msg)
    requires into.fields.protocol == msg.fields.protocol
    ensures var parsed := ParseMessage(into, Print(msg));
            && parsed.Done? && parsed.ret == ParseOk
            && parsed.msg.fields.kind == Response
            && parsed.msg.fields.major == msg.fields.major && parsed.msg.fields.minor == msg.fields.minor
            && parsed.msg.fields.code == msg.fields.code
            && CStr(parsed.msg.fields.status) == (if msg.fields.protocol == "" then CStr(msg.fields.status) else "")
            && parsed.msg.headers == msg.headers
            && parsed.msg.body == if msg.body.size > 0 then msg.body else into.body
  {
    hide ParseMessage, PrintHead, Announces, CStr;
    WholeBody(into.body, msg.body);
    ResponseParsed(msg.fields, msg.headers, into, msg.body.size, msg.body.data);
    ReasonLost(|msg.fields.protocol|, CStr(msg.fields.status));
  }

  /** No input is accepted by both loaders. */
  lemma NotBoth(s: string, m: Fields, n: Fields)
    requires All(m.protocol, IsToken)
    ensures !(LoadStatusLine(s, m).Loaded? && LoadRequestLine(s, n).Loaded?)
  {
    hide IsToken, LoadVersion, LoadCode, LoadReason, LoadUri, LoadProtocol, LoadEnd;
    Separators();
    if LoadRequestLine(s, n).Loaded? {
      assert LoadMethod(s, n).Loaded?;
      NoStatusLine(s, m);
    }
  }

  // A header with a length is no short one.
  lemma {:induction false} LongHeader(hs: seq<Header>, name: string)
    requires AllWellFormed(hs) && Lookup(hs, name).Some? && |name| < LINE_LEN
    ensures |PrintHeaders(hs)| >= |name|
  {
    if Folded(hs[0].name) == Folded(name) {
      assert WellFormed(hs[0]);
      assert |Folded(hs[0].name)| == |hs[0].name| && |Folded(name)| == |name|;
    } else {
      LongHeader(hs[1..], name);
    }
  }

  // A text that is too short has no body.
  lemma ShortText(f: Fields, hs: seq<Header>, n: nat)
    requires AllWellFormed(hs) && |PrintHead(f, hs)| < FIRST_LINE_MIN_LEN && Announces(hs, n)
    ensures n == 0
  {
    ContentLengthIs(hs, n);
    hide Announces, AtoI;
    if Lookup(hs, CONTENT_LENGTH).Some? {
      LongHeader(hs, CONTENT_LENGTH);
    }
  }

  /** A printed request reads back exactly when its method leaves room for a terminator and its text has
      the 14 characters of the shortest request line with its end. */
  lemma ReadsBackExactly(msg: Message, into: Message)
    requires StoredRequest(msg.fields, msg.headers) && Complete(msg)
    requires into.fields.protocol == msg.fields.protocol
    ensures var parsed := ParseMessage(into, Print(msg));
            parsed.Done? && parsed.ret == ParseOk && parsed.msg.fields.command == msg.fields.command
            <==> |msg.fields.command| < 32 && |Print(msg)| >= 14
  {
    hide Announces;
    if |PrintHead(msg.fields, msg.headers)| < FIRST_LINE_MIN_LEN {
      ShortText(msg.fields, msg.headers, msg.body.size);
      assert |Print(msg)| < FIRST_LINE_MIN_LEN;
    }
    hide PrintHead;
    if |PrintHead(msg.fields, msg.headers)| < FIRST_LINE_MIN_LEN {
      assert LoadFirstLine(Print(msg), into.fields) == NotLoaded(into.fields);
    } else if |msg.fields.command| < METHOD_LEN {
      RequestRoundTrip(msg, into);
    } else {
      HeadSplit(msg.fields, msg.headers, Padded(msg.body));
      FullMethod(msg.fields, into.fields, PrintHeaders(msg.headers) + "\r\n" + Padded(msg.body));
      hide LoadFirstLine, StoredRequest;
    }
  }

  const POST: Fields := Fields(Request, "HTTP", "POST", "/c", 1, 1, 0, "")
  const OK: Fields := Fields(Response, "HTTP", "", "", 1, 1, 200, "OK")

  lemma SmallNumbers()
    ensures Dec(1) == "1" && Dec(5) == "5" && Dec(200) == "200"
  {
    assert Dec(20) == Dec(2) + "0" == "20" && Dec(200) == Dec(20) + "0" == "200";
  }

  lemma PostLine()
    ensures FirstLine(POST) == "POST /c HTTP/1.1\r\n"
  {
    SmallNumbers();
    hide Dec;
    assert MethodText(POST) == "POST";
    hide MethodText;
  }

  lemma StatusLine()
    ensures FirstLine(OK) == "HTTP/1.1 200 OK\r\n"
  {
    SmallNumbers();
    assert CStr("OK") == "OK";
    hide Dec, CStr;
  }

  lemma OneHeader(h: Header)
    ensures PrintHeaders([h]) == HeaderLine(h)
  {
    hide HeaderLine;
    assert [h][1..] == [];
  }

  lemma LengthLine()
    ensures HeaderLine(Header("Content-Length", Dec(5))) == "Content-Length: 5\r\n"
  {
    SmallNumbers();
    hide Dec;
  }

  lemma HelloPadded()
    ensures Padded(Body(5, "hello")) == "hello"
  {
  }

  /** The text of a request with a body, line by line. */
  lemma RequestExample()
    ensures Print(Message(POST, [Header("Content-Length", Dec(5))], Body(5, "hello")))
            == "POST /c HTTP/1.1\r\n" + "Content-Length: 5\r\n" + "\r\n" + "hello"
  {
    var length := Header("Content-Length", Dec(5));
    PostLine();
    OneHeader(length);
    LengthLine();
    HelloPadded();
    hide FirstLine, HeaderLine, PrintHeaders, Dec, Padded;
  }

  /** The text of a response without one. */
  lemma ResponseExample()
    ensures Print(Message(OK, [], Body(0, ""))) == "HTTP/1.1 200 OK\r\n\r\n"
  {
    StatusLine();
    assert Padded(Body(0, "")) == "";
    hide FirstLine, Padded;
  }
}
