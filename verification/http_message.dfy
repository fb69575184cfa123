/**
 HttpMessage (Tiny/Http/HttpMessage.c): the two first-line loaders, the parser and the
 printer.

 The functions say what the cursor loops make of the text still ahead; the methods of
 class HttpMessage are these loops. Where the code would write behind a field of fixed
 size, or read on behind the text without end, the outcome is Beyond.
 */
module HttpMessages {
  import opened Words
  import opened Wrappers
  import opened HttpText
  import opened HttpHeaders
  import opened HttpContents

  const FIRST_LINE_MIN_LEN: nat := 14
  const PROTOCOL_LEN: nat := 8
  const METHOD_LEN: nat := 32
  const URI_LEN: nat := 256
  const STATUS_LEN: nat := 256
  const CONTENT_LENGTH: string := "Content-Length"

  datatype Kind = Undefined | Request | Response

  // status is what stands in its field, which a terminator may precede.
  datatype Fields = Fields(
    kind: Kind, protocol: string, command: string, uri: string, major: int, minor: int, code: int, status: string)

  datatype First = Loaded(rest: string, m: Fields) | NotLoaded(m: Fields) | Beyond

  // ---- first lines ----

  // Digits, a dot and digits.
  function LoadVersion(s: string, m: Fields): (r: First)
    ensures r.Loaded? ==> |r.rest| <= |s|
    ensures !r.Beyond? ==> r.m.protocol == m.protocol
  {
    var d := Run(s, IsDigit);
    if d == 0 then NotLoaded(m)
    else
      var m1 := m.(major := DecValue(s[..d]));
      if Head(s[d..]) != '.' then NotLoaded(m1) else LoadMinor(Tail(s[d..]), m1)
  }

  function LoadMinor(s: string, m: Fields): (r: First)
    ensures r.Loaded? ==> |r.rest| <= |s|
    ensures !r.Beyond? ==> r.m.protocol == m.protocol
  {
    var d := Run(s, IsDigit);
    if d == 0 then NotLoaded(m) else Loaded(s[d..], m.(minor := DecValue(s[..d])))
  }

  // The protocol identifier, a slash and the version.
  function LoadProtocol(s: string, m: Fields): (r: First)
    ensures r.Loaded? ==> |r.rest| <= |s|
    ensures !r.Beyond? ==> r.m.protocol == m.protocol
  {
    var n := |m.protocol|;
    if !(m.protocol <= s) || Head(s[n..]) != '/' then NotLoaded(m) else LoadVersion(Tail(s[n..]), m)
  }

  function LoadEnd(s: string, m: Fields, kind: Kind): (r: First)
    ensures r.Loaded? ==> |r.rest| < |s|
    ensures !r.Beyond? ==> r.m.protocol == m.protocol
  {
    if Head(s) != '\r' || Head(Tail(s)) != '\n' then NotLoaded(m) else Loaded(Tail(Tail(s)), m.(kind := kind))
  }

  function LoadCode(s: string, m: Fields): (r: First)
    ensures r.Loaded? ==> |r.rest| <= |s|
    ensures !r.Beyond? ==> r.m.protocol == m.protocol
  {
    if Head(s) != ' ' then NotLoaded(m)
    else
      var d := Run(Tail(s), IsDigit);
      var m1 := m.(code := DecValue(Tail(s)[..d]));
      if Head(Tail(s)[d..]) != ' ' then NotLoaded(m1) else Loaded(Tail(Tail(s)[d..]), m1)
  }

  // The reason is written from the index at which the protocol identifier ended.
  function LoadReason(s: string, m: Fields): (r: First)
    ensures r.Loaded? ==> |r.rest| < |s|
    ensures !r.Beyond? ==> r.m.protocol == m.protocol
  {
    var t := Run(s, IsText);
    if |m.protocol| + t > STATUS_LEN then Beyond
    else LoadEnd(s[t..], m.(status := seq(|m.protocol|, i => '\0') + s[..t]), Response)
  }

  function LoadStatusLine(s: string, m: Fields): (r: First)
    ensures r.Loaded? ==> |r.rest| < |s|
    ensures !r.Beyond? ==> r.m.protocol == m.protocol
  {
    if |s| < FIRST_LINE_MIN_LEN then NotLoaded(m)
    else
      var protocol := LoadProtocol(s, m);
      if !protocol.Loaded? then protocol
      else
        var code := LoadCode(protocol.rest, protocol.m);
        if !code.Loaded? then code else LoadReason(code.rest, code.m)
  }

  function LoadMethod(s: string, m: Fields): (r: First)
    ensures r.Loaded? ==> |r.rest| < |s|
    ensures !r.Beyond? ==> r.m.protocol == m.protocol
  {
    var n := Run(s, IsToken);
    if n > METHOD_LEN then Beyond
    else
      var m1 := m.(command := s[..n]);
      if n == 0 || Head(s[n..]) != ' ' then NotLoaded(m1) else Loaded(Tail(s[n..]), m1)
  }

  function LoadUri(s: string, m: Fields): (r: First)
    ensures r.Loaded? ==> |r.rest| < |s|
    ensures !r.Beyond? ==> r.m.protocol == m.protocol
  {
    var n := Run(s, IsUriChar);
    if n > URI_LEN then Beyond
    else
      var m1 := m.(uri := s[..n]);
      if n == 0 || Head(s[n..]) != ' ' then NotLoaded(m1) else Loaded(Tail(s[n..]), m1)
  }

  function LoadRequestLine(s: string, m: Fields): (r: First)
    ensures r.Loaded? ==> |r.rest| < |s|
    ensures !r.Beyond? ==> r.m.protocol == m.protocol
  {
    if |s| < FIRST_LINE_MIN_LEN then NotLoaded(m)
    else
      var command := LoadMethod(s, m);
      if !command.Loaded? then command
      else
        var uri := LoadUri(command.rest, command.m);
        if !uri.Loaded? then uri
        else
          var protocol := LoadProtocol(uri.rest, uri.m);
          if !protocol.Loaded? then protocol else LoadEnd(protocol.rest, protocol.m, Request)
  }

  function LoadFirstLine(s: string, m: Fields): (r: First)
    ensures r.Loaded? ==> |r.rest| < |s|
    ensures !r.Beyond? ==> r.m.protocol == m.protocol
  {
    var status := LoadStatusLine(s, m);
    if status.NotLoaded? then LoadRequestLine(s, status.m) else status
  }

  // ---- the whole message ----

  datatype Message = Message(fields: Fields, headers: seq<Header>, body: Body)

  datatype Ret = ParseOk | MsgInvalid | OutOfMemory

  // What a parse leaves; Crashed where a field or the text would be left.
  datatype Parsing = Done(msg: Message, ret: Ret) | Crashed

  // Content-Length as atoi reads it, cast to uint32_t; 0 without the field.
  function ContentLength(hs: seq<Header>): nat {
    var length := Lookup(hs, CONTENT_LENGTH);
    if length.Some? then AtoI(length.value) % U32 else 0
  }

  // The first field with this name, in any case, has a value that atoi reads as n; or there is none, and n is 0.
  ghost predicate Announces(hs: seq<Header>, n: int) {
    || (exists k: nat :: IsFirstField(hs, "Content-Length", k) && AtoI(hs[k].value) % U32 == n)
    || (HasNoField(hs, "Content-Length") && n == 0)
  }

  /** The length that is read is the one that is announced. */
  lemma ContentLengthIs(hs: seq<Header>, n: int)
    ensures ContentLength(hs) == n <==> Announces(hs, n)
  {
    hide SameName, Lookup, AtoI;
    var k := LookupFindsFirst(hs, "Content-Length");
    if Announces(hs, n) && !HasNoField(hs, "Content-Length") {
      var j: nat :| IsFirstField(hs, "Content-Length", j) && AtoI(hs[j].value) % U32 == n;
      LookupOfFirst(hs, "Content-Length", j);
    }
  }

  /** A first field of that name with a number in decimal announces it, and without such a field it is 0. */
  lemma AnnouncedBy(hs: seq<Header>, k: nat, n: nat)
    requires IsFirstField(hs, "Content-Length", k) && hs[k].value == Dec(n) && n < U32
    ensures Announces(hs, n) && ContentLength(hs) == n
  {
    AtoIOfDec(n);
    hide AtoI, Lookup, Dec;
    ContentLengthIs(hs, n);
  }

  lemma NothingAnnounced(hs: seq<Header>)
    requires HasNoField(hs, "Content-Length")
    ensures Announces(hs, 0) && ContentLength(hs) == 0
  {
    ContentLengthIs(hs, 0);
  }

  function ParseMessage(msg: Message, s: string): Parsing {
    var first := LoadFirstLine(s, msg.fields);
    if first.Beyond? then Crashed
    else if first.NotLoaded? then Done(msg.(fields := first.m), MsgInvalid)
    else ParseRest(msg.(fields := first.m), first.rest)
  }

  function ParseRest(msg: Message, s: string): Parsing {
    match ParseHeaders(s, [])
    case Bad(hs) => Done(msg.(headers := hs), MsgInvalid)
    case TooFar => Crashed
    case Good(hs, rest) => ParseBody(msg.(headers := hs), Tail(rest))
  }

  function ParseBody(msg: Message, data: string): (p: Parsing)
    ensures p.Done?
  {
    var n := ContentLength(msg.headers);
    if n == 0 then Done(msg, ParseOk)
    else if n > HTTP_CONTENT_MAX_SIZE then Done(msg.(body := Body(0, "")), OutOfMemory)
    else Done(msg.(body := Appended(Body(n, ""), data)), ParseOk)
  }

  // ---- printing ----

  // %s of the method: its field has no terminator when it is full, and the one of the URI follows it.
  function MethodText(f: Fields): string {
    if |f.command| < METHOD_LEN then f.command else f.command[..METHOD_LEN] + f.uri
  }

  function FirstLine(f: Fields): string {
    if f.kind == Request then
      MethodText(f) + " " + f.uri + " " + f.protocol + "/" + PrintInt(f.major) + "." + PrintInt(f.minor) + "\r\n"
    else
      f.protocol + "/" + PrintInt(f.major) + "." + PrintInt(f.minor) + " " + PrintInt(f.code) + " "
      + CStr(f.status) + "\r\n"
  }

  // Everything before the body.
  function PrintHead(f: Fields, hs: seq<Header>): string {
    Line(FirstLine(f)) + PrintHeaders(hs) + "\r\n"
  }

  function Print(msg: Message): string
    requires |msg.body.data| <= msg.body.size
  {
    PrintHead(msg.fields, msg.headers) + Padded(msg.body)
  }

  // What strncpy and a fixed length make of a text: terminators from the first one on.
  function Copied(s: string): (r: string)
    ensures |r| == |s| && ('\0' !in s ==> r == s)
  {
    CStr(s) + seq(|s| - |CStr(s)|, _ => '\0')
  }

  // What is used of a string of len characters that the head fits into; nothing, if the body does not.
  function PrintWithin(msg: Message, len: nat): (r: string)
    requires |msg.body.data| <= msg.body.size && |PrintHead(msg.fields, msg.headers)| <= len
    ensures |Print(msg)| <= len && '\0' !in Padded(msg.body) ==> r == Print(msg)
  {
    var head := PrintHead(msg.fields, msg.headers);
    if |head| == len then head
    else if msg.body.size > len - |head| then ""
    else head + Copied(Padded(msg.body))
  }

  // A protocol identifier that fits into its field, with its terminator.
  predicate Identifier(protocol: string) {
    |protocol| < PROTOCOL_LEN && '\0' !in protocol
  }

  class HttpMessage {
    var fields: Fields
    const header: HttpHeader
    const content: HttpContent

    ghost predicate Valid()
      reads this, content, content.buf
    {
      content.Valid() && Identifier(fields.protocol)
    }

    ghost function Value(): Message
      requires Valid()
      reads this, header, content, content.buf
    {
      Message(fields, header.headers, content.Value())
    }

    constructor (protocol: string)
      requires Identifier(protocol)
      ensures Valid() && fresh(header) && fresh(content) && content.buf == null
      ensures Value() == Message(Fields(Undefined, protocol, "", "", 0, 0, 0, ""), [], Body(0, ""))
    {
      fields := Fields(Undefined, protocol, "", "", 0, 0, 0, "");
      header := new HttpHeader();
      content := new HttpContent();
    }

    // The place after what was loaded from p on, and the fields, are as `first` says.
    ghost predicate Loads(s: string, p: nat, first: First, r: Scan)
      reads this
    {
      match first
      case Loaded(rest, m) => r.Took? && p + r.size <= |s| && s[p + r.size..] == rest && fields == m
      case NotLoaded(m) => r == Refused && fields == m
      case Beyond => r == Overrun
    }

    // The version at p whose major number ends at q.
    static lemma VersionAt(s: string, p: nat, q: nat, m: Fields)
      requires p <= q <= |s| && Run(s[p..], IsDigit) == q - p
      ensures LoadVersion(s[p..], m) ==
              if q == p then NotLoaded(m)
              else
                var m1 := m.(major := DecValue(s[p..][..q - p]));
                if q == |s| || s[q] != '.' then NotLoaded(m1) else LoadMinor(s[q + 1..], m1)
    {
      hide Run, IsDigit, DecValue, LoadMinor;
      SuffixCut(s, p, q);
      Suffix(s, q);
    }

    method ScanVersion(s: string, p: nat) returns (r: Scan)
      requires p <= |s|
      modifies this
      ensures Loads(s, p, LoadVersion(s[p..], old(fields)), r)
    {
      hide Run, IsDigit, DecValue, LoadMinor;
      var q, major := ReadDigits(s, p);
      VersionAt(s, p, q, fields);
      hide LoadVersion;
      if q == p {
        return Refused;
      }
      fields := fields.(major := major);
      if q == |s| || s[q] != '.' {
        return Refused;
      }
      r := ScanMinor(s, q + 1);
      if r.Took? {
        r := Took(q + 1 - p + r.size);
      }
    }

    method ScanMinor(s: string, p: nat) returns (r: Scan)
      requires p <= |s|
      modifies this
      ensures Loads(s, p, LoadMinor(s[p..], old(fields)), r)
    {
      hide Run, IsDigit, DecValue;
      var q, minor := ReadDigits(s, p);
      SuffixCut(s, p, q);
      if q == p {
        return Refused;
      }
      fields := fields.(minor := minor);
      r := Took(q - p);
    }

    method MatchesProtocol(s: string, p: nat) returns (same: bool)
      requires p <= |s|
      ensures same <==> fields.protocol <= s[p..]
    {
      Suffix(s, p);
      var count := |fields.protocol|;
      var i := 0;
      while i < count
        invariant i <= count && p + i <= |s|
        invariant forall j :: 0 <= j < i ==> s[p..][j] == fields.protocol[j]
      {
        if p + i == |s| || s[p + i] != fields.protocol[i] {
          NotPrefix(fields.protocol, s[p..], i);
          return false;
        }
        i := i + 1;
      }
      same := true;
    }

    method ScanProtocol(s: string, p: nat) returns (r: Scan)
      requires p <= |s|
      modifies this
      ensures Loads(s, p, LoadProtocol(s[p..], old(fields)), r)
    {
      hide LoadVersion, Head, Tail;
      var count := |fields.protocol|;
      var same := MatchesProtocol(s, p);
      if !same {
        return Refused;
      }
      SuffixCut(s, p, p + count);
      Suffix(s, p + count);
      if p + count == |s| || s[p + count] != '/' {
        return Refused;
      }
      r := ScanVersion(s, p + count + 1);
      if r.Took? {
        r := Took(count + 1 + r.size);
      }
    }

    method ScanEnd(s: string, p: nat, kind: Kind) returns (r: Scan)
      requires p <= |s|
      modifies this
      ensures Loads(s, p, LoadEnd(s[p..], old(fields), kind), r)
    {
      Suffix(s, p);
      if p == |s| || s[p] != '\r' {
        return Refused;
      }
      Suffix(s, p + 1);
      if p + 1 == |s| || s[p + 1] != '\n' {
        return Refused;
      }
      fields := fields.(kind := kind);
      r := Took(2);
    }

    method ScanCode(s: string, p: nat) returns (r: Scan)
      requires p <= |s|
      modifies this
      ensures Loads(s, p, LoadCode(s[p..], old(fields)), r)
    {
      hide Run, IsDigit, DecValue;
      Suffix(s, p);
      if p == |s| || s[p] != ' ' {
        return Refused;
      }
      Suffix(s, p + 1);
      var q, code := ReadDigits(s, p + 1);
      fields := fields.(code := code);
      SuffixCut(s, p + 1, q);
      Suffix(s, q);
      if q == |s| || s[q] != ' ' {
        return Refused;
      }
      r := Took(q + 1 - p);
    }

    method ScanReason(s: string, p: nat) returns (r: Scan)
      requires p <= |s|
      modifies this
      ensures Loads(s, p, LoadReason(s[p..], old(fields)), r)
    {
      hide Run, IsText, LoadEnd;
      var i := |fields.protocol|;
      var q := Skip(s, p, IsText);
      SuffixCut(s, p, q);
      if i + (q - p) > STATUS_LEN {
        return Overrun;
      }
      fields := fields.(status := seq(i, j => '\0') + s[p..q]);
      assert seq(i, j => '\0') == seq(|old(fields).protocol|, i => '\0');
      r := ScanEnd(s, q, Response);
      if r.Took? {
        r := Took(q - p + r.size);
      }
    }

    method StatusLine(s: string) returns (r: Scan)
      modifies this
      ensures Loads(s, 0, LoadStatusLine(s, old(fields)), r)
    {
      hide LoadProtocol, LoadCode, LoadReason;
      assert s[0..] == s;
      if |s| < FIRST_LINE_MIN_LEN {
        return Refused;
      }
      r := ScanProtocol(s, 0);
      if !r.Took? {
        return;
      }
      var p := r.size;
      r := ScanCode(s, p);
      if !r.Took? {
        return;
      }
      p := p + r.size;
      r := ScanReason(s, p);
      if r.Took? {
        r := Took(p + r.size);
      }
    }

    method ScanMethod(s: string, p: nat) returns (r: Scan)
      requires p <= |s|
      modifies this
      ensures Loads(s, p, LoadMethod(s[p..], old(fields)), r)
    {
      hide Run, IsToken;
      var q := Skip(s, p, IsToken);
      SuffixCut(s, p, q);
      if q - p > METHOD_LEN {
        return Overrun;
      }
      fields := fields.(command := s[p..q]);
      Suffix(s, q);
      if q == p || q == |s| || s[q] != ' ' {
        return Refused;
      }
      r := Took(q + 1 - p);
    }

    method ScanUri(s: string, p: nat) returns (r: Scan)
      requires p <= |s|
      modifies this
      ensures Loads(s, p, LoadUri(s[p..], old(fields)), r)
    {
      hide Run, IsUriChar;
      var q := Skip(s, p, IsUriChar);
      SuffixCut(s, p, q);
      if q - p > URI_LEN {
        return Overrun;
      }
      fields := fields.(uri := s[p..q]);
      Suffix(s, q);
      if q == p || q == |s| || s[q] != ' ' {
        return Refused;
      }
      r := Took(q + 1 - p);
    }

    method RequestLine(s: string) returns (r: Scan)
      modifies this
      ensures Loads(s, 0, LoadRequestLine(s, old(fields)), r)
    {
      hide LoadProtocol, LoadMethod, LoadUri, LoadEnd;
      assert s[0..] == s;
      if |s| < FIRST_LINE_MIN_LEN {
        return Refused;
      }
      r := ScanMethod(s, 0);
      if !r.Took? {
        return;
      }
      var p := r.size;
      r := ScanUri(s, p);
      if !r.Took? {
        return;
      }
      p := p + r.size;
      r := ScanProtocol(s, p);
      if !r.Took? {
        return;
      }
      p := p + r.size;
      r := ScanEnd(s, p, Request);
      if r.Took? {
        r := Took(p + r.size);
      }
    }

    // The first line decides the kind of the message.
    method FirstLineOf(s: string) returns (r: Scan)
      modifies this
      ensures Loads(s, 0, LoadFirstLine(s, old(fields)), r)
    {
      hide LoadStatusLine, LoadRequestLine;
      r := StatusLine(s);
      if r == Refused {
        r := RequestLine(s);
      }
    }

    // The state and the answer are those of `parsing`; None: Crashed.
    ghost predicate Parsed(parsing: Parsing, ret: Option<Ret>)
      reads this, header, content, content.buf
    {
      match parsing
      case Crashed => ret == None
      case Done(msg, r) => ret == Some(r) && Valid() && Value() == msg
    }

    method Parse(s: string) returns (ret: Option<Ret>)
      requires Valid()
      modifies this, header, content
      ensures Parsed(ParseMessage(old(Value()), s), ret)
      ensures ret.Some? ==> content.buf == old(content.buf) || content.buf == null || fresh(content.buf)
    {
      hide LoadFirstLine, ParseRest;
      var size := FirstLineOf(s);
      if size == Overrun {
        return None;
      }
      if size == Refused {
        return Some(MsgInvalid);
      }
      ret := TakeHeaders(s[size.size..]);
    }

    method TakeHeaders(s: string) returns (ret: Option<Ret>)
      requires Valid()
      modifies header, content
      ensures Parsed(ParseRest(old(Value()), s), ret)
      ensures ret.Some? ==> content.buf == old(content.buf) || content.buf == null || fresh(content.buf)
    {
      hide ParseHeaders, ParseBody;
      var size := header.Parse(s);
      if size == Overrun {
        return None;
      }
      if size == Refused {
        return Some(MsgInvalid);
      }
      Suffix(s, size.size);
      ret := TakeBody(s[size.size + 1..]);
    }

    method TakeBody(data: string) returns (ret: Option<Ret>)
      requires Valid()
      modifies content
      ensures Parsed(ParseBody(old(Value()), data), ret) && ret.Some?
      ensures content.buf == old(content.buf) || content.buf == null || fresh(content.buf)
    {
      var length := header.GetValue(CONTENT_LENGTH);
      var contentLength := if length.Some? then AtoI(length.value) % U32 else 0;
      if contentLength == 0 {
        return Some(ParseOk);
      }
      var ok := content.SetSize(contentLength);
      if !ok {
        return Some(OutOfMemory);
      }
      if |data| > 0 {
        var _ := content.AddObject(data);
      }
      ret := Some(ParseOk);
    }

    // None: the message has no kind.
    method ToBytes() returns (bytes: Option<string>)
      requires Valid()
      ensures bytes == if fields.kind == Undefined then None else Some(Print(Value()))
    {
      hide FirstLine, HeaderLine, Line;
      if fields.kind == Undefined {
        return None;
      }
      var text := Line(FirstLine(fields));
      var i := 0;
      assert header.headers[0..] == header.headers;
      while i < |header.headers|
        invariant i <= |header.headers|
        invariant text + PrintHeaders(header.headers[i..]) == Line(FirstLine(fields)) + PrintHeaders(header.headers)
      {
        assert header.headers[i..][1..] == header.headers[i + 1..];
        assert PrintHeaders(header.headers[i..]) == HeaderLine(header.headers[i]) + PrintHeaders(header.headers[i + 1..]);
        text := text + HeaderLine(header.headers[i]);
        i := i + 1;
      }
      assert text == Line(FirstLine(fields)) + PrintHeaders(header.headers);
      text := text + "\r\n";
      var data := content.GetObject();
      bytes := Some(text + data);
    }

    // Into a string of len characters that the head fits into.
    method ToString(len: nat) returns (text: string)
      requires Valid() && (fields.kind != Undefined ==> |PrintHead(fields, header.headers)| <= len)
      ensures text == if fields.kind == Undefined then "" else PrintWithin(Value(), len)
    {
      hide FirstLine, HeaderLine, Line, Copied;
      if fields.kind == Undefined {
        return "";
      }
      text := Line(FirstLine(fields));
      var unused := len - |text|;
      if unused <= 0 {
        return;
      }
      var i := 0;
      assert header.headers[0..] == header.headers;
      while i < |header.headers|
        invariant i <= |header.headers| && unused == len - |text|
        invariant text + PrintHeaders(header.headers[i..]) == Line(FirstLine(fields)) + PrintHeaders(header.headers)
      {
        assert header.headers[i..][1..] == header.headers[i + 1..];
        assert PrintHeaders(header.headers[i..]) == HeaderLine(header.headers[i]) + PrintHeaders(header.headers[i + 1..]);
        text := text + HeaderLine(header.headers[i]);
        unused := len - |text|;
        i := i + 1;
        if unused <= 0 {
          break;
        }
      }
      assert unused > 0;
      assert text == Line(FirstLine(fields)) + PrintHeaders(header.headers);
      text := text + "\r\n";
      unused := len - |text|;
      var data := content.GetObject();
      if unused <= 0 || |data| == 0 {
        assert text + Copied("") == text;
        return;
      }
      if |data| > unused {
        return "";
      }
      text := text + Copied(data);
    }
  }

  lemma NotPrefix(a: string, s: string, i: nat)
    requires i < |a| && (i >= |s| || s[i] != a[i])
    ensures !(a <= s)
  {
  }
}
