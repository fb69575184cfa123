/**
 SsdpMessage (UpnpStack/UpnpRegistry/SsdpMessage.c): discovery messages are printed and
 parsed through HttpMessage.
 */
module Ssdp {
  import opened Words
  import opened Wrappers
  import opened HttpText
  import opened HttpHeaders
  import opened HttpContents
  import opened HttpMessages
  import opened HttpRoundTrip

  const NTS_ALIVE: string := "ssdp:alive"
  const NTS_BYEBYE: string := "ssdp:byebye"
  const PROTOCOL_HTTP: string := "HTTP"

  // NoType: a message of another kind, which is accepted and not looked at further.
  datatype SsdpMessage =
    | NoType
    | Alive(host: string, cacheControl: string, nt: string, nts: string, server: string, usn: string, location: string)
    | Byebye(host: string, nt: string, nts: string, usn: string)
    | Search(host: string, st: string, man: string, mx: int)
    | Answer(cacheControl: string, st: string, server: string, usn: string, location: string)

  datatype Constructed = Parsed(msg: SsdpMessage) | Invalid | Broken

  // strncpy into a cleared field of n characters and a terminator.
  function Fit(s: string, n: nat): string {
    if |s| <= n then s else s[..n]
  }

  // ---- parsing ----

  // Where NTS should be looked for, NT is looked at a second time: without NTS a null pointer is copied
  // from (Broken).
  function ParseAlive(hs: seq<Header>): Constructed {
    var host, cacheControl, location := Lookup(hs, "HOST"), Lookup(hs, "CACHE-CONTROL"), Lookup(hs, "LOCATION");
    var nt, nts, usn, server := Lookup(hs, "NT"), Lookup(hs, "NTS"), Lookup(hs, "USN"), Lookup(hs, "SERVER");
    if host.None? || cacheControl.None? || location.None? || nt.None? || usn.None? then Invalid
    else if nts.None? then Broken
    else
      Parsed(Alive(Fit(host.value, 128), Fit(cacheControl.value, 128), Fit(nt.value, 128), Fit(nts.value, 64),
                   if server.Some? then Fit(server.value, 128) else "", Fit(usn.value, 128), Fit(location.value, 256)))
  }

  function ParseByebye(hs: seq<Header>): Constructed {
    var host, nt, nts, usn := Lookup(hs, "HOST"), Lookup(hs, "NT"), Lookup(hs, "NTS"), Lookup(hs, "USN");
    if host.None? || nt.None? || usn.None? then Invalid
    else if nts.None? then Broken
    else Parsed(Byebye(Fit(host.value, 128), Fit(nt.value, 128), Fit(nts.value, 64), Fit(usn.value, 128)))
  }

  function ParseSearch(hs: seq<Header>): Constructed {
    var host, st, man, mx := Lookup(hs, "HOST"), Lookup(hs, "ST"), Lookup(hs, "MAN"), Lookup(hs, "MX");
    if host.None? || st.None? || man.None? || mx.None? then Invalid
    else Parsed(Search(Fit(host.value, 128), Fit(st.value, 128), Fit(man.value, 64), AtoI(mx.value)))
  }

  function ParseAnswer(hs: seq<Header>): Constructed {
    var cacheControl, location, st := Lookup(hs, "CACHE-CONTROL"), Lookup(hs, "LOCATION"), Lookup(hs, "ST");
    var usn, server := Lookup(hs, "USN"), Lookup(hs, "SERVER");
    if cacheControl.None? || location.None? || st.None? || usn.None? then Invalid
    else
      Parsed(Answer(Fit(cacheControl.value, 128), Fit(st.value, 128),
                    if server.Some? then Fit(server.value, 128) else "", Fit(usn.value, 128), Fit(location.value, 256)))
  }

  // By the kind of the HTTP message, its method and the NTS field.
  function Select(m: Message): Constructed {
    if m.fields.kind == Request && m.fields.command == "NOTIFY" then
      var nts := Lookup(m.headers, "NTS");
      if nts.None? then Invalid
      else if nts.value == NTS_ALIVE then ParseAlive(m.headers)
      else if nts.value == NTS_BYEBYE then ParseByebye(m.headers)
      else Parsed(NoType)
    else if m.fields.kind == Request && m.fields.command == "M-SEARCH" then ParseSearch(m.headers)
    else if m.fields.kind == Response then ParseAnswer(m.headers)
    else Parsed(NoType)
  }

  /** How a message announced by NOTIFY is read depends on its first NTS field. */
  lemma ReadersChoice(m: Message, k: nat)
    requires m.fields.kind == Request && m.fields.command == "NOTIFY" && IsFirstField(m.headers, "NTS", k)
    ensures Select(m) == if m.headers[k].value == "ssdp:alive" then ParseAlive(m.headers)
                         else if m.headers[k].value == "ssdp:byebye" then ParseByebye(m.headers)
                         else Parsed(NoType)
  {
    LookupOfFirst(m.headers, "NTS", k);
    hide ParseAlive, ParseByebye, IsFirstField, Lookup;
  }

  /** The message is only looked at as alive or byebye when it has NTS. */
  lemma NtsIsThere(m: Message)
    ensures Select(m) != Broken
  {
  }

  const FRESH: Message := Message(Fields(Undefined, PROTOCOL_HTTP, "", "", 0, 0, 0, ""), [], Body(0, ""))

  function Construct(buf: string): Constructed {
    match ParseMessage(FRESH, buf)
    case Crashed => Broken
    case Done(m, ret) => if ret != ParseOk then Invalid else Select(m)
  }

  // ---- printing ----

  function Stored(name: string, value: string): Header {
    Header(Field(name), Field(value))
  }

  // %u of an int.
  function Unsigned(n: int): nat {
    n % U32
  }

  function HeadersOf(m: SsdpMessage): seq<Header> {
    match m
    case Alive(host, cacheControl, nt, nts, server, usn, location) =>
      [Stored("HOST", host), Stored("CACHE-CONTROL", cacheControl), Stored("NT", nt), Stored("NTS", nts),
       Stored("SERVER", server), Stored("USN", usn), Stored("LOCATION", location)]
    case Byebye(host, nt, nts, _) => [Stored("HOST", host), Stored("NT", nt), Stored("NTS", nts)]
    case Search(host, st, man, mx) =>
      [Stored("HOST", host), Stored("ST", st), Stored("MAN", man), Stored("MX", Dec(Unsigned(mx)))]
    case _ => []
  }

  function FieldsOf(m: SsdpMessage): Fields {
    if m.Alive? || m.Byebye? then FRESH.fields.(kind := Request, major := 1, minor := 1, command := "NOTIFY",
      uri := "*")
    else if m.Search? then FRESH.fields.(kind := Request, major := 1, minor := 1, command := "M-SEARCH", uri := "*")
    else FRESH.fields
  }

  // A search response is not printed, and neither is a message without a type.
  function ToText(m: SsdpMessage): string {
    if FieldsOf(m).kind == Undefined then "" else Print(Message(FieldsOf(m), HeadersOf(m), Body(0, "")))
  }

  // ---- the code ----

  method SetAlive(m: SsdpMessage, msg: HttpMessage)
    requires m.Alive? && msg.fields == FRESH.fields && msg.header.headers == []
    modifies msg`fields, msg.header
    ensures msg.fields == FieldsOf(m) && msg.header.headers == HeadersOf(m)
  {
    hide Field;
    msg.fields := msg.fields.(kind := Request, major := 1, minor := 1, command := "NOTIFY", uri := "*");
    msg.header.Set("HOST", m.host);
    msg.header.Set("CACHE-CONTROL", m.cacheControl);
    msg.header.Set("NT", m.nt);
    msg.header.Set("NTS", m.nts);
    msg.header.Set("SERVER", m.server);
    msg.header.Set("USN", m.usn);
    msg.header.Set("LOCATION", m.location);
  }

  method SetByebye(m: SsdpMessage, msg: HttpMessage)
    requires m.Byebye? && msg.fields == FRESH.fields && msg.header.headers == []
    modifies msg`fields, msg.header
    ensures msg.fields == FieldsOf(m) && msg.header.headers == HeadersOf(m)
  {
    hide Field;
    msg.fields := msg.fields.(kind := Request, major := 1, minor := 1, command := "NOTIFY", uri := "*");
    msg.header.Set("HOST", m.host);
    msg.header.Set("NT", m.nt);
    msg.header.Set("NTS", m.nts);
  }

  method SetSearch(m: SsdpMessage, msg: HttpMessage)
    requires m.Search? && msg.fields == FRESH.fields && msg.header.headers == []
    modifies msg`fields, msg.header
    ensures msg.fields == FieldsOf(m) && msg.header.headers == HeadersOf(m)
  {
    hide Field;
    msg.fields := msg.fields.(kind := Request, major := 1, minor := 1, command := "M-SEARCH", uri := "*");
    msg.header.Set("HOST", m.host);
    msg.header.Set("ST", m.st);
    msg.header.Set("MAN", m.man);
    msg.header.SetInteger("MX", Unsigned(m.mx));
  }

  method ToString(m: SsdpMessage, len: nat) returns (text: string)
    requires |ToText(m)| <= len
    ensures text == ToText(m)
  {
    hide Field, PrintHead, Stored;
    var msg := new HttpMessage(PROTOCOL_HTTP);
    if m.Alive? {
      SetAlive(m, msg);
    } else if m.Byebye? {
      SetByebye(m, msg);
    } else if m.Search? {
      SetSearch(m, msg);
    }
    assert msg.Value() == Message(FieldsOf(m), HeadersOf(m), Body(0, ""));
    text := msg.ToString(len);
  }

  method ReadAlive(msg: HttpMessage) returns (r: Constructed)
    ensures r == ParseAlive(msg.header.headers)
  {
    hide Lookup, Fit;
    var host := msg.header.GetValue("HOST");
    if host.None? {
      return Invalid;
    }
    var cacheControl := msg.header.GetValue("CACHE-CONTROL");
    if cacheControl.None? {
      return Invalid;
    }
    var location := msg.header.GetValue("LOCATION");
    if location.None? {
      return Invalid;
    }
    var nt := msg.header.GetValue("NT");
    if nt.None? {
      return Invalid;
    }
    var nts := msg.header.GetValue("NTS");
    if nt.None? {
      return Invalid;
    }
    var usn := msg.header.GetValue("USN");
    if usn.None? {
      return Invalid;
    }
    if nts.None? {
      return Broken;
    }
    var server := msg.header.GetValue("SERVER");
    r := Parsed(Alive(Fit(host.value, 128), Fit(cacheControl.value, 128), Fit(nt.value, 128), Fit(nts.value, 64),
                      if server.Some? then Fit(server.value, 128) else "", Fit(usn.value, 128),
                        Fit(location.value, 256)));
  }

  method ReadByebye(msg: HttpMessage) returns (r: Constructed)
    ensures r == ParseByebye(msg.header.headers)
  {
    hide Lookup, Fit;
    var host := msg.header.GetValue("HOST");
    if host.None? {
      return Invalid;
    }
    var nt := msg.header.GetValue("NT");
    if nt.None? {
      return Invalid;
    }
    var nts := msg.header.GetValue("NTS");
    if nt.None? {
      return Invalid;
    }
    var usn := msg.header.GetValue("USN");
    if usn.None? {
      return Invalid;
    }
    if nts.None? {
      return Broken;
    }
    r := Parsed(Byebye(Fit(host.value, 128), Fit(nt.value, 128), Fit(nts.value, 64), Fit(usn.value, 128)));
  }

  method ReadSearch(msg: HttpMessage) returns (r: Constructed)
    ensures r == ParseSearch(msg.header.headers)
  {
    hide Lookup, Fit;
    var host := msg.header.GetValue("HOST");
    if host.None? {
      return Invalid;
    }
    var st := msg.header.GetValue("ST");
    if st.None? {
      return Invalid;
    }
    var man := msg.header.GetValue("MAN");
    if man.None? {
      return Invalid;
    }
    var mx := msg.header.GetValue("MX");
    if mx.None? {
      return Invalid;
    }
    r := Parsed(Search(Fit(host.value, 128), Fit(st.value, 128), Fit(man.value, 64), AtoI(mx.value)));
  }

  method ReadAnswer(msg: HttpMessage) returns (r: Constructed)
    ensures r == ParseAnswer(msg.header.headers)
  {
    hide Lookup, Fit;
    var cacheControl := msg.header.GetValue("CACHE-CONTROL");
    if cacheControl.None? {
      return Invalid;
    }
    var location := msg.header.GetValue("LOCATION");
    if location.None? {
      return Invalid;
    }
    var st := msg.header.GetValue("ST");
    if st.None? {
      return Invalid;
    }
    var usn := msg.header.GetValue("USN");
    if usn.None? {
      return Invalid;
    }
    var server := msg.header.GetValue("SERVER");
    r := Parsed(Answer(Fit(cacheControl.value, 128), Fit(st.value, 128),
                       if server.Some? then Fit(server.value, 128) else "", Fit(usn.value, 128),
                         Fit(location.value, 256)));
  }

  method ConstructFrom(buf: string) returns (r: Constructed)
    ensures r == Construct(buf)
  {
    hide ParseMessage, ParseAlive, ParseByebye, ParseSearch, ParseAnswer, Lookup;
    var msg := new HttpMessage(PROTOCOL_HTTP);
    var ret := msg.Parse(buf);
    if ret == None {
      return Broken;
    }
    if ret.value != ParseOk {
      return Invalid;
    }
    if msg.fields.kind == Request {
      if msg.fields.command == "NOTIFY" {
        var nts := msg.header.GetValue("NTS");
        if nts.None? {
          return Invalid;
        }
        if nts.value == NTS_ALIVE {
          r := ReadAlive(msg);
        } else if nts.value == NTS_BYEBYE {
          r := ReadByebye(msg);
        } else {
          r := Parsed(NoType);
        }
      } else if msg.fields.command == "M-SEARCH" {
        r := ReadSearch(msg);
      } else {
        r := Parsed(NoType);
      }
    } else if msg.fields.kind == Response {
      r := ReadAnswer(msg);
    } else {
      r := Parsed(NoType);
    }
  }

  // ---- round trips ----

  // A value that fits into its field of n characters and into a line with its name.
  predicate Clean(name: string, value: string, n: nat) {
    |value| <= n && |name| + |value| + 4 < LINE_LEN && All(value, NotReturn) && '\0' !in value
  }

  predicate CleanMessage(m: SsdpMessage) {
    match m
    case Alive(host, cacheControl, nt, nts, server, usn, location) =>
      && Clean("HOST", host, 128) && Clean("CACHE-CONTROL", cacheControl, 128) && Clean("NT", nt, 128)
      && Clean("NTS", nts, 64) && Clean("SERVER", server, 128) && Clean("USN", usn, 128) &&
        Clean("LOCATION", location, 256)
    case Byebye(host, nt, nts, usn) =>
      Clean("HOST", host, 128) && Clean("NT", nt, 128) && Clean("NTS", nts, 64) && Clean("USN", usn, 128)
    case Search(host, st, man, mx) =>
      Clean("HOST", host, 128) && Clean("ST", st, 128) && Clean("MAN", man, 64) && 0 <= mx < U32 / 2
    case _ => true
  }

  predicate IsCapital(c: char) {
    'A' <= c <= 'Z' || c == '-'
  }

  lemma CapitalsAreTokens(s: string)
    requires All(s, IsCapital)
    ensures All(s, IsToken)
  {
  }

  lemma NamesAreTokens()
    ensures All("HOST", IsToken) && All("CACHE-CONTROL", IsToken) && All("NT", IsToken) && All("NTS", IsToken)
    ensures All("SERVER", IsToken) && All("USN", IsToken) && All("LOCATION", IsToken)
    ensures All("ST", IsToken) && All("MAN", IsToken) && All("MX", IsToken)
    ensures All("NOTIFY", IsToken) && All("M-SEARCH", IsToken) && All(PROTOCOL_HTTP, IsToken) && All("*", IsUriChar)
  {
    hide IsToken;
    CapitalsAreTokens("HOST");
    CapitalsAreTokens("CACHE-CONTROL");
    CapitalsAreTokens("NT");
    CapitalsAreTokens("NTS");
    CapitalsAreTokens("SERVER");
    CapitalsAreTokens("USN");
    CapitalsAreTokens("LOCATION");
    CapitalsAreTokens("ST");
    CapitalsAreTokens("MAN");
    CapitalsAreTokens("MX");
    CapitalsAreTokens("NOTIFY");
    CapitalsAreTokens("M-SEARCH");
    CapitalsAreTokens(PROTOCOL_HTTP);
  }

  // Names of different length, or with different characters somewhere, are different fields.
  lemma Differ(a: string, b: string, i: nat)
    requires |a| < LINE_LEN && |b| < LINE_LEN
    requires |a| != |b| || (i < |a| && ToLower(a[i]) != ToLower(b[i]))
    ensures Folded(a) != Folded(b)
  {
    if |a| == |b| {
      assert Folded(a)[i] != Folded(b)[i];
    } else {
      assert |Folded(a)| == |a| && |Folded(b)| == |b|;
    }
  }

  lemma {:induction false} NotFound(hs: seq<Header>, name: string)
    requires forall i :: 0 <= i < |hs| ==> Folded(hs[i].name) != Folded(name)
    ensures Lookup(hs, name) == None
  {
    if hs != [] {
      NotFound(hs[1..], name);
    }
  }

  // In a list of fields with different names each is found, and others are not.
  predicate DistinctNames(hs: seq<Header>) {
    forall i, j :: 0 <= i < j < |hs| ==> Folded(hs[i].name) != Folded(hs[j].name)
  }

  lemma FoundAt(hs: seq<Header>, k: nat)
    requires DistinctNames(hs) && k < |hs|
    ensures Lookup(hs, hs[k].name) == Some(hs[k].value)
  {
    SameFolds(hs[k].name, hs[k].name);
    forall i | 0 <= i < k ensures !SameName(hs[i].name, hs[k].name) {
      SameFolds(hs[i].name, hs[k].name);
    }
    LookupOfFirst(hs, hs[k].name, k);
  }

  lemma StoredIs(name: string, value: string, n: nat)
    requires Clean(name, value, n) && name != "" && All(name, IsToken)
    ensures Stored(name, value) == Header(name, value) && HttpHeaders.WellFormed(Stored(name, value))
  {
    hide IsToken;
  }

  lemma AliveHeaders(m: SsdpMessage)
    requires m.Alive? && CleanMessage(m)
    ensures var hs := HeadersOf(m); AllWellFormed(hs) && DistinctNames(hs) && Lookup(hs, CONTENT_LENGTH) == None
    ensures HeadersOf(m) ==
            [Header("HOST", m.host), Header("CACHE-CONTROL", m.cacheControl), Header("NT", m.nt), Header("NTS", m.nts),
             Header("SERVER", m.server), Header("USN", m.usn), Header("LOCATION", m.location)]
  {
    NamesAreTokens();
    hide IsToken, Folded, HttpHeaders.WellFormed, Stored;
    StoredIs("HOST", m.host, 128);
    StoredIs("CACHE-CONTROL", m.cacheControl, 128);
    StoredIs("NT", m.nt, 128);
    StoredIs("NTS", m.nts, 64);
    StoredIs("SERVER", m.server, 128);
    StoredIs("USN", m.usn, 128);
    StoredIs("LOCATION", m.location, 256);
    var hs := HeadersOf(m);
    forall i, j | 0 <= i < j < 7
      ensures Folded(hs[i].name) != Folded(hs[j].name)
    {
      Differ(hs[i].name, hs[j].name, 0);
    }
    forall i | 0 <= i < 7
      ensures Folded(hs[i].name) != Folded(CONTENT_LENGTH)
    {
      Differ(hs[i].name, CONTENT_LENGTH, 0);
    }
    NotFound(hs, CONTENT_LENGTH);
  }

  lemma SearchHeaders(m: SsdpMessage)
    requires m.Search? && CleanMessage(m)
    ensures var hs := HeadersOf(m); AllWellFormed(hs) && DistinctNames(hs) && Lookup(hs, CONTENT_LENGTH) == None
    ensures HeadersOf(m) ==
            [Header("HOST", m.host), Header("ST", m.st), Header("MAN", m.man), Header("MX", Dec(m.mx))]
  {
    NamesAreTokens();
    DecClean(m.mx);
    hide IsToken, Folded, HttpHeaders.WellFormed, Stored, Dec;
    StoredIs("HOST", m.host, 128);
    StoredIs("ST", m.st, 128);
    StoredIs("MAN", m.man, 64);
    StoredIs("MX", Dec(m.mx), 128);
    var hs := HeadersOf(m);
    forall i, j | 0 <= i < j < 4
      ensures Folded(hs[i].name) != Folded(hs[j].name)
    {
      Differ(hs[i].name, hs[j].name, 0);
    }
    forall i | 0 <= i < 4
      ensures Folded(hs[i].name) != Folded(CONTENT_LENGTH)
    {
      Differ(hs[i].name, CONTENT_LENGTH, 0);
    }
    NotFound(hs, CONTENT_LENGTH);
  }

  lemma ByebyeHeaders(m: SsdpMessage)
    requires m.Byebye? && CleanMessage(m)
    ensures var hs := HeadersOf(m); AllWellFormed(hs) && DistinctNames(hs) && Lookup(hs, CONTENT_LENGTH) == None
    ensures HeadersOf(m) == [Header("HOST", m.host), Header("NT", m.nt), Header("NTS", m.nts)]
    ensures Lookup(HeadersOf(m), "USN") == None
  {
    NamesAreTokens();
    hide IsToken, Folded, HttpHeaders.WellFormed, Stored;
    StoredIs("HOST", m.host, 128);
    StoredIs("NT", m.nt, 128);
    StoredIs("NTS", m.nts, 64);
    var hs := HeadersOf(m);
    forall i, j | 0 <= i < j < 3
      ensures Folded(hs[i].name) != Folded(hs[j].name)
    {
      Differ(hs[i].name, hs[j].name, 0);
    }
    forall i | 0 <= i < 3
      ensures Folded(hs[i].name) != Folded(CONTENT_LENGTH) && Folded(hs[i].name) != Folded("USN")
    {
      Differ(hs[i].name, CONTENT_LENGTH, 0);
      Differ(hs[i].name, "USN", 0);
    }
    NotFound(hs, CONTENT_LENGTH);
    NotFound(hs, "USN");
  }

  lemma {:induction false} DecShort(n: nat, k: nat, bound: nat)
    requires k > 0 && n < bound && bound == Power(k)
    ensures |Dec(n)| <= k
  {
    if n >= 10 {
      DecShort(n / 10, k - 1, bound / 10);
    }
  }

  function Power(k: nat): nat {
    if k == 0 then 1 else 10 * Power(k - 1)
  }

  lemma DecClean(mx: int)
    requires 0 <= mx < U32 / 2
    ensures Clean("MX", Dec(mx), 128) && Unsigned(mx) == mx
  {
    assert Power(4) == 10000 && Power(7) == 10000000 && Power(10) == 10000000000;
    DecShort(mx, 10, 10000000000);
    var s := Dec(mx);
    assert forall i :: 0 <= i < |s| ==> IsDigit(s[i]);
  }

  lemma NoLength(hs: seq<Header>)
    requires Lookup(hs, CONTENT_LENGTH) == None
    ensures Announces(hs, 0)
  {
    ContentLengthIs(hs, 0);
    hide Announces;
  }

  // What comes back from a printed message whose fields are as they should be.
  lemma Printed(m: SsdpMessage, hs: seq<Header>)
    requires hs == HeadersOf(m) && (m.Alive? || m.Byebye? || m.Search?)
    requires AllWellFormed(hs) && Lookup(hs, CONTENT_LENGTH) == None
    ensures Construct(ToText(m)) == Select(FRESH.(fields := FieldsOf(m), headers := hs))
  {
    NamesAreTokens();
    hide IsToken, IsUriChar, ParseMessage, Select, HeadersOf, PrintHead, Announces;
    var f := FieldsOf(m);
    FirstLines(m);
    HeadSplit(f, hs, "");
    NoLength(hs);
    RequestParsed(f, hs, FRESH, 0, "");
    assert Padded(Body(0, "")) == "";
  }

  // The request line of a message: its method and 14 characters more.
  lemma FirstLines(m: SsdpMessage)
    requires m.Alive? || m.Byebye? || m.Search?
    ensures |FirstLine(FieldsOf(m))| == |FieldsOf(m).command| + 13 < LINE_LEN
  {
    var f := FieldsOf(m);
    assert |PrintInt(1)| == 1;
    hide PrintInt;
    RequestParts(f, "");
    assert FirstLine(f) + "" == FirstLine(f);
    hide FirstLine;
  }

  lemma AliveRead(m: SsdpMessage, hs: seq<Header>)
    requires m.Alive? && CleanMessage(m) && DistinctNames(hs)
    requires hs == [Header("HOST", m.host), Header("CACHE-CONTROL", m.cacheControl), Header("NT", m.nt),
            Header("NTS", m.nts),
                    Header("SERVER", m.server), Header("USN", m.usn), Header("LOCATION", m.location)]
    ensures ParseAlive(hs) == Parsed(m) && Lookup(hs, "NTS") == Some(m.nts)
  {
    hide Lookup, DistinctNames;
    FoundAt(hs, 0);
    FoundAt(hs, 1);
    FoundAt(hs, 2);
    FoundAt(hs, 3);
    FoundAt(hs, 4);
    FoundAt(hs, 5);
    FoundAt(hs, 6);
  }

  /** An alive message comes back from its printed form. */
  lemma AliveSurvives(m: SsdpMessage)
    requires m.Alive? && CleanMessage(m) && m.nts == "ssdp:alive"
    ensures Construct(ToText(m)) == Parsed(m)
  {
    hide Lookup, DistinctNames, HeadersOf, Construct, ToText, AllWellFormed, CleanMessage, ParseAlive;
    var hs := HeadersOf(m);
    AliveHeaders(m);
    Printed(m, hs);
    AliveRead(m, hs);
  }

  lemma SearchRead(m: SsdpMessage, hs: seq<Header>)
    requires m.Search? && CleanMessage(m) && DistinctNames(hs)
    requires hs == [Header("HOST", m.host), Header("ST", m.st), Header("MAN", m.man), Header("MX", Dec(m.mx))]
    ensures ParseSearch(hs) == Parsed(m)
  {
    AtoIOfDec(m.mx);
    hide Lookup, DistinctNames, AtoI, Dec;
    FoundAt(hs, 0);
    FoundAt(hs, 1);
    FoundAt(hs, 2);
    FoundAt(hs, 3);
  }

  /** And so does a search request. */
  lemma SearchSurvives(m: SsdpMessage)
    requires m.Search? && CleanMessage(m)
    ensures Construct(ToText(m)) == Parsed(m)
  {
    var hs := HeadersOf(m);
    SearchHeaders(m);
    hide Lookup, DistinctNames, HeadersOf, Construct, ToText, AllWellFormed, ParseSearch;
    Printed(m, hs);
    SearchRead(m, hs);
  }

  /** A byebye message is printed without its USN: it is rejected, or not known for what it is. */
  lemma ByebyeRejected(m: SsdpMessage)
    requires m.Byebye? && CleanMessage(m)
    ensures Construct(ToText(m)) == if m.nts == "ssdp:byebye" || m.nts == "ssdp:alive" then Invalid else Parsed(NoType)
  {
    var hs := HeadersOf(m);
    ByebyeHeaders(m);
    Printed(m, hs);
    hide DistinctNames, HeadersOf, Construct, ToText, Lookup;
    FoundAt(hs, 2);
  }

  /** A search response prints nothing, and nothing is rejected. */
  lemma AnswerPrintsNothing(m: SsdpMessage)
    requires m.Answer?
    ensures ToText(m) == "" && Construct(ToText(m)) == Invalid
  {
    hide Run, LoadProtocol, LoadMethod;
  }

  lemma {:induction false} LinesShort(hs: seq<Header>)
    ensures |PrintHeaders(hs)| <= (LINE_LEN - 1) * |hs|
  {
    hide HeaderLine;
    if hs != [] {
      LinesShort(hs[1..]);
    }
  }

  /** Every message fits into the buffer it is sent from, whatever its fields hold. */
  lemma FitsBuffer(m: SsdpMessage)
    ensures |ToText(m)| <= 2048
  {
    LinesShort(HeadersOf(m));
    hide FirstLine, PrintHeaders, Stored;
    assert |HeadersOf(m)| <= 7;
    assert |Line(FirstLine(FieldsOf(m)))| < LINE_LEN;
    assert |Padded(Body(0, ""))| == 0;
  }

  // ---- search responses of other hosts ----

  function AnswerFields(m: SsdpMessage): seq<Header>
    requires m.Answer?
  {
    [Header("CACHE-CONTROL", m.cacheControl), Header("ST", m.st), Header("SERVER", m.server), Header("USN", m.usn),
     Header("LOCATION", m.location)]
  }

  predicate CleanAnswer(m: SsdpMessage)
    requires m.Answer?
  {
    && Clean("CACHE-CONTROL", m.cacheControl, 128) && Clean("ST", m.st, 128) && Clean("SERVER", m.server, 128)
    && Clean("USN", m.usn, 128) && Clean("LOCATION", m.location, 256)
  }

  lemma AnswerHeaders(m: SsdpMessage)
    requires m.Answer? && CleanAnswer(m)
    ensures var hs := AnswerFields(m); AllWellFormed(hs) && DistinctNames(hs) && Lookup(hs, CONTENT_LENGTH) == None
  {
    NamesAreTokens();
    hide IsToken, Folded, HttpHeaders.WellFormed, Stored, Lookup;
    StoredIs("CACHE-CONTROL", m.cacheControl, 128);
    StoredIs("ST", m.st, 128);
    StoredIs("SERVER", m.server, 128);
    StoredIs("USN", m.usn, 128);
    StoredIs("LOCATION", m.location, 256);
    var hs := AnswerFields(m);
    forall i, j | 0 <= i < j < 5
      ensures Folded(hs[i].name) != Folded(hs[j].name)
    {
      Differ(hs[i].name, hs[j].name, 0);
    }
    forall i | 0 <= i < 5
      ensures Folded(hs[i].name) != Folded(CONTENT_LENGTH)
    {
      Differ(hs[i].name, CONTENT_LENGTH, 0);
    }
    NotFound(hs, CONTENT_LENGTH);
  }

  lemma AnswerRead(m: SsdpMessage)
    requires m.Answer? && CleanAnswer(m) && DistinctNames(AnswerFields(m))
    ensures ParseAnswer(AnswerFields(m)) == Parsed(m)
  {
    hide Lookup, DistinctNames;
    var hs := AnswerFields(m);
    FoundAt(hs, 0);
    FoundAt(hs, 1);
    FoundAt(hs, 2);
    FoundAt(hs, 3);
    FoundAt(hs, 4);
  }

  /** A search response printed by HttpMessage, whatever its code and reason, is read as it was meant. */
  lemma AnswerReceived(m: SsdpMessage, code: nat, reason: string)
    requires m.Answer? && CleanAnswer(m)
    requires WellFormedResponse(FRESH.fields.(kind := Response, major := 1, minor := 1, code := code, status := reason),
                                AnswerFields(m))
    ensures var f := FRESH.fields.(kind := Response, major := 1, minor := 1, code := code, status := reason);
            Construct(PrintHead(f, AnswerFields(m))) == Parsed(m)
  {
    var f := FRESH.fields.(kind := Response, major := 1, minor := 1, code := code, status := reason);
    AnswerHeaders(m);
    AnswerRead(m);
    hide ParseMessage, PrintHead, WellFormedResponse, AnswerFields, ParseAnswer, Announces, AllWellFormed,
      DistinctNames, CStr, ReasonField;
    NoLength(AnswerFields(m));
    ResponseParsed(f, AnswerFields(m), FRESH, 0, "");
    assert PrintHead(f, AnswerFields(m)) + "" == PrintHead(f, AnswerFields(m));
  }

  // ---- the text of a message, line by line ----

  function FieldLine(name: string, value: string): string {
    name + ": " + value + "\r\n"
  }

  lemma LineOf(name: string, value: string, n: nat, rest: seq<Header>)
    requires Clean(name, value, n)
    ensures PrintHeaders([Header(name, value)] + rest) == FieldLine(name, value) + PrintHeaders(rest)
  {
    assert ([Header(name, value)] + rest)[1..] == rest;
    hide PrintHeaders, NotReturn;
  }

  lemma RequestLineOf(command: string, f: Fields)
    requires |command| < 32
    requires f == FRESH.fields.(kind := Request, major := 1, minor := 1, command := command, uri := "*")
    ensures FirstLine(f) == command + " * HTTP/1.1\r\n" && |FirstLine(f)| < LINE_LEN
  {
    assert PrintInt(1) == "1" && MethodText(f) == command;
    hide PrintInt, MethodText;
    assert FirstLine(f) == command + " " + "*" + " " + "HTTP" + "/" + "1" + "." + "1" + "\r\n";
  }

  lemma NotifyLine(m: SsdpMessage)
    requires m.Alive? || m.Byebye?
    ensures Line(FirstLine(FieldsOf(m))) == "NOTIFY * HTTP/1.1\r\n"
  {
    RequestLineOf("NOTIFY", FieldsOf(m));
    assert "NOTIFY" + " * HTTP/1.1\r\n" == "NOTIFY * HTTP/1.1\r\n";
    hide FirstLine;
  }

  /** An alive message is printed as its request line, its seven fields and an empty line. */
  lemma AliveText(m: SsdpMessage)
    requires m.Alive? && CleanMessage(m)
    ensures ToText(m) == "NOTIFY * HTTP/1.1\r\n"
                         + (FieldLine("HOST", m.host) + (FieldLine("CACHE-CONTROL", m.cacheControl)
                            + (FieldLine("NT", m.nt) + (FieldLine("NTS", m.nts) + (FieldLine("SERVER", m.server)
                               + (FieldLine("USN", m.usn) + FieldLine("LOCATION", m.location)))))))
                         + "\r\n"
  {
    NotifyLine(m);
    AliveHeaders(m);
    AliveLines(m);
    NoBody();
    hide FirstLine, HeadersOf, PrintHeaders, FieldLine, CleanMessage, AllWellFormed, DistinctNames, Lookup, Padded;
  }

  lemma NoBody()
    ensures Padded(Body(0, "")) == ""
  {
  }

  lemma AliveLines(m: SsdpMessage)
    requires m.Alive? && CleanMessage(m)
    ensures PrintHeaders([Header("HOST", m.host), Header("CACHE-CONTROL", m.cacheControl), Header("NT", m.nt),
                          Header("NTS", m.nts), Header("SERVER", m.server), Header("USN", m.usn),
                            Header("LOCATION", m.location)])
            == FieldLine("HOST", m.host) + (FieldLine("CACHE-CONTROL", m.cacheControl)
               + (FieldLine("NT", m.nt) + (FieldLine("NTS", m.nts) + (FieldLine("SERVER", m.server)
                  + (FieldLine("USN", m.usn) + FieldLine("LOCATION", m.location))))))
  {
    hide Clean, FieldLine, PrintHeaders;
    var usn, location := Header("USN", m.usn), Header("LOCATION", m.location);
    var nts, server := Header("NTS", m.nts), Header("SERVER", m.server);
    var host, cacheControl, nt := Header("HOST", m.host), Header("CACHE-CONTROL", m.cacheControl), Header("NT", m.nt);
    LastLine("LOCATION", m.location, 256);
    LineOf("USN", m.usn, 128, [location]);
    LineOf("SERVER", m.server, 128, [usn, location]);
    LineOf("NTS", m.nts, 64, [server, usn, location]);
    LineOf("NT", m.nt, 128, [nts, server, usn, location]);
    LineOf("CACHE-CONTROL", m.cacheControl, 128, [nt, nts, server, usn, location]);
    LineOf("HOST", m.host, 128, [cacheControl, nt, nts, server, usn, location]);
    assert [usn] + [location] == [usn, location];
    assert [server] + [usn, location] == [server, usn, location];
    assert [nts] + [server, usn, location] == [nts, server, usn, location];
    assert [nt] + [nts, server, usn, location] == [nt, nts, server, usn, location];
    assert [cacheControl] + [nt, nts, server, usn, location] == [cacheControl, nt, nts, server, usn, location];
    assert [host] + [cacheControl, nt, nts, server, usn, location] ==
      [host, cacheControl, nt, nts, server, usn, location];
  }

  lemma LastLine(name: string, value: string, n: nat)
    requires Clean(name, value, n)
    ensures PrintHeaders([Header(name, value)]) == FieldLine(name, value)
  {
    LineOf(name, value, n, []);
    assert [Header(name, value)] + [] == [Header(name, value)];
  }

  lemma ByebyeLines(m: SsdpMessage)
    requires m.Byebye? && CleanMessage(m)
    ensures PrintHeaders([Header("HOST", m.host), Header("NT", m.nt), Header("NTS", m.nts)])
            == FieldLine("HOST", m.host) + (FieldLine("NT", m.nt) + FieldLine("NTS", m.nts))
  {
    hide Clean, FieldLine, PrintHeaders;
    var nt, nts := Header("NT", m.nt), Header("NTS", m.nts);
    LastLine("NTS", m.nts, 64);
    LineOf("NT", m.nt, 128, [nts]);
    LineOf("HOST", m.host, 128, [nt, nts]);
    assert [nt] + [nts] == [nt, nts];
    assert [Header("HOST", m.host)] + [nt, nts] == [Header("HOST", m.host), nt, nts];
  }

  /** A byebye message is printed with three of its four fields: its USN is left out. */
  lemma ByebyeText(m: SsdpMessage)
    requires m.Byebye? && CleanMessage(m)
    ensures ToText(m) == "NOTIFY * HTTP/1.1\r\n"
                         + (FieldLine("HOST", m.host) + (FieldLine("NT", m.nt) + FieldLine("NTS", m.nts)))
                         + "\r\n"
  {
    NotifyLine(m);
    ByebyeHeaders(m);
    ByebyeStored(m);
    ByebyeLines(m);
    NoBody();
    hide FirstLine, HeadersOf, PrintHeaders, FieldLine, CleanMessage, AllWellFormed, DistinctNames, Lookup, Padded;
  }

  lemma ByebyeStored(m: SsdpMessage)
    requires m.Byebye? && CleanMessage(m)
    ensures HeadersOf(m) == [Header("HOST", m.host), Header("NT", m.nt), Header("NTS", m.nts)]
  {
    hide NotReturn;
  }

  lemma SearchLine(m: SsdpMessage)
    requires m.Search?
    ensures Line(FirstLine(FieldsOf(m))) == "M-SEARCH * HTTP/1.1\r\n"
  {
    RequestLineOf("M-SEARCH", FieldsOf(m));
    assert "M-SEARCH" + " * HTTP/1.1\r\n" == "M-SEARCH * HTTP/1.1\r\n";
    hide FirstLine;
  }

  lemma SearchLines(m: SsdpMessage)
    requires m.Search? && CleanMessage(m)
    ensures PrintHeaders([Header("HOST", m.host), Header("ST", m.st), Header("MAN", m.man), Header("MX", Dec(m.mx))])
            == FieldLine("HOST", m.host) + (FieldLine("ST", m.st) +
              (FieldLine("MAN", m.man) + FieldLine("MX", Dec(m.mx))))
  {
    DecClean(m.mx);
    hide Clean, FieldLine, PrintHeaders, Dec;
    var st, man, mx := Header("ST", m.st), Header("MAN", m.man), Header("MX", Dec(m.mx));
    LastLine("MX", Dec(m.mx), 128);
    LineOf("MAN", m.man, 64, [mx]);
    LineOf("ST", m.st, 128, [man, mx]);
    LineOf("HOST", m.host, 128, [st, man, mx]);
    assert [man] + [mx] == [man, mx];
    assert [st] + [man, mx] == [st, man, mx];
    assert [Header("HOST", m.host)] + [st, man, mx] == [Header("HOST", m.host), st, man, mx];
  }

  /** A search request is printed with its four fields, the last one in decimal. */
  lemma SearchText(m: SsdpMessage)
    requires m.Search? && CleanMessage(m)
    ensures ToText(m) == "M-SEARCH * HTTP/1.1\r\n"
                         + (FieldLine("HOST", m.host) + (FieldLine("ST", m.st) +
                           (FieldLine("MAN", m.man) + FieldLine("MX", Dec(m.mx)))))
                         + "\r\n"
  {
    SearchLine(m);
    SearchHeaders(m);
    SearchLines(m);
    NoBody();
    hide FirstLine, HeadersOf, PrintHeaders, FieldLine, CleanMessage, AllWellFormed, DistinctNames, Lookup, Padded, Dec;
  }
}
