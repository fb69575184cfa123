/**
 HttpHeader (Tiny/Http/HttpHeader.c): the list of header fields, its parser and the
 lines that are printed for it.
 */
module HttpHeaders {
  import opened Wrappers
  import opened HttpText

  const LINE_LEN: nat := 256
  const FIELD_LEN: nat := 256

  datatype Header = Header(name: string, value: string)

  // What a scan of bytes comes to. Overrun: the code would leave the text or a field.
  datatype Scan = Refused | Overrun | Took(size: nat)

  // What strncpy keeps in a field of 256 characters.
  function Field(s: string): string {
    if |s| <= FIELD_LEN then s else s[..FIELD_LEN]
  }

  // What snprintf leaves of a line in a buffer of 256 characters.
  function Line(s: string): string {
    if |s| < LINE_LEN then s else s[..LINE_LEN - 1]
  }

  function HeaderLine(h: Header): (s: string)
    ensures |s| < LINE_LEN
  {
    Line(h.name + ": " + h.value + "\r\n")
  }

  function PrintHeaders(hs: seq<Header>): string {
    if hs == [] then "" else HeaderLine(hs[0]) + PrintHeaders(hs[1..])
  }

  // ---- lookup ----

  // Names are compared in lower case over their first 255 characters.
  function Folded(name: string): string {
    Lower(Line(name))
  }

  function Lookup(hs: seq<Header>, name: string): Option<string> {
    if hs == [] then None
    else if Folded(hs[0].name) == Folded(name) then Some(hs[0].value)
    else Lookup(hs[1..], name)
  }

  // One letter but for case: the codes of A to Z are 65 to 90, those of a to z are 32 more.
  predicate SameLetter(c: char, d: char) {
    || c == d
    || (65 <= c as int <= 90 && d as int == c as int + 32)
    || (65 <= d as int <= 90 && c as int == d as int + 32)
  }

  // The characters of a name that are compared.
  function Compared(name: string): (n: nat)
    ensures n <= |name|
  {
    if |name| < 255 then |name| else 255
  }

  // Two names that are the same but for case, as far as they are compared.
  predicate SameName(a: string, b: string) {
    Compared(a) == Compared(b) && forall i :: 0 <= i < Compared(a) ==> SameLetter(a[i], b[i])
  }

  lemma SameFolds(a: string, b: string)
    ensures Folded(a) == Folded(b) <==> SameName(a, b)
  {
    assert |Folded(a)| == Compared(a) && |Folded(b)| == Compared(b);
    assert forall i :: 0 <= i < Compared(a) ==> Folded(a)[i] == ToLower(a[i]);
    assert forall i :: 0 <= i < Compared(b) ==> Folded(b)[i] == ToLower(b[i]);
    if SameName(a, b) {
      forall i | 0 <= i < Compared(a) ensures Folded(a)[i] == Folded(b)[i] {
        assert SameLetter(a[i], b[i]);
        LowerSame(a[i], b[i]);
      }
    } else if Folded(a) == Folded(b) {
      forall i | 0 <= i < Compared(a) ensures SameLetter(a[i], b[i]) {
        assert Folded(a)[i] == Folded(b)[i];
        LowerSame(a[i], b[i]);
      }
    }
  }

  lemma LowerSame(c: char, d: char)
    ensures ToLower(c) == ToLower(d) <==> SameLetter(c, d)
  {
  }

  // The field at k is the first one with the name.
  predicate IsFirstField(hs: seq<Header>, name: string, k: nat) {
    k < |hs| && SameName(hs[k].name, name) && forall i :: 0 <= i < k ==> !SameName(hs[i].name, name)
  }

  predicate HasNoField(hs: seq<Header>, name: string) {
    forall i :: 0 <= i < |hs| ==> !SameName(hs[i].name, name)
  }

  /** Lookup finds the value of the first field whose name is the same but for case, if there is one. */
  lemma {:induction false} LookupFindsFirst(hs: seq<Header>, name: string) returns (k: nat)
    ensures if Lookup(hs, name) == None then HasNoField(hs, name)
            else IsFirstField(hs, name, k) && Lookup(hs, name) == Some(hs[k].value)
  {
    k := 0;
    if hs != [] {
      SameFolds(hs[0].name, name);
      hide Folded, SameName;
      if Folded(hs[0].name) != Folded(name) {
        var n := LookupFindsFirst(hs[1..], name);
        k := n + 1;
      }
    }
  }

  lemma LookupOfFirst(hs: seq<Header>, name: string, k: nat)
    requires IsFirstField(hs, name, k)
    ensures Lookup(hs, name) == Some(hs[k].value)
  {
    hide SameName, Lookup;
    var n := LookupFindsFirst(hs, name);
  }

  lemma LookupOfNone(hs: seq<Header>, name: string)
    requires HasNoField(hs, name)
    ensures Lookup(hs, name) == None
  {
    hide SameName, Lookup;
    var n := LookupFindsFirst(hs, name);
  }

  // ---- parsing ----

  datatype Parsed = Bad(headers: seq<Header>) | TooFar | Good(headers: seq<Header>, rest: string)

  // One field line: the field, and what follows its carriage return.
  datatype Entry = NoColon | NoEnd | Entry(header: Header, rest: string)

  function ParseEntry(s: string): (e: Entry)
    ensures e.Entry? ==> |e.rest| < |s|
  {
    var n := Run(s, IsToken);
    if n > FIELD_LEN then NoEnd
    else if Head(s[n..]) != ':' then NoColon
    else
      var s2 := Tail(s[n..]);
      ParseValue(s[..n], if Head(s2) == ' ' then Tail(s2) else s2)
  }

  function ParseValue(name: string, s: string): (e: Entry)
    ensures e.Entry? ==> |e.rest| < |s|
  {
    var v := Run(s, NotReturn);
    if v == |s| || v > FIELD_LEN then NoEnd else Entry(Header(name, CStr(s[..v])), s[v + 1..])
  }

  function ParseHeaders(s: string, done: seq<Header>): (p: Parsed)
    ensures p.Good? ==> 0 < |p.rest| < |s|
    decreases |s|
  {
    if Head(s) == ' ' || Head(s) == '\t' then Bad(done)
    else if IsToken(Head(s)) then
      var e := ParseEntry(s);
      if e.NoColon? then Bad(done)
      else if e.NoEnd? then TooFar
      else if Head(e.rest) != '\n' then Bad(done + [e.header])
      else ParseHeaders(Tail(e.rest), done + [e.header])
    else if Head(s) == '\r' && Head(Tail(s)) == '\n' then Good(done, Tail(s))
    else Bad(done)
  }

  class HttpHeader {
    var headers: seq<Header>

    constructor ()
      ensures headers == []
    {
      headers := [];
    }

    method Set(name: string, value: string)
      modifies this
      ensures headers == old(headers) + [Header(Field(name), Field(value))]
    {
      headers := headers + [Header(Field(name), Field(value))];
    }

    method SetInteger(name: string, value: nat)
      modifies this
      ensures headers == old(headers) + [Header(Field(name), Field(Dec(value)))]
    {
      Set(name, Dec(value));
    }

    // The value of the first field with this name, if there is one.
    method GetValue(name: string) returns (value: Option<string>)
      ensures value == Lookup(headers, name)
      ensures value == None <==> HasNoField(headers, name)
      ensures value.Some? ==> exists k: nat :: IsFirstField(headers, name, k) && value.value == headers[k].value
    {
      ghost var k := LookupFindsFirst(headers, name);
      assert Lookup(headers, name).Some? ==> !HasNoField(headers, name);
      hide HasNoField, IsFirstField;
      var s1 := Folded(name);
      var i := 0;
      assert headers[0..] == headers;
      while i < |headers|
        invariant i <= |headers| && Lookup(headers[i..], name) == Lookup(headers, name)
      {
        var s2 := Folded(headers[i].name);
        assert headers[i..][1..] == headers[i + 1..];
        if s1 == s2 {
          return Some(headers[i].value);
        }
        i := i + 1;
      }
      value := None;
    }

    // The field line at p whose name ends at q.
    static lemma EntryAt(s: string, p: nat, q: nat)
      requires p <= q <= |s| && Run(s[p..], IsToken) == q - p <= FIELD_LEN
      ensures ParseEntry(s[p..]) ==
              if q == |s| || s[q] != ':' then NoColon
              else ParseValue(s[p..q], if q + 1 < |s| && s[q + 1] == ' ' then s[q + 2..] else s[q + 1..])
    {
      hide Run, ParseValue, IsToken;
      assert s[p..][q - p..] == s[q..] && s[p..][..q - p] == s[p..q];
      assert q < |s| ==> s[q..][0] == s[q] && s[q..][1..] == s[q + 1..];
      assert q + 1 < |s| ==> s[q + 1..][0] == s[q + 1] && s[q + 1..][1..] == s[q + 2..];
    }

    // The field line at p: its field goes on the list before its end is looked at.
    method TakeEntry(s: string, p: nat) returns (r: Scan)
      requires p <= |s|
      modifies this
      ensures match ParseEntry(s[p..])
              case NoColon => r == Refused && headers == old(headers)
              case NoEnd => r == Overrun
              case Entry(h, rest) => Entered(s, p, old(headers) + [h], rest, r)
    {
      hide Run, IsToken, ParseValue, Entered;
      var q := Skip(s, p, IsToken);
      if q - p > FIELD_LEN {
        return Overrun;
      }
      EntryAt(s, p, q);
      hide ParseEntry;
      var name := s[p..q];
      if q == |s| || s[q] != ':' {
        return Refused;
      }
      q := q + 1;
      if q < |s| && s[q] == ' ' {
        q := q + 1;
      }
      r := TakeValue(s, p, q, name);
    }

    // After a field line: the list, and the place after it if it ends as it should.
    predicate Entered(s: string, p: nat, hs: seq<Header>, rest: string, r: Scan)
      reads this
    {
      && headers == hs && |rest| < |s|
      && if Head(rest) != '\n' then r == Refused
         else r.Took? && 0 < r.size && p + r.size <= |s| && s[p + r.size..] == Tail(rest)
    }

    // The value at q that ends at e.
    static lemma ValueAt(name: string, s: string, q: nat, e: nat)
      requires q <= e <= |s| && Run(s[q..], NotReturn) == e - q
      ensures ParseValue(name, s[q..]) ==
              if e == |s| || e - q > FIELD_LEN then NoEnd else Entry(Header(name, CStr(s[q..e])), s[e + 1..])
    {
      hide Run, NotReturn, CStr;
      SuffixCut(s, q, e);
      if e < |s| {
        SuffixCut(s, q, e + 1);
      }
    }

    method TakeValue(s: string, p: nat, q: nat, name: string) returns (r: Scan)
      requires p <= q <= |s| && |name| <= FIELD_LEN
      modifies this
      ensures match ParseValue(name, s[q..])
              case NoColon => false
              case NoEnd => r == Overrun
              case Entry(h, rest) => Entered(s, p, old(headers) + [h], rest, r)
    {
      hide Run, NotReturn, CStr, Entered;
      var e := Skip(s, q, NotReturn);
      ValueAt(name, s, q, e);
      hide ParseValue;
      if e == |s| || e - q > FIELD_LEN {
        return Overrun;
      }
      var value := CStr(s[q..e]);
      CStrShort(s[q..e]);
      assert Field(name) == name && Field(value) == value;
      hide Field;
      Set(name, value);
      if e + 1 == |s| || s[e + 1] != '\n' {
        r := Refused;
      } else {
        r := Took(e + 2 - p);
      }
      EnteredIs(s, p, e + 1, headers, r);
    }

    // What follows the value, whose return character ends at e.
    lemma EnteredIs(s: string, p: nat, e: nat, hs: seq<Header>, r: Scan)
      requires p < e <= |s| && headers == hs
      requires r == if e == |s| || s[e] != '\n' then Refused else Took(e + 1 - p)
      ensures Entered(s, p, hs, s[e..], r)
    {
      Suffix(s, e);
    }

    method Parse(s: string) returns (r: Scan)
      modifies this
      ensures match ParseHeaders(s, [])
              case Bad(hs) => r == Refused && headers == hs
              case TooFar => r == Overrun
              case Good(hs, rest) => |rest| < |s| && r == Took(|s| - |rest|) && s[r.size..] == rest && headers == hs
    {
      hide IsToken, ParseEntry;
      Separators();
      headers := [];
      var p := 0;
      assert s[0..] == s;
      while p < |s| && (IsToken(s[p]) || s[p] == ' ' || s[p] == '\t')
        invariant p <= |s| && ParseHeaders(s[p..], headers) == ParseHeaders(s, [])
        decreases |s| - p
      {
        if s[p] == ' ' || s[p] == '\t' {
          return Refused;
        }
        var entry := TakeEntry(s, p);
        if !entry.Took? {
          return entry;
        }
        p := p + entry.size;
      }
      if p == |s| || s[p] != '\r' {
        return Refused;
      }
      if p + 1 == |s| || s[p + 1] != '\n' {
        return Refused;
      }
      assert s[p..][1..] == s[p + 1..];
      r := Took(p + 1);
    }
  }

  lemma {:induction false} CStrShort(v: string)
    ensures |CStr(v)| <= |v|
  {
    if v != "" && v[0] != '\0' {
      CStrShort(v[1..]);
    }
  }

  // ---- what is printed is parsed ----

  // A field whose line is not cut and reads back.
  predicate WellFormed(h: Header) {
    && h.name != "" && All(h.name, IsToken)
    && All(h.value, NotReturn) && '\0' !in h.value
    && |h.name| + |h.value| + 4 < 256
  }

  predicate AllWellFormed(hs: seq<Header>) {
    forall i :: 0 <= i < |hs| ==> WellFormed(hs[i])
  }

  lemma EntryBack(h: Header, rest: string)
    requires WellFormed(h)
    ensures ParseEntry(HeaderLine(h) + rest) == Entry(h, "\n" + rest)
    ensures IsToken(Head(HeaderLine(h) + rest))
  {
    hide Run, IsToken, NotReturn, ParseValue;
    Separators();
    var s3 := h.value + ("\r\n" + rest);
    LineParts(h, rest);
    RunOf(h.name, ": " + s3, IsToken);
    assert Head(": " + s3) == ':' && Tail(": " + s3) == " " + s3 && Tail(" " + s3) == s3;
    ValueBack(h, rest);
    assert Head(h.name + (": " + s3)) == h.name[0];
  }

  lemma LineParts(h: Header, rest: string)
    requires WellFormed(h)
    ensures HeaderLine(h) + rest == h.name + (": " + (h.value + ("\r\n" + rest)))
  {
  }

  lemma ValueBack(h: Header, rest: string)
    requires WellFormed(h)
    ensures ParseValue(h.name, h.value + ("\r\n" + rest)) == Entry(h, "\n" + rest)
  {
    hide Run, NotReturn, IsToken, CStr;
    Separators();
    var s := h.value + ("\r\n" + rest);
    RunOf(h.value, "\r\n" + rest, NotReturn);
    assert s[|h.value| + 1..] == "\n" + rest;
  }

  /** Printed fields, in order, are what the parser reads, up to the line feed of the empty line. */
  lemma {:induction false} HeadersBack(hs: seq<Header>, done: seq<Header>, rest: string)
    requires AllWellFormed(hs)
    ensures ParseHeaders(PrintHeaders(hs) + "\r\n" + rest, done) == Good(done + hs, "\n" + rest)
  {
    hide IsToken, ParseEntry, HeaderLine;
    Separators();
    var s := PrintHeaders(hs) + "\r\n" + rest;
    if hs == [] {
      assert s == "\r\n" + rest;
      assert Tail(s) == "\n" + rest;
      assert done + hs == done;
    } else {
      var more := PrintHeaders(hs[1..]) + "\r\n" + rest;
      assert s == HeaderLine(hs[0]) + more;
      HeaderBack(hs[0], done, more);
      hide ParseHeaders, PrintHeaders;
      HeadersBack(hs[1..], done + [hs[0]], rest);
      assert (done + [hs[0]]) + hs[1..] == done + hs;
    }
  }

  lemma HeaderBack(h: Header, done: seq<Header>, more: string)
    requires WellFormed(h)
    ensures ParseHeaders(HeaderLine(h) + more, done) == ParseHeaders(more, done + [h])
  {
    EntryBack(h, more);
    Separators();
    hide IsToken, ParseEntry, HeaderLine;
    assert Tail("\n" + more) == more;
  }
}
