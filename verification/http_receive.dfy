/**
 The receive loop of the UPnP HTTP server (conn_recv_http_msg,
 UpnpStack/UpnpHttp/UpnpHttpServer.c). What TcpConn_Recv hands over, one piece per call,
 is an input; after the last piece it fails.
 */
module HttpReceive {
  import opened Wrappers
  import opened HttpText
  import opened HttpHeaders
  import opened HttpContents
  import opened HttpMessages
  import opened HttpRoundTrip
  import opened HttpHeads

  datatype RecvRet = RecvOk | RecvFailed | RecvInvalid | RecvOutOfMemory | ArgInvalidSize

  // The loop after the first piece: the answer, what is in the body then, and how many pieces it took.
  datatype Received = Received(ret: RecvRet, body: Body, used: nat)

  function Collect(b: Body, pieces: seq<string>): (r: Received)
    ensures r.used <= |pieces|
    decreases |pieces|
  {
    if pieces == [] then Received(RecvFailed, b, 0)
    else if b.size - |b.data| < |pieces[0]| then Received(ArgInvalidSize, b, 1)
    else
      var c := b.(data := b.data + pieces[0]);
      if Full(c) then Received(RecvOk, c, 1)
      else
        var r := Collect(c, pieces[1..]);
        r.(used := r.used + 1)
  }

  function Flat(pieces: seq<string>): string {
    if pieces == [] then "" else pieces[0] + Flat(pieces[1..])
  }

  method CollectBody(msg: HttpMessage, pieces: seq<string>) returns (ret: RecvRet, ghost used: nat)
    requires msg.Valid()
    modifies msg.content`dataSize, msg.content.buf
    ensures msg.Valid()
    ensures Received(ret, msg.content.Value(), used) == Collect(old(msg.content.Value()), pieces)
  {
    var i := 0;
    ghost var start := msg.content.Value();
    assert pieces[0..] == pieces;
    while true
      invariant i <= |pieces| && msg.Valid()
      invariant var r := Collect(msg.content.Value(), pieces[i..]);
                r.(used := r.used + i) == Collect(start, pieces)
      decreases |pieces| - i
    {
      if i == |pieces| {
        return RecvFailed, i;
      }
      assert pieces[i..][1..] == pieces[i + 1..];
      var piece := pieces[i];
      i := i + 1;
      var ok := msg.content.AddObject(piece);
      if !ok {
        return ArgInvalidSize, i;
      }
      var full := msg.content.IsFull();
      if full {
        return RecvOk, i;
      }
    }
  }

  // conn_recv_http_msg. None: the parse of the first piece crashed.
  method Receive(msg: HttpMessage, pieces: seq<string>) returns (ret: Option<RecvRet>)
    requires msg.Valid()
    modifies msg, msg.header, msg.content, msg.content.buf
    ensures match ReceiveAll(old(msg.Value()), pieces)
            case None => ret == None
            case Some((m, r)) => ret == Some(r) && msg.Valid() && msg.Value() == m
  {
    hide ParseMessage, Collect;
    if pieces == [] {
      return Some(RecvFailed);
    }
    var parsed := msg.Parse(pieces[0]);
    if parsed == None {
      return None;
    }
    if parsed.value != ParseOk {
      return Some(if parsed.value == MsgInvalid then RecvInvalid else RecvOutOfMemory);
    }
    var size := msg.content.GetSize();
    if size == 0 {
      return Some(RecvOk);
    }
    var full := msg.content.IsFull();
    if full {
      return Some(RecvOk);
    }
    var r, used := CollectBody(msg, pieces[1..]);
    ret := Some(r);
  }

  // What the whole function makes of a message and the pieces that come.
  function ReceiveAll(msg: Message, pieces: seq<string>): Option<(Message, RecvRet)> {
    if pieces == [] then Some((msg, RecvFailed))
    else
      match ParseMessage(msg, pieces[0])
      case Crashed => None
      case Done(m, ret) =>
        if ret == MsgInvalid then Some((m, RecvInvalid))
        else if ret == OutOfMemory then Some((m, RecvOutOfMemory))
        else if m.body.size == 0 || Full(m.body) then Some((m, RecvOk))
        else
          var r := Collect(m.body, pieces[1..]);
          Some((m.(body := r.body), r.ret))
  }

  /** At every turn the filled part is what has come so far, and never longer than the buffer. */
  lemma {:induction false} CollectKeepsPrefix(b: Body, pieces: seq<string>)
    requires |b.data| <= b.size
    ensures var r := Collect(b, pieces);
            && r.body.size == b.size && |r.body.data| <= b.size
            && r.body.data == b.data + Flat(pieces[..if r.ret == ArgInvalidSize then r.used - 1 else r.used])
            && (r.ret == ArgInvalidSize ==> r.used > 0)
    decreases |pieces|
  {
    if pieces != [] && b.size - |b.data| >= |pieces[0]| {
      var c := b.(data := b.data + pieces[0]);
      assert pieces[..1] == [pieces[0]] && Flat([pieces[0]]) == pieces[0] + Flat([]);
      if !Full(c) {
        CollectKeepsPrefix(c, pieces[1..]);
        var r := Collect(c, pieces[1..]);
        var n := if r.ret == ArgInvalidSize then r.used - 1 else r.used;
        assert pieces[..n + 1] == [pieces[0]] + pieces[1..][..n];
        assert pieces[..n + 1][1..] == pieces[1..][..n];
        assert c.data + Flat(pieces[1..][..n]) == b.data + (pieces[0] + Flat(pieces[1..][..n]));
      }
    } else {
      assert b.data + "" == b.data;
    }
  }

  /** Pieces, none of them empty, that add up to what is missing are all taken, and fill the body. */
  lemma {:induction false} CollectFills(b: Body, pieces: seq<string>)
    requires |b.data| + |Flat(pieces)| == b.size && pieces != []
    requires forall i :: 0 <= i < |pieces| ==> pieces[i] != ""
    ensures Collect(b, pieces) == Received(RecvOk, b.(data := b.data + Flat(pieces)), |pieces|)
    decreases |pieces|
  {
    var c := b.(data := b.data + pieces[0]);
    if |pieces| == 1 {
      assert pieces[1..] == [];
      assert pieces[0] + "" == pieces[0];
    } else {
      assert pieces[1..][0] != "";
      assert |Flat(pieces[1..])| > 0 by {
        assert Flat(pieces[1..]) == pieces[1..][0] + Flat(pieces[1..][1..]);
      }
      CollectFills(c, pieces[1..]);
      assert c.data + Flat(pieces[1..]) == b.data + (pieces[0] + Flat(pieces[1..]));
    }
  }

  // The head of a printed message and the first part of its body, and the other parts.
  function Pieces(head: string, first: string, rest: seq<string>): seq<string> {
    [head + first] + rest
  }

  /**
   However a body of the announced length is cut into pieces, as long as the first one holds the whole
   head and none of the others is empty, the loop ends with the head's fields and that body; it is
   refused exactly when the length is over the limit. The head is any that the parser accepts.
   */
  lemma HeadReassembled(head: string, into: Message, first: string, rest: seq<string>)
    requires All(into.fields.protocol, IsToken) && CompleteHead(head, into.fields)
    requires Announces(HeadHeaders(head, into.fields), |first + Flat(rest)|)
    requires forall i :: 0 <= i < |rest| ==> rest[i] != ""
    requires |first + Flat(rest)| > 0 || into.body == Body(0, "")
    ensures var m := Message(HeadFields(head, into.fields), HeadHeaders(head, into.fields), into.body);
            var body := first + Flat(rest);
            ReceiveAll(into, Pieces(head, first, rest)) ==
            if |body| > 0x80_0000 then Some((m.(body := Body(0, "")), RecvOutOfMemory))
            else Some((m.(body := Body(|body|, body)), RecvOk))
  {
    var fields, hs := HeadFields(head, into.fields), HeadHeaders(head, into.fields);
    var body := first + Flat(rest);
    ContentLengthIs(hs, |body|);
    hide Announces;
    HeadParsed(head, into, first);
    hide ParseMessage, CompleteHead, HeadFields, HeadHeaders, ContentLength, Appended;
    if |body| > HTTP_CONTENT_MAX_SIZE {
      assert Pieces(head, first, rest)[0] == head + first;
    } else {
      ReceiveParsed(into, head, first, rest, fields, Message(fields, hs, Body(|body|, body)));
    }
  }

  /**
   However the body of a printed request is cut into pieces, as long as the first one holds the
   whole head and none is empty, the loop ends with the message that was printed.
   */
  lemma RequestReassembled(msg: Message, into: Message, first: string, rest: seq<string>)
    requires WellFormedRequest(msg.fields, msg.headers) && Complete(msg)
    requires into.fields.protocol == msg.fields.protocol && (msg.body.size > 0 || into.body == Body(0, ""))
    requires first + Flat(rest) == msg.body.data
    requires forall i :: 0 <= i < |rest| ==> rest[i] != ""
    ensures var f := msg.fields;
            ReceiveAll(into, Pieces(PrintHead(msg.fields, msg.headers), first, rest)) ==
            Some((Message(into.fields.(kind := Request, command := f.command, uri := f.uri, major := f.major, minor := f.minor),
                          msg.headers, msg.body), RecvOk))
  {
    hide PrintHead, WellFormedRequest, Announces, ReceiveAll, CompleteHead, HeadFields, HeadHeaders;
    PrintedRequestHead(msg.fields, msg.headers, into.fields);
    HeadReassembled(PrintHead(msg.fields, msg.headers), into, first, rest);
  }

  /** The same for a response, which loses its reason. */
  lemma ResponseReassembled(msg: Message, into: Message, first: string, rest: seq<string>)
    requires WellFormedResponse(msg.fields, msg.headers) && Complete(msg)
    requires into.fields.protocol == msg.fields.protocol && (msg.body.size > 0 || into.body == Body(0, ""))
    requires first + Flat(rest) == msg.body.data
    requires forall i :: 0 <= i < |rest| ==> rest[i] != ""
    ensures var f := msg.fields;
            ReceiveAll(into, Pieces(PrintHead(msg.fields, msg.headers), first, rest)) ==
            Some((Message(into.fields.(kind := Response, major := f.major, minor := f.minor, code := f.code,
                                       status := ReasonField(|f.protocol|, CStr(f.status))),
                          msg.headers, msg.body), RecvOk))
  {
    hide PrintHead, WellFormedResponse, Announces, ReceiveAll, CompleteHead, HeadFields, HeadHeaders, CStr, ReasonField;
    PrintedResponseHead(msg.fields, msg.headers, into.fields);
    HeadReassembled(PrintHead(msg.fields, msg.headers), into, first, rest);
  }

  lemma ReceiveParsed(into: Message, head: string, first: string, rest: seq<string>, fields: Fields, msg: Message)
    requires Full(msg.body) && (msg.body.size > 0 || into.body == Body(0, "")) && first + Flat(rest) == msg.body.data
    requires forall i :: 0 <= i < |rest| ==> rest[i] != ""
    requires ParseMessage(into, head + first) ==
             Done(Message(fields, msg.headers, BodyAfter(into.body, msg.body.size, first)), ParseOk)
    ensures ReceiveAll(into, Pieces(head, first, rest)) == Some((Message(fields, msg.headers, msg.body), RecvOk))
  {
    hide ParseMessage, BodyAfter, Collect;
    BodyReassembled(into.body, msg.body, first, rest);
    assert Pieces(head, first, rest)[1..] == rest;
  }

  // The body after the first piece is either complete, or completed by the others.
  lemma BodyReassembled(was: Body, body: Body, first: string, rest: seq<string>)
    requires Full(body) && (body.size > 0 || was == Body(0, "")) && first + Flat(rest) == body.data
    requires forall i :: 0 <= i < |rest| ==> rest[i] != ""
    ensures var b := BodyAfter(was, body.size, first);
            if b.size == 0 || Full(b) then b == body
            else Collect(b, rest) == Received(RecvOk, body, |rest|)
  {
    var b := BodyAfter(was, body.size, first);
    assert "" + first == first;
    if body.size > 0 {
      assert b == Body(body.size, first);
      if rest == [] {
        assert first + "" == first;
      } else {
        assert rest[0] != "" && Flat(rest) == rest[0] + Flat(rest[1..]);
        CollectFills(b, rest);
      }
    }
  }

  /** A body that comes with more than was announced is dropped as a whole, and the message stays incomplete. */
  lemma TooMuchIsDropped(head: string, into: Message, n: nat, more: string)
    requires All(into.fields.protocol, IsToken) && CompleteHead(head, into.fields)
    requires Announces(HeadHeaders(head, into.fields), n) && 0 < n <= 0x80_0000 && |more| > n
    ensures var parsed := ParseMessage(into, head + more);
            parsed.Done? && parsed.ret == ParseOk && !Full(parsed.msg.body) && parsed.msg.body == Body(n, "")
  {
    ContentLengthIs(HeadHeaders(head, into.fields), n);
    HeadParsed(head, into, more);
    hide ParseMessage, CompleteHead, HeadFields, HeadHeaders, ContentLength, Announces;
  }

  /**
   A request whose first Content-Length field, at k, gives the length of its body in decimal is
   received as it was printed, however its body is cut into pieces behind the head.
   */
  lemma LengthFieldReassembles(f: Fields, hs: seq<Header>, k: nat, into: Message, first: string, rest: seq<string>)
    requires WellFormedRequest(f, hs) && into.fields.protocol == f.protocol
    requires IsFirstField(hs, "Content-Length", k) && hs[k].value == Dec(|first + Flat(rest)|)
    requires 0 < |first + Flat(rest)| <= 0x80_0000
    requires forall i :: 0 <= i < |rest| ==> rest[i] != ""
    ensures var body := first + Flat(rest);
            ReceiveAll(into, Pieces(PrintHead(f, hs), first, rest)) ==
            Some((Message(into.fields.(kind := Request, command := f.command, uri := f.uri, major := f.major, minor := f.minor),
                          hs, Body(|body|, body)), RecvOk))
  {
    var body := first + Flat(rest);
    AnnouncedBy(hs, k, |body|);
    hide PrintHead, WellFormedRequest, Announces, ReceiveAll, IsFirstField, Dec;
    RequestReassembled(Message(f, hs, Body(|body|, body)), into, first, rest);
  }
}
