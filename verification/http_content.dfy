/**
 HttpContent (Tiny/Http/HttpContent.c): a buffer of the announced size that the body is
 copied into piece by piece.
 */
module HttpContents {

  const HTTP_CONTENT_MAX_SIZE: nat := 1024 * 1024 * 8

  // The size announced, and what has been copied so far.
  datatype Body = Body(size: nat, data: string)

  function Appended(b: Body, data: string): Body {
    if b.size - |b.data| < |data| then b else b.(data := b.data + data)
  }

  predicate Full(b: Body) {
    b.size == |b.data|
  }

  class HttpContent {
    var buf: array?<char>
    var bufSize: nat
    var dataSize: nat

    ghost predicate Valid()
      reads this, buf
    {
      && dataSize <= bufSize <= HTTP_CONTENT_MAX_SIZE
      && (buf == null ==> bufSize == 0)
      && (buf != null ==> buf.Length == bufSize && forall i :: dataSize <= i < bufSize ==> buf[i] == '\0')
    }

    ghost function Value(): (b: Body)
      requires Valid()
      reads this, buf
      ensures |b.data| <= b.size
    {
      Body(bufSize, if buf == null then "" else buf[..dataSize])
    }

    constructor ()
      ensures Valid() && Value() == Body(0, "") && buf == null
    {
      buf, bufSize, dataSize := null, 0, 0;
    }

    method Dispose()
      requires Valid()
      modifies this
      ensures Valid() && Value() == Body(0, "") && buf == null
    {
      if buf != null {
        buf, bufSize, dataSize := null, 0, 0;
      }
    }

    // False: the size is over the limit.
    method SetSize(size: nat) returns (ok: bool)
      requires Valid()
      modifies this
      ensures Valid() && ok == (size <= HTTP_CONTENT_MAX_SIZE)
      ensures Value() == Body(if ok then size else 0, "")
      ensures buf == null || fresh(buf)
    {
      Dispose();
      if size > HTTP_CONTENT_MAX_SIZE {
        return false;
      }
      buf := new char[size](i => '\0');
      bufSize := size;
      ok := true;
    }

    // False: there is no room for all of it, and nothing is copied.
    method AddObject(data: string) returns (ok: bool)
      requires Valid()
      modifies this`dataSize, buf
      ensures Valid() && Value() == Appended(old(Value()), data)
      ensures ok == (old(Value()).size - |old(Value()).data| >= |data|)
    {
      var unusedSize := bufSize - dataSize;
      if unusedSize < |data| {
        return false;
      }
      if buf != null {
        ghost var was := buf[..dataSize];
        forall i | 0 <= i < |data| {
          buf[dataSize + i] := data[i];
        }
        assert buf[..dataSize + |data|] == was + data;
      }
      dataSize := dataSize + |data|;
      ok := true;
    }

    method IsFull() returns (full: bool)
      requires Valid()
      ensures full == Full(Value())
    {
      full := bufSize == dataSize;
    }

    method GetSize() returns (size: nat)
      requires Valid()
      ensures size == Value().size
    {
      size := bufSize;
    }

    // What is printed for the content: all of the buffer, also what has not come yet.
    method GetObject() returns (s: string)
      requires Valid()
      ensures s == Padded(Value())
    {
      s := if buf == null then "" else buf[..];
      assert buf != null ==> buf[..] == Padded(Value());
    }
  }

  function Padded(b: Body): (s: string)
    requires |b.data| <= b.size
    ensures |s| == b.size
  {
    b.data + seq(b.size - |b.data|, i => '\0')
  }
}
