/**
 MD5 streaming (Tiny/Md5/tiny_md5.c): whatever way a message is cut into calls of
 Update, Final returns the digest of sections 3.1 to 3.5 of RFC 1321.
 */
module Md5 {
  import opened Words
  import opened Md5Block

  // ----- RFC 1321

  const INITIAL := Regs(Word(0x67452301), Word(0xefcdab89), Word(0x98badcfe), Word(0x10325476))

  // The state after the first k blocks of b, from the state r.
  function Fold(r: Regs, b: seq<Octet>, k: nat): Regs
    requires 64 * k <= |b|
  {
    if k == 0 then r else Compress(Fold(r, b, k - 1), b[64 * (k - 1)..64 * k])
  }

  function Zeros(n: nat): (z: seq<Octet>)
    ensures |z| == n && forall i :: 0 <= i < n ==> z[i] == 0
  {
    seq(n, i => 0)
  }

  // Sections 3.1 and 3.2: a one bit, zeros up to 56 mod 64 bytes, and the length in bits mod 2^64.
  function Padding(length: nat): (p: seq<Octet>)
    ensures 1 <= |p| <= 64 && (length + |p| + 8) % 64 == 0
  {
    [0x80] + Zeros((119 - length % 64) % 64)
  }

  function LengthBytes(length: nat): (b: seq<Octet>)
    ensures |b| == 8
  {
    var bits := (8 * length) % U64;
    EncodeWords([Word((bits % U32) as bv32), Word((bits / U32) as bv32)])
  }

  function Padded(message: seq<Octet>): (p: seq<Octet>)
    ensures |p| % 64 == 0
  {
    var padding, bits := Padding(|message|), LengthBytes(|message|);
    assert |message + padding + bits| == |message| + |padding| + 8;
    message + padding + bits
  }

  function RegsBytes(r: Regs): (b: seq<Octet>)
    ensures |b| == 16
  {
    EncodeWords([r.a, r.b, r.c, r.d])
  }

  function Digest(message: seq<Octet>): (digest: seq<Octet>)
    ensures |digest| == 16
  {
    RegsBytes(Fold(INITIAL, Padded(message), |Padded(message)| / 64))
  }

  // Only the blocks folded matter.
  lemma {:induction false} FoldPrefix(r: Regs, a: seq<Octet>, b: seq<Octet>, k: nat)
    requires 64 * k <= |a| <= |b| && a == b[..|a|]
    ensures Fold(r, a, k) == Fold(r, b, k)
  {
    hide Compress;
    if k > 0 {
      FoldPrefix(r, a, b, k - 1);
      assert a[64 * (k - 1)..64 * k] == b[64 * (k - 1)..64 * k];
    }
  }

  // A block of the second part of a text.
  lemma Behind(front: seq<Octet>, input: seq<Octet>, i: nat)
    requires i + 64 <= |input|
    ensures var all, at := front + input, |front| + i;
            at + 64 <= |all| && all[at..at + 64] == input[i..i + 64]
  {
  }

  // ----- the two count words

  // UINT4 where it is only counted with; its addition is written mod 2^32.
  type Count = c: int | 0 <= c < U32

  // count holds the length in bits mod 2^64, low word first.
  predicate Counts(c0: Count, c1: Count, length: nat) {
    c0 as int + U32 * c1 as int == (8 * length) % U64
  }

  lemma CountIndex(c0: Count, c1: Count, length: nat, k: nat)
    requires Counts(c0, c1, length) && 64 * k <= length < 64 * k + 64
    ensures c0 / 8 % 64 == length - 64 * k
  {
    var j := (8 * length) / U64;
    var q := 0x80_0000 * c1 as int + 0x80_0000_0000_0000 * j;
    assert 8 * length == c0 as int + U32 * c1 as int + U64 * j;
    assert c0 as int == 8 * (length - 64 * q);
    assert c0 / 8 == (length - 64 * k) + 64 * (k - q);
    Remainder(length - 64 * k, k - q);
  }

  lemma Remainder(x: int, k: int)
    requires 0 <= x < 64
    ensures (x + 64 * k) % 64 == x
  {
  }

  lemma ShiftedLength(n: nat)
    requires n < U32
    ensures 8 * n == (n * 8) % U32 + U32 * (n / 0x2000_0000)
  {
    var high := n / 0x2000_0000;
    var r := n - 0x2000_0000 * high;
    assert n * 8 == 8 * r + U32 * high && 0 <= 8 * r < U32;
  }

  // A 64-bit addition done on two 32-bit words.
  lemma AddWords(c0: int, c1: int, low: int, high: int)
    requires 0 <= c0 < U32 && 0 <= c1 < U32 && 0 <= low < U32 && 0 <= high < 8
    ensures var d0 := (c0 + low) % U32;
            var carry := if d0 < low then (c1 + 1) % U32 else c1;
            d0 + U32 * ((carry + high) % U32) == (c0 + U32 * c1 + low + U32 * high) % U64
  {
    var d0 := (c0 + low) % U32;
    var carried := if d0 < low then 1 else 0;
    var carry := if d0 < low then (c1 + 1) % U32 else c1;
    assert c0 + low == d0 + U32 * carried;
    var sum := c1 + carried + high;
    var d1 := if sum < U32 then sum else sum - U32;
    assert (carry + high) % U32 == d1;
    assert 0 <= d0 + U32 * d1 < U64;
    assert c0 + U32 * c1 + low + U32 * high == d0 + U32 * sum;
  }

  lemma CountAdds(c0: Count, c1: Count, length: nat, n: nat)
    requires Counts(c0, c1, length) && n < U32
    ensures var low := (n * 8) % U32;
            var d0 := (c0 as int + low) % U32;
            var carry := if d0 < low then (c1 as int + 1) % U32 else c1 as int;
            Counts(d0, (carry + n / 0x2000_0000) % U32, length + n)
  {
    ShiftedLength(n);
    AddWords(c0, c1, (n * 8) % U32, n / 0x2000_0000);
    var k := (8 * length) / U64;
    assert 8 * (length + n) == c0 as int + U32 * c1 as int + 8 * n + U64 * k;
    AddMultiple(c0 as int + U32 * c1 as int + 8 * n, k);
  }

  lemma AddMultiple(x: int, k: int)
    ensures (x + U64 * k) % U64 == x % U64
  {
  }

  lemma CountWords(c0: Count, c1: Count, length: nat)
    requires Counts(c0, c1, length)
    ensures EncodeWords([Word(c0 as bv32), Word(c1 as bv32)]) == LengthBytes(length)
  {
    var bits := (8 * length) % U64;
    assert bits % U32 == c0 as int && bits / U32 == c1 as int;
    hide EncodeWords;
  }

  // ----- TinyMD5

  const PADDING: seq<Octet> := [0x80] + Zeros(63)

  lemma PaddingIs(length: nat, padLen: nat)
    requires padLen == if length % 64 < 56 then 56 - length % 64 else 120 - length % 64
    ensures PADDING[..padLen] == Padding(length)
  {
    assert |PADDING[..padLen]| == |Padding(length)|;
  }

  // ----- the loop of Update over whole blocks, whose index is a 32-bit word

  // The index after k turns, when the buffer held `index` bytes before.
  function LoopIndex(index: nat, k: nat): nat
    requires index < 64
  {
    (64 - index + 64 * k) % U32
  }

  predicate GoesOn(i: nat, n: nat) {
    (i + 63) % U32 < n
  }

  // The index and the length of the input do not add up to 2^32.
  predicate Takes(length: nat, n: nat) {
    length % 64 + n < U32
  }

  lemma TakesPart(index: nat, blocks: nat, n: nat)
    requires index < 64
    ensures Takes(64 * blocks + index, n) <==> index + n < U32
  {
    Remainder(index, blocks);
  }

  lemma GoesOnInside(index: nat, k: nat, n: nat)
    requires index < 64 && index + n < U32 && 64 - index + 64 * k <= n
    ensures GoesOn(64 - index + 64 * k, n) <==> 64 - index + 64 * k + 64 <= n
    ensures LoopIndex(index, k) == 64 - index + 64 * k
  {
    assert 64 * (k + 1) <= U32 - 64;
  }

  lemma GoesOnForever(index: nat, k: nat, n: nat)
    requires index < 64 && n < U32 && index + n >= U32
    ensures GoesOn(LoopIndex(index, k), n)
  {
    var q := (64 - index + 64 * k) / U32;
    var i := LoopIndex(index, k);
    var m := k + 1 - U32 / 64 * q;
    assert i + index == 64 * m;
    assert 64 * m <= U32;
    if i + index < U32 {
      assert 64 * m <= U32 - 64;
    }
  }

  /** The loop ends exactly when the bytes in the buffer and those of the input are fewer than 2^32.
      Otherwise its index comes back to where it began, and it reads past the input for ever. */
  lemma LoopEndsExactly(index: nat, n: nat)
    requires index < 64 && n < U32
    ensures (exists k: nat :: !GoesOn(LoopIndex(index, k), n)) <==> index + n < U32
  {
    if index + n >= U32 {
      forall k: nat
        ensures GoesOn(LoopIndex(index, k), n)
      {
        GoesOnForever(index, k, n);
      }
    } else {
      var k := if n < 64 - index then 0 else (n - (64 - index)) / 64;
      if n >= 64 - index {
        GoesOnInside(index, k, n);
      }
      assert !GoesOn(LoopIndex(index, k), n);
    }
  }

  // TinyMD5_memcpy to output + at.
  method Memcpy(output: array<Octet>, at: nat, input: seq<Octet>)
    requires at + |input| <= output.Length
    modifies output
    ensures output[..at + |input|] == old(output[..at]) + input
    ensures output[at + |input|..] == old(output[at + |input|..])
  {
    var i := 0;
    while i < |input|
      invariant 0 <= i <= |input|
      invariant output[..at + i] == old(output[..at]) + input[..i]
      invariant output[at + i..] == old(output[at + i..])
    {
      output[at + i] := input[i];
      i := i + 1;
      assert output[..at + i] == output[..at + i - 1] + [input[i - 1]];
    }
    assert input[..i] == input;
  }

  class TinyMd5 {
    const state: array<Word>
    const count: array<Count>
    const buffer: array<Octet>
    ghost var message: seq<Octet>  // everything given to Update so far
    ghost var blocks: nat         // the whole blocks in it

    ghost predicate Shape()
      reads this
    {
      state.Length == 4 && count.Length == 2 && buffer.Length == 64
    }

    ghost function Registers(): Regs
      requires Shape()
      reads this, state
    {
      Regs(state[0], state[1], state[2], state[3])
    }

    /** count is the length in bits, the registers are the fold over the whole
        blocks, and the buffer starts with the bytes no block has taken yet. */
    ghost predicate Valid()
      reads this, state, count, buffer
    {
      && Shape()
      && 64 * blocks <= |message| < 64 * blocks + 64
      && Counts(count[0], count[1], |message|)
      && Registers() == Fold(INITIAL, message, blocks)
      && buffer[..|message| - 64 * blocks] == message[64 * blocks..]
    }

    constructor ()
      ensures Valid() && message == []
      ensures fresh(state) && fresh(count) && fresh(buffer)
    {
      state := new Word[4];
      count := new Count[2];
      buffer := new Octet[64];
      message := [];
      new;
      Init();
    }

    method Init()
      requires Shape()
      modifies this, state, count
      ensures Valid() && message == []
    {
      count[0] := 0;
      count[1] := 0;
      state[0] := Word(0x67452301);
      state[1] := Word(0xefcdab89);
      state[2] := Word(0x98badcfe);
      state[3] := Word(0x10325476);
      message := [];
      blocks := 0;
    }

    // The first lines of Update: the number of bits, and the index into the buffer.
    method Count(n: nat) returns (index: nat)
      requires Valid() && n < U32
      modifies count
      ensures index == |message| - 64 * blocks
      ensures Counts(count[0], count[1], |message| + n)
    {
      hide Fold;
      index := count[0] / 8 % 64;
      CountIndex(count[0], count[1], |message|, blocks);
      CountAdds(count[0], count[1], |message|, n);
      hide Counts;
      var low := (n * 8) % U32;
      count[0] := (count[0] as int + low) % U32;
      if count[0] < low {
        count[1] := (count[1] as int + 1) % U32;
      }
      count[1] := (count[1] as int + n / 0x2000_0000) % U32;
    }

    // Transform the block number k of the bytes all.
    method TransformBlock(ghost all: seq<Octet>, ghost k: nat, block: seq<Octet>)
      requires Shape() && 64 * k + 64 <= |all| && block == all[64 * k..64 * k + 64]
      requires Registers() == Fold(INITIAL, all, k)
      modifies state
      ensures Registers() == Fold(INITIAL, all, k + 1)
    {
      hide Compress;
      Transform(state, block);
    }

    // Transform the whole blocks of the input from start on; k counts the blocks of all.
    method WholeBlocks(ghost all: seq<Octet>, ghost done: nat, input: seq<Octet>, start: nat) returns (i: nat, ghost k: nat)
      requires Shape() && start <= |input| && 0 < start <= 64 && 64 - start + |input| < U32
      requires |message| + start == 64 * done && all == message + input
      requires Registers() == Fold(INITIAL, all, done)
      modifies state
      ensures i <= |input| && |message| + i == 64 * k && |all| < 64 * k + 64
      ensures Registers() == Fold(INITIAL, all, k)
    {
      hide Fold;
      i, k := start, done;
      GoesOnInside(64 - start, 0, |input|);
      while (i + 63) % U32 < |input|
        invariant i <= |input| && |message| + i == 64 * k && k >= done
        invariant (i + 63) % U32 < |input| <==> i + 64 <= |input|
        invariant Registers() == Fold(INITIAL, all, k)
      {
        Behind(message, input, i);
        TransformBlock(all, k, input[i..i + 64]);
        i, k := i + 64, k + 1;
        GoesOnInside(64 - start, k - done, |input|);
      }
    }

    // Complete the buffer with the first bytes of the input and transform it.
    method FirstBlock(ghost all: seq<Octet>, ghost k: nat, index: nat, part: seq<Octet>)
      requires Shape() && index + |part| == 64 && 64 * k + 64 <= |all|
      requires buffer[..index] + part == all[64 * k..64 * k + 64]
      requires Registers() == Fold(INITIAL, all, k)
      modifies state, buffer
      ensures Registers() == Fold(INITIAL, all, k + 1)
    {
      hide Fold;
      Memcpy(buffer, index, part);
      TransformBlock(all, k, buffer[..]);
    }

    // Transform as many blocks as possible; what is left begins in the buffer and ends with the input.
    method TakeBlocks(ghost all: seq<Octet>, index: nat, input: seq<Octet>) returns (i: nat, left: nat, ghost k: nat)
      requires Shape() && index < 64 && index + |input| < U32
      requires 64 * blocks + index == |message| && all == message + input
      requires Registers() == Fold(INITIAL, message, blocks) && buffer[..index] == message[64 * blocks..]
      modifies state, buffer
      ensures i <= |input| && left < 64 && 64 * k + left + |input| - i == |all| < 64 * k + 64
      ensures Registers() == Fold(INITIAL, all, k)
      ensures buffer[..left] + input[i..] == all[64 * k..]
    {
      hide Fold;
      FoldPrefix(INITIAL, message, all, blocks);
      var partLen := 64 - index;
      i, left, k := 0, index, blocks;
      if |input| >= partLen {
        FirstBlock(all, k, index, input[..partLen]);
        i, k := WholeBlocks(all, k + 1, input, partLen);
        left := 0;
      }
    }

    method Update(input: seq<Octet>)
      requires Valid() && Takes(|message|, |input|)
      modifies this, state, count, buffer
      ensures Valid() && message == old(message) + input
    {
      hide Fold, Counts;
      ghost var all := message + input;
      TakesPart(|message| - 64 * blocks, blocks, |input|);
      var index := Count(|input|);
      var i, left, k := TakeBlocks(all, index, input);
      Memcpy(buffer, left, input[i..]);
      message, blocks := all, k;
    }

    // Save number of bits.
    method CountBytes() returns (bits: array<Octet>)
      requires Valid()
      ensures fresh(bits) && bits[..] == LengthBytes(|message|)
    {
      hide Fold, EncodeWords, LengthBytes;
      bits := new Octet[8];
      CountWords(count[0], count[1], |message|);
      Encode(bits, [Word(count[0] as bv32), Word(count[1] as bv32)], 8);
      assert bits[..] == bits[..8];
    }

    // Pad the message and append its length.
    method Pad()
      requires Valid()
      modifies this, state, count, buffer
      ensures Valid() && message == Padded(old(message))
    {
      hide Fold, Counts, EncodeWords, LengthBytes;
      ghost var m := message;
      var bits := CountBytes();
      var index := count[0] / 8 % 64;
      CountIndex(count[0], count[1], |m|, blocks);
      var padLen := if index < 56 then 56 - index else 120 - index;
      assert |m| % 64 == index by { Remainder(index, blocks); }
      PaddingIs(|m|, padLen);
      hide Padding;
      Update(PADDING[..padLen]);
      Update(bits[..]);
    }

    /** Final writes the digest of the message and clears the object. */
    method Final(digest: array<Octet>)
      requires Valid() && digest.Length == 16 && digest != buffer
      modifies this, state, count, buffer, digest
      ensures digest[..] == Digest(old(message))
      ensures forall i :: 0 <= i < 4 ==> state[i] == Word(0)
      ensures forall i :: 0 <= i < 64 ==> buffer[i] == 0
      ensures count[0] == count[1] == 0
    {
      hide Fold, Counts, EncodeWords, Padded;
      Pad();
      assert blocks == |message| / 64;
      Encode(digest, state[..], 16);
      assert state[..] == [state[0], state[1], state[2], state[3]];
      assert digest[..] == digest[..16];
      Clear();
    }

    // The memset that ends Final.
    method Clear()
      requires Shape()
      modifies this, state, count, buffer
      ensures forall i :: 0 <= i < 4 ==> state[i] == Word(0)
      ensures forall i :: 0 <= i < 64 ==> buffer[i] == 0
      ensures count[0] == count[1] == 0
    {
      forall i | 0 <= i < 4 { state[i] := Word(0); }
      forall i | 0 <= i < 64 { buffer[i] := 0; }
      forall i | 0 <= i < 2 { count[i] := 0; }
    }
  }

  // ----- whole messages

  function Concat(chunks: seq<seq<Octet>>): seq<Octet> {
    if chunks == [] then [] else Concat(chunks[..|chunks| - 1]) + chunks[|chunks| - 1]
  }

  /** However a message is cut into calls of Update that all end, Final returns its digest. */
  method DigestOfChunks(chunks: seq<seq<Octet>>) returns (digest: seq<Octet>)
    requires forall i :: 0 <= i < |chunks| ==> Takes(|Concat(chunks[..i])|, |chunks[i]|)
    ensures digest == Digest(Concat(chunks))
  {
    hide Fold, Counts, Digest;
    var md5 := new TinyMd5();
    for i := 0 to |chunks|
      invariant md5.Valid() && md5.message == Concat(chunks[..i])
      invariant fresh(md5) && fresh(md5.state) && fresh(md5.count) && fresh(md5.buffer)
    {
      md5.Update(chunks[i]);
      assert chunks[..i + 1][..i] == chunks[..i];
    }
    assert chunks[..|chunks|] == chunks;
    var out := new Octet[16];
    md5.Final(out);
    digest := out[..];
  }

  function HexDigit(d: bv8): char {
    match d
    case 0 => '0'  case 1 => '1'  case 2 => '2'  case 3 => '3'
    case 4 => '4'  case 5 => '5'  case 6 => '6'  case 7 => '7'
    case 8 => '8'  case 9 => '9'  case 10 => 'a' case 11 => 'b'
    case 12 => 'c' case 13 => 'd' case 14 => 'e' case _ => 'f'
  }

  // %02x
  function HexOctet(b: Octet): (text: string)
    ensures |text| == 2
  {
    [HexDigit(b >> 4), HexDigit(b & 0xf)]
  }

  function Hex(bytes: seq<Octet>): (text: string)
    ensures |text| == 2 * |bytes|
  {
    if bytes == [] then ""
    else Hex(bytes[..|bytes| - 1]) + HexOctet(bytes[|bytes| - 1])
  }

  // What a 32-bit length leaves of a string.
  function Counted(src: seq<Octet>): (text: seq<Octet>)
    ensures text <= src && |text| == |src| % U32 && (|src| < U32 ==> text == src)
  {
    var n := |src| % U32;
    assert n <= |src|;
    src[..n]
  }

  // tiny_md5_encode: the digest of a C string, as TinyMD5_Result prints it.
  method TinyMd5Encode(src: seq<Octet>) returns (result: string)
    ensures result == Hex(Digest(Counted(src)))
  {
    hide Digest;
    var text := Counted(src);
    hide Counted;
    var none: seq<seq<Octet>> := [text][..0];
    assert none == [] && Concat(none) == [];
    assert Concat([text]) == [] + text == text;
    var digest := DigestOfChunks([text]);
    result := "";
    for i := 0 to 16
      invariant result == Hex(digest[..i])
    {
      result := result + HexOctet(digest[i]);
      assert digest[..i + 1][..i] == digest[..i];
    }
    assert digest[..16] == digest;
  }
}
