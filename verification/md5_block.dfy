/**
 The MD5 compression function (Tiny/Md5/tiny_md5.c, TinyMD5_Transform).

 UINT4 is modelled as the four byte word its comment promises, a bit-vector of
 32 bits, whose addition wraps as that of the word does. `FBit`, `GBit`,
 `HBit`, `IBit` and `RotateBit` say what the macros do to each bit. The reference is section 3.4 of RFC 1321:
 64 operations whose word, shift and constant are given by the number of the
 operation. `Transform` runs the sixty-four statements of the file and is proved
 to compute exactly that.
 */
module Md5Block {

  type Octet = bv8

  // The macros, on the 32 bits of UINT4.

  function F(x: bv32, y: bv32, z: bv32): bv32 {
    (x & y) | (!x & z)
  }

  function G(x: bv32, y: bv32, z: bv32): bv32 {
    (x & z) | (y & !z)
  }

  function H(x: bv32, y: bv32, z: bv32): bv32 {
    x ^ y ^ z
  }

  function I(x: bv32, y: bv32, z: bv32): bv32 {
    y ^ (x | !z)
  }

  function RotateLeft(x: bv32, n: bv32): bv32
    requires 0 < n < 32
  {
    (x << n) | (x >> (32 - n))
  }

  // ----- what the macros do to each bit

  predicate Bit(w: bv32, k: bv32)
    requires k < 32
  {
    (w >> k) & 1 == 1
  }

  lemma FWhere(x: bv32, y: bv32, z: bv32, k: bv32)
    requires k < 32 && Bit(x, k)
    ensures Bit(F(x, y, z), k) == Bit(y, k)
  {
  }

  lemma FElsewhere(x: bv32, y: bv32, z: bv32, k: bv32)
    requires k < 32 && !Bit(x, k)
    ensures Bit(F(x, y, z), k) == Bit(z, k)
  {
  }

  /** Bit for bit: if x then y else z. */
  lemma FBit(x: bv32, y: bv32, z: bv32, k: bv32)
    requires k < 32
    ensures Bit(F(x, y, z), k) == if Bit(x, k) then Bit(y, k) else Bit(z, k)
  {
    hide Bit, F;
    if Bit(x, k) {
      FWhere(x, y, z, k);
    } else {
      FElsewhere(x, y, z, k);
    }
  }

  lemma GIsF(x: bv32, y: bv32, z: bv32)
    ensures G(x, y, z) == F(z, x, y)
  {
  }

  /** Bit for bit: if z then x else y. */
  lemma GBit(x: bv32, y: bv32, z: bv32, k: bv32)
    requires k < 32
    ensures Bit(G(x, y, z), k) == if Bit(z, k) then Bit(x, k) else Bit(y, k)
  {
    hide Bit, F, G;
    GIsF(x, y, z);
    FBit(z, x, y, k);
  }

  lemma XorBit(x: bv32, y: bv32, k: bv32, w: bv32)
    requires k < 32 && w == x ^ y
    ensures Bit(w, k) == (Bit(x, k) != Bit(y, k))
  {
  }

  lemma HParts(x: bv32, y: bv32, z: bv32) returns (u: bv32, h: bv32)
    ensures u == x ^ y && h == u ^ z && h == H(x, y, z)
  {
    u, h := x ^ y, x ^ y ^ z;
  }

  lemma HPartsBit(x: bv32, y: bv32, z: bv32, k: bv32, u: bv32, h: bv32)
    requires k < 32 && u == x ^ y && h == u ^ z
    ensures Bit(h, k) == (Bit(x, k) != (Bit(y, k) != Bit(z, k)))
  {
    XorBit(x, y, k, u);
    XorBit(u, z, k, h);
    hide Bit;
  }

  /** Bit for bit: whether an odd number of the three is set. */
  lemma HBit(x: bv32, y: bv32, z: bv32, k: bv32)
    requires k < 32
    ensures Bit(H(x, y, z), k) == (Bit(x, k) != (Bit(y, k) != Bit(z, k)))
  {
    hide Bit, H;
    var u, h := HParts(x, y, z);
    HPartsBit(x, y, z, k, u, h);
  }

  lemma IWhere(x: bv32, y: bv32, z: bv32, k: bv32)
    requires k < 32 && (Bit(x, k) || !Bit(z, k))
    ensures Bit(I(x, y, z), k) == !Bit(y, k)
  {
  }

  lemma IElsewhere(x: bv32, y: bv32, z: bv32, k: bv32)
    requires k < 32 && !Bit(x, k) && Bit(z, k)
    ensures Bit(I(x, y, z), k) == Bit(y, k)
  {
  }

  /** Bit for bit: y, turned over where x is set or z is not. */
  lemma IBit(x: bv32, y: bv32, z: bv32, k: bv32)
    requires k < 32
    ensures Bit(I(x, y, z), k) == (Bit(y, k) != (Bit(x, k) || !Bit(z, k)))
  {
    hide Bit, I;
    if Bit(x, k) || !Bit(z, k) {
      IWhere(x, y, z, k);
    } else {
      IElsewhere(x, y, z, k);
    }
  }

  lemma ShiftUp(x: bv32, n: bv32, k: bv32, w: bv32)
    requires n < 32 && k < 32 && w == x << n
    ensures Bit(w, k) == (n <= k && Bit(x, k - n))
  {
  }

  lemma HighPart(x: bv32, n: bv32, k: bv32, w: bv32)
    requires 0 < n < 32 && k < 32 && w == x >> (32 - n)
    ensures Bit(w, k) == (k < n && Bit(x, k + 32 - n))
  {
  }

  lemma OrBit(x: bv32, y: bv32, k: bv32, w: bv32)
    requires k < 32 && w == x | y
    ensures Bit(w, k) == (Bit(x, k) || Bit(y, k))
  {
  }

  lemma RotateParts(x: bv32, n: bv32) returns (u: bv32, v: bv32)
    requires 0 < n < 32
    ensures u == x << n && v == x >> (32 - n) && RotateLeft(x, n) == u | v
  {
    u, v := x << n, x >> (32 - n);
  }

  lemma LowPart(x: bv32, n: bv32, k: bv32, u: bv32, v: bv32, w: bv32)
    requires 0 < n < 32 && k < 32 && u == x << n && w == u | v
    requires Bit(v, k) == (k < n && Bit(x, k + 32 - n))
    ensures Bit(w, k) == Bit(x, if n <= k then k - n else k + 32 - n)
  {
    ShiftUp(x, n, k, u);
    OrBit(u, v, k, w);
    hide Bit;
  }

  /** Bit k of a word rotated by n is the one n places below, counted round. */
  lemma RotateBit(x: bv32, n: bv32, k: bv32)
    requires 0 < n < 32 && k < 32
    ensures Bit(RotateLeft(x, n), k) == Bit(x, if n <= k then k - n else k + 32 - n)
  {
    hide Bit, RotateLeft;
    var u, v := RotateParts(x, n);
    HighPart(x, n, k, v);
    LowPart(x, n, k, u, v, RotateLeft(x, n));
  }

  // ----- words

  // UINT4 as a value that is passed on, looked into only by the functions below.
  datatype Word = Word(bits: bv32)

  datatype Regs = Regs(a: Word, b: Word, c: Word, d: Word)

  function Plus(x: Word, y: Word): Word {
    Word(x.bits + y.bits)
  }

  function Auxiliary(round: nat, x: bv32, y: bv32, z: bv32): bv32 {
    match round
    case 0 => F(x, y, z)
    case 1 => G(x, y, z)
    case 2 => H(x, y, z)
    case _ => I(x, y, z)
  }

  // The macro XX: a = b + ((a + f + x + ac) <<< s).
  function Operation(f: bv32, a: bv32, b: bv32, x: bv32, s: bv32, ac: bv32): bv32
    requires 0 < s < 32
  {
    RotateLeft(a + f + x + ac, s) + b
  }

  // ----- section 3.4 of RFC 1321

  function Sine1(i: nat): bv32 {
    match i
    case 0 => 0xd76aa478
    case 1 => 0xe8c7b756
    case 2 => 0x242070db
    case 3 => 0xc1bdceee
    case 4 => 0xf57c0faf
    case 5 => 0x4787c62a
    case 6 => 0xa8304613
    case 7 => 0xfd469501
    case 8 => 0x698098d8
    case 9 => 0x8b44f7af
    case 10 => 0xffff5bb1
    case 11 => 0x895cd7be
    case 12 => 0x6b901122
    case 13 => 0xfd987193
    case 14 => 0xa679438e
    case _ => 0x49b40821
  }

  function Sine2(i: nat): bv32 {
    match i
    case 0 => 0xf61e2562
    case 1 => 0xc040b340
    case 2 => 0x265e5a51
    case 3 => 0xe9b6c7aa
    case 4 => 0xd62f105d
    case 5 => 0x2441453
    case 6 => 0xd8a1e681
    case 7 => 0xe7d3fbc8
    case 8 => 0x21e1cde6
    case 9 => 0xc33707d6
    case 10 => 0xf4d50d87
    case 11 => 0x455a14ed
    case 12 => 0xa9e3e905
    case 13 => 0xfcefa3f8
    case 14 => 0x676f02d9
    case _ => 0x8d2a4c8a
  }

  function Sine3(i: nat): bv32 {
    match i
    case 0 => 0xfffa3942
    case 1 => 0x8771f681
    case 2 => 0x6d9d6122
    case 3 => 0xfde5380c
    case 4 => 0xa4beea44
    case 5 => 0x4bdecfa9
    case 6 => 0xf6bb4b60
    case 7 => 0xbebfbc70
    case 8 => 0x289b7ec6
    case 9 => 0xeaa127fa
    case 10 => 0xd4ef3085
    case 11 => 0x4881d05
    case 12 => 0xd9d4d039
    case 13 => 0xe6db99e5
    case 14 => 0x1fa27cf8
    case _ => 0xc4ac5665
  }

  function Sine4(i: nat): bv32 {
    match i
    case 0 => 0xf4292244
    case 1 => 0x432aff97
    case 2 => 0xab9423a7
    case 3 => 0xfc93a039
    case 4 => 0x655b59c3
    case 5 => 0x8f0ccc92
    case 6 => 0xffeff47d
    case 7 => 0x85845dd1
    case 8 => 0x6fa87e4f
    case 9 => 0xfe2ce6e0
    case 10 => 0xa3014314
    case 11 => 0x4e0811a1
    case 12 => 0xf7537e82
    case 13 => 0xbd3af235
    case 14 => 0x2ad7d2bb
    case _ => 0xeb86d391
  }

  // T[i + 1], the integer part of 4294967296 * abs(sin(i + 1)).
  function Sine(i: nat): bv32 {
    match i / 16
    case 0 => Sine1(i)
    case 1 => Sine2(i - 16)
    case 2 => Sine3(i - 32)
    case _ => if i < 48 then 0 else Sine4(i - 48)
  }

  // The word of the block that operation i adds.
  function WordIndex(i: nat): (k: nat)
    ensures k < 16
  {
    match i / 16
    case 0 => i % 16
    case 1 => (5 * i + 1) % 16
    case 2 => (3 * i + 5) % 16
    case _ => (7 * i) % 16
  }

  function Shift(i: nat): (s: bv32)
    ensures 0 < s < 32
  {
    match (i / 16, i % 4)
    case (0, 0) => 7   case (0, 1) => 12  case (0, 2) => 17  case (0, _) => 22
    case (1, 0) => 5   case (1, 1) => 9   case (1, 2) => 14  case (1, _) => 20
    case (2, 0) => 4   case (2, 1) => 11  case (2, 2) => 16  case (2, _) => 23
    case (_, 0) => 6   case (_, 1) => 10  case (_, 2) => 15  case (_, _) => 21
  }

  // What operation i + 1 writes, with x added.
  function Written(i: nat, r: Regs, x: Word): Word {
    Word(Operation(Auxiliary(i / 16, r.b.bits, r.c.bits, r.d.bits), r.a.bits, r.b.bits, x.bits, Shift(i), Sine(i)))
  }

  // The registers after the first n operations, listed from the one written next.
  function Operations(n: nat, start: Regs, x: seq<Word>): Regs
    requires |x| == 16 && n <= 64
  {
    if n == 0 then start
    else
      var r, i := Operations(n - 1, start, x), n - 1;
      Regs(r.d, Written(i, r, x[WordIndex(i)]), r.b, r.c)
  }

  function AddRegs(r: Regs, s: Regs): Regs {
    Regs(Plus(r.a, s.a), Plus(r.b, s.b), Plus(r.c, s.c), Plus(r.d, s.d))
  }

  // Four bytes make a word, low-order byte first.
  function DecodeWord(b: seq<Octet>): Word
    requires |b| == 4
  {
    Word((b[0] as bv32) | ((b[1] as bv32) << 8) | ((b[2] as bv32) << 16) | ((b[3] as bv32) << 24))
  }

  function EncodeWord(w: Word): (b: seq<Octet>)
    ensures |b| == 4
  {
    [(w.bits & 0xff) as Octet, ((w.bits >> 8) & 0xff) as Octet,
     ((w.bits >> 16) & 0xff) as Octet, ((w.bits >> 24) & 0xff) as Octet]
  }

  function DecodeWords(b: seq<Octet>): (w: seq<Word>)
    requires |b| % 4 == 0
    ensures |w| == |b| / 4
  {
    if b == [] then [] else [DecodeWord(b[..4])] + DecodeWords(b[4..])
  }

  function EncodeWords(w: seq<Word>): (b: seq<Octet>)
    ensures |b| == 4 * |w|
  {
    if w == [] then [] else EncodeWord(w[0]) + EncodeWords(w[1..])
  }

  function Compress(r: Regs, block: seq<Octet>): Regs
    requires |block| == 64
  {
    AddRegs(r, Operations(64, r, DecodeWords(block)))
  }

  lemma DecodeEncodeWord(w: Word)
    ensures DecodeWord(EncodeWord(w)) == w
  {
  }

  /** TinyMD5_Encode and TinyMD5_Decode undo each other. */
  lemma {:induction false} DecodeEncode(w: seq<Word>)
    ensures DecodeWords(EncodeWords(w)) == w
  {
    hide EncodeWord, DecodeWord;
    if w != [] {
      var b := EncodeWord(w[0]) + EncodeWords(w[1..]);
      assert b[..4] == EncodeWord(w[0]) && b[4..] == EncodeWords(w[1..]);
      DecodeEncodeWord(w[0]);
      DecodeEncode(w[1..]);
    }
  }

  lemma {:induction false} EncodeDecode(b: seq<Octet>)
    requires |b| % 4 == 0
    ensures EncodeWords(DecodeWords(b)) == b
  {
    if b != [] {
      EncodeDecode(b[4..]);
      EncodeDecodeWord(b[..4]);
      assert DecodeWords(b)[1..] == DecodeWords(b[4..]);
      assert b == b[..4] + b[4..];
    }
  }

  lemma EncodeDecodeWord(b: seq<Octet>)
    requires |b| == 4
    ensures EncodeWord(DecodeWord(b)) == b
  {
  }

  lemma {:induction false} DecodeWordAt(b: seq<Octet>, i: nat)
    requires |b| % 4 == 0 && 4 * i + 4 <= |b|
    ensures DecodeWords(b)[i] == DecodeWord(b[4 * i..4 * i + 4])
    decreases i
  {
    if i > 0 {
      DecodeWordAt(b[4..], i - 1);
      assert b[4..][4 * (i - 1)..4 * (i - 1) + 4] == b[4 * i..4 * i + 4];
    }
  }

  lemma {:induction false} EncodeSnoc(w: seq<Word>, v: Word)
    ensures EncodeWords(w + [v]) == EncodeWords(w) + EncodeWord(v)
  {
    if w == [] {
      assert w + [v] == [v] && [v][1..] == [];
      assert EncodeWords([v]) == EncodeWord(v) + [];
    } else {
      assert (w + [v])[1..] == w[1..] + [v];
      EncodeSnoc(w[1..], v);
    }
  }

  // ----- the code

  // The expression in the loop of TinyMD5_Decode.
  method DecodeOne(block: seq<Octet>, j: nat) returns (w: Word)
    requires j + 4 <= |block|
    ensures w == DecodeWord(block[j..j + 4])
  {
    w := Word((block[j] as bv32) | ((block[j + 1] as bv32) << 8)
              | ((block[j + 2] as bv32) << 16) | ((block[j + 3] as bv32) << 24));
  }

  // TinyMD5_Decode of a whole block.
  method Decode(block: seq<Octet>) returns (x: array<Word>)
    requires |block| == 64
    ensures fresh(x) && x[..] == DecodeWords(block)
  {
    hide DecodeWord, DecodeWords;
    x := new Word[16];
    var i, j := 0, 0;
    while j < 64
      invariant 0 <= i <= 16 && j == 4 * i
      invariant forall k :: 0 <= k < i ==> x[k] == DecodeWords(block)[k]
    {
      var w := DecodeOne(block, j);
      x[i] := w;
      DecodeWordAt(block, i);
      i, j := i + 1, j + 4;
    }
  }

  // The four bytes that the loop of TinyMD5_Encode takes off a word.
  method EncodeOne(w: Word) returns (o0: Octet, o1: Octet, o2: Octet, o3: Octet)
    ensures EncodeWord(w) == [o0, o1, o2, o3]
  {
    o0 := (w.bits & 0xff) as Octet;
    o1 := ((w.bits >> 8) & 0xff) as Octet;
    o2 := ((w.bits >> 16) & 0xff) as Octet;
    o3 := ((w.bits >> 24) & 0xff) as Octet;
  }

  // TinyMD5_Encode: the first len bytes of output are the words, low-order byte first.
  method Encode(output: array<Octet>, input: seq<Word>, len: nat)
    requires len == 4 * |input| <= output.Length
    modifies output
    ensures output[..len] == EncodeWords(input)
    ensures output[len..] == old(output[len..])
  {
    hide EncodeWord;
    var i, j := 0, 0;
    while j < len
      invariant 0 <= i <= |input| && j == 4 * i
      invariant output[..j] == EncodeWords(input[..i])
      invariant output[len..] == old(output[len..])
    {
      ghost var before := output[..j];
      var o0, o1, o2, o3 := EncodeOne(input[i]);
      output[j], output[j + 1], output[j + 2], output[j + 3] := o0, o1, o2, o3;
      EncodeSnoc(input[..i], input[i]);
      assert input[..i + 1] == input[..i] + [input[i]];
      assert output[..j + 4] == before + EncodeWord(input[i]);
      i, j := i + 1, j + 4;
    }
    assert input[..i] == input;
  }

  // The macros FF, GG, HH and II: operation n + 1 of RFC 1321, whose word, shift and constant are x, s and ac.
  method FF(ghost n: nat, ghost start: Regs, ghost xs: seq<Word>, a: Word, b: Word, c: Word, d: Word, x: Word,
    s: bv32, ac: bv32)
    returns (r: Word)
    requires 0 <= n < 16 && |xs| == 16 && Operations(n, start, xs) == Regs(a, b, c, d)
    requires x == xs[n] && s == Shift(n) && ac == Sine1(n)
    ensures Operations(n + 1, start, xs) == Regs(d, r, b, c)
  {
    hide Sine1, Shift, F, Operation;
    r := Word(Operation(F(b.bits, c.bits, d.bits), a.bits, b.bits, x.bits, s, ac));
  }

  method GG(ghost n: nat, ghost start: Regs, ghost xs: seq<Word>, a: Word, b: Word, c: Word, d: Word, x: Word,
    s: bv32, ac: bv32)
    returns (r: Word)
    requires 16 <= n < 32 && |xs| == 16 && Operations(n, start, xs) == Regs(a, b, c, d)
    requires x == xs[(5 * n + 1) % 16] && s == Shift(n) && ac == Sine2(n - 16)
    ensures Operations(n + 1, start, xs) == Regs(d, r, b, c)
  {
    hide Sine2, Shift, G, Operation;
    r := Word(Operation(G(b.bits, c.bits, d.bits), a.bits, b.bits, x.bits, s, ac));
  }

  method HH(ghost n: nat, ghost start: Regs, ghost xs: seq<Word>, a: Word, b: Word, c: Word, d: Word, x: Word,
    s: bv32, ac: bv32)
    returns (r: Word)
    requires 32 <= n < 48 && |xs| == 16 && Operations(n, start, xs) == Regs(a, b, c, d)
    requires x == xs[(3 * n + 5) % 16] && s == Shift(n) && ac == Sine3(n - 32)
    ensures Operations(n + 1, start, xs) == Regs(d, r, b, c)
  {
    hide Sine3, Shift, H, Operation;
    r := Word(Operation(H(b.bits, c.bits, d.bits), a.bits, b.bits, x.bits, s, ac));
  }

  method II(ghost n: nat, ghost start: Regs, ghost xs: seq<Word>, a: Word, b: Word, c: Word, d: Word, x: Word,
    s: bv32, ac: bv32)
    returns (r: Word)
    requires 48 <= n < 64 && |xs| == 16 && Operations(n, start, xs) == Regs(a, b, c, d)
    requires x == xs[(7 * n) % 16] && s == Shift(n) && ac == Sine4(n - 48)
    ensures Operations(n + 1, start, xs) == Regs(d, r, b, c)
  {
    hide Sine4, Shift, I, Operation;
    r := Word(Operation(I(b.bits, c.bits, d.bits), a.bits, b.bits, x.bits, s, ac));
  }

  // Round 1, operations 1 to 8, in the order of the file.
  method Round1A(ghost start: Regs, x: array<Word>, a0: Word, b0: Word, c0: Word, d0: Word)
    returns (a: Word, b: Word, c: Word, d: Word)
    requires x.Length == 16
    requires Operations(0, start, x[..]) == Regs(a0, b0, c0, d0)
    ensures Operations(8, start, x[..]) == Regs(a, b, c, d)
  {
    hide Operations;
    a, b, c, d := a0, b0, c0, d0;
    a := FF(0, start, x[..], a, b, c, d, x[0], 7, 0xd76aa478);
    d := FF(1, start, x[..], d, a, b, c, x[1], 12, 0xe8c7b756);
    c := FF(2, start, x[..], c, d, a, b, x[2], 17, 0x242070db);
    b := FF(3, start, x[..], b, c, d, a, x[3], 22, 0xc1bdceee);
    a := FF(4, start, x[..], a, b, c, d, x[4], 7, 0xf57c0faf);
    d := FF(5, start, x[..], d, a, b, c, x[5], 12, 0x4787c62a);
    c := FF(6, start, x[..], c, d, a, b, x[6], 17, 0xa8304613);
    b := FF(7, start, x[..], b, c, d, a, x[7], 22, 0xfd469501);
  }

  // Round 1, operations 9 to 16, in the order of the file.
  method Round1B(ghost start: Regs, x: array<Word>, a0: Word, b0: Word, c0: Word, d0: Word)
    returns (a: Word, b: Word, c: Word, d: Word)
    requires x.Length == 16
    requires Operations(8, start, x[..]) == Regs(a0, b0, c0, d0)
    ensures Operations(16, start, x[..]) == Regs(a, b, c, d)
  {
    hide Operations;
    a, b, c, d := a0, b0, c0, d0;
    a := FF(8, start, x[..], a, b, c, d, x[8], 7, 0x698098d8);
    d := FF(9, start, x[..], d, a, b, c, x[9], 12, 0x8b44f7af);
    c := FF(10, start, x[..], c, d, a, b, x[10], 17, 0xffff5bb1);
    b := FF(11, start, x[..], b, c, d, a, x[11], 22, 0x895cd7be);
    a := FF(12, start, x[..], a, b, c, d, x[12], 7, 0x6b901122);
    d := FF(13, start, x[..], d, a, b, c, x[13], 12, 0xfd987193);
    c := FF(14, start, x[..], c, d, a, b, x[14], 17, 0xa679438e);
    b := FF(15, start, x[..], b, c, d, a, x[15], 22, 0x49b40821);
  }

  // Round 2, operations 17 to 24, in the order of the file.
  method Round2A(ghost start: Regs, x: array<Word>, a0: Word, b0: Word, c0: Word, d0: Word)
    returns (a: Word, b: Word, c: Word, d: Word)
    requires x.Length == 16
    requires Operations(16, start, x[..]) == Regs(a0, b0, c0, d0)
    ensures Operations(24, start, x[..]) == Regs(a, b, c, d)
  {
    hide Operations;
    a, b, c, d := a0, b0, c0, d0;
    a := GG(16, start, x[..], a, b, c, d, x[1], 5, 0xf61e2562);
    d := GG(17, start, x[..], d, a, b, c, x[6], 9, 0xc040b340);
    c := GG(18, start, x[..], c, d, a, b, x[11], 14, 0x265e5a51);
    b := GG(19, start, x[..], b, c, d, a, x[0], 20, 0xe9b6c7aa);
    a := GG(20, start, x[..], a, b, c, d, x[5], 5, 0xd62f105d);
    d := GG(21, start, x[..], d, a, b, c, x[10], 9, 0x2441453);
    c := GG(22, start, x[..], c, d, a, b, x[15], 14, 0xd8a1e681);
    b := GG(23, start, x[..], b, c, d, a, x[4], 20, 0xe7d3fbc8);
  }

  // Round 2, operations 25 to 32, in the order of the file.
  method Round2B(ghost start: Regs, x: array<Word>, a0: Word, b0: Word, c0: Word, d0: Word)
    returns (a: Word, b: Word, c: Word, d: Word)
    requires x.Length == 16
    requires Operations(24, start, x[..]) == Regs(a0, b0, c0, d0)
    ensures Operations(32, start, x[..]) == Regs(a, b, c, d)
  {
    hide Operations;
    a, b, c, d := a0, b0, c0, d0;
    a := GG(24, start, x[..], a, b, c, d, x[9], 5, 0x21e1cde6);
    d := GG(25, start, x[..], d, a, b, c, x[14], 9, 0xc33707d6);
    c := GG(26, start, x[..], c, d, a, b, x[3], 14, 0xf4d50d87);
    b := GG(27, start, x[..], b, c, d, a, x[8], 20, 0x455a14ed);
    a := GG(28, start, x[..], a, b, c, d, x[13], 5, 0xa9e3e905);
    d := GG(29, start, x[..], d, a, b, c, x[2], 9, 0xfcefa3f8);
    c := GG(30, start, x[..], c, d, a, b, x[7], 14, 0x676f02d9);
    b := GG(31, start, x[..], b, c, d, a, x[12], 20, 0x8d2a4c8a);
  }

  // Round 3, operations 33 to 40, in the order of the file.
  method Round3A(ghost start: Regs, x: array<Word>, a0: Word, b0: Word, c0: Word, d0: Word)
    returns (a: Word, b: Word, c: Word, d: Word)
    requires x.Length == 16
    requires Operations(32, start, x[..]) == Regs(a0, b0, c0, d0)
    ensures Operations(40, start, x[..]) == Regs(a, b, c, d)
  {
    hide Operations;
    a, b, c, d := a0, b0, c0, d0;
    a := HH(32, start, x[..], a, b, c, d, x[5], 4, 0xfffa3942);
    d := HH(33, start, x[..], d, a, b, c, x[8], 11, 0x8771f681);
    c := HH(34, start, x[..], c, d, a, b, x[11], 16, 0x6d9d6122);
    b := HH(35, start, x[..], b, c, d, a, x[14], 23, 0xfde5380c);
    a := HH(36, start, x[..], a, b, c, d, x[1], 4, 0xa4beea44);
    d := HH(37, start, x[..], d, a, b, c, x[4], 11, 0x4bdecfa9);
    c := HH(38, start, x[..], c, d, a, b, x[7], 16, 0xf6bb4b60);
    b := HH(39, start, x[..], b, c, d, a, x[10], 23, 0xbebfbc70);
  }

  // Round 3, operations 41 to 48, in the order of the file.
  method Round3B(ghost start: Regs, x: array<Word>, a0: Word, b0: Word, c0: Word, d0: Word)
    returns (a: Word, b: Word, c: Word, d: Word)
    requires x.Length == 16
    requires Operations(40, start, x[..]) == Regs(a0, b0, c0, d0)
    ensures Operations(48, start, x[..]) == Regs(a, b, c, d)
  {
    hide Operations;
    a, b, c, d := a0, b0, c0, d0;
    a := HH(40, start, x[..], a, b, c, d, x[13], 4, 0x289b7ec6);
    d := HH(41, start, x[..], d, a, b, c, x[0], 11, 0xeaa127fa);
    c := HH(42, start, x[..], c, d, a, b, x[3], 16, 0xd4ef3085);
    b := HH(43, start, x[..], b, c, d, a, x[6], 23, 0x4881d05);
    a := HH(44, start, x[..], a, b, c, d, x[9], 4, 0xd9d4d039);
    d := HH(45, start, x[..], d, a, b, c, x[12], 11, 0xe6db99e5);
    c := HH(46, start, x[..], c, d, a, b, x[15], 16, 0x1fa27cf8);
    b := HH(47, start, x[..], b, c, d, a, x[2], 23, 0xc4ac5665);
  }

  // Round 4, operations 49 to 56, in the order of the file.
  method Round4A(ghost start: Regs, x: array<Word>, a0: Word, b0: Word, c0: Word, d0: Word)
    returns (a: Word, b: Word, c: Word, d: Word)
    requires x.Length == 16
    requires Operations(48, start, x[..]) == Regs(a0, b0, c0, d0)
    ensures Operations(56, start, x[..]) == Regs(a, b, c, d)
  {
    hide Operations;
    a, b, c, d := a0, b0, c0, d0;
    a := II(48, start, x[..], a, b, c, d, x[0], 6, 0xf4292244);
    d := II(49, start, x[..], d, a, b, c, x[7], 10, 0x432aff97);
    c := II(50, start, x[..], c, d, a, b, x[14], 15, 0xab9423a7);
    b := II(51, start, x[..], b, c, d, a, x[5], 21, 0xfc93a039);
    a := II(52, start, x[..], a, b, c, d, x[12], 6, 0x655b59c3);
    d := II(53, start, x[..], d, a, b, c, x[3], 10, 0x8f0ccc92);
    c := II(54, start, x[..], c, d, a, b, x[10], 15, 0xffeff47d);
    b := II(55, start, x[..], b, c, d, a, x[1], 21, 0x85845dd1);
  }

  // Round 4, operations 57 to 64, in the order of the file.
  method Round4B(ghost start: Regs, x: array<Word>, a0: Word, b0: Word, c0: Word, d0: Word)
    returns (a: Word, b: Word, c: Word, d: Word)
    requires x.Length == 16
    requires Operations(56, start, x[..]) == Regs(a0, b0, c0, d0)
    ensures Operations(64, start, x[..]) == Regs(a, b, c, d)
  {
    hide Operations;
    a, b, c, d := a0, b0, c0, d0;
    a := II(56, start, x[..], a, b, c, d, x[8], 6, 0x6fa87e4f);
    d := II(57, start, x[..], d, a, b, c, x[15], 10, 0xfe2ce6e0);
    c := II(58, start, x[..], c, d, a, b, x[6], 15, 0xa3014314);
    b := II(59, start, x[..], b, c, d, a, x[13], 21, 0x4e0811a1);
    a := II(60, start, x[..], a, b, c, d, x[4], 6, 0xf7537e82);
    d := II(61, start, x[..], d, a, b, c, x[11], 10, 0xbd3af235);
    c := II(62, start, x[..], c, d, a, b, x[2], 15, 0x2ad7d2bb);
    b := II(63, start, x[..], b, c, d, a, x[9], 21, 0xeb86d391);
  }

  // The additions that end Transform.
  method AddTo(state: array<Word>, a: Word, b: Word, c: Word, d: Word)
    requires state.Length == 4
    modifies state
    ensures Regs(state[0], state[1], state[2], state[3])
         == AddRegs(old(Regs(state[0], state[1], state[2], state[3])), Regs(a, b, c, d))
  {
    state[0] := Plus(state[0], a);
    state[1] := Plus(state[1], b);
    state[2] := Plus(state[2], c);
    state[3] := Plus(state[3], d);
  }

  /** TinyMD5_Transform computes the compression function of RFC 1321. */
  method Transform(state: array<Word>, block: seq<Octet>)
    requires state.Length == 4 && |block| == 64
    modifies state
    ensures Regs(state[0], state[1], state[2], state[3])
         == Compress(old(Regs(state[0], state[1], state[2], state[3])), block)
  {
    var a, b, c, d := state[0], state[1], state[2], state[3];
    var x := Decode(block);
    ghost var start := Regs(a, b, c, d);
    assert Operations(0, start, x[..]) == start;
    hide Operations, AddRegs;
    a, b, c, d := Round1A(start, x, a, b, c, d);
    a, b, c, d := Round1B(start, x, a, b, c, d);
    a, b, c, d := Round2A(start, x, a, b, c, d);
    a, b, c, d := Round2B(start, x, a, b, c, d);
    a, b, c, d := Round3A(start, x, a, b, c, d);
    a, b, c, d := Round3B(start, x, a, b, c, d);
    a, b, c, d := Round4A(start, x, a, b, c, d);
    a, b, c, d := Round4B(start, x, a, b, c, d);
    AddTo(state, a, b, c, d);
  }
}
