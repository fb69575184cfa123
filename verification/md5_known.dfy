/**
 The digest of "abc" that appendix A.5 of RFC 1321 lists, as a lemma: the words
 below are written by the sixty-four operations with their constants, shifts,
 registers, padding and order of bytes, and by none that change one of them.
 */
module Md5Known {
  import opened Words
  import opened Md5Block
  import opened Md5

  // The padded message: its first word ends with the one bit, the last but one is its length in bits.
  function AbcBits(k: nat): bv32 {
    if k == 0 then 0x80636261 else if k == 14 then 24 else 0
  }

  function AbcBlock(): (x: seq<Word>)
    ensures |x| == 16
  {
    seq(16, k requires 0 <= k < 16 => Word(AbcBits(k)))
  }

  // The registers after n operations.
  predicate Holds(n: nat, a: bv32, b: bv32, c: bv32, d: bv32) {
    n <= 64 && Operations(n, INITIAL, AbcBlock()) == Regs(Word(a), Word(b), Word(c), Word(d))
  }

  // Operation n + 1 adds word k and ac, and rotates by s.
  predicate Row(n: nat, k: nat, s: bv32, ac: bv32) {
    WordIndex(n) == k && Shift(n) == s && Sine(n) == ac
  }

  // It writes w.
  lemma Next(n: nat, k: nat, x: bv32, s: bv32, ac: bv32, a: bv32, b: bv32, c: bv32, d: bv32, w: bv32)
    requires n < 64 && k < 16 && Holds(n, a, b, c, d) && 0 < s < 32 && Row(n, k, s, ac)
    requires AbcBits(k) == x && Operation(Auxiliary(n / 16, b, c, d), a, b, x, s, ac) == w
    ensures Holds(n + 1, d, w, b, c)
  {
    hide Operation, Auxiliary, WordIndex, Shift, Sine, AbcBits;
  }

  lemma Abc1()
    requires Holds(0, 0x67452301, 0xefcdab89, 0x98badcfe, 0x10325476)
    ensures Holds(4, 0xd6d117b4, 0x7ad956f2, 0x2f6fbd72, 0x344a8432)
  {
    hide Holds;
    Next(0, 0, 0x80636261, 7, 0xd76aa478, 0x67452301, 0xefcdab89, 0x98badcfe, 0x10325476, 0xd6d117b4);
    Next(1, 1, 0x00000000, 12, 0xe8c7b756, 0x10325476, 0xd6d117b4, 0xefcdab89, 0x98badcfe, 0x344a8432);
    Next(2, 2, 0x00000000, 17, 0x242070db, 0x98badcfe, 0x344a8432, 0xd6d117b4, 0xefcdab89, 0x2f6fbd72);
    Next(3, 3, 0x00000000, 22, 0xc1bdceee, 0xefcdab89, 0x2f6fbd72, 0x344a8432, 0xd6d117b4, 0x7ad956f2);
  }

  lemma Abc5()
    requires Holds(4, 0xd6d117b4, 0x7ad956f2, 0x2f6fbd72, 0x344a8432)
    ensures Holds(8, 0xc73741ef, 0x928d99f6, 0x207dc67b, 0x8bac3051)
  {
    hide Holds;
    Next(4, 4, 0x00000000, 7, 0xf57c0faf, 0xd6d117b4, 0x7ad956f2, 0x2f6fbd72, 0x344a8432, 0xc73741ef);
    Next(5, 5, 0x00000000, 12, 0x4787c62a, 0x344a8432, 0xc73741ef, 0x7ad956f2, 0x2f6fbd72, 0x8bac3051);
    Next(6, 6, 0x00000000, 17, 0xa8304613, 0x2f6fbd72, 0x8bac3051, 0xc73741ef, 0x7ad956f2, 0x207dc67b);
    Next(7, 7, 0x00000000, 22, 0xfd469501, 0x7ad956f2, 0x207dc67b, 0x8bac3051, 0xc73741ef, 0x928d99f6);
  }

  lemma Abc9()
    requires Holds(8, 0xc73741ef, 0x928d99f6, 0x207dc67b, 0x8bac3051)
    ensures Holds(12, 0x854b3712, 0x5ed49596, 0x3020401c, 0x74e2f284)
  {
    hide Holds;
    Next(8, 8, 0x00000000, 7, 0x698098d8, 0xc73741ef, 0x928d99f6, 0x207dc67b, 0x8bac3051, 0x854b3712);
    Next(9, 9, 0x00000000, 12, 0x8b44f7af, 0x8bac3051, 0x854b3712, 0x928d99f6, 0x207dc67b, 0x74e2f284);
    Next(10, 10, 0x00000000, 17, 0xffff5bb1, 0x207dc67b, 0x74e2f284, 0x854b3712, 0x928d99f6, 0x3020401c);
    Next(11, 11, 0x00000000, 22, 0x895cd7be, 0x928d99f6, 0x3020401c, 0x74e2f284, 0x854b3712, 0x5ed49596);
  }

  lemma Abc13()
    requires Holds(12, 0x854b3712, 0x5ed49596, 0x3020401c, 0x74e2f284)
    ensures Holds(16, 0xdda9b9a6, 0x72aff2e0, 0xe396856b, 0xa1051895)
  {
    hide Holds;
    Next(12, 12, 0x00000000, 7, 0x6b901122, 0x854b3712, 0x5ed49596, 0x3020401c, 0x74e2f284, 0xdda9b9a6);
    Next(13, 13, 0x00000000, 12, 0xfd987193, 0x74e2f284, 0xdda9b9a6, 0x5ed49596, 0x3020401c, 0xa1051895);
    Next(14, 14, 0x00000018, 17, 0xa679438e, 0x3020401c, 0xa1051895, 0xdda9b9a6, 0x5ed49596, 0xe396856b);
    Next(15, 15, 0x00000000, 22, 0x49b40821, 0x5ed49596, 0xe396856b, 0xa1051895, 0xdda9b9a6, 0x72aff2e0);
  }

  lemma Abc17()
    requires Holds(16, 0xdda9b9a6, 0x72aff2e0, 0xe396856b, 0xa1051895)
    ensures Holds(20, 0x3e9e9126, 0xb5b204e4, 0xe25e1652, 0x4a1d804e)
  {
    hide Holds;
    Next(16, 1, 0x00000000, 5, 0xf61e2562, 0xdda9b9a6, 0x72aff2e0, 0xe396856b, 0xa1051895, 0x3e9e9126);
    Next(17, 6, 0x00000000, 9, 0xc040b340, 0xa1051895, 0x3e9e9126, 0x72aff2e0, 0xe396856b, 0x4a1d804e);
    Next(18, 11, 0x00000000, 14, 0x265e5a51, 0xe396856b, 0x4a1d804e, 0x3e9e9126, 0x72aff2e0, 0xe25e1652);
    Next(19, 0, 0x80636261, 20, 0xe9b6c7aa, 0x72aff2e0, 0xe25e1652, 0x4a1d804e, 0x3e9e9126, 0xb5b204e4);
  }

  lemma Abc21()
    requires Holds(20, 0x3e9e9126, 0xb5b204e4, 0xe25e1652, 0x4a1d804e)
    ensures Holds(24, 0x59a8ffda, 0x47092c07, 0xabfc7920, 0x6d002f1e)
  {
    hide Holds;
    Next(20, 5, 0x00000000, 5, 0xd62f105d, 0x3e9e9126, 0xb5b204e4, 0xe25e1652, 0x4a1d804e, 0x59a8ffda);
    Next(21, 10, 0x00000000, 9, 0x02441453, 0x4a1d804e, 0x59a8ffda, 0xb5b204e4, 0xe25e1652, 0x6d002f1e);
    Next(22, 15, 0x00000000, 14, 0xd8a1e681, 0xe25e1652, 0x6d002f1e, 0x59a8ffda, 0xb5b204e4, 0xabfc7920);
    Next(23, 4, 0x00000000, 20, 0xe7d3fbc8, 0xb5b204e4, 0xabfc7920, 0x6d002f1e, 0x59a8ffda, 0x47092c07);
  }

  lemma Abc25()
    requires Holds(24, 0x59a8ffda, 0x47092c07, 0xabfc7920, 0x6d002f1e)
    ensures Holds(28, 0xb7f268cf, 0x786acb8f, 0xfe1623b1, 0x09388eff)
  {
    hide Holds;
    Next(24, 9, 0x00000000, 5, 0x21e1cde6, 0x59a8ffda, 0x47092c07, 0xabfc7920, 0x6d002f1e, 0xb7f268cf);
    Next(25, 14, 0x00000018, 9, 0xc33707d6, 0x6d002f1e, 0xb7f268cf, 0x47092c07, 0xabfc7920, 0x09388eff);
    Next(26, 3, 0x00000000, 14, 0xf4d50d87, 0xabfc7920, 0x09388eff, 0xb7f268cf, 0x47092c07, 0xfe1623b1);
    Next(27, 8, 0x00000000, 20, 0x455a14ed, 0x47092c07, 0xfe1623b1, 0x09388eff, 0xb7f268cf, 0x786acb8f);
  }

  lemma Abc29()
    requires Holds(28, 0xb7f268cf, 0x786acb8f, 0xfe1623b1, 0x09388eff)
    ensures Holds(32, 0x790a77fb, 0x726342d3, 0xa62884aa, 0x9f47e4f8)
  {
    hide Holds;
    Next(28, 13, 0x00000000, 5, 0xa9e3e905, 0xb7f268cf, 0x786acb8f, 0xfe1623b1, 0x09388eff, 0x790a77fb);
    Next(29, 2, 0x00000000, 9, 0xfcefa3f8, 0x09388eff, 0x790a77fb, 0x786acb8f, 0xfe1623b1, 0x9f47e4f8);
    Next(30, 7, 0x00000000, 14, 0x676f02d9, 0xfe1623b1, 0x9f47e4f8, 0x790a77fb, 0x786acb8f, 0xa62884aa);
    Next(31, 12, 0x00000000, 20, 0x8d2a4c8a, 0x786acb8f, 0xa62884aa, 0x9f47e4f8, 0x790a77fb, 0x726342d3);
  }

  lemma Abc33()
    requires Holds(32, 0x790a77fb, 0x726342d3, 0xa62884aa, 0x9f47e4f8)
    ensures Holds(36, 0xb3707ebf, 0x3b0875c7, 0x8d212ff5, 0x60127b2e)
  {
    hide Holds;
    Next(32, 5, 0x00000000, 4, 0xfffa3942, 0x790a77fb, 0x726342d3, 0xa62884aa, 0x9f47e4f8, 0xb3707ebf);
    Next(33, 8, 0x00000000, 11, 0x8771f681, 0x9f47e4f8, 0xb3707ebf, 0x726342d3, 0xa62884aa, 0x60127b2e);
    Next(34, 11, 0x00000000, 16, 0x6d9d6122, 0xa62884aa, 0x60127b2e, 0xb3707ebf, 0x726342d3, 0x8d212ff5);
    Next(35, 14, 0x00000018, 23, 0xfde5380c, 0x726342d3, 0x8d212ff5, 0x60127b2e, 0xb3707ebf, 0x3b0875c7);
  }

  lemma Abc37()
    requires Holds(36, 0xb3707ebf, 0x3b0875c7, 0x8d212ff5, 0x60127b2e)
    ensures Holds(40, 0x21b117b9, 0x5a2f5ea5, 0x3575227e, 0x6e7429d5)
  {
    hide Holds;
    Next(36, 1, 0x00000000, 4, 0xa4beea44, 0xb3707ebf, 0x3b0875c7, 0x8d212ff5, 0x60127b2e, 0x21b117b9);
    Next(37, 4, 0x00000000, 11, 0x4bdecfa9, 0x60127b2e, 0x21b117b9, 0x3b0875c7, 0x8d212ff5, 0x6e7429d5);
    Next(38, 7, 0x00000000, 16, 0xf6bb4b60, 0x8d212ff5, 0x6e7429d5, 0x21b117b9, 0x3b0875c7, 0x3575227e);
    Next(39, 10, 0x00000000, 23, 0xbebfbc70, 0x3b0875c7, 0x3575227e, 0x6e7429d5, 0x21b117b9, 0x5a2f5ea5);
  }

  lemma Abc41()
    requires Holds(40, 0x21b117b9, 0x5a2f5ea5, 0x3575227e, 0x6e7429d5)
    ensures Holds(44, 0x11de1779, 0x4c6124f4, 0x31c465ca, 0xfadcaa38)
  {
    hide Holds;
    Next(40, 13, 0x00000000, 4, 0x289b7ec6, 0x21b117b9, 0x5a2f5ea5, 0x3575227e, 0x6e7429d5, 0x11de1779);
    Next(41, 0, 0x80636261, 11, 0xeaa127fa, 0x6e7429d5, 0x11de1779, 0x5a2f5ea5, 0x3575227e, 0xfadcaa38);
    Next(42, 3, 0x00000000, 16, 0xd4ef3085, 0x3575227e, 0xfadcaa38, 0x11de1779, 0x5a2f5ea5, 0x31c465ca);
    Next(43, 6, 0x00000000, 23, 0x04881d05, 0x5a2f5ea5, 0x31c465ca, 0xfadcaa38, 0x11de1779, 0x4c6124f4);
  }

  lemma Abc45()
    requires Holds(44, 0x11de1779, 0x4c6124f4, 0x31c465ca, 0xfadcaa38)
    ensures Holds(48, 0x7f2e507b, 0x7beb9700, 0x8fae6399, 0x99d9679d)
  {
    hide Holds;
    Next(44, 9, 0x00000000, 4, 0xd9d4d039, 0x11de1779, 0x4c6124f4, 0x31c465ca, 0xfadcaa38, 0x7f2e507b);
    Next(45, 12, 0x00000000, 11, 0xe6db99e5, 0xfadcaa38, 0x7f2e507b, 0x4c6124f4, 0x31c465ca, 0x99d9679d);
    Next(46, 15, 0x00000000, 16, 0x1fa27cf8, 0x31c465ca, 0x99d9679d, 0x7f2e507b, 0x4c6124f4, 0x8fae6399);
    Next(47, 2, 0x00000000, 23, 0xc4ac5665, 0x4c6124f4, 0x8fae6399, 0x99d9679d, 0x7f2e507b, 0x7beb9700);
  }

  lemma Abc49()
    requires Holds(48, 0x7f2e507b, 0x7beb9700, 0x8fae6399, 0x99d9679d)
    ensures Holds(52, 0x7b201df8, 0x8bf025c4, 0xb298cefd, 0xf4e8e96e)
  {
    hide Holds;
    Next(48, 0, 0x80636261, 6, 0xf4292244, 0x7f2e507b, 0x7beb9700, 0x8fae6399, 0x99d9679d, 0x7b201df8);
    Next(49, 7, 0x00000000, 10, 0x432aff97, 0x99d9679d, 0x7b201df8, 0x7beb9700, 0x8fae6399, 0xf4e8e96e);
    Next(50, 14, 0x00000018, 15, 0xab9423a7, 0x8fae6399, 0xf4e8e96e, 0x7b201df8, 0x7beb9700, 0xb298cefd);
    Next(51, 5, 0x00000000, 21, 0xfc93a039, 0x7beb9700, 0xb298cefd, 0xf4e8e96e, 0x7b201df8, 0x8bf025c4);
  }

  lemma Abc53()
    requires Holds(52, 0x7b201df8, 0x8bf025c4, 0xb298cefd, 0xf4e8e96e)
    ensures Holds(56, 0x06cc5e8a, 0x3bfa2c27, 0x7d632dd0, 0x5b0d97aa)
  {
    hide Holds;
    Next(52, 12, 0x00000000, 6, 0x655b59c3, 0x7b201df8, 0x8bf025c4, 0xb298cefd, 0xf4e8e96e, 0x06cc5e8a);
    Next(53, 3, 0x00000000, 10, 0x8f0ccc92, 0xf4e8e96e, 0x06cc5e8a, 0x8bf025c4, 0xb298cefd, 0x5b0d97aa);
    Next(54, 10, 0x00000000, 15, 0xffeff47d, 0xb298cefd, 0x5b0d97aa, 0x06cc5e8a, 0x8bf025c4, 0x7d632dd0);
    Next(55, 1, 0x00000000, 21, 0x85845dd1, 0x8bf025c4, 0x7d632dd0, 0x5b0d97aa, 0x06cc5e8a, 0x3bfa2c27);
  }

  lemma Abc57()
    requires Holds(56, 0x06cc5e8a, 0x3bfa2c27, 0x7d632dd0, 0x5b0d97aa)
    ensures Holds(60, 0x7f81cc35, 0x7327d604, 0x4f9dbe3f, 0x094454ab)
  {
    hide Holds;
    Next(56, 8, 0x00000000, 6, 0x6fa87e4f, 0x06cc5e8a, 0x3bfa2c27, 0x7d632dd0, 0x5b0d97aa, 0x7f81cc35);
    Next(57, 15, 0x00000000, 10, 0xfe2ce6e0, 0x5b0d97aa, 0x7f81cc35, 0x3bfa2c27, 0x7d632dd0, 0x094454ab);
    Next(58, 6, 0x00000000, 15, 0xa3014314, 0x7d632dd0, 0x094454ab, 0x7f81cc35, 0x3bfa2c27, 0x4f9dbe3f);
    Next(59, 13, 0x00000000, 21, 0x4e0811a1, 0x3bfa2c27, 0x4f9dbe3f, 0x094454ab, 0x7f81cc35, 0x7327d604);
  }

  lemma Abc61()
    requires Holds(60, 0x7f81cc35, 0x7327d604, 0x4f9dbe3f, 0x094454ab)
    ensures Holds(64, 0x310ade8f, 0xc08226b3, 0xe484b9d8, 0x624d8cb2)
  {
    hide Holds;
    Next(60, 4, 0x00000000, 6, 0xf7537e82, 0x7f81cc35, 0x7327d604, 0x4f9dbe3f, 0x094454ab, 0x310ade8f);
    Next(61, 11, 0x00000000, 10, 0xbd3af235, 0x094454ab, 0x310ade8f, 0x7327d604, 0x4f9dbe3f, 0x624d8cb2);
    Next(62, 2, 0x00000000, 15, 0x2ad7d2bb, 0x4f9dbe3f, 0x624d8cb2, 0x310ade8f, 0x7327d604, 0xe484b9d8);
    Next(63, 9, 0x00000000, 21, 0xeb86d391, 0x7327d604, 0xe484b9d8, 0x624d8cb2, 0x310ade8f, 0xc08226b3);
  }

  lemma AbcRegisters()
    ensures Holds(64, 0x310ade8f, 0xc08226b3, 0xe484b9d8, 0x624d8cb2)
  {
    assert Holds(0, 0x67452301, 0xefcdab89, 0x98badcfe, 0x10325476);
    hide Holds;
    Abc1();
    Abc5();
    Abc9();
    Abc13();
    Abc17();
    Abc21();
    Abc25();
    Abc29();
    Abc33();
    Abc37();
    Abc41();
    Abc45();
    Abc49();
    Abc53();
    Abc57();
    Abc61();
  }

  const ABC: seq<Octet> := [0x61, 0x62, 0x63]

  lemma TwoWords(v: Word, w: Word)
    ensures EncodeWords([v, w]) == EncodeWord(v) + EncodeWord(w)
  {
    hide EncodeWord;
    assert [v, w][1..] == [w] && [w][1..] == [];
    assert EncodeWords([w]) == EncodeWord(w) + [];
  }

  lemma SmallWord(n: int)
    requires n == 24 || n == 0
    ensures n as bv32 == if n == 24 then 24 else 0
  {
    assert 24 as bv32 == 24 && 0 as bv32 == 0;
  }

  lemma AbcLength()
    ensures LengthBytes(3) == [24, 0, 0, 0, 0, 0, 0, 0]
  {
    assert EncodeWord(Word(24)) == [24, 0, 0, 0] && EncodeWord(Word(0)) == [0, 0, 0, 0];
    var bits := (8 * 3) % U64;
    assert bits % U32 == 24 && bits / U32 == 0;
    SmallWord(bits % U32);
    SmallWord(bits / U32);
    TwoWords(Word((bits % U32) as bv32), Word((bits / U32) as bv32));
    hide EncodeWord, EncodeWords;
  }

  lemma AbcPadded()
    ensures Padded(ABC) == [0x61, 0x62, 0x63, 0x80] + Zeros(52) + [24, 0, 0, 0, 0, 0, 0, 0]
  {
    AbcLength();
    hide LengthBytes;
    assert Padding(3) == [0x80] + Zeros(52);
    assert Padded(ABC) == ABC + Padding(3) + LengthBytes(3);
    assert ABC + ([0x80] + Zeros(52)) == [0x61, 0x62, 0x63, 0x80] + Zeros(52);
  }

  lemma AbcWord(i: nat)
    requires i < 16
    ensures DecodeWords(Padded(ABC))[i] == Word(AbcBits(i))
  {
    AbcPadded();
    hide Padded, DecodeWords;
    var p := Padded(ABC);
    DecodeWordAt(p, i);
    var b := p[4 * i..4 * i + 4];
    if i == 0 {
      assert b == [0x61, 0x62, 0x63, 0x80];
    } else if i == 14 {
      assert b == [24, 0, 0, 0];
    } else {
      assert b == [0, 0, 0, 0];
    }
  }

  lemma AbcDecoded()
    ensures |Padded(ABC)| == 64 && DecodeWords(Padded(ABC)) == AbcBlock()
  {
    AbcPadded();
    hide Padded, DecodeWords, AbcBits;
    forall i | 0 <= i < 16 ensures DecodeWords(Padded(ABC))[i] == AbcBlock()[i] {
      AbcWord(i);
    }
  }

  lemma AbcSum()
    ensures AddRegs(INITIAL, Regs(Word(0x310ade8f), Word(0xc08226b3), Word(0xe484b9d8), Word(0x624d8cb2)))
            == Regs(Word(0x98500190), Word(0xb04fd23c), Word(0x7d3f96d6), Word(0x727fe128))
  {
  }

  lemma AbcCompressed(block: seq<Octet>)
    requires |block| == 64 && DecodeWords(block) == AbcBlock()
    ensures Compress(INITIAL, block) == Regs(Word(0x98500190), Word(0xb04fd23c), Word(0x7d3f96d6), Word(0x727fe128))
  {
    AbcRegisters();
    AbcSum();
    hide Operations, AddRegs, AbcBlock, DecodeWords;
  }

  lemma AbcBytes()
    ensures RegsBytes(Regs(Word(0x98500190), Word(0xb04fd23c), Word(0x7d3f96d6), Word(0x727fe128)))
            == [0x90, 0x01, 0x50, 0x98, 0x3c, 0xd2, 0x4f, 0xb0, 0xd6, 0x96, 0x3f, 0x7d, 0x28, 0xe1, 0x7f, 0x72]
  {
    var a, b, c, d := Word(0x98500190), Word(0xb04fd23c), Word(0x7d3f96d6), Word(0x727fe128);
    assert EncodeWord(a) == [0x90, 0x01, 0x50, 0x98] && EncodeWord(b) == [0x3c, 0xd2, 0x4f, 0xb0];
    assert EncodeWord(c) == [0xd6, 0x96, 0x3f, 0x7d] && EncodeWord(d) == [0x28, 0xe1, 0x7f, 0x72];
    hide EncodeWord;
    TwoWords(c, d);
    assert [a, b, c, d][1..] == [b, c, d] && [b, c, d][1..] == [c, d];
    assert EncodeWords([a, b, c, d]) == EncodeWord(a) + (EncodeWord(b) + EncodeWords([c, d]));
  }

  /** MD5 ("abc") = 900150983cd24fb0d6963f7d28e17f72 */
  lemma DigestOfAbc()
    ensures Digest(ABC) == [0x90, 0x01, 0x50, 0x98, 0x3c, 0xd2, 0x4f, 0xb0, 0xd6, 0x96, 0x3f, 0x7d, 0x28, 0xe1, 0x7f, 0x72]
  {
    AbcDecoded();
    AbcBytes();
    hide Operations, Compress, RegsBytes, AbcBlock, Padded, DecodeWords;
    var p := Padded(ABC);
    AbcCompressed(p);
    assert p[0..64] == p;
    assert Fold(INITIAL, p, 0) == INITIAL;
    assert Fold(INITIAL, p, 1) == Compress(INITIAL, p);
  }

  lemma TwoOctets(front: seq<Octet>, a: Octet, b: Octet)
    ensures Hex(front + [a, b]) == Hex(front) + (HexOctet(a) + HexOctet(b))
  {
    hide HexOctet;
    var s := front + [a, b];
    assert s[..|s| - 1] == front + [a] && (front + [a])[..|front|] == front;
    assert Hex(s) == Hex(front + [a]) + HexOctet(b) && Hex(front + [a]) == Hex(front) + HexOctet(a);
  }

  lemma AbcOctets()
    ensures HexOctet(0x90) + HexOctet(0x01) == "9001" && HexOctet(0x50) + HexOctet(0x98) == "5098"
    ensures HexOctet(0x3c) + HexOctet(0xd2) == "3cd2" && HexOctet(0x4f) + HexOctet(0xb0) == "4fb0"
    ensures HexOctet(0xd6) + HexOctet(0x96) == "d696" && HexOctet(0x3f) + HexOctet(0x7d) == "3f7d"
    ensures HexOctet(0x28) + HexOctet(0xe1) == "28e1" && HexOctet(0x7f) + HexOctet(0x72) == "7f72"
  {
  }

  /** ... as tiny_md5_encode prints it. */
  lemma PrintedAbc()
    ensures Hex(Digest(ABC)) == "9001" + "5098" + "3cd2" + "4fb0" + "d696" + "3f7d" + "28e1" + "7f72"
  {
    DigestOfAbc();
    AbcOctets();
    hide Digest, HexOctet, Hex;
    assert Digest(ABC) == [] + [0x90, 0x01] + [0x50, 0x98] + [0x3c, 0xd2] + [0x4f, 0xb0]
                          + [0xd6, 0x96] + [0x3f, 0x7d] + [0x28, 0xe1] + [0x7f, 0x72];
    HexAbc();
  }

  lemma HexAbc()
    ensures Hex([] + [0x90, 0x01] + [0x50, 0x98] + [0x3c, 0xd2] + [0x4f, 0xb0]
                + [0xd6, 0x96] + [0x3f, 0x7d] + [0x28, 0xe1] + [0x7f, 0x72])
            == "9001" + "5098" + "3cd2" + "4fb0" + "d696" + "3f7d" + "28e1" + "7f72"
  {
    AbcOctets();
    assert Hex([]) == "";
    hide HexOctet, Hex;
    var b1: seq<Octet> := [] + [0x90, 0x01];
    var b2 := b1 + [0x50, 0x98];
    var b3 := b2 + [0x3c, 0xd2];
    var b4 := b3 + [0x4f, 0xb0];
    var b5 := b4 + [0xd6, 0x96];
    var b6 := b5 + [0x3f, 0x7d];
    var b7 := b6 + [0x28, 0xe1];
    TwoOctets([], 0x90, 0x01);
    TwoOctets(b1, 0x50, 0x98);
    TwoOctets(b2, 0x3c, 0xd2);
    TwoOctets(b3, 0x4f, 0xb0);
    TwoOctets(b4, 0xd6, 0x96);
    TwoOctets(b5, 0x3f, 0x7d);
    TwoOctets(b6, 0x28, 0xe1);
    TwoOctets(b7, 0x7f, 0x72);
    assert "" + "9001" == "9001";
  }
}
