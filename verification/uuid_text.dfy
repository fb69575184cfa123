/**
 The text and the bytes of a UUID (Tiny/Uuid/TinyUuid.c): packing of the time fields,
 the printed form of section 3 of RFC 4122 in either case, and its parser.

 A C string is a sequence of characters; reading past its end gives the terminator.
 */
module UuidText {
  import opened Words

  type Word16 = n: int | 0 <= n < 0x1_0000
  type Word32 = n: int | 0 <= n < 0x1_0000_0000

  datatype UuidTime = UuidTime(low: Word32, mid: Word16, hiVersion: Word16, clockSeq: Word16, node: seq<Byte>)

  // ---- bytes ----

  function ByteOf(n: nat, unit: nat): Byte
    requires unit > 0
  {
    n / unit % 0x100
  }

  // (high << 8) | low
  function Pair(high: nat, low: nat): (n: nat)
    ensures high < 0x100 && low < 0x100 ==> n < 0x1_0000
    ensures high < 0x1_0000 && low < 0x100 ==> n < 0x100_0000
    ensures high < 0x100_0000 && low < 0x100 ==> n < 0x1_0000_0000
  {
    high * 0x100 + low
  }

  function Packed(t: UuidTime): (b: seq<Byte>)
    requires |t.node| == 6
    ensures |b| == 16
  {
    [ByteOf(t.low, 0x100_0000), ByteOf(t.low, 0x1_0000), ByteOf(t.low, 0x100), ByteOf(t.low, 1),
     ByteOf(t.mid, 0x100), ByteOf(t.mid, 1), ByteOf(t.hiVersion, 0x100), ByteOf(t.hiVersion, 1),
     ByteOf(t.clockSeq, 0x100), ByteOf(t.clockSeq, 1)] + t.node
  }

  function Unpacked(b: seq<Byte>): (t: UuidTime)
    requires |b| == 16
    ensures |t.node| == 6
  {
    UuidTime(Pair(Pair(Pair(b[0], b[1]), b[2]), b[3]), Pair(b[4], b[5]), Pair(b[6], b[7]), Pair(b[8], b[9]), b[10..])
  }

  /** Packing and unpacking undo each other. */
  lemma PackingInverse(t: UuidTime, b: seq<Byte>)
    requires |t.node| == 6 && |b| == 16
    ensures Unpacked(Packed(t)) == t
    ensures Packed(Unpacked(b)) == b
  {
    PackedBack(t);
    UnpackedBack(b);
  }

  lemma PackedBack(t: UuidTime)
    requires |t.node| == 6
    ensures Unpacked(Packed(t)) == t
  {
    SixteenBits(t.mid);
    SixteenBits(t.hiVersion);
    SixteenBits(t.clockSeq);
    ThirtyTwoBits(t.low);
    hide ByteOf, Pair;
    assert Packed(t)[10..] == t.node;
  }

  lemma SixteenBits(n: Word16)
    ensures Pair(ByteOf(n, 0x100), ByteOf(n, 1)) == n
  {
  }

  lemma ThirtyTwoBits(n: Word32)
    ensures Pair(Pair(Pair(ByteOf(n, 0x100_0000), ByteOf(n, 0x1_0000)), ByteOf(n, 0x100)), ByteOf(n, 1)) == n
  {
    Quarters(n);
    TopByte(n);
    hide ByteOf, Pair;
    ParsePair(n / 0x1_0000);
    ParsePair(n / 0x100);
    ParsePair(n);
  }

  lemma Quarters(n: Word32)
    ensures ByteOf(n, 0x1_0000) == n / 0x1_0000 % 0x100 && ByteOf(n, 0x100) == n / 0x100 % 0x100 && ByteOf(n, 1) == n % 0x100
    ensures n / 0x1_0000 == n / 0x100 / 0x100
  {
  }

  lemma TopByte(n: Word32)
    ensures ByteOf(n, 0x100_0000) == n / 0x1_0000 / 0x100
  {
  }

  lemma ParsePair(n: Word32)
    ensures Pair(n / 0x100, n % 0x100) == n
  {
  }

  lemma UnpackedBack(b: seq<Byte>)
    requires |b| == 16
    ensures Packed(Unpacked(b)) == b
  {
    assert b == b[..10] + b[10..];
    var t := Unpacked(b);
    FourBytes(b[0], b[1], b[2], b[3]);
    TwoBytes(b[4], b[5]);
    TwoBytes(b[6], b[7]);
    TwoBytes(b[8], b[9]);
    hide ByteOf, Pair;
    assert Packed(t)[..10] == b[..10];
    assert Packed(t)[10..] == b[10..];
  }

  lemma TwoBytes(high: Byte, low: Byte)
    ensures ByteOf(Pair(high, low), 0x100) == high && ByteOf(Pair(high, low), 1) == low
  {
  }

  lemma FourBytes(a: Byte, b: Byte, c: Byte, d: Byte)
    ensures var n := Pair(Pair(Pair(a, b), c), d);
            ByteOf(n, 0x100_0000) == a && ByteOf(n, 0x1_0000) == b && ByteOf(n, 0x100) == c && ByteOf(n, 1) == d
  {
    var n := Pair(Pair(Pair(a, b), c), d);
    PairParts(Pair(Pair(a, b), c), d);
    PairParts(Pair(a, b), c);
    PairParts(a, b);
    Shifts(n);
    hide Pair;
  }

  lemma PairParts(high: nat, low: Byte)
    ensures Pair(high, low) / 0x100 == high && Pair(high, low) % 0x100 == low
  {
  }

  // Shifting by 8 bits, one after the other.
  lemma Shifts(n: nat)
    ensures n / 0x1_0000 == n / 0x100 / 0x100 && n / 0x100_0000 == n / 0x100 / 0x100 / 0x100
  {
  }

  // ---- hexadecimal text ----

  predicate IsXDigit(c: char) {
    '0' <= c <= '9' || 'a' <= c <= 'f' || 'A' <= c <= 'F'
  }

  function DigitValue(c: char): (d: nat)
    requires IsXDigit(c)
    ensures d < 16
  {
    if c <= '9' then (c - '0') as nat else if c <= 'F' then (c - 'A') as nat + 10 else (c - 'a') as nat + 10
  }

  function Digit(d: nat, upper: bool): (c: char)
    requires d < 16
    ensures IsXDigit(c) && DigitValue(c) == d
  {
    if d < 10 then '0' + d as char else if upper then 'A' + (d - 10) as char else 'a' + (d - 10) as char
  }

  /** The digits by the codes of their characters. */
  lemma DigitCodes(c: char)
    requires IsXDigit(c)
    ensures DigitValue(c) == if 48 <= c as int <= 57 then c as int - 48
                             else if 65 <= c as int <= 70 then c as int - 55
                             else c as int - 87
  {
  }

  // toupper and tolower on hexadecimal text.
  function Cased(c: char, upper: bool): char {
    if IsXDigit(c) then Digit(DigitValue(c), upper) else c
  }

  function AllCased(s: string, upper: bool): (r: string)
    ensures |r| == |s| && forall i :: 0 <= i < |s| ==> r[i] == Cased(s[i], upper)
  {
    seq(|s|, i requires 0 <= i < |s| => Cased(s[i], upper))
  }

  predicate AllXDigits(s: string) {
    forall i :: 0 <= i < |s| ==> IsXDigit(s[i])
  }

  function Pow16(k: nat): nat {
    if k == 0 then 1 else 16 * Pow16(k - 1)
  }

  // %0kx of a number that fits.
  function Hex(n: nat, k: nat, upper: bool): (s: string)
    ensures |s| == k && AllXDigits(s)
  {
    if k == 0 then "" else Hex(n / 16, k - 1, upper) + [Digit(n % 16, upper)]
  }

  function HexValue(s: string): (n: nat)
    requires AllXDigits(s)
    ensures n < Pow16(|s|)
  {
    if s == "" then 0 else HexValue(s[..|s| - 1]) * 16 + DigitValue(s[|s| - 1])
  }

  // strtoul(s, NULL, 16): the digits that s begins with.
  function Digits(s: string): (k: nat)
    ensures k <= |s| && AllXDigits(s[..k])
  {
    if s == "" || !IsXDigit(s[0]) then 0
    else
      var k := Digits(s[1..]);
      assert s[..k + 1] == [s[0]] + s[1..][..k];
      k + 1
  }

  function StrToUl(s: string): nat {
    HexValue(s[..Digits(s)])
  }

  lemma {:induction false} DigitsIs(s: string, k: nat)
    requires k < |s| && AllXDigits(s[..k]) && !IsXDigit(s[k])
    ensures Digits(s) == k
  {
    if k > 0 {
      assert s[0] == s[..k][0];
      assert s[1..][..k - 1] == s[..k][1..];
      DigitsIs(s[1..], k - 1);
    }
  }

  lemma {:induction false} ValueOfHex(n: nat, k: nat, upper: bool)
    requires n < Pow16(k)
    ensures HexValue(Hex(n, k, upper)) == n
  {
    if k > 0 {
      ValueOfHex(n / 16, k - 1, upper);
      assert Hex(n, k, upper)[..k - 1] == Hex(n / 16, k - 1, upper);
    }
  }

  lemma {:induction false} HexOfValue(s: string, upper: bool)
    requires AllXDigits(s)
    ensures Hex(HexValue(s), |s|, upper) == AllCased(s, upper)
  {
    hide Digit, DigitValue, Pow16;
    if s != "" {
      HexOfValue(s[..|s| - 1], upper);
      ValueParts(HexValue(s[..|s| - 1]), DigitValue(s[|s| - 1]));
    }
  }

  lemma ValueParts(high: nat, d: nat)
    requires d < 16
    ensures (high * 16 + d) / 16 == high && (high * 16 + d) % 16 == d
  {
  }

  lemma HexJoin(n: nat, upper: bool)
    ensures Hex(n / 0x100, 2, upper) + Hex(n % 0x100, 2, upper) == Hex(n, 4, upper)
  {
    HexTwo(n / 0x100, upper);
    HexTwo(n % 0x100, upper);
    HexFour(n, upper);
    Nibbles(n);
    hide Hex, Digit;
  }

  lemma Nibbles(n: nat)
    ensures n / 0x100 / 16 % 16 == n / 0x1000 % 16 && n % 0x100 / 16 % 16 == n / 16 % 16 && n % 0x100 % 16 == n % 16
  {
  }

  lemma HexFour(n: nat, upper: bool)
    ensures Hex(n, 4, upper) == [Digit(n / 0x1000 % 16, upper), Digit(n / 0x100 % 16, upper),
                                 Digit(n / 16 % 16, upper), Digit(n % 16, upper)]
  {
    hide Digit;
    HexTwo(n / 0x100, upper);
    assert Hex(n, 4, upper) == Hex(n / 16, 3, upper) + [Digit(n % 16, upper)];
    assert Hex(n / 16, 3, upper) == Hex(n / 16 / 16, 2, upper) + [Digit(n / 16 % 16, upper)];
    hide Hex;
    Quotients(n);
  }

  lemma Quotients(n: nat)
    ensures n / 16 / 16 == n / 0x100 && n / 0x100 / 16 == n / 0x1000
  {
  }

  lemma HexTwo(n: nat, upper: bool)
    ensures Hex(n, 2, upper) == [Digit(n / 16 % 16, upper), Digit(n % 16, upper)]
  {
    hide Digit;
    assert Hex(n / 16, 1, upper) == Hex(n / 16 / 16, 0, upper) + [Digit(n / 16 % 16, upper)];
  }

  // ---- the printed form ----

  function NodeText(node: seq<Byte>, upper: bool): (s: string)
    ensures |s| == 2 * |node|
  {
    if node == [] then "" else NodeText(node[..|node| - 1], upper) + Hex(node[|node| - 1], 2, upper)
  }

  function Print(b: seq<Byte>, upper: bool): (s: string)
    requires |b| == 16
    ensures |s| == 36
  {
    var t := Unpacked(b);
    Hex(t.low, 8, upper) + "-" + Hex(t.mid, 4, upper) + "-" + Hex(t.hiVersion, 4, upper) + "-"
    + Hex(t.clockSeq / 0x100, 2, upper) + Hex(t.clockSeq % 0x100, 2, upper) + "-" + NodeText(t.node, upper)
  }

  function CharAt(s: string, i: nat): char {
    if i < |s| then s[i] else '\0'
  }

  predicate IsHyphen(i: nat) {
    i == 8 || i == 13 || i == 18 || i == 23
  }

  // 8-4-4-4-12 hexadecimal digits.
  predicate WellFormed(s: string) {
    |s| == 36 && forall i :: 0 <= i < 36 ==> if IsHyphen(i) then s[i] == '-' else IsXDigit(s[i])
  }

  // The two digits of byte i of the node.
  function NodePart(s: string, i: nat): string
    requires |s| == 36 && i < 6
  {
    s[24 + 2 * i..26 + 2 * i]
  }

  lemma NodePartDigits(s: string, i: nat)
    requires WellFormed(s) && i < 6
    ensures NodePart(s, i) == [s[24 + 2 * i], s[24 + 2 * i + 1]] && AllXDigits(NodePart(s, i))
  {
    assert IsXDigit(s[24 + 2 * i]) && IsXDigit(s[24 + 2 * i + 1]);
    assert NodePart(s, i) == [s[24 + 2 * i], s[24 + 2 * i + 1]];
  }

  function NodeByte(s: string, i: nat): Byte
    requires WellFormed(s) && i < 6
  {
    NodePartDigits(s, i);
    Pow16Values();
    HexValue(NodePart(s, i))
  }

  // The fields of a well-formed text.
  function FieldsOf(s: string): (t: UuidTime)
    requires WellFormed(s)
    ensures |t.node| == 6
  {
    Pow16Values();
    UuidTime(HexValue(s[0..8]), HexValue(s[9..13]), HexValue(s[14..18]), HexValue(s[19..23]),
             seq(6, i requires 0 <= i < 6 => NodeByte(s, i)))
  }

  lemma Pow16Values()
    ensures Pow16(2) == 0x100 && Pow16(4) == 0x1_0000 && Pow16(8) == 0x1_0000_0000
  {
    assert Pow16(1) == 16 && Pow16(2) == 16 * Pow16(1) && Pow16(3) == 16 * Pow16(2) && Pow16(4) == 16 * Pow16(3);
    assert Pow16(5) == 16 * Pow16(4) && Pow16(6) == 16 * Pow16(5) && Pow16(7) == 16 * Pow16(6);
  }

  // TinyUuid_ParseFromBuffer: character 36 may be the terminator or one more digit.
  predicate Accepts(s: string, len: nat) {
    && len == 36 && |s| >= 36 && WellFormed(s[..36])
    && (CharAt(s, 36) == '\0' || IsXDigit(CharAt(s, 36)))
  }

  lemma Shifted(n: nat)
    ensures ByteOf(n / 0x100, 1) == ByteOf(n, 0x100)
    ensures ByteOf(n / 0x100, 0x100) == ByteOf(n, 0x1_0000)
    ensures ByteOf(n / 0x100, 0x1_0000) == ByteOf(n, 0x100_0000)
  {
    Shifts(n);
    Shifts(n / 0x100);
  }

  class TinyUuid {
    const bytes: array<Byte>

    constructor ()
      ensures bytes.Length == 16 && bytes[..] == seq(16, i => 0)
      ensures fresh(bytes)
    {
      bytes := new Byte[16](i => 0);
    }

    method Pack(t: UuidTime)
      requires bytes.Length == 16 && |t.node| == 6
      modifies bytes
      ensures bytes[..] == Packed(t)
    {
      hide ByteOf;
      var tmp: nat := t.low;
      Shifted(tmp);
      bytes[3] := ByteOf(tmp, 1);
      tmp := tmp / 0x100;
      Shifted(tmp);
      bytes[2] := ByteOf(tmp, 1);
      tmp := tmp / 0x100;
      Shifted(tmp);
      bytes[1] := ByteOf(tmp, 1);
      tmp := tmp / 0x100;
      bytes[0] := ByteOf(tmp, 1);

      tmp := t.mid;
      Shifted(tmp);
      bytes[5] := ByteOf(tmp, 1);
      tmp := tmp / 0x100;
      bytes[4] := ByteOf(tmp, 1);

      tmp := t.hiVersion;
      Shifted(tmp);
      bytes[7] := ByteOf(tmp, 1);
      tmp := tmp / 0x100;
      bytes[6] := ByteOf(tmp, 1);

      tmp := t.clockSeq;
      Shifted(tmp);
      bytes[9] := ByteOf(tmp, 1);
      tmp := tmp / 0x100;
      bytes[8] := ByteOf(tmp, 1);

      forall i | 0 <= i < 6 {
        bytes[10 + i] := t.node[i];
      }
    }

    method Unpack() returns (t: UuidTime)
      requires bytes.Length == 16
      ensures t == Unpacked(bytes[..])
    {
      var tmp: int := bytes[0];
      tmp := tmp * 0x100 + bytes[1];
      tmp := tmp * 0x100 + bytes[2];
      tmp := tmp * 0x100 + bytes[3];
      var low := tmp;
      tmp := bytes[4];
      tmp := tmp * 0x100 + bytes[5];
      var mid := tmp;
      tmp := bytes[6];
      tmp := tmp * 0x100 + bytes[7];
      var hiVersion := tmp;
      tmp := bytes[8];
      tmp := tmp * 0x100 + bytes[9];
      var clockSeq := tmp;
      t := UuidTime(low, mid, hiVersion, clockSeq, bytes[10..]);
    }

    method ToString(upper: bool) returns (s: string)
      requires bytes.Length == 16
      ensures s == Print(bytes[..], upper)
    {
      var t := Unpack();
      s := Hex(t.low, 8, upper) + "-" + Hex(t.mid, 4, upper) + "-" + Hex(t.hiVersion, 4, upper) + "-";
      s := s + Hex(t.clockSeq / 0x100, 2, upper) + Hex(t.clockSeq % 0x100, 2, upper) + "-" + NodeText(t.node, upper);
    }

    // The check of the characters.
    static method CheckText(s: string, len: nat) returns (ok: bool)
      ensures ok <==> Accepts(s, len)
    {
      if len != 36 {
        return false;
      }
      var i := 0;
      while i <= 36
        invariant i <= 37
        invariant forall j :: 0 <= j < i && j < 36 ==>
                    if IsHyphen(j) then CharAt(s, j) == '-' else IsXDigit(CharAt(s, j))
        invariant i == 37 ==> CharAt(s, 36) == '\0' || IsXDigit(CharAt(s, 36))
      {
        var c := CharAt(s, i);
        if i == 8 || i == 13 || i == 18 || i == 23 {
          if c == '-' {
            i := i + 1;
            continue;
          } else {
            return false;
          }
        }
        if i == 36 && c == '\0' {
          i := i + 1;
          continue;
        }
        if !IsXDigit(c) {
          return false;
        }
        i := i + 1;
      }
      assert |s| >= 36 by {
        assert IsXDigit(CharAt(s, 35));
      }
      assert forall j :: 0 <= j < 36 ==> s[..36][j] == CharAt(s, j);
      ok := true;
    }

    // The last six bytes, two digits each.
    method ReadNode(s: string) returns (node: seq<Byte>)
      requires |s| >= 36 && WellFormed(s[..36])
      ensures node == FieldsOf(s[..36]).node
    {
      hide StrToUl, FieldsOf, WellFormed;
      node := [];
      var i := 0;
      while i < 6
        invariant 0 <= i <= 6 && node == FieldsOf(s[..36]).node[..i]
      {
        NodeRead(s, i);
        var buf := [s[24 + 2 * i], s[24 + 2 * i + 1]];
        node := node + [StrToUl(buf)];
        i := i + 1;
      }
    }

    method ParseFromBuffer(s: string, len: nat) returns (ok: bool)
      requires bytes.Length == 16
      modifies bytes
      ensures ok <==> Accepts(s, len)
      ensures bytes[..] == if ok then Packed(FieldsOf(s[..36])) else old(bytes[..])
    {
      ok := CheckText(s, len);
      if !ok {
        return;
      }
      FieldsRead(s);
      hide Accepts, Packed, StrToUl, FieldsOf;
      var low, mid, hiVersion, clockSeq := StrToUl(s), StrToUl(s[9..]), StrToUl(s[14..]), StrToUl(s[19..]);
      var node := ReadNode(s);
      Pack(UuidTime(low, mid, hiVersion, clockSeq, node));
    }

    method ParseFromString(s: string) returns (ok: bool)
      requires bytes.Length == 16 && '\0' !in s
      modifies bytes
      ensures ok <==> WellFormed(s)
      ensures bytes[..] == if ok then Packed(FieldsOf(s)) else old(bytes[..])
    {
      ok := ParseFromBuffer(s, |s|);
      assert |s| == 36 ==> s[..36] == s;
    }
  }

  // Each strtoul stops at the hyphen after its field.
  lemma FieldsRead(s: string)
    requires |s| >= 36 && WellFormed(s[..36])
    ensures var t := FieldsOf(s[..36]);
            StrToUl(s) == t.low && StrToUl(s[9..]) == t.mid && StrToUl(s[14..]) == t.hiVersion && StrToUl(s[19..]) == t.clockSeq
  {
    assert s[0..] == s;
    FieldRead(s, 0, 8);
    FieldRead(s, 9, 13);
    FieldRead(s, 14, 18);
    FieldRead(s, 19, 23);
  }

  lemma FieldRead(s: string, i: nat, j: nat)
    requires |s| >= 36 && WellFormed(s[..36]) && i <= j < 24 && IsHyphen(j)
    requires forall k :: i <= k < j ==> !IsHyphen(k)
    ensures AllXDigits(s[..36][i..j]) && StrToUl(s[i..]) == HexValue(s[..36][i..j])
  {
    var w := s[..36];
    assert forall k :: i <= k <= j ==> s[k] == w[k];
    assert s[i..][..j - i] == w[i..j];
    assert s[i..][j - i] == w[j];
    DigitsIs(s[i..], j - i);
  }

  lemma NodeRead(s: string, i: nat)
    requires |s| >= 36 && WellFormed(s[..36]) && i < 6
    ensures var buf := [s[24 + 2 * i], s[24 + 2 * i + 1]];
            StrToUl(buf) == FieldsOf(s[..36]).node[i]
  {
    NodePartDigits(s[..36], i);
    var w, at := s[..36], 24 + 2 * i;
    assert w[at] == s[at] && w[at + 1] == s[at + 1];
    var buf := [s[at], s[at + 1]];
    assert buf == NodePart(w, i);
    assert Digits(buf[1..][1..]) == 0 && Digits(buf[1..]) == 1 && Digits(buf) == 2;
    assert buf[..2] == buf;
  }

  // ---- parser and printer ----

  /** The text printed in either case is well formed and parses to the bytes it was printed from. */
  lemma ParseOfPrint(b: seq<Byte>, upper: bool)
    requires |b| == 16
    ensures WellFormed(Print(b, upper)) && Packed(FieldsOf(Print(b, upper))) == b
  {
    hide Print, Hex, HexValue, Unpacked, Packed, WellFormed, Pow16;
    var t, s := Unpacked(b), Print(b, upper);
    PrintSlices(b, upper);
    HexJoin(t.clockSeq, upper);
    SlicesWellFormed(s);
    Pow16Values();
    ValueOfHex(t.low, 8, upper);
    ValueOfHex(t.mid, 4, upper);
    ValueOfHex(t.hiVersion, 4, upper);
    ValueOfHex(t.clockSeq, 4, upper);
    forall i | 0 <= i < 6
      ensures NodeByte(s, i) == t.node[i]
    {
      NodePartDigits(s, i);
      ValueOfHex(t.node[i], 2, upper);
    }
    assert FieldsOf(s) == t;
    PackingInverse(t, b);
  }

  lemma Slices(a: string, b: string, c: string, d: string, e: string, f: string)
    requires |a| == 8 && |b| == |c| == 4 && |d| == |e| == 2 && |f| == 12
    ensures var s := a + "-" + b + "-" + c + "-" + d + e + "-" + f;
            && |s| == 36 && s[0..8] == a && s[9..13] == b && s[14..18] == c && s[19..23] == d + e && s[24..] == f
            && s[8] == s[13] == s[18] == s[23] == '-'
  {
    var s := a + "-" + b + "-" + c + "-" + d + e + "-" + f;
    var t := "-" + b + "-" + c + "-" + d + e + "-" + f;
    assert s == a + t;
    assert s[19..21] == d && s[21..23] == e;
  }

  lemma PrintSlices(b: seq<Byte>, upper: bool)
    requires |b| == 16
    ensures var t, s := Unpacked(b), Print(b, upper);
            && s[0..8] == Hex(t.low, 8, upper) && s[9..13] == Hex(t.mid, 4, upper)
            && s[14..18] == Hex(t.hiVersion, 4, upper)
            && s[19..23] == Hex(t.clockSeq / 0x100, 2, upper) + Hex(t.clockSeq % 0x100, 2, upper)
            && s[8] == s[13] == s[18] == s[23] == '-'
            && (forall i :: 0 <= i < 6 ==> NodePart(s, i) == Hex(t.node[i], 2, upper))
  {
    var t, s := Unpacked(b), Print(b, upper);
    hide Hex, Unpacked, NodeText;
    Slices(Hex(t.low, 8, upper), Hex(t.mid, 4, upper), Hex(t.hiVersion, 4, upper),
           Hex(t.clockSeq / 0x100, 2, upper), Hex(t.clockSeq % 0x100, 2, upper), NodeText(t.node, upper));
    hide Print;
    forall i | 0 <= i < 6
      ensures NodePart(s, i) == Hex(t.node[i], 2, upper)
    {
      NodeSlice(t.node, i, upper);
      assert s[24..][2 * i..2 * i + 2] == NodePart(s, i);
    }
  }

  lemma {:induction false} NodeSlice(node: seq<Byte>, i: nat, upper: bool)
    requires i < |node|
    ensures NodeText(node, upper)[2 * i..2 * i + 2] == Hex(node[i], 2, upper)
  {
    var l := |node| - 1;
    if i < l {
      NodeSlice(node[..l], i, upper);
      assert NodeText(node, upper)[2 * i..2 * i + 2] == NodeText(node[..l], upper)[2 * i..2 * i + 2];
    }
  }

  lemma SlicesWellFormed(s: string)
    requires |s| == 36 && AllXDigits(s[0..8]) && AllXDigits(s[9..13]) && AllXDigits(s[14..18]) && AllXDigits(s[19..23])
    requires forall i :: 0 <= i < 6 ==> AllXDigits(NodePart(s, i))
    requires s[8] == s[13] == s[18] == s[23] == '-'
    ensures WellFormed(s)
  {
    forall i | 0 <= i < 36 && !IsHyphen(i)
      ensures IsXDigit(s[i])
    {
      if i < 8 {
        assert s[i] == s[0..8][i];
      } else if i < 13 {
        assert s[i] == s[9..13][i - 9];
      } else if i < 18 {
        assert s[i] == s[14..18][i - 14];
      } else if i < 23 {
        assert s[i] == s[19..23][i - 19];
      } else {
        var k := (i - 24) / 2;
        assert AllXDigits(NodePart(s, k));
        assert s[i] == NodePart(s, k)[i - 24 - 2 * k];
      }
    }
  }

  /** What is printed after parsing a valid text is that text in the case asked for. */
  lemma PrintOfParse(s: string, upper: bool)
    requires WellFormed(s)
    ensures Print(Packed(FieldsOf(s)), upper) == AllCased(s, upper)
  {
    hide Print, Hex, HexValue, Unpacked, Packed, AllCased;
    var t := FieldsOf(s);
    PackingInverse(t, Packed(t));
    PrintSlices(Packed(t), upper);
    HexJoin(t.clockSeq, upper);
    HexOfValue(s[0..8], upper);
    HexOfValue(s[9..13], upper);
    HexOfValue(s[14..18], upper);
    HexOfValue(s[19..23], upper);
    forall i | 0 <= i < 6
      ensures NodePart(Print(Packed(t), upper), i) == AllCased(NodePart(s, i), upper)
    {
      NodePartDigits(s, i);
      HexOfValue(NodePart(s, i), upper);
    }
    SameSlices(Print(Packed(t), upper), s, upper);
  }

  lemma SameSlices(p: string, s: string, upper: bool)
    requires |p| == 36 && WellFormed(s)
    requires p[0..8] == AllCased(s[0..8], upper) && p[9..13] == AllCased(s[9..13], upper)
    requires p[14..18] == AllCased(s[14..18], upper) && p[19..23] == AllCased(s[19..23], upper)
    requires p[8] == p[13] == p[18] == p[23] == '-'
    requires forall i :: 0 <= i < 6 ==> NodePart(p, i) == AllCased(NodePart(s, i), upper)
    ensures p == AllCased(s, upper)
  {
    forall i | 0 <= i < 36
      ensures p[i] == Cased(s[i], upper)
    {
      if i < 8 {
        assert p[i] == p[0..8][i];
      } else if 9 <= i < 13 {
        assert p[i] == p[9..13][i - 9];
      } else if 14 <= i < 18 {
        assert p[i] == p[14..18][i - 14];
      } else if 19 <= i < 23 {
        assert p[i] == p[19..23][i - 19];
      } else if i >= 24 {
        var k := (i - 24) / 2;
        assert NodePart(p, k) == AllCased(NodePart(s, k), upper);
        assert p[i] == NodePart(p, k)[i - 24 - 2 * k];
      }
    }
  }

  /** Two valid texts name one UUID exactly when they differ in case only. */
  lemma SameUuid(s: string, u: string)
    requires WellFormed(s) && WellFormed(u)
    ensures Packed(FieldsOf(s)) == Packed(FieldsOf(u)) <==> AllCased(s, false) == AllCased(u, false)
  {
    PrintOfParse(s, false);
    PrintOfParse(u, false);
    ParseOfPrint(Packed(FieldsOf(s)), false);
    ParseOfPrint(Packed(FieldsOf(u)), false);
  }

  /** A buffer of 37 digits is accepted, and its last one ignored. */
  lemma LastDigitIgnored(s: string, c: char)
    requires WellFormed(s)
    ensures Accepts(s + [c], 36) <==> c == '\0' || IsXDigit(c)
    ensures (s + [c])[..36] == s
  {
  }

  // ---- the bytes in the text ----

  lemma TwoDigits(s: string)
    requires AllXDigits(s) && |s| >= 2
    ensures AllXDigits(s[..|s| - 2]) && HexValue(s) / 0x100 == HexValue(s[..|s| - 2])
    ensures HexValue(s) % 0x100 == 16 * DigitValue(s[|s| - 2]) + DigitValue(s[|s| - 1])
  {
    var front, high, low := s[..|s| - 2], DigitValue(s[|s| - 2]), DigitValue(s[|s| - 1]);
    var t := s[..|s| - 1];
    assert t[..|t| - 1] == front && t[|t| - 1] == s[|s| - 2];
    assert HexValue(s) == HexValue(t) * 16 + low && HexValue(t) == HexValue(front) * 16 + high;
    hide HexValue, DigitValue;
    assert HexValue(s) == 0x100 * HexValue(front) + (16 * high + low);
  }

  function Unit(k: nat): nat
    requires k < 4
  {
    match k
    case 0 => 1
    case 1 => 0x100
    case 2 => 0x1_0000
    case _ => 0x100_0000
  }

  // Byte k from the end of a number in hexadecimal is its pair of digits there.
  lemma {:induction false} ByteOfHex(s: string, k: nat)
    requires AllXDigits(s) && k < 4 && |s| >= 2 * k + 2
    ensures ByteOf(HexValue(s), Unit(k)) == 16 * DigitValue(s[|s| - 2 * k - 2]) + DigitValue(s[|s| - 2 * k - 1])
    decreases k
  {
    TwoDigits(s);
    hide HexValue, DigitValue;
    if k > 0 {
      Shifted(HexValue(s));
      ByteOfHex(s[..|s| - 2], k - 1);
    }
  }

  // Where the two digits of byte i stand: after 4, 6, 8 and 10 bytes a hyphen has come.
  function Place(i: nat): nat {
    2 * i + if i < 4 then 0 else if i < 6 then 1 else if i < 8 then 2 else if i < 10 then 3 else 4
  }

  lemma FieldDigits(s: string, i: nat, j: nat)
    requires WellFormed(s) && i <= j <= 36 && forall k :: i <= k < j ==> !IsHyphen(k)
    ensures AllXDigits(s[i..j])
  {
  }

  lemma PackedBytes(s: string, i: nat)
    requires WellFormed(s) && i < 16
    ensures var b := Packed(FieldsOf(s))[i];
            if i < 4 then b == ByteOf(HexValue(s[0..8]), Unit(3 - i))
            else if i < 6 then b == ByteOf(HexValue(s[9..13]), Unit(5 - i))
            else if i < 8 then b == ByteOf(HexValue(s[14..18]), Unit(7 - i))
            else if i < 10 then b == ByteOf(HexValue(s[19..23]), Unit(9 - i))
            else AllXDigits(NodePart(s, i - 10)) && b == HexValue(NodePart(s, i - 10))
  {
    if i >= 10 {
      NodePartDigits(s, i - 10);
    }
    hide HexValue, ByteOf, WellFormed, AllXDigits, Pow16;
  }

  // A byte of the field from a to b.
  lemma FieldByte(s: string, a: nat, b: nat, k: nat)
    requires WellFormed(s) && a <= b <= 36 && (forall i :: a <= i < b ==> !IsHyphen(i)) && k < 4 && b - a >= 2 * k + 2
    ensures AllXDigits(s[a..b]) && IsXDigit(s[b - 2 * k - 2]) && IsXDigit(s[b - 2 * k - 1])
    ensures ByteOf(HexValue(s[a..b]), Unit(k)) == 16 * DigitValue(s[b - 2 * k - 2]) + DigitValue(s[b - 2 * k - 1])
  {
    FieldDigits(s, a, b);
    assert IsXDigit(s[b - 2 * k - 2]) && IsXDigit(s[b - 2 * k - 1]);
    hide HexValue, ByteOf, WellFormed, DigitValue, IsXDigit;
    ByteOfHex(s[a..b], k);
  }

  lemma NodeDigits(s: string, i: nat)
    requires WellFormed(s) && i < 6
    ensures AllXDigits(NodePart(s, i)) && IsXDigit(s[24 + 2 * i]) && IsXDigit(s[25 + 2 * i])
    ensures HexValue(NodePart(s, i)) == 16 * DigitValue(s[24 + 2 * i]) + DigitValue(s[25 + 2 * i])
  {
    NodePartDigits(s, i);
    NodeByteSmall(s, i);
    FieldByte(s, 24 + 2 * i, 26 + 2 * i, 0);
    hide HexValue, ByteOf, WellFormed, DigitValue, IsXDigit;
  }

  lemma NodeByteSmall(s: string, i: nat)
    requires WellFormed(s) && i < 6
    ensures AllXDigits(NodePart(s, i)) && ByteOf(HexValue(NodePart(s, i)), 1) == HexValue(NodePart(s, i))
  {
    NodePartDigits(s, i);
    SmallByte(NodeByte(s, i));
    hide HexValue, ByteOf, WellFormed, IsXDigit;
  }

  /** Byte i of a parsed text is its ith pair of digits, hyphens aside. */
  lemma ByteIsPair(s: string, i: nat)
    requires WellFormed(s) && i < 16
    ensures IsXDigit(s[Place(i)]) && IsXDigit(s[Place(i) + 1])
    ensures Packed(FieldsOf(s))[i] == 16 * DigitValue(s[Place(i)]) + DigitValue(s[Place(i) + 1])
  {
    hide HexValue, ByteOf, WellFormed, Packed, FieldsOf, DigitValue, AllXDigits, IsXDigit, NodePart;
    PackedBytes(s, i);
    if i < 4 {
      FieldByte(s, 0, 8, 3 - i);
    } else if i < 6 {
      FieldByte(s, 9, 13, 5 - i);
    } else if i < 8 {
      FieldByte(s, 14, 18, 7 - i);
    } else if i < 10 {
      FieldByte(s, 19, 23, 9 - i);
    } else {
      NodeDigits(s, i - 10);
    }
  }

  lemma SmallByte(n: Byte)
    ensures ByteOf(n, 1) == n
  {
  }
}
