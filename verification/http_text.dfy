/**
 Characters, runs of characters and decimal numbers as the HTTP code reads and prints
 them (Tiny/String/tiny_char_util.c and the scanning loops of Tiny/Http).

 A text is what the cursor still has before it. Reading past its end gives the
 terminator.
 */
module HttpText {

  predicate IsChar(c: char) {
    c <= 127 as char
  }

  predicate IsCtl(c: char) {
    c <= 31 as char || c == 127 as char
  }

  predicate IsTSpecial(c: char) {
    c in "()<>@,;:\\\"/[]?={} \t"
  }

  predicate IsDigit(c: char) {
    '0' <= c <= '9'
  }

  // The characters of a method or a header name.
  predicate IsToken(c: char) {
    IsChar(c) && !IsCtl(c) && !IsTSpecial(c)
  }

  predicate IsUriChar(c: char) {
    !IsCtl(c) && c != ' '
  }

  predicate IsText(c: char) {
    !IsCtl(c)
  }

  predicate NotReturn(c: char) {
    c != '\r'
  }

  /** A token is made of letters, digits and these characters. */
  lemma TokenIs(c: char)
    ensures IsToken(c) <==> 'a' <= c <= 'z' || 'A' <= c <= 'Z' || IsDigit(c) || c in "!#$%&'*+-.^_`|~"
  {
    if ' ' < c < '\U{7F}' {
      assert c in "()<>@,;:\\\"/[]?={}" || 'a' <= c <= 'z' || 'A' <= c <= 'Z' || IsDigit(c) || c in "!#$%&'*+-.^_`|~";
    }
  }

  function Head(s: string): char {
    if s == "" then '\0' else s[0]
  }

  function Tail(s: string): (r: string)
    ensures |r| <= |s| && (s != "" ==> |r| == |s| - 1)
  {
    if s == "" then "" else s[1..]
  }

  // The text at place p.
  lemma Suffix(s: string, p: nat)
    requires p <= |s|
    ensures Head(s[p..]) == if p < |s| then s[p] else '\0'
    ensures Tail(s[p..]) == if p < |s| then s[p + 1..] else ""
    ensures |s[p..]| == |s| - p
  {
  }

  // A text at place p, cut at place q.
  lemma SuffixCut(s: string, p: nat, q: nat)
    requires p <= q <= |s|
    ensures s[p..][q - p..] == s[q..] && s[p..][..q - p] == s[p..q]
  {
  }

  lemma Separators()
    ensures !IsToken('\0') && !IsToken(' ') && !IsToken('\t') && !IsToken('\r') && !IsToken('\n')
    ensures !IsToken(':') && !IsToken('/')
    ensures !IsUriChar('\0') && !IsUriChar(' ') && !IsUriChar('\r') && !IsText('\0') && !IsText('\r')
    ensures !IsDigit('.') && !IsDigit(' ') && !IsDigit('\r') && !IsDigit('\0') && !NotReturn('\r')
  {
  }

  predicate All(s: string, f: char -> bool) {
    forall i :: 0 <= i < |s| ==> f(s[i])
  }

  // How many characters of the class f the text begins with.
  function Run(s: string, f: char -> bool): (n: nat)
    ensures n <= |s| && All(s[..n], f)
    ensures n < |s| ==> !f(s[n])
  {
    if s == "" || !f(s[0]) then 0
    else
      var n := Run(s[1..], f);
      assert s[..n + 1] == [s[0]] + s[1..][..n];
      n + 1
  }

  lemma {:induction false} RunIs(s: string, f: char -> bool, n: nat)
    requires n <= |s| && All(s[..n], f) && (n < |s| ==> !f(s[n]))
    ensures Run(s, f) == n
  {
    if n > 0 {
      assert s[0] == s[..n][0];
      assert s[1..][..n - 1] == s[..n][1..];
      RunIs(s[1..], f, n - 1);
    }
  }

  /** A run that is followed by something outside the class is read back. */
  lemma RunOf(run: string, rest: string, f: char -> bool)
    requires All(run, f) && (rest != "" ==> !f(rest[0]))
    ensures Run(run + rest, f) == |run| && (run + rest)[..|run|] == run && (run + rest)[|run|..] == rest
  {
    assert (run + rest)[..|run|] == run;
    RunIs(run + rest, f, |run|);
  }

  // while (class(*p)) p++;
  method Skip(s: string, p: nat, f: char -> bool) returns (q: nat)
    requires p <= |s|
    ensures q == p + Run(s[p..], f)
  {
    q := p;
    while q < |s| && f(s[q])
      invariant p <= q <= |s| && All(s[p..q], f)
    {
      assert s[p..q + 1] == s[p..q] + [s[q]];
      q := q + 1;
    }
    assert s[p..][..q - p] == s[p..q];
    RunIs(s[p..], f, q - p);
  }

  // ---- C strings ----

  // Up to the terminator.
  function CStr(s: string): (r: string)
    ensures |r| <= |s| && '\0' !in r && ('\0' !in s ==> r == s)
  {
    if s == "" || s[0] == '\0' then "" else [s[0]] + CStr(s[1..])
  }

  // ---- decimal numbers ----

  function DigitChar(d: nat): (c: char)
    requires d < 10
    ensures IsDigit(c)
  {
    '0' + d as char
  }

  function Dec(n: nat): (s: string)
    ensures s != "" && All(s, IsDigit)
  {
    if n < 10 then [DigitChar(n)] else Dec(n / 10) + [DigitChar(n % 10)]
  }

  // %d
  function PrintInt(n: int): string {
    if n < 0 then "-" + Dec(-n) else Dec(n)
  }

  function DecValue(s: string): nat
    requires All(s, IsDigit)
  {
    if s == "" then 0 else DecValue(s[..|s| - 1]) * 10 + (s[|s| - 1] - '0') as nat
  }

  lemma {:induction false} DecBack(n: nat)
    ensures DecValue(Dec(n)) == n
  {
    if n < 10 {
      assert [DigitChar(n)][..0] == "";
    } else {
      DecBack(n / 10);
      assert Dec(n)[..|Dec(n)| - 1] == Dec(n / 10);
    }
  }

  /** Digits stand for their values, the first one for the highest power of ten. */
  lemma TenDigits()
    ensures Dec(1234567890) == "1234567890"
  {
    assert Dec(12) == "1" + "2" == "12";
    assert Dec(123) == Dec(12) + "3" == "123";
    assert Dec(1234) == Dec(123) + "4" == "1234";
    assert Dec(12345) == Dec(1234) + "5" == "12345";
    assert Dec(123456) == Dec(12345) + "6" == "123456";
    assert Dec(1234567) == Dec(123456) + "7" == "1234567";
    assert Dec(12345678) == Dec(1234567) + "8" == "12345678";
    assert Dec(123456789) == Dec(12345678) + "9" == "123456789";
    assert Dec(1234567890) == Dec(123456789) + "0" == "1234567890";
  }

  // The digits from p on, and their value.
  method ReadDigits(s: string, p: nat) returns (q: nat, value: nat)
    requires p <= |s|
    ensures q == p + Run(s[p..], IsDigit) && value == DecValue(s[p..][..q - p])
  {
    q, value := p, 0;
    assert s[p..][..0] == "";
    while q < |s| && IsDigit(s[q])
      invariant p <= q <= |s| && All(s[p..][..q - p], IsDigit) && value == DecValue(s[p..][..q - p])
    {
      assert s[p..][..q + 1 - p] == s[p..][..q - p] + [s[q]];
      assert s[p..][..q + 1 - p][..q - p] == s[p..][..q - p];
      value := value * 10 + (s[q] - '0') as nat;
      q := q + 1;
    }
    RunIs(s[p..], IsDigit, q - p);
  }

  predicate IsSpace(c: char) {
    c == ' ' || '\t' <= c <= '\r'
  }

  // atoi: white space, a sign and digits.
  function AtoI(s: string): int {
    var t := s[Run(s, IsSpace)..];
    var u := if Head(t) == '-' || Head(t) == '+' then Tail(t) else t;
    var n: int := DecValue(u[..Run(u, IsDigit)]);
    if Head(t) == '-' then -n else n
  }

  lemma AtoIOfDec(n: nat)
    ensures AtoI(Dec(n)) == n
  {
    var s := Dec(n);
    assert IsDigit(s[0]);
    RunIs(s, IsSpace, 0);
    assert s[..|s|] == s && s[0..] == s;
    RunIs(s, IsDigit, |s|);
    DecBack(n);
  }

  // ---- case ----

  function ToLower(c: char): char {
    if 'A' <= c <= 'Z' then c - 'A' + 'a' else c
  }

  function Lower(s: string): (r: string)
    ensures |r| == |s| && forall i :: 0 <= i < |s| ==> r[i] == ToLower(s[i])
  {
    seq(|s|, i requires 0 <= i < |s| => ToLower(s[i]))
  }
}
