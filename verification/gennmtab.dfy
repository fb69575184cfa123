/**
 gennmtab (3rdpart_src/expat/gennmtab/gennmtab.c): lists of character ranges become a
 table of flags, and the table a two-level one of pages and bitmaps that the tokenizer
 looks characters up in (UCS2_GET_NAMING, xmltok.c).

 Two tables of 65536 flags stand one after the other: characters that may start a
 name, and characters that may occur in one. The bitmap words are numbers; setting
 bit k of a word that has no bit from k on adds 2^k.
 */
module NameTables {

  const CODES: nat := 65536
  const PAGE: nat := 256
  const PAGES: nat := 512

  // A range without an end holds its start only.
  datatype Range = Range(start: nat, end: nat)

  predicate Covers(r: Range, c: nat) {
    if r.end != 0 then r.start <= c <= r.end else c == r.start
  }

  predicate Member(ranges: seq<Range>, c: nat) {
    exists i :: 0 <= i < |ranges| && Covers(ranges[i], c)
  }

  predicate Ranges(ranges: seq<Range>) {
    forall i :: 0 <= i < |ranges| ==> ranges[i].start < CODES && ranges[i].end < CODES
  }

  type Flags = t: seq<bool> | |t| == 2 * CODES witness seq(2 * CODES, i => false)

  // The two tables that the ranges stand for.
  function Table(nmstrt: seq<Range>, name: seq<Range>): Flags {
    seq(2 * CODES, i requires 0 <= i < 2 * CODES =>
      if i < CODES then Member(nmstrt, i) else Member(nmstrt, i - CODES) || Member(name, i - CODES))
  }

  // ---- words ----

  function Pow2(k: nat): nat {
    if k == 0 then 1 else 2 * Pow2(k - 1)
  }

  // The word with the given bits, the lowest first.
  function WordOf(bits: seq<bool>): nat {
    if bits == [] then 0 else (if bits[0] then 1 else 0) + 2 * WordOf(bits[1..])
  }

  predicate TestBit(word: nat, k: nat) {
    if k == 0 then word % 2 == 1 else TestBit(word / 2, k - 1)
  }

  lemma {:induction false} TestBitOfWord(bits: seq<bool>, k: nat)
    requires k < |bits|
    ensures TestBit(WordOf(bits), k) == bits[k]
  {
    var rest := WordOf(bits[1..]);
    assert WordOf(bits) == (if bits[0] then 1 else 0) + 2 * rest;
    Halves(rest, if bits[0] then 1 else 0);
    if k > 0 {
      hide WordOf;
      TestBitOfWord(bits[1..], k - 1);
    } else {
      hide WordOf;
    }
  }

  lemma Halves(n: nat, b: nat)
    requires b < 2
    ensures (b + 2 * n) / 2 == n && (b + 2 * n) % 2 == b
  {
  }

  lemma {:induction false} SetBit(bits: seq<bool>, b: bool)
    ensures WordOf(bits + [b]) == WordOf(bits) + if b then Pow2(|bits|) else 0
  {
    if bits == [] {
      assert ([] + [b])[1..] == [];
    } else {
      assert (bits + [b])[1..] == bits[1..] + [b];
      SetBit(bits[1..], b);
    }
  }

  lemma {:induction false} UniformWord(bits: seq<bool>, b: bool)
    requires forall k :: 0 <= k < |bits| ==> bits[k] == b
    ensures WordOf(bits) == if b then Pow2(|bits|) - 1 else 0
  {
    if bits != [] {
      UniformWord(bits[1..], b);
    }
  }

  // ---- pages ----

  function Page(t: Flags, i: nat): (p: seq<bool>)
    requires i < PAGES
    ensures |p| == PAGE
  {
    t[i * PAGE..i * PAGE + PAGE]
  }

  predicate Uniform(p: seq<bool>)
    requires |p| == PAGE
  {
    forall j :: 0 <= j < PAGE ==> p[j] == p[0]
  }

  function Words(p: seq<bool>): (w: seq<nat>)
    requires |p| == PAGE
    ensures |w| == 8
  {
    seq(8, j requires 0 <= j < 8 => WordOf(p[32 * j..32 * j + 32]))
  }

  // Bitmaps 0 and 1 are for the pages without and with all characters.
  function FirstBitmaps(): (w: seq<nat>)
    ensures |w| == 16
  {
    [0, 0, 0, 0, 0, 0, 0, 0,
     0xFFFFFFFF, 0xFFFFFFFF, 0xFFFFFFFF, 0xFFFFFFFF, 0xFFFFFFFF, 0xFFFFFFFF, 0xFFFFFFFF, 0xFFFFFFFF]
  }

  // A page of the second table is shared with an equal one of the first.
  predicate Shared(t: Flags, i: nat)
    requires i < PAGES
  {
    i >= 256 && Page(t, i - 256) == Page(t, i)
  }

  // The page index, not yet cut to a byte, the bitmap words and their number in pages.
  datatype Out = Out(index: seq<nat>, bitmap: seq<nat>, nBitmaps: nat)

  function Emit(t: Flags, n: nat): (o: Out)
    requires n <= PAGES
    ensures |o.index| == n && |o.bitmap| == 8 * o.nBitmaps && 2 <= o.nBitmaps <= 2 + n
    ensures forall i :: 0 <= i < n ==> o.index[i] < o.nBitmaps
  {
    if n == 0 then Out([], FirstBitmaps(), 2)
    else
      var o, i := Emit(t, n - 1), n - 1;
      var p := Page(t, i);
      if Shared(t, i) then o.(index := o.index + [o.index[i - 256]])
      else if !Uniform(p) then
        Out(o.index + [o.nBitmaps], o.bitmap + Words(p), o.nBitmaps + 1)
      else o.(index := o.index + [if p[0] then 1 else 0])
  }

  // All that is emitted.
  function Output(t: Flags): (o: Out)
    ensures |o.index| == PAGES && |o.bitmap| == 8 * o.nBitmaps && 2 <= o.nBitmaps
    ensures forall i :: 0 <= i < PAGES ==> o.index[i] < o.nBitmaps
  {
    Emit(t, PAGES)
  }

  // A page that gets a bitmap of its own: its flags differ, and it is not shared.
  predicate OwnBitmap(t: Flags, i: nat)
    requires i < PAGES
  {
    !Uniform(Page(t, i)) && !Shared(t, i)
  }

  // How many of the first n pages do.
  function OwnBitmaps(t: Flags, n: nat): nat
    requires n <= PAGES
  {
    if n == 0 then 0 else OwnBitmaps(t, n - 1) + if OwnBitmap(t, n - 1) then 1 else 0
  }

  lemma {:induction false} BitmapCount(t: Flags, n: nat)
    requires n <= PAGES
    ensures Emit(t, n).nBitmaps == 2 + OwnBitmaps(t, n)
  {
    hide Words, Uniform, Page, Shared;
    if n > 0 {
      BitmapCount(t, n - 1);
    }
  }

  // An entry of the page tables is an unsigned char.
  function Bytes(index: seq<nat>): (r: seq<nat>)
    ensures |r| == |index| && forall i :: 0 <= i < |r| ==> r[i] == index[i] % 256
  {
    seq(|index|, i requires 0 <= i < |index| => index[i] % 256)
  }

  // UCS2_GET_NAMING(pages, c >> 8, c & 0xFF)
  predicate Lookup(bitmap: seq<nat>, pages: seq<nat>, c: nat)
    requires c / PAGE < |pages| && pages[c / PAGE] * 8 + 8 <= |bitmap|
  {
    TestBit(bitmap[pages[c / PAGE] * 8 + c % PAGE / 32], c % PAGE % 32)
  }

  // ---- the program ----

  method SetTab(tab: array<bool>, base: nat, ranges: seq<Range>)
    requires Ranges(ranges) && base + CODES <= tab.Length
    modifies tab
    ensures forall c :: 0 <= c < tab.Length ==>
              tab[c] == (old(tab[c]) || (base <= c < base + CODES && Member(ranges, c - base)))
  {
    var i := 0;
    while i < |ranges|
      invariant i <= |ranges|
      invariant forall c :: 0 <= c < tab.Length ==>
                  tab[c] == (old(tab[c]) || (base <= c < base + CODES && Member(ranges[..i], c - base)))
    {
      ghost var was := tab[..];
      SetRange(tab, base, ranges[i]);
      forall c: nat | c < CODES
        ensures Member(ranges[..i + 1], c) <==> Member(ranges[..i], c) || Covers(ranges[i], c)
      {
        MemberNext(ranges, i, c);
      }
      i := i + 1;
    }
    assert ranges[..i] == ranges;
  }

  lemma MemberNext(ranges: seq<Range>, i: nat, c: nat)
    requires i < |ranges|
    ensures Member(ranges[..i + 1], c) <==> Member(ranges[..i], c) || Covers(ranges[i], c)
  {
    if Member(ranges[..i], c) {
      var j :| 0 <= j < i && Covers(ranges[..i][j], c);
      assert Covers(ranges[..i + 1][j], c);
    }
    if Covers(ranges[i], c) {
      assert Covers(ranges[..i + 1][i], c);
    }
    if Member(ranges[..i + 1], c) {
      var j :| 0 <= j < i + 1 && Covers(ranges[..i + 1][j], c);
      assert j < i ==> Covers(ranges[..i][j], c);
    }
  }

  method SetRange(tab: array<bool>, base: nat, r: Range)
    requires r.start < CODES && r.end < CODES && base + CODES <= tab.Length
    modifies tab
    ensures forall c :: 0 <= c < tab.Length ==>
              tab[c] == (old(tab[c]) || (base <= c < base + CODES && Covers(r, c - base)))
  {
    if r.end != 0 {
      var j := r.start;
      while j <= r.end
        invariant r.start <= j && (j <= r.end + 1 || j == r.start)
        invariant forall c :: 0 <= c < tab.Length ==>
                    tab[c] == (old(tab[c]) || base + r.start <= c < base + j)
      {
        tab[base + j] := true;
        j := j + 1;
      }
    } else {
      tab[base + r.start] := true;
    }
  }

  // The inner loops for one bitmap word and for one page.
  method PrintWord(tab: array<bool>, at: nat) returns (val: nat)
    requires at + 32 <= tab.Length
    ensures val == WordOf(tab[at..at + 32])
  {
    val := 0;
    var k := 0;
    while k < 32
      invariant k <= 32 && val == WordOf(tab[at..at + k])
    {
      assert tab[at..at + k + 1] == tab[at..at + k] + [tab[at + k]];
      SetBit(tab[at..at + k], tab[at + k]);
      if tab[at + k] {
        val := val + Pow2(k);
      }
      k := k + 1;
    }
  }

  lemma WordSlice(tab: array<bool>, i: nat, j: nat)
    requires tab.Length == 2 * CODES && i < PAGES && j < 8
    ensures tab[i * 256 + j * 32..i * 256 + j * 32 + 32] == Page(tab[..], i)[32 * j..32 * j + 32]
  {
    var t, at := tab[..], i * 256;
    assert Page(t, i) == t[at..at + 256];
    hide Page;
    SliceSlice(t, at, at + 256, 32 * j, 32 * j + 32);
    ArraySlice(tab, at + 32 * j, at + 32 * j + 32);
  }

  lemma ArraySlice(tab: array<bool>, lo: nat, hi: nat)
    requires lo <= hi <= tab.Length
    ensures tab[lo..hi] == tab[..][lo..hi]
  {
  }

  lemma SliceSlice<T>(t: seq<T>, lo: nat, hi: nat, a: nat, b: nat)
    requires lo <= hi <= |t| && a <= b <= hi - lo
    ensures t[lo..hi][a..b] == t[lo + a..lo + b]
  {
    var p := t[lo..hi];
    assert forall k :: 0 <= k < b - a ==> p[a..b][k] == p[a + k] == t[lo + a + k] == t[lo + a..lo + b][k];
  }

  method PrintPage(tab: array<bool>, i: nat) returns (words: seq<nat>)
    requires tab.Length == 2 * CODES && i < PAGES
    ensures words == Words(Page(tab[..], i))
  {
    words := [];
    var j := 0;
    while j < 8
      invariant j <= 8 && words == Words(Page(tab[..], i))[..j]
    {
      var val := PrintWord(tab, i * 256 + j * 32);
      WordSlice(tab, i, j);
      words := words + [val];
      j := j + 1;
    }
  }

  // The kind of a page: the flag that all its characters share, if they do.
  method KindOf(tab: array<bool>, i: nat) returns (uniform: bool, kind: bool)
    requires tab.Length == 2 * CODES && i < PAGES
    ensures uniform == Uniform(Page(tab[..], i)) && kind == Page(tab[..], i)[0]
  {
    kind := tab[i * 256];
    var j := 1;
    ghost var p := Page(tab[..], i);
    while j < 256
      invariant 1 <= j <= 256
      invariant forall l :: 0 <= l < j ==> p[l] == p[0]
    {
      assert tab[i * 256 + j] == p[j];
      if tab[i * 256 + j] != kind {
        return false, kind;
      }
      j := j + 1;
    }
    uniform := true;
  }

  // The memcmp with the same page of the first table.
  method IsShared(tab: array<bool>, i: nat) returns (shared: bool)
    requires tab.Length == 2 * CODES && i < PAGES
    ensures shared == (i >= 256 && Page(tab[..], i - 256) == Page(tab[..], i))
  {
    PageSlices(tab, i);
    shared := i >= 256 && tab[(i - 256) * 256..(i - 256) * 256 + 256] == tab[i * 256..i * 256 + 256];
  }

  method SetEntry(pages: array<nat>, i: nat, entry: nat)
    requires i < pages.Length
    modifies pages
    ensures pages[..i + 1] == old(pages[..i]) + [entry]
  {
    pages[i] := entry;
  }

  method PrintTabs(tab: array<bool>) returns (bitmap: seq<nat>, pages: array<nat>, nBitmaps: nat)
    requires tab.Length == 2 * CODES
    ensures var o := Output(tab[..]);
            bitmap == o.bitmap && nBitmaps == o.nBitmaps && pages[..] == Bytes(o.index)
    ensures fresh(pages)
  {
    ghost var t := tab[..];
    nBitmaps := 2;
    bitmap := FirstBitmaps();
    pages := new nat[512];
    EmitNothing(t, pages[..0]);
    hide Emit, Bytes, Output;
    for i := 0 to 512
      invariant tab[..] == t
      invariant bitmap == Emit(t, i).bitmap && nBitmaps == Emit(t, i).nBitmaps
      invariant pages[..i] == Bytes(Emit(t, i).index)
    {
      bitmap, nBitmaps := AddPage(tab, i, pages, bitmap, nBitmaps);
    }
    OutputIs(t);
    assert pages[..512] == pages[..];
  }

  lemma EmitNothing(t: Flags, none: seq<nat>)
    requires none == []
    ensures var o := Emit(t, 0); o.bitmap == FirstBitmaps() && o.nBitmaps == 2 && none == Bytes(o.index)
  {
    hide FirstBitmaps;
  }

  // One turn of the loop over the pages.
  method AddPage(tab: array<bool>, i: nat, pages: array<nat>, bitmap: seq<nat>, nBitmaps: nat)
    returns (bitmap': seq<nat>, nBitmaps': nat)
    requires tab.Length == 2 * CODES && i < PAGES == pages.Length
    requires var o := Emit(tab[..], i);
             bitmap == o.bitmap && nBitmaps == o.nBitmaps && pages[..i] == Bytes(o.index)
    modifies pages
    ensures var o := Emit(tab[..], i + 1);
            bitmap' == o.bitmap && nBitmaps' == o.nBitmaps && pages[..i + 1] == Bytes(o.index)
  {
    hide Emit, Words, Uniform, Page;
    var uniform, kind := KindOf(tab, i);
    var shared := IsShared(tab, i);
    EmitNext(tab[..], i);
    bitmap', nBitmaps' := bitmap, nBitmaps;
    var entry;
    if shared {
      assert pages[..i][i - 256] == Emit(tab[..], i).index[i - 256] % 256;
      entry := pages[i - 256];
    } else if !uniform {
      entry, nBitmaps' := nBitmaps % 256, nBitmaps + 1;
      var words := PrintPage(tab, i);
      bitmap' := bitmap + words;
    } else {
      entry := if kind then 1 else 0;
    }
    SetEntry(pages, i, entry);
  }

  lemma OutputIs(t: Flags)
    ensures Output(t) == Emit(t, PAGES)
  {
  }

  // What one page adds.
  lemma EmitNext(t: Flags, i: nat)
    requires i < PAGES
    ensures var o, more, p := Emit(t, i), Emit(t, i + 1), Page(t, i);
            if i >= 256 && Page(t, i - 256) == p
            then Bytes(more.index) == Bytes(o.index) + [o.index[i - 256] % 256]
                 && more.bitmap == o.bitmap && more.nBitmaps == o.nBitmaps
            else if !Uniform(p)
            then Bytes(more.index) == Bytes(o.index) + [o.nBitmaps % 256]
                 && more.bitmap == o.bitmap + Words(p) && more.nBitmaps == o.nBitmaps + 1
            else Bytes(more.index) == Bytes(o.index) + [if p[0] then 1 else 0]
                 && more.bitmap == o.bitmap && more.nBitmaps == o.nBitmaps
  {
    hide Words, Uniform, Page;
  }

  lemma PageSlices(tab: array<bool>, i: nat)
    requires tab.Length == 2 * CODES && i < PAGES
    ensures tab[i * 256..i * 256 + 256] == Page(tab[..], i)
    ensures i >= 256 ==> tab[(i - 256) * 256..(i - 256) * 256 + 256] == Page(tab[..], i - 256)
  {
  }

  // ---- what the tables decode to ----

  // Bitmap number m is that of page p.
  predicate Stored(bitmap: seq<nat>, m: nat, p: seq<bool>)
    requires |p| == PAGE
  {
    8 * m + 8 <= |bitmap| && bitmap[8 * m..8 * m + 8] == Words(p)
  }

  lemma StoredOn(bitmap: seq<nat>, more: seq<nat>, m: nat, p: seq<bool>)
    requires |p| == PAGE && Stored(bitmap, m, p)
    ensures Stored(bitmap + more, m, p)
  {
    assert (bitmap + more)[8 * m..8 * m + 8] == bitmap[8 * m..8 * m + 8];
  }

  lemma UniformStored(p: seq<bool>)
    requires |p| == PAGE && Uniform(p)
    ensures Words(p) == if p[0] then FirstBitmaps()[8..] else FirstBitmaps()[..8]
  {
    Pow2Of32();
    forall j | 0 <= j < 8
      ensures Words(p)[j] == if p[0] then 0xFFFFFFFF else 0
    {
      UniformWord(p[32 * j..32 * j + 32], p[0]);
    }
  }

  lemma Pow2Of32()
    ensures Pow2(32) == 0x1_0000_0000
  {
    assert Pow2(4) == 16;
    assert Pow2(8) == 256;
    assert Pow2(12) == 4096;
    assert Pow2(16) == 65536;
    assert Pow2(20) == 0x10_0000;
    assert Pow2(24) == 0x100_0000;
    assert Pow2(28) == 0x1000_0000;
  }

  lemma {:induction false} EmitKeeps(t: Flags, n: nat)
    requires n <= PAGES
    ensures var o := Emit(t, n); o.bitmap[..16] == FirstBitmaps()
  {
    hide Words, Uniform, Page;
    if n > 0 {
      EmitKeeps(t, n - 1);
    }
  }

  /** Every page is stored in the bitmap that its entry names, uniform ones in bitmaps 0 and 1. */
  lemma {:induction false} EveryPageStored(t: Flags, n: nat, i: nat)
    requires i < n <= PAGES
    ensures var o := Emit(t, n);
            && Stored(o.bitmap, o.index[i], Page(t, i))
            && (o.index[i] < 2 <==> Uniform(Page(t, i)))
            && (Uniform(Page(t, i)) ==> o.index[i] == if Page(t, i)[0] then 1 else 0)
            && (Shared(t, i) ==> o.index[i] == o.index[i - 256])
    decreases n
  {
    hide Words, Uniform, Page, Stored;
    if i < n - 1 {
      EveryPageStored(t, n - 1, i);
      OlderPageStored(t, n, i);
    } else if Shared(t, i) {
      EveryPageStored(t, n - 1, i - 256);
    } else if Uniform(Page(t, i)) {
      UniformPageStored(t, i);
    } else {
      NewPageStored(t, i);
    }
  }

  lemma OlderPageStored(t: Flags, n: nat, i: nat)
    requires i + 1 < n <= PAGES && Stored(Emit(t, n - 1).bitmap, Emit(t, n - 1).index[i], Page(t, i))
    ensures Stored(Emit(t, n).bitmap, Emit(t, n).index[i], Page(t, i))
    ensures Emit(t, n).index[..n - 1] == Emit(t, n - 1).index
  {
    hide Words, Uniform, Page, Stored;
    var was, p := Emit(t, n - 1), Page(t, n - 1);
    StoredOn(was.bitmap, Words(p), was.index[i], Page(t, i));
  }

  lemma UniformPageStored(t: Flags, i: nat)
    requires i < PAGES && Uniform(Page(t, i)) && !Shared(t, i)
    ensures var o, p := Emit(t, i + 1), Page(t, i);
            o.index[i] == (if p[0] then 1 else 0) && Stored(o.bitmap, o.index[i], p)
  {
    var was, p := Emit(t, i), Page(t, i);
    UniformStored(p);
    EmitKeeps(t, i);
    hide Words, Uniform, Page;
    assert was.bitmap[..8] == was.bitmap[..16][..8] && was.bitmap[8..16] == was.bitmap[..16][8..];
  }

  lemma NewPageStored(t: Flags, i: nat)
    requires i < PAGES && !Uniform(Page(t, i)) && !Shared(t, i)
    ensures var o := Emit(t, i + 1); o.index[i] >= 2 && Stored(o.bitmap, o.index[i], Page(t, i))
  {
    hide Words, Uniform, Page;
    var was := Emit(t, i);
    assert (was.bitmap + Words(Page(t, i)))[8 * was.nBitmaps..8 * was.nBitmaps + 8] == Words(Page(t, i));
  }

  lemma LookupStored(bitmap: seq<nat>, pages: seq<nat>, c: nat, p: seq<bool>)
    requires |p| == PAGE && c / PAGE < |pages| && Stored(bitmap, pages[c / PAGE], p)
    ensures Lookup(bitmap, pages, c) == p[c % PAGE]
  {
    var m, lo := pages[c / PAGE], c % PAGE;
    var j := lo / 32;
    assert bitmap[m * 8 + j] == bitmap[8 * m..8 * m + 8][j] == Words(p)[j];
    TestBitOfWord(p[32 * j..32 * j + 32], lo % 32);
  }

  lemma {:induction false} Numbered(t: Flags, n: nat, m: nat) returns (i: nat)
    requires n <= PAGES && 2 <= m < Emit(t, n).nBitmaps
    ensures i < n && Emit(t, n).index[i] == m && !Uniform(Page(t, i))
  {
    hide Words, Uniform, Page;
    if m < Emit(t, n - 1).nBitmaps {
      i := Numbered(t, n - 1, m);
    } else {
      i := n - 1;
    }
  }

  // What a tokenizer with these tables finds at code c of the first table, or of the second after it.
  predicate Decoded(t: Flags, c: nat)
    requires c < 2 * CODES
  {
    var o := Output(t);
    Lookup(o.bitmap, Bytes(o.index), c)
  }

  /** The tables decode to the flags at every code exactly when at most 254 pages have flags that
      differ and are not those of the same page of the first table. */
  lemma DecodesExactly(t: Flags)
    ensures OwnBitmaps(t, PAGES) <= 254 <==> forall c :: 0 <= c < 2 * CODES ==> Decoded(t, c) == t[c]
  {
    BitmapCount(t, PAGES);
    hide Decoded, Page, OwnBitmap, Words, Uniform;
    DecodesByNumber(t);
  }

  lemma DecodedAt(t: Flags, c: nat)
    requires c < 2 * CODES && Output(t).nBitmaps <= 256
    ensures Decoded(t, c) == t[c]
  {
    hide Emit, Output, Words, Uniform;
    var o, i := Output(t), c / PAGE;
    EveryPageStored(t, PAGES, i);
    OutputIs(t);
    assert Bytes(o.index)[i] == o.index[i];
    LookupStored(o.bitmap, Bytes(o.index), c, Page(t, i));
  }

  lemma DecodesByNumber(t: Flags)
    ensures var o := Output(t);
            o.nBitmaps <= 256 <==> forall c :: 0 <= c < 2 * CODES ==> Decoded(t, c) == t[c]
  {
    hide Decoded, Emit, Output;
    if Output(t).nBitmaps <= 256 {
      forall c | 0 <= c < 2 * CODES
        ensures Decoded(t, c) == t[c]
      {
        DecodedAt(t, c);
      }
    } else {
      var c := Missing(t);
      assert Decoded(t, c) != t[c];
    }
  }

  // Entry 256 is cut to 0, and its page is not empty.
  lemma Missing(t: Flags) returns (c: nat)
    requires Output(t).nBitmaps > 256
    ensures c < 2 * CODES && t[c] && !Decoded(t, c)
  {
    var o := Output(t);
    var i := Numbered(t, PAGES, 256);
    var p := Page(t, i);
    var lo := if p[0] then 0 else Other(p);
    assert p[lo];
    c := i * PAGE + lo;
    InPage(i, lo);
    assert t[c] && o.index[i] == 256;
    EmitKeeps(t, PAGES);
    OutputIs(t);
    var none := seq(PAGE, j => false);
    UniformStored(none);
    hide Words, Page, Emit, Output, Uniform;
    assert o.bitmap[8 * 0..8 * 0 + 8] == o.bitmap[..16][..8];
    assert Bytes(o.index)[i] == 0;
    LookupStored(o.bitmap, Bytes(o.index), c, none);
  }

  lemma InPage(i: nat, lo: nat)
    requires i < PAGES && lo < PAGE
    ensures (i * PAGE + lo) / PAGE == i && (i * PAGE + lo) % PAGE == lo && i * PAGE + lo < 2 * CODES
  {
  }

  ghost function Other(p: seq<bool>): (j: nat)
    requires |p| == PAGE && !Uniform(p)
    ensures j < PAGE && p[j] != p[0]
  {
    var j :| 0 <= j < PAGE && p[j] != p[0];
    j
  }

  // Both tables at code c say what the ranges say.
  predicate RightAt(nmstrt: seq<Range>, name: seq<Range>, bitmap: seq<nat>, nmstrtPages: seq<nat>, namePages: seq<nat>, c: nat)
    requires c < CODES && |nmstrtPages| == |namePages| == 256
    requires forall i :: 0 <= i < 256 ==> nmstrtPages[i] * 8 + 8 <= |bitmap| && namePages[i] * 8 + 8 <= |bitmap|
  {
    && Lookup(bitmap, nmstrtPages, c) == Member(nmstrt, c)
    && Lookup(bitmap, namePages, c) == (Member(nmstrt, c) || Member(name, c))
  }

  // main, up to the call of printTabs.
  method MakeTab(nmstrt: seq<Range>, name: seq<Range>) returns (tab: array<bool>)
    requires Ranges(nmstrt) && Ranges(name)
    ensures tab[..] == Table(nmstrt, name)
    ensures fresh(tab)
  {
    hide Member, Ranges;
    tab := new bool[2 * CODES];
    forall i | 0 <= i < CODES {
      tab[i] := false;
    }
    SetTab(tab, 0, nmstrt);
    forall i | 0 <= i < CODES {
      tab[CODES + i] := tab[i];
    }
    SetTab(tab, CODES, name);
  }

  lemma PagesFit(t: Flags)
    ensures var o := Output(t);
            forall i :: 0 <= i < PAGES ==> Bytes(o.index)[i] < 256 && Bytes(o.index)[i] * 8 + 8 <= 8 * o.nBitmaps == |o.bitmap|
  {
    var o := Output(t);
    forall i | 0 <= i < PAGES
      ensures Bytes(o.index)[i] < 256 && Bytes(o.index)[i] * 8 + 8 <= 8 * o.nBitmaps
    {
      assert Bytes(o.index)[i] <= o.index[i] < o.nBitmaps;
    }
    hide Output, Bytes;
  }

  /**
   For all range lists over 16-bit codes: both tables decode to membership in the ranges at every
   code exactly when at most 254 pages need a bitmap of their own.
   */
  method Generate(nmstrt: seq<Range>, name: seq<Range>)
    returns (bitmap: seq<nat>, nmstrtPages: seq<nat>, namePages: seq<nat>, nBitmaps: nat)
    requires Ranges(nmstrt) && Ranges(name)
    ensures |nmstrtPages| == |namePages| == 256 && |bitmap| == 8 * nBitmaps
    ensures forall i :: 0 <= i < 256 ==> nmstrtPages[i] < 256 && namePages[i] < 256
    ensures forall i :: 0 <= i < 256 ==> nmstrtPages[i] * 8 + 8 <= |bitmap| && namePages[i] * 8 + 8 <= |bitmap|
    ensures nBitmaps == 2 + OwnBitmaps(Table(nmstrt, name), PAGES)
    ensures OwnBitmaps(Table(nmstrt, name), PAGES) <= 254 <==>
            forall c :: 0 <= c < CODES ==> RightAt(nmstrt, name, bitmap, nmstrtPages, namePages, c)
  {
    hide RightAt, Table, OwnBitmaps;
    var tab := MakeTab(nmstrt, name);
    var pages;
    bitmap, pages, nBitmaps := PrintTabs(tab);
    nmstrtPages, namePages := pages[..256], pages[256..];
    PagesFit(Table(nmstrt, name));
    hide Output, Bytes;
    TwoTables(nmstrt, name);
    BitmapCount(Table(nmstrt, name), PAGES);
  }

  lemma TwoTables(nmstrt: seq<Range>, name: seq<Range>)
    ensures var o := Output(Table(nmstrt, name));
            var pages := Bytes(o.index);
            o.nBitmaps <= 256 <==>
            forall c :: 0 <= c < CODES ==> RightAt(nmstrt, name, o.bitmap, pages[..256], pages[256..], c)
  {
    var t := Table(nmstrt, name);
    DecodesByNumber(t);
    hide Output, RightAt, Table, Decoded, BothDecoded, Bytes;
    BothHalves(t);
    forall c | 0 <= c < CODES
      ensures var o := Output(t);
              var pages := Bytes(o.index);
              RightAt(nmstrt, name, o.bitmap, pages[..256], pages[256..], c)
              <==> BothDecoded(t, c)
    {
      TablesAt(nmstrt, name, c);
    }
  }

  predicate BothDecoded(t: Flags, c: nat)
    requires c < CODES
  {
    Decoded(t, c) == t[c] && Decoded(t, c + CODES) == t[c + CODES]
  }

  lemma BothHalves(t: Flags)
    ensures (forall c :: 0 <= c < 2 * CODES ==> Decoded(t, c) == t[c])
            <==> forall c :: 0 <= c < CODES ==> BothDecoded(t, c)
  {
    hide Decoded;
    if forall c :: 0 <= c < CODES ==> BothDecoded(t, c) {
      forall c | 0 <= c < 2 * CODES
        ensures Decoded(t, c) == t[c]
      {
        var d := if c < CODES then c else c - CODES;
        assert BothDecoded(t, d);
      }
    }
  }

  lemma TablesAt(nmstrt: seq<Range>, name: seq<Range>, c: nat)
    requires c < CODES
    ensures var t := Table(nmstrt, name);
            var o := Output(t);
            RightAt(nmstrt, name, o.bitmap, Bytes(o.index)[..256], Bytes(o.index)[256..], c)
            <==> BothDecoded(t, c)
  {
    var o := Output(Table(nmstrt, name));
    hide Output, Member, Lookup;
    SecondTable(o.bitmap, Bytes(o.index), c);
  }

  lemma SecondTable(bitmap: seq<nat>, pages: seq<nat>, c: nat)
    requires |pages| == PAGES && c < CODES
    requires forall i :: 0 <= i < PAGES ==> pages[i] * 8 + 8 <= |bitmap|
    ensures Lookup(bitmap, pages, c) == Lookup(bitmap, pages[..256], c)
    ensures Lookup(bitmap, pages, c + CODES) == Lookup(bitmap, pages[256..], c)
  {
    assert (c + CODES) / PAGE == c / PAGE + 256 && (c + CODES) % PAGE == c % PAGE;
  }

  /** Then every character that may start a name may occur in one. */
  lemma NameHoldsNameStart(nmstrt: seq<Range>, name: seq<Range>, c: nat)
    requires c < CODES && OwnBitmaps(Table(nmstrt, name), PAGES) <= 254
    ensures var t := Table(nmstrt, name); Decoded(t, c) ==> Decoded(t, c + CODES)
  {
    DecodesExactly(Table(nmstrt, name));
    hide Decoded, OwnBitmaps;
  }

  // One code in each page of the first table: every page needs a bitmap.
  function Scattered(): (ranges: seq<Range>)
    ensures Ranges(ranges)
  {
    seq(256, i requires 0 <= i < 256 => Range(256 * i + 1, 0))
  }

  lemma {:induction false} AllOwn(t: Flags, n: nat, k: nat)
    requires k <= n <= PAGES && forall i :: 0 <= i < k ==> OwnBitmap(t, i)
    ensures OwnBitmaps(t, n) >= k
    decreases n
  {
    hide OwnBitmap;
    if n > 0 {
      AllOwn(t, n - 1, if k == n then k - 1 else k);
    }
  }

  /** 256 single codes, one in each page, are already too many: some lookup is wrong. */
  lemma TooManyPages(name: seq<Range>) returns (c: nat)
    ensures OwnBitmaps(Table(Scattered(), name), PAGES) >= 256
    ensures var t := Table(Scattered(), name); c < 2 * CODES && Decoded(t, c) != t[c]
  {
    var t := Table(Scattered(), name);
    forall i | 0 <= i < 256
      ensures OwnBitmap(t, i)
    {
      ScatteredPage(name, i);
    }
    AllOwn(t, PAGES, 256);
    BitmapCount(t, PAGES);
    c := Missing(t);
  }

  lemma ScatteredPage(name: seq<Range>, i: nat)
    requires i < 256
    ensures OwnBitmap(Table(Scattered(), name), i)
  {
    var t := Table(Scattered(), name);
    var p := Page(t, i);
    assert Covers(Scattered()[i], 256 * i + 1);
    assert p[1] == t[256 * i + 1] == Member(Scattered(), 256 * i + 1);
    assert p[0] == t[256 * i] == Member(Scattered(), 256 * i);
    assert !Member(Scattered(), 256 * i);
  }
}
