/**
 Whole prologs and external subsets: the handlers of xmlrole.c, from
 XmlPrologStateInit and XmlPrologStateInitExternalEntity on, against productions
 22, 27 to 31 and 61 to 65 of XML 1.0.

 As in Declarations the texts carry the role of each token. `DocumentsExactly`
 and `SubsetsExactly` say which token strings go through without an error;
 `DocumentAccepted`, `DocumentRead` and `SubsetRead` that the roles returned are
 those of the text.
 */
module Prologs {
  import opened Words
  import opened XmlRole
  import opened ContentModels
  import opened PrologRuns
  import opened DeclTexts
  import opened Declarations

  // Misc, and the byte order mark that is let pass before the document type.
  datatype Misc = Instruction | Remark | Mark

  // What may stand in a subset. Nothing is the empty token at the end of the text.
  datatype Item =
    | Declared(d: Declaration)
    | Piece(misc: Misc)
    | Reference
    | Nothing
    | Include | EndInclude | Ignore

  datatype DoctypePart = NoDoctype | WithDoctype(d: Declaration, items: seq<Item>, after: seq<Misc>)

  function MiscText(m: Misc): Lexeme {
    match m
    case Instruction => Lexeme(TokPi, RolePi)
    case Remark => Lexeme(TokComment, RoleComment)
    case Mark => Lexeme(TokBom, RoleNone)
  }

  function MiscsText(ms: seq<Misc>): seq<Lexeme> {
    if ms == [] then [] else [MiscText(ms[0])] + MiscsText(ms[1..])
  }

  function OpenText(d: Declaration): Lexeme {
    match d
    case NotationDecl(_, _) => Lexeme(TokDeclOpen(KwNotation), RoleNotationNone)
    case AttlistDecl(_, _) => Lexeme(TokDeclOpen(KwAttlist), RoleAttlistNone)
    case ElementDecl(_, _) => Lexeme(TokDeclOpen(KwElement), RoleElementNone)
    case DoctypeDecl(_, _, _) => Lexeme(TokDeclOpen(KwDoctype), RoleDoctypeNone)
    case _ => Lexeme(TokDeclOpen(KwEntity), RoleEntityNone)
  }

  function ItemText(item: Item): seq<Lexeme> {
    match item
    case Declared(d) => [OpenText(d)] + Text(d)
    case Piece(m) => [MiscText(m)]
    case Reference => [Lexeme(TokParamEntityRef, RoleParamEntityRef)]
    case Nothing => [Lexeme(TokNone, RoleNone)]
    case Include => [Lexeme(TokCondSectOpen, RoleNone), Lexeme(TokName(KwInclude), RoleNone),
      Lexeme(TokOpenBracket, RoleNone)]
    case EndInclude => [Lexeme(TokCondSectClose, RoleNone)]
    case Ignore => [Lexeme(TokCondSectOpen, RoleNone), Lexeme(TokName(KwIgnore), RoleNone),
      Lexeme(TokOpenBracket, RoleIgnoreSect)]
  }

  function ItemsText(items: seq<Item>): seq<Lexeme> {
    if items == [] then [] else ItemText(items[0]) + ItemsText(items[1..])
  }

  // INCLUDE sections open after item, and whether item can stand where `open` of
  // them are open: the 32-bit counter holds open modulo 2^32.
  function OpenAfter(item: Item, open: int): int {
    if item.Include? then open + 1 else if item.EndInclude? then open - 1 else open
  }

  predicate ItemFits(item: Item, documentEntity: bool, open: int) {
    match item
    case Declared(d) => Fits(d) && !d.DoctypeDecl?
    case Piece(m) => !m.Mark?
    case Reference => true
    case Nothing => documentEntity || open % U32 == 0
    case EndInclude => !documentEntity && open % U32 != 0
    case _ => !documentEntity
  }

  predicate ItemsFit(items: seq<Item>, documentEntity: bool, open: int) {
    items != [] ==>
      ItemFits(items[0], documentEntity, open) && ItemsFit(items[1..], documentEntity, OpenAfter(items[0], open))
  }

  function OpenAtEnd(items: seq<Item>, open: int): int {
    if items == [] then open else OpenAtEnd(items[1..], OpenAfter(items[0], open))
  }

  function DoctypeText(t: DoctypePart): seq<Lexeme> {
    match t
    case NoDoctype => []
    case WithDoctype(d, items, after) =>
      [OpenText(d)] + (Text(d) + (SubsetText(d, items) + MiscsText(after)))
  }

  // '[' intSubset ']' S? '>'
  function SubsetText(d: Declaration, items: seq<Item>): seq<Lexeme> {
    if d.DoctypeDecl? && d.doctypeEnd.OpensSubset?
    then ItemsText(items) + [Lexeme(TokCloseBracket, RoleDoctypeNone), Lexeme(TokDeclClose, RoleDoctypeClose)]
    else []
  }

  predicate DoctypeFits(t: DoctypePart) {
    match t
    case NoDoctype => true
    case WithDoctype(d, items, after) =>
      d.DoctypeDecl? && (d.doctypeEnd.Closes? ==> items == []) && ItemsFit(items, true, 0) && Mark !in after
  }

  // The prolog of a document from its XML declaration on, up to the root element.
  function PrologText(before: seq<Misc>, t: DoctypePart): seq<Lexeme> {
    MiscsText(before) + (DoctypeText(t) + [Lexeme(TokInstanceStart, RoleInstanceStart)])
  }

  // ----- runs

  // From a live state l, which is no blank, is answered with its role, without an error, and leads to next.
  predicate Moves(s: PState, l: Lexeme, next: PState) {
    s.handler != Failed && Step(s, l.token) == (next, l.role) && l.role != RoleError && !IsBlank(l)
  }

  predicate Runs(s: PState, text: seq<Lexeme>, end: PState)
    decreases |text|
  {
    if text == [] then s == end
    else var next := Step(s, text[0].token).0;
         Moves(s, text[0], next) && Runs(next, text[1..], end)
  }

  lemma Ahead(s: PState, text: seq<Lexeme>, end: PState) returns (l: Lexeme, rest: seq<Lexeme>, next: PState)
    requires Runs(s, text, end) && (s.handler != end.handler || text != [])
    ensures text == [l] + rest
    ensures Moves(s, l, next) && Runs(next, rest, end)
  {
    hide Step;
    l, rest, next := text[0], text[1..], Step(s, text[0].token).0;
  }

  lemma Move(s: PState, l: Lexeme, next: PState, rest: seq<Lexeme>, end: PState)
    requires Moves(s, l, next) && Runs(next, rest, end)
    ensures Runs(s, [l] + rest, end)
  {
    hide Step;
    assert ([l] + rest)[1..] == rest;
  }

  lemma Move1(s: PState, l: Lexeme, next: PState)
    requires Moves(s, l, next)
    ensures Runs(s, [l], next)
  {
    hide Step;
    assert [l][1..] == [];
  }

  lemma {:induction false} Join(s: PState, a: seq<Lexeme>, mid: PState, b: seq<Lexeme>, end: PState)
    requires Runs(s, a, mid) && Runs(mid, b, end)
    ensures Runs(s, a + b, end)
    decreases |a|
  {
    hide Step;
    if a == [] {
      assert a + b == b;
    } else {
      var next := Step(s, a[0].token).0;
      Join(next, a[1..], mid, b, end);
      Move(s, a[0], next, a[1..] + b, end);
      assert a + b == [a[0]] + (a[1..] + b);
    }
  }

  lemma {:induction false} ReadsRuns(s: PState, text: seq<Lexeme>, end: PState)
    requires Reads(s, text, end)
    ensures Runs(s, text, end)
    decreases |text|
  {
    hide Step;
    if text != [] {
      ReadsRuns(Step(s, text[0].token).0, text[1..], end);
    }
  }

  lemma MovesInside(s: PState, l: Lexeme, next: PState)
    requires Moves(s, l, next) && Open(s.handler)
    ensures Takes(s, l, next)
  {
    hide Step;
  }

  // The declaration ahead, and what follows it.
  lemma {:induction false} SplitDeclaration(s: PState, text: seq<Lexeme>, end: PState)
    returns (a: seq<Lexeme>, mid: PState, rest: seq<Lexeme>)
    requires Open(s.handler) && Runs(s, text, end) && !Open(end.handler)
    ensures text == a + rest && a != []
    ensures Reads(s, a, mid) && !Open(mid.handler) && Runs(mid, rest, end)
    decreases |text|
  {
    hide Step, Takes, Moves, Runs, Reads;
    var l, rest1, next := Ahead(s, text, end);
    MovesInside(s, l, next);
    if Open(next.handler) {
      var more;
      more, mid, rest := SplitDeclaration(next, rest1, end);
      a := [l] + more;
      Prepend(s, l, next, more, mid);
    } else {
      a, mid, rest := [l], next, rest1;
      Declarations.One(s, l, next);
    }
  }

  // ----- what the handlers outside of declarations take

  // The keywords that open a declaration inside a subset, the first handler, and the role.
  predicate OpensDecl(l: Lexeme, h: Handler) {
    || (l == Lexeme(TokDeclOpen(KwEntity), RoleEntityNone) && h == Objects(0))
    || (l == Lexeme(TokDeclOpen(KwAttlist), RoleAttlistNone) && h == Attlist(0))
    || (l == Lexeme(TokDeclOpen(KwElement), RoleElementNone) && h == Element(0))
    || (l == Lexeme(TokDeclOpen(KwNotation), RoleNotationNone) && h == Notation(0))
  }

  predicate IsMiscText(l: Lexeme, mark: bool) {
    || l == Lexeme(TokPi, RolePi)
    || l == Lexeme(TokComment, RoleComment)
    || (mark && l == Lexeme(TokBom, RoleNone))
  }

  lemma Prolog1(s: PState, l: Lexeme, next: PState)
    requires s.handler == Prolog(1)
    ensures Moves(s, l, next) <==>
      || (IsMiscText(l, true) && next == s)
      || (l == Lexeme(TokDeclOpen(KwDoctype), RoleDoctypeNone) && next == s.(handler := Doctype(0)))
      || (l == Lexeme(TokInstanceStart, RoleInstanceStart) && next == s.(handler := Failed))
  {
    assert Step(s, l.token) == Answer(s, l.token, BeforeDoctypeRow(l.token, Prolog(1)));
    hide Step;
  }

  lemma Prolog2(s: PState, l: Lexeme, next: PState)
    requires s.handler == Prolog(2)
    ensures Moves(s, l, next) <==>
      || (IsMiscText(l, false) && next == s)
      || (l == Lexeme(TokInstanceStart, RoleInstanceStart) && next == s.(handler := Failed))
  {
    assert Step(s, l.token) == Answer(s, l.token, MiscRow(l.token, Prolog(2)));
    hide Step;
  }

  lemma Doctype5(s: PState, l: Lexeme, next: PState)
    requires s.handler == Doctype(5)
    ensures Moves(s, l, next) <==> l == Lexeme(TokDeclClose, RoleDoctypeClose) && next == s.(handler := Prolog(2))
  {
    assert Step(s, l.token) == Answer(s, l.token, DoctypeRow(s.handler, l.token));
    hide Step;
  }

  predicate SubsetMoves(s: PState, l: Lexeme, next: PState) {
    || (OpensDecl(l, next.handler) && next == s.(handler := next.handler))
    || (IsMiscText(l, false) && next == s)
    || (l == Lexeme(TokParamEntityRef, RoleParamEntityRef) && next == s)
  }

  lemma Internal(s: PState, l: Lexeme, next: PState)
    requires s.handler == InternalSubset
    ensures Moves(s, l, next) <==>
      || SubsetMoves(s, l, next)
      || (l == Lexeme(TokNone, RoleNone) && next == s)
      || (l == Lexeme(TokCloseBracket, RoleDoctypeNone) && next == s.(handler := Doctype(5)))
  {
    assert Step(s, l.token) == Answer(s, l.token, InternalRow(l.token, InternalSubset));
    hide Step;
  }

  lemma External1(s: PState, l: Lexeme, next: PState)
    requires s.handler == ExternalSubset1
    ensures Moves(s, l, next) <==>
      || SubsetMoves(s, l, next)
      || (l == Lexeme(TokNone, RoleNone) && s.includeLevel == 0 && next == s)
      || (l == Lexeme(TokCondSectOpen, RoleNone) && next == s.(handler := CondSect(0)))
      || (l == Lexeme(TokCondSectClose, RoleNone) && s.includeLevel != 0
          && next == s.(includeLevel := (s.includeLevel + U32 - 1) % U32))
  {
    assert Step(s, l.token) == Answer(s, l.token, ExternalRow(l.token, s.includeLevel));
    hide Step;
  }

  lemma CondSect0(s: PState, l: Lexeme, next: PState)
    requires s.handler == CondSect(0)
    ensures Moves(s, l, next) <==>
      || (l == Lexeme(TokName(KwInclude), RoleNone) && next == s.(handler := CondSect(1)))
      || (l == Lexeme(TokName(KwIgnore), RoleNone) && next == s.(handler := CondSect(2)))
  {
    assert Step(s, l.token) == Answer(s, l.token, CondSectRow(s.handler, l.token));
    hide Step;
  }

  lemma CondSectBracket(s: PState, l: Lexeme, next: PState)
    requires s.handler == CondSect(1) || s.handler == CondSect(2)
    ensures Moves(s, l, next) <==>
      if s.handler == CondSect(1)
      then l == Lexeme(TokOpenBracket, RoleNone)
           && next == s.(handler := ExternalSubset1, includeLevel := (s.includeLevel + 1) % U32)
      else l == Lexeme(TokOpenBracket, RoleIgnoreSect) && next == s.(handler := ExternalSubset1)
  {
    assert Step(s, l.token) == Answer(s, l.token, CondSectRow(s.handler, l.token));
    hide Step;
  }

  // ----- accepted

  lemma MiscIs(m: Misc)
    ensures IsMiscText(MiscText(m), true) && (!m.Mark? ==> IsMiscText(MiscText(m), false))
  {
  }

  lemma {:induction false} AcceptMiscs(s: PState, ms: seq<Misc>)
    requires s.handler == Prolog(1) || (s.handler == Prolog(2) && Mark !in ms)
    ensures Runs(s, MiscsText(ms), s)
    decreases |ms|
  {
    hide Moves, MiscText;
    if ms != [] {
      MiscIs(ms[0]);
      if s.handler == Prolog(1) {
        Prolog1(s, MiscText(ms[0]), s);
      } else {
        Prolog2(s, MiscText(ms[0]), s);
      }
      AcceptMiscs(s, ms[1..]);
      Move(s, MiscText(ms[0]), s, MiscsText(ms[1..]), s);
    }
  }

  predicate IsTop(s: PState) {
    s.handler == TopLevel(s.documentEntity)
  }

  lemma TopMoves(s: PState, l: Lexeme, next: PState)
    requires IsTop(s) && SubsetMoves(s, l, next)
    ensures Moves(s, l, next)
  {
    hide Moves, SubsetMoves;
    if s.documentEntity {
      Internal(s, l, next);
    } else {
      External1(s, l, next);
    }
  }

  lemma OpensFirst(d: Declaration)
    requires !d.DoctypeDecl?
    ensures OpensDecl(OpenText(d), FirstHandler(d))
  {
  }

  lemma AcceptDeclared(s: PState, d: Declaration) returns (end: PState)
    requires IsTop(s) && Fits(d) && !d.DoctypeDecl?
    ensures Runs(s, ItemText(Declared(d)), end)
    ensures IsTop(end) && end.documentEntity == s.documentEntity && end.includeLevel == s.includeLevel
  {
    var next := s.(handler := FirstHandler(d));
    end := Ended(next, d);
    EndedOutside(next, d);
    OpensFirst(d);
    assert SubsetMoves(s, OpenText(d), next);
    hide Moves, Runs, Reads, SubsetMoves, Text, Ended, Fits, OpenText;
    TopMoves(s, OpenText(d), next);
    Accept(next, d);
    ReadsRuns(next, Text(d), end);
    Move(s, OpenText(d), next, Text(d), end);
  }

  lemma AcceptCondSect(s: PState, item: Item) returns (end: PState)
    requires s.handler == ExternalSubset1 && !s.documentEntity && (item.Include? || item.Ignore?)
    ensures Runs(s, ItemText(item), end)
    ensures end == if item.Include? then s.(includeLevel := (s.includeLevel + 1) % U32) else s
  {
    hide Moves, Runs;
    var s0, s1 := s.(handler := CondSect(0)), s.(handler := if item.Include? then CondSect(1) else CondSect(2));
    var open, name, bracket := ItemText(item)[0], ItemText(item)[1], ItemText(item)[2];
    end := if item.Include? then s.(includeLevel := (s.includeLevel + 1) % U32) else s;
    External1(s, open, s0);
    CondSect0(s0, name, s1);
    CondSectBracket(s1, bracket, end);
    Move1(s1, bracket, end);
    Move(s0, name, s1, [bracket], end);
    Move(s, open, s0, [name] + [bracket], end);
    assert ItemText(item) == [open] + ([name] + [bracket]);
  }

  lemma AcceptItem(s: PState, item: Item, open: nat) returns (end: PState)
    requires IsTop(s) && s.includeLevel == open % U32 && ItemFits(item, s.documentEntity, open)
    ensures Runs(s, ItemText(item), end)
    ensures IsTop(end) && end.documentEntity == s.documentEntity
    ensures OpenAfter(item, open) >= 0 && end.includeLevel == OpenAfter(item, open) % U32
  {
    hide Moves, Runs, Fits;
    end := s;
    match item {
      case Declared(d) => end := AcceptDeclared(s, d);
      case Piece(m) =>
        MiscIs(m);
        TopMoves(s, MiscText(m), s);
        Move1(s, MiscText(m), s);
      case Reference =>
        TopMoves(s, ItemText(item)[0], s);
        Move1(s, ItemText(item)[0], s);
      case Nothing =>
        if s.documentEntity {
          Internal(s, ItemText(item)[0], s);
        } else {
          External1(s, ItemText(item)[0], s);
        }
        Move1(s, ItemText(item)[0], s);
      case EndInclude =>
        end := s.(includeLevel := (s.includeLevel + U32 - 1) % U32);
        External1(s, ItemText(item)[0], end);
        Move1(s, ItemText(item)[0], end);
      case _ => end := AcceptCondSect(s, item);
    }
  }

  lemma {:induction false} AcceptItems(s: PState, items: seq<Item>, open: nat) returns (end: PState)
    requires IsTop(s) && s.includeLevel == open % U32 && ItemsFit(items, s.documentEntity, open)
    ensures Runs(s, ItemsText(items), end)
    ensures IsTop(end) && end.documentEntity == s.documentEntity
    ensures OpenAtEnd(items, open) >= 0 && end.includeLevel == OpenAtEnd(items, open) % U32
    decreases |items|
  {
    end := s;
    hide Moves, ItemText, ItemFits, OpenAfter;
    if items != [] {
      var mid := AcceptItem(s, items[0], open);
      end := AcceptItems(mid, items[1..], OpenAfter(items[0], open));
      Join(s, ItemText(items[0]), mid, ItemsText(items[1..]), end);
    }
  }

  lemma AcceptSubset(s: PState, d: Declaration, items: seq<Item>) returns (end: PState)
    requires d.DoctypeDecl? && s.handler == HandlerAfter(d, true) && s.documentEntity && s.includeLevel == 0
    requires ItemsFit(items, true, 0)
    ensures Runs(s, SubsetText(d, items), end) && end.handler == Prolog(2)
  {
    hide Moves, ItemsFit, ItemsText;
    end := s;
    if d.doctypeEnd.OpensSubset? {
      var bracket, close := Lexeme(TokCloseBracket, RoleDoctypeNone), Lexeme(TokDeclClose, RoleDoctypeClose);
      var mid := AcceptItems(s, items, 0);
      var five := mid.(handler := Doctype(5));
      end := mid.(handler := Prolog(2));
      Internal(mid, bracket, five);
      Doctype5(five, close, end);
      Move1(five, close, end);
      Move(mid, bracket, five, [close], end);
      assert [bracket] + [close] == [bracket, close];
      Join(s, ItemsText(items), mid, [bracket, close], end);
    }
  }

  lemma AcceptDoctypePart(s: PState, t: DoctypePart) returns (end: PState)
    requires s.handler == Prolog(1) && s.documentEntity && s.includeLevel == 0 && DoctypeFits(t)
    ensures Runs(s, DoctypeText(t), end) && (end.handler == Prolog(1) || end.handler == Prolog(2))
  {
    hide Moves, Runs, Reads, ItemsFit, MiscsText, SubsetText, Text, Ended;
    end := s;
    match t {
      case NoDoctype => Nowhere(s);
      case WithDoctype(d, items, after) =>
        var zero := s.(handler := Doctype(0));
        var mid := Ended(zero, d);
        EndedOutside(zero, d);
        Prolog1(s, OpenText(d), zero);
        Accept(zero, d);
        ReadsRuns(zero, Text(d), mid);
        end := AcceptSubset(mid, d, items);
        AcceptMiscs(end, after);
        Join(mid, SubsetText(d, items), end, MiscsText(after), end);
        Join(zero, Text(d), mid, SubsetText(d, items) + MiscsText(after), end);
        Move(s, OpenText(d), zero, Text(d) + (SubsetText(d, items) + MiscsText(after)), end);
    }
  }

  lemma Nowhere(s: PState)
    ensures Runs(s, [], s)
  {
  }

  lemma AcceptProlog(s: PState, before: seq<Misc>, t: DoctypePart) returns (end: PState)
    requires s.handler == Prolog(1) && s.documentEntity && s.includeLevel == 0 && DoctypeFits(t)
    ensures Runs(s, PrologText(before, t), end) && end.handler == Failed
  {
    hide Moves, Runs, DoctypeFits, DoctypeText, MiscsText;
    var start := Lexeme(TokInstanceStart, RoleInstanceStart);
    AcceptMiscs(s, before);
    var mid := AcceptDoctypePart(s, t);
    end := mid.(handler := Failed);
    if mid.handler == Prolog(1) {
      Prolog1(mid, start, end);
    } else {
      Prolog2(mid, start, end);
    }
    Move1(mid, start, end);
    Join(s, DoctypeText(t), mid, [start], end);
    Join(s, MiscsText(before), s, DoctypeText(t) + [start], end);
  }

  // ----- read

  // The deepest nesting of groups in element declarations, counted by the roles; `groups` are open before.
  function Highest(groups: int, text: seq<Lexeme>): (h: int)
    ensures groups <= h
    decreases |text|
  {
    if text == [] then groups else Max(groups, Highest(NextGroups(groups, text[0].role), text[1..]))
  }

  function GroupsAfter(groups: int, text: seq<Lexeme>): int
    decreases |text|
  {
    if text == [] then groups else GroupsAfter(NextGroups(groups, text[0].role), text[1..])
  }

  lemma {:induction false} HighestSplit(groups: int, a: seq<Lexeme>, b: seq<Lexeme>)
    ensures Highest(groups, a) <= Highest(groups, a + b) && Highest(GroupsAfter(groups, a), b) <= Highest(groups, a + b)
    decreases |a|
  {
    if a == [] {
      assert a + b == b;
    } else {
      assert (a + b)[1..] == a[1..] + b && (a + b)[0] == a[0];
      HighestSplit(NextGroups(groups, a[0].role), a[1..], b);
    }
  }

  // In a content specification the roles open and close the groups that the tokens do.
  predicate GroupCell(groups: int, t: Token, c: Cell) {
    c.Go? ==> NextGroups(groups, c.role) == groups + Delta(t)
  }

  lemma GroupCells(groups: int, t: Token, bare: bool)
    ensures GroupCell(groups, t, ContentSpecRow(t)) && GroupCell(groups, t, MixedRow(t, bare))
    ensures GroupCell(groups, t, ParticleRow(t)) && GroupCell(groups, t, AfterParticleRow(t))
  {
  }

  lemma ContentGroups(groups: int, h: Handler, t: Token)
    requires InContent(h)
    ensures GroupCell(groups, t, ElementRow(h, t))
  {
    hide ContentSpecRow, MixedRow, ParticleRow, AfterParticleRow;
    GroupCells(groups, t, true);
    GroupCells(groups, t, false);
  }

  lemma TakenGroups(groups: int, s: PState, l: Lexeme, next: PState)
    requires InContent(s.handler) && Takes(s, l, next)
    ensures NextGroups(groups, l.role) == groups + Delta(l.token)
    ensures InContent(next.handler) || next.handler == DeclClose
  {
    ContentGroups(groups, s.handler, l.token);
    ContentTaken(s, l, next);
    TakesRole(s, l, next);
    ContentGoesOn(s, l.token);
    hide Takes, NextGroups, ElementRow;
  }

  lemma {:induction false} ContentPeak(groups: int, s: PState, text: seq<Lexeme>, end: PState)
    requires (InContent(s.handler) || s.handler == DeclClose) && Reads(s, text, end) && !Open(end.handler)
    ensures Peak(groups, Tokens(text)) <= Highest(groups, text)
    decreases |text|
  {
    hide Takes, Reads;
    var l, rest, next := Head(s, text, end);
    assert Tokens(text) == [l.token] + Tokens(rest);
    NetFirst(groups, l.token, Tokens(rest));
    if InContent(s.handler) {
      TakenGroups(groups, s, l, next);
      ContentPeak(groups + Delta(l.token), next, rest, end);
    } else {
      ClosesLast(s, l, next, rest, end);
    }
  }

  lemma ClosesLast(s: PState, l: Lexeme, next: PState, rest: seq<Lexeme>, end: PState)
    requires s.handler == DeclClose && Takes(s, l, next) && Reads(next, rest, end)
    ensures rest == [] && Delta(l.token) == 0
  {
    TakesRole(s, l, next);
    ClosingRole(s, l, next);
    Closing(s, l, next);
    hide Takes;
    if rest != [] {
      var l2, rest2, next2 := Head(next, rest, end);
      TakesOpen(next, l2, next2);
    }
  }

  lemma ClosingRole(s: PState, l: Lexeme, next: PState)
    requires s.handler == DeclClose && Takes(s, l, next)
    ensures s.roleNone != RoleError
  {
    Declarations.CloseStep(s, l.token);
    hide Step;
  }

  lemma ElementPeak(groups: int, s: PState, text: seq<Lexeme>, end: PState)
    requires s.handler == Element(0) && Reads(s, text, end) && !Open(end.handler)
    ensures Peak(0, Tokens(text)) <= Max(0, Highest(groups, text))
  {
    hide Takes, Reads;
    var l, rest, next := Head(s, text, end);
    Element0(s, l, next);
    assert Tokens(text) == [l.token] + Tokens(rest);
    NetFirst(0, l.token, Tokens(rest));
    ContentPeak(0, next, rest, end);
  }

  function MiscOf(l: Lexeme): (m: Misc)
    requires IsMiscText(l, true)
    ensures MiscText(m) == l
  {
    if l.token.TokPi? then Instruction else if l.token.TokComment? then Remark else Mark
  }

  lemma {:induction false} ReadMiscs(s: PState, text: seq<Lexeme>, end: PState)
    returns (ms: seq<Misc>, rest: seq<Lexeme>)
    requires (s.handler == Prolog(1) || s.handler == Prolog(2)) && Runs(s, text, end) && end.handler == Failed
    ensures text == MiscsText(ms) + rest && Runs(s, rest, end)
    ensures s.handler == Prolog(2) ==> Mark !in ms
    ensures rest != [] && !IsMiscText(rest[0], s.handler == Prolog(1))
    decreases |text|
  {
    hide Moves, Runs, MiscText;
    var l, rest1, next := Ahead(s, text, end);
    if IsMiscText(l, s.handler == Prolog(1)) {
      if s.handler == Prolog(1) {
        Prolog1(s, l, next);
      } else {
        Prolog2(s, l, next);
      }
      MiscMoves(s, l, next);
      ms, rest := ReadMiscs(s, rest1, end);
      var more := ms;
      ms := [MiscOf(l)] + more;
      assert ms[1..] == more;
      Assoc([l], MiscsText(more), rest);
    } else {
      ms, rest := [], text;
    }
  }

  lemma MiscMoves(s: PState, l: Lexeme, next: PState)
    requires (s.handler == Prolog(1) || s.handler == Prolog(2)) && IsMiscText(l, s.handler == Prolog(1))
    requires Moves(s, l, next)
    ensures next == s && (s.handler == Prolog(2) ==> !MiscOf(l).Mark?)
  {
    if s.handler == Prolog(1) {
      Prolog1(s, l, next);
    } else {
      Prolog2(s, l, next);
    }
    hide Moves;
  }

  // The declaration whose opening token has just been taken.
  lemma ReadDeclared(s: PState, text: seq<Lexeme>, end: PState, groups: int)
    returns (d: Declaration, mid: PState, rest: seq<Lexeme>)
    requires IsFirst(s.handler) && Runs(s, text, end) && !Open(end.handler) && Highest(groups, text) <= U32
    ensures Fits(d) && s.handler == FirstHandler(d) && text == Text(d) + rest && rest != text
    ensures mid == Ended(s, d) && Runs(mid, rest, end)
  {
    hide Runs, Reads, Text, Ended, Fits, Peak, Highest, GroupsAfter;
    var a;
    a, mid, rest := SplitDeclaration(s, text, end);
    HighestSplit(groups, a, rest);
    if s.handler == Element(0) {
      ElementPeak(groups, s, a, mid);
    }
    d := Read(s, a, mid);
  }

  predicate IsEnd(s: PState, end: PState) {
    if s.documentEntity then end.handler == Failed else end.handler == ExternalSubset1
  }

  lemma ReadCondSect(s: PState, text: seq<Lexeme>, end: PState)
    returns (item: Item, mid: PState, rest: seq<Lexeme>)
    requires s.handler == CondSect(0) && Runs(s, text, end) && end.handler == ExternalSubset1
    ensures item.Include? || item.Ignore?
    ensures [Lexeme(TokCondSectOpen, RoleNone)] + text == ItemText(item) + rest && |rest| < |text|
    ensures mid == if item.Include? then s.(handler := ExternalSubset1, includeLevel := (s.includeLevel + 1) % U32)
                   else s.(handler := ExternalSubset1)
    ensures Runs(mid, rest, end)
  {
    hide Moves, Runs;
    var l, rest1, next := Ahead(s, text, end);
    CondSect0(s, l, next);
    var l2, rest2, next2 := Ahead(next, rest1, end);
    CondSectBracket(next, l2, next2);
    item := if l.token == TokName(KwInclude) then Include else Ignore;
    mid, rest := next2, rest2;
  }

  lemma ReadOpened(s: PState, l: Lexeme, next: PState)
    requires OpensDecl(l, next.handler) && next == s.(handler := next.handler)
    ensures IsFirst(next.handler) && next.handler != Doctype(0)
    ensures forall d :: FirstHandler(d) == next.handler ==> OpenText(d) == l && !d.DoctypeDecl?
  {
  }

  // One item of an internal subset, or what the internal and the external subset share.
  lemma ReadShared(s: PState, text: seq<Lexeme>, end: PState, groups: int)
    returns (item: Item, mid: PState, rest: seq<Lexeme>)
    requires IsTop(s) && Runs(s, text, end) && text != [] && IsEnd(s, end) && Highest(groups, text) <= U32
    requires SubsetMoves(s, text[0], Step(s, text[0].token).0)
    ensures item.Declared? || item.Piece? || item.Reference?
    ensures text == ItemText(item) + rest && |rest| < |text| && forall open :: ItemFits(item, s.documentEntity, open)
    ensures IsTop(mid) && mid.documentEntity == s.documentEntity && mid.includeLevel == s.includeLevel
    ensures Runs(mid, rest, end)
  {
    hide Moves, Runs, Highest, Text, Ended, Fits, Step;
    var l, rest1, next := Ahead(s, text, end);
    TopTaken(s, l, next);
    mid, rest := s, rest1;
    if OpensDecl(l, next.handler) {
      ReadOpened(s, l, next);
      var d;
      HighestSplit(groups, [l], rest1);
      d, mid, rest := ReadDeclared(next, rest1, end, GroupsAfter(groups, [l]));
      EndedOutside(next, d);
      item := Declared(d);
      Assoc([l], Text(d), rest);
    } else if l.token == TokParamEntityRef {
      item := Reference;
    } else {
      item := Piece(MiscOf(l));
    }
  }

  lemma TopTaken(s: PState, l: Lexeme, next: PState)
    requires Moves(s, l, next)
    ensures next == Step(s, l.token).0
  {
    hide Step;
  }

  lemma ReadItem(s: PState, text: seq<Lexeme>, end: PState, groups: int, open: nat)
    returns (item: Item, mid: PState, rest: seq<Lexeme>)
    requires IsTop(s) && Runs(s, text, end) && text != [] && IsEnd(s, end) && Highest(groups, text) <= U32
    requires s.includeLevel == open % U32 && (s.documentEntity ==> text[0].token != TokCloseBracket)
    ensures text == ItemText(item) + rest && |rest| < |text| && ItemFits(item, s.documentEntity, open)
    ensures IsTop(mid) && mid.documentEntity == s.documentEntity
    ensures OpenAfter(item, open) >= 0 && mid.includeLevel == OpenAfter(item, open) % U32
    ensures Runs(mid, rest, end)
  {
    hide Moves, Runs, Highest, Text, Fits, Step, SubsetMoves;
    var l, rest1, next := Ahead(s, text, end);
    TopTaken(s, l, next);
    if s.documentEntity {
      Internal(s, l, next);
    } else {
      External1(s, l, next);
    }
    if SubsetMoves(s, l, next) {
      item, mid, rest := ReadShared(s, text, end, groups);
      assert ItemFits(item, s.documentEntity, open);
    } else if l.token == TokNone {
      item, mid, rest := Nothing, s, rest1;
    } else if l.token == TokCondSectClose {
      item, mid, rest := EndInclude, next, rest1;
    } else {
      item, mid, rest := ReadCondSect(next, rest1, end);
    }
  }

  lemma ItemSplit(groups: int, item: Item, rest: seq<Lexeme>)
    ensures Highest(GroupsAfter(groups, ItemText(item)), rest) <= Highest(groups, ItemText(item) + rest)
  {
    HighestSplit(groups, ItemText(item), rest);
  }

  lemma {:induction false} ReadItems(s: PState, text: seq<Lexeme>, end: PState, groups: int, open: nat)
    returns (items: seq<Item>, mid: PState, rest: seq<Lexeme>)
    requires IsTop(s) && Runs(s, text, end) && IsEnd(s, end) && Highest(groups, text) <= U32
    requires s.includeLevel == open % U32
    ensures text == ItemsText(items) + rest && ItemsFit(items, s.documentEntity, open)
    ensures IsTop(mid) && mid.documentEntity == s.documentEntity && Runs(mid, rest, end)
    ensures OpenAtEnd(items, open) >= 0 && mid.includeLevel == OpenAtEnd(items, open) % U32
    ensures if s.documentEntity then rest != [] && rest[0].token == TokCloseBracket else rest == [] && mid == end
    decreases |text|
  {
    hide Moves, Highest, GroupsAfter, ItemText, ItemFits, OpenAfter;
    if text == [] || (s.documentEntity && text[0].token == TokCloseBracket) {
      items, mid, rest := [], s, text;
    } else {
      hide Runs;
      var item, s1, rest1 := ReadItem(s, text, end, groups, open);
      ItemSplit(groups, item, rest1);
      items, mid, rest := ReadItems(s1, rest1, end, GroupsAfter(groups, ItemText(item)), OpenAfter(item, open));
      var more := items;
      items := [item] + more;
      assert items[1..] == more;
      Assoc(ItemText(item), ItemsText(more), rest);
    }
  }

  // ']' S? '>' and what precedes it
  lemma ReadSubset(s: PState, text: seq<Lexeme>, end: PState, groups: int)
    returns (items: seq<Item>, mid: PState, rest: seq<Lexeme>)
    requires s.handler == InternalSubset && s.documentEntity && s.includeLevel == 0
    requires Runs(s, text, end) && end.handler == Failed && Highest(groups, text) <= U32
    ensures ItemsFit(items, true, 0) && mid.handler == Prolog(2) && Runs(mid, rest, end)
    ensures text == ItemsText(items)
                    + [Lexeme(TokCloseBracket, RoleDoctypeNone), Lexeme(TokDeclClose, RoleDoctypeClose)] + rest
  {
    hide Moves, Runs, Highest, ItemsFit, ItemsText;
    var rest1;
    items, mid, rest1 := ReadItems(s, text, end, groups, 0);
    var l, rest2, next := Ahead(mid, rest1, end);
    CloseBracketTaken(mid, l, next);
    var l2, rest3, next2 := Ahead(next, rest2, end);
    Doctype5(next, l2, next2);
    mid, rest := next2, rest3;
    assert [l, l2] + rest == rest1;
    Assoc(ItemsText(items), [l, l2], rest);
  }

  lemma CloseBracketTaken(s: PState, l: Lexeme, next: PState)
    requires s.handler == InternalSubset && Moves(s, l, next) && l.token == TokCloseBracket
    ensures l == Lexeme(TokCloseBracket, RoleDoctypeNone) && next == s.(handler := Doctype(5))
  {
    Internal(s, l, next);
    hide Moves;
  }

  // After `<!DOCTYPE`.
  lemma ReadDoctypePart(s: PState, text: seq<Lexeme>, end: PState, groups: int)
    returns (t: DoctypePart, mid: PState, rest: seq<Lexeme>)
    requires s.handler == Doctype(0) && s.documentEntity && s.includeLevel == 0
    requires Runs(s, text, end) && end.handler == Failed && Highest(groups, text) <= U32
    ensures t.WithDoctype? && DoctypeFits(t) && mid.handler == Prolog(2) && Runs(mid, rest, end)
    ensures [Lexeme(TokDeclOpen(KwDoctype), RoleDoctypeNone)] + text == DoctypeText(t) + rest
    ensures rest != [] && !IsMiscText(rest[0], false)
  {
    hide Moves, Runs, Highest, GroupsAfter, ItemsFit, ItemsText, MiscsText, Text, Ended, IsMiscText;
    var d, mid1, rest1 := ReadDeclared(s, text, end, groups);
    HighestSplit(groups, Text(d), rest1);
    EndedOutside(s, d);
    var items, rest2 := [], rest1;
    mid := mid1;
    NothingFits();
    if d.doctypeEnd.OpensSubset? {
      items, mid, rest2 := ReadSubset(mid1, rest1, end, GroupsAfter(groups, Text(d)));
    }
    var after;
    after, rest := ReadMiscs(mid, rest2, end);
    t := WithDoctype(d, items, after);
    SubsetIs(d, items, rest1, rest2);
    var open := Lexeme(TokDeclOpen(KwDoctype), RoleDoctypeNone);
    Assoc(SubsetText(d, items), MiscsText(after), rest);
    Assoc(Text(d), SubsetText(d, items) + MiscsText(after), rest);
    Assoc([open], Text(d) + (SubsetText(d, items) + MiscsText(after)), rest);
  }

  lemma NothingFits()
    ensures ItemsFit([], true, 0)
  {
  }

  lemma SubsetIs(d: Declaration, items: seq<Item>, text: seq<Lexeme>, rest: seq<Lexeme>)
    requires d.DoctypeDecl?
    requires text == if d.doctypeEnd.Closes? then rest
                     else ItemsText(items) + [Lexeme(TokCloseBracket, RoleDoctypeNone),
                       Lexeme(TokDeclClose, RoleDoctypeClose)] + rest
    ensures text == SubsetText(d, items) + rest
  {
    hide ItemsText;
  }

  lemma ReadProlog(s: PState, text: seq<Lexeme>, end: PState) returns (before: seq<Misc>, t: DoctypePart)
    requires s.handler == Prolog(1) && s.documentEntity && s.includeLevel == 0
    requires Runs(s, text, end) && end.handler == Failed && Highest(0, text) <= U32
    ensures DoctypeFits(t) && text == PrologText(before, t)
  {
    hide Moves, Runs, Highest, GroupsAfter, DoctypeFits, DoctypeText, MiscsText, IsMiscText;
    var rest, mid, rest1;
    before, rest := ReadMiscs(s, text, end);
    var l, rest0, next := Ahead(s, rest, end);
    NoMoreMisc(s, l, next);
    HighestSplit(0, MiscsText(before), rest);
    HighestSplit(GroupsAfter(0, MiscsText(before)), [l], rest0);
    if l.token == TokInstanceStart {
      t := NoDoctype;
      InstanceLast(next, rest0, end);
      NoDoctypeFits();
    } else {
      t, mid, rest1 := ReadDoctypePart(next, rest0, end, GroupsAfter(GroupsAfter(0, MiscsText(before)), [l]));
      var l2, rest2, next2 := Ahead(mid, rest1, end);
      NoMoreMisc(mid, l2, next2);
      InstanceLast(next2, rest2, end);
      assert rest1 == [l2];
    }
  }

  lemma NoDoctypeFits()
    ensures DoctypeFits(NoDoctype) && DoctypeText(NoDoctype) == []
  {
  }

  lemma NoMoreMisc(s: PState, l: Lexeme, next: PState)
    requires s.handler == Prolog(1) || s.handler == Prolog(2)
    requires Moves(s, l, next) && !IsMiscText(l, s.handler == Prolog(1))
    ensures (l == Lexeme(TokInstanceStart, RoleInstanceStart) && next.handler == Failed)
            || (s.handler == Prolog(1) && l == Lexeme(TokDeclOpen(KwDoctype), RoleDoctypeNone) && next ==
              s.(handler := Doctype(0)))
  {
    if s.handler == Prolog(1) {
      Prolog1(s, l, next);
    } else {
      Prolog2(s, l, next);
    }
    hide Moves;
  }

  // After the start of the root element the prolog is over.
  lemma InstanceLast(s: PState, text: seq<Lexeme>, end: PState)
    requires s.handler == Failed && Runs(s, text, end)
    ensures text == []
  {
    hide Step;
  }

  // ----- blanks

  // Every token is answered without an error, and none comes after the end.
  predicate Alive(s: PState, toks: seq<Token>)
    decreases |toks|
  {
    toks != [] ==>
      s.handler != Failed && Step(s, toks[0]).1 != RoleError && Alive(Step(s, toks[0]).0, toks[1..])
  }

  // The two handlers that white space leaves.
  predicate IsInitial(h: Handler) {
    h == Prolog(0) || h == ExternalSubset0
  }

  lemma OutsideBlank(s: PState, t: Token)
    requires s.handler.Prolog? || s.handler == InternalSubset || s.handler == ExternalSubset1 || s.handler.CondSect?
    requires !IsInitial(s.handler) && IsBlank(Lexeme(t, Step(s, t).1)) && Step(s, t).1 != RoleError
    ensures Step(s, t).0 == s
  {
    if s.handler.Prolog? {
      assert Row(s, t) == PrologRow(s.handler, t);
    } else if s.handler.CondSect? {
      assert Row(s, t) == CondSectRow(s.handler, t);
    } else {
      assert Row(s, t) == OtherRow(s, t);
    }
    hide Row;
  }

  /** A blank changes nothing anywhere else. */
  lemma BlankStays(s: PState, t: Token)
    requires s.handler != Failed && !IsInitial(s.handler)
    requires IsBlank(Lexeme(t, Step(s, t).1)) && Step(s, t).1 != RoleError
    ensures Step(s, t).0 == s
  {
    if Open(s.handler) {
      if !Blank(s.documentEntity, t) {
        NoBlank(s, t);
        assert false;
      }
      BlankAnswer(s, t);
      hide Step;
    } else {
      OutsideBlank(s, t);
      hide Step;
    }
  }

  predicate MovesOn(c: Cell) {
    c.Go? ==> !IsInitial(c.next)
  }

  lemma OtherMovesOn(s: PState, t: Token)
    requires !IsInitial(s.handler)
    ensures MovesOn(OtherRow(s, t))
  {
  }

  lemma PrologMovesOn(h: Handler, t: Token)
    requires h.Prolog? && h != Prolog(0)
    ensures MovesOn(PrologRow(h, t))
  {
  }

  lemma DoctypeMovesOn(h: Handler, t: Token)
    requires h.Doctype?
    ensures MovesOn(DoctypeRow(h, t))
  {
  }

  lemma CondSectMovesOn(h: Handler, t: Token)
    requires h.CondSect?
    ensures MovesOn(CondSectRow(h, t))
  {
  }

  lemma DeclMovesOn(h: Handler, t: Token, documentEntity: bool, c: Cell)
    requires InDecl(h) && DeclCell(h, t, TopLevel(documentEntity), c)
    ensures MovesOn(c)
  {
  }

  lemma RowMovesOn(s: PState, t: Token)
    requires !IsInitial(s.handler)
    ensures MovesOn(Row(s, t))
  {
    hide MovesOn, DeclCell, PrologRow, DoctypeRow, CondSectRow, OtherRow, ObjectsRow, NotationRow, AttlistRow,
      ElementRow;
    match s.handler {
      case Prolog(_) => PrologMovesOn(s.handler, t);
      case Doctype(_) => DoctypeMovesOn(s.handler, t);
      case CondSect(_) => CondSectMovesOn(s.handler, t);
      case _ =>
        if InDecl(s.handler) {
          DeclStep(s, t);
          DeclMovesOn(s.handler, t, s.documentEntity, Row(s, t));
        } else {
          OtherMovesOn(s, t);
        }
    }
  }

  lemma NeverInitial(s: PState, t: Token)
    requires !IsInitial(s.handler)
    ensures !IsInitial(Step(s, t).0.handler)
  {
    RowMovesOn(s, t);
    hide Row;
  }

  lemma MovesStep(s: PState, t: Token)
    requires s.handler != Failed && !IsBlank(Lexeme(t, Step(s, t).1)) && Step(s, t).1 != RoleError
    ensures Moves(s, Lexeme(t, Step(s, t).1), Step(s, t).0)
  {
    hide Step;
  }

  lemma {:induction false} SolidRuns(s: PState, toks: seq<Token>)
    requires Alive(s, toks) && !IsInitial(s.handler)
    ensures Runs(s, Solid(Told(s, toks)), RunState(s, toks))
    decreases |toks|
  {
    hide Step, Moves, Solid, Runs, IsBlank;
    if toks == [] {
      NothingTold(s);
      Nowhere(s);
    } else {
      var t, rest, next := toks[0], toks[1..], Step(s, toks[0]).0;
      var l := Lexeme(t, Step(s, t).1);
      NeverInitial(s, t);
      SolidRuns(next, rest);
      TellSolid(l, Told(next, rest));
      if IsBlank(l) {
        BlankStays(s, t);
        assert Solid(Told(s, toks)) == Solid(Told(next, rest));
      } else {
        MovesStep(s, t);
        Move(s, l, next, Solid(Told(next, rest)), RunState(s, toks));
      }
    }
  }

  lemma OutsideSpace(s: PState, l: Lexeme, next: PState)
    requires s.handler.Prolog? || s.handler == InternalSubset || s.handler == ExternalSubset1 || s.handler.CondSect?
    requires !IsInitial(s.handler) && Moves(s, l, next)
    ensures Step(s, TokS) == (s, RoleNone)
  {
    if s.handler.Prolog? {
      assert Row(s, TokS) == PrologRow(s.handler, TokS) && Row(s, l.token) == PrologRow(s.handler, l.token);
    } else if s.handler.CondSect? {
      assert Row(s, TokS) == CondSectRow(s.handler, TokS);
    } else {
      assert Row(s, TokS) == OtherRow(s, TokS);
    }
    hide Row;
  }

  lemma SpaceStays(s: PState, l: Lexeme, next: PState)
    requires !IsInitial(s.handler) && Moves(s, l, next)
    ensures Step(s, TokS).0 == s && Step(s, TokS).1 != RoleError
  {
    if Open(s.handler) {
      MovesInside(s, l, next);
      BlankNoError(s, TokS, l, next);
      BlankAnswer(s, TokS);
    } else {
      OutsideSpace(s, l, next);
    }
    hide Step;
  }

  lemma {:induction false} RunOfText(s: PState, toks: seq<Token>, text: seq<Lexeme>, end: PState)
    requires Runs(s, text, end) && DropBlanks(true, toks) == Tokens(text) && !IsInitial(s.handler)
    requires toks != [] ==> toks[|toks| - 1] != TokS
    ensures Alive(s, toks) && RunState(s, toks) == end && Solid(Told(s, toks)) == text
    decreases |toks|
  {
    hide Step, Moves, IsBlank, Runs, Solid;
    if toks == [] {
      NothingTold(s);
      assert text == [];
      RanNowhere(s, end);
    } else {
      var t, rest := toks[0], toks[1..];
      LastSolid(true, toks);
      var l, text1, next := Ahead(s, text, end);
      TellSolid(l, text1);
      TellSolid(Lexeme(t, Step(s, t).1), Told(Step(s, t).0, rest));
      MovesIs(s, l, next);
      if t.TokS? {
        SpaceStays(s, l, next);
        SpaceLexeme(Lexeme(t, Step(s, t).1));
        assert DropBlanks(true, toks) == DropBlanks(true, rest);
        RunOfText(s, rest, text, end);
        assert Solid(Told(s, toks)) == Solid(Told(s, rest));
      } else {
        assert DropBlanks(true, toks) == [t] + DropBlanks(true, rest);
        assert l.token == ([l.token] + Tokens(text1))[0] == ([t] + DropBlanks(true, rest))[0] == t;
        assert Tokens(text1) == ([l.token] + Tokens(text1))[1..] == DropBlanks(true, rest);
        NeverInitial(s, t);
        RunOfText(next, rest, text1, end);
      }
    }
  }

  lemma RanNowhere(s: PState, end: PState)
    requires Runs(s, [], end)
    ensures s == end
  {
  }

  lemma SpaceLexeme(l: Lexeme)
    requires l.token.TokS?
    ensures IsBlank(l)
  {
  }

  lemma MovesIs(s: PState, l: Lexeme, next: PState)
    requires Moves(s, l, next)
    ensures s.handler != Failed && Step(s, l.token) == (next, l.role) && l.role != RoleError && !IsBlank(l)
  {
    hide Step;
  }

  // ----- documents

  // The root element begins with the last of the tokens, and none of them is an error.
  predicate Accepted(s: PState, toks: seq<Token>) {
    Alive(s, toks) && RunState(s, toks).handler == Failed
  }

  predicate IsDocumentStart(s: PState) {
    s.handler == Prolog(0) && s.documentEntity && s.includeLevel == 0
  }

  ghost predicate IsProlog(toks: seq<Token>) {
    toks != [] && toks[|toks| - 1] != TokS &&
    exists before, t :: DoctypeFits(t) && DropBlanks(true, toks) == Tokens(PrologText(before, t))
  }

  // An XML declaration with nothing but byte order marks before it.
  predicate HasXmlDecl(toks: seq<Token>, n: nat) {
    n < |toks| && toks[n] == TokXmlDecl && forall i :: 0 <= i < n ==> toks[i] == TokBom
  }

  ghost predicate IsDocument(toks: seq<Token>) {
    IsProlog(toks) || exists n :: HasXmlDecl(toks, n) && IsProlog(toks[n + 1..])
  }

  function MarksText(n: nat): seq<Lexeme> {
    if n == 0 then [] else [Lexeme(TokBom, RoleNone)] + MarksText(n - 1)
  }

  function XmlDeclText(n: nat): seq<Lexeme> {
    MarksText(n) + [Lexeme(TokXmlDecl, RoleXmlDecl)]
  }

  lemma Prolog0Bom(s: PState)
    requires s.handler == Prolog(0) || s.handler == Prolog(1)
    ensures Step(s, TokBom) == (s, RoleNone)
  {
    assert s.handler == Prolog(0) ==> Row(s, TokBom) == Prolog0Row(TokBom);
    assert s.handler == Prolog(1) ==> Row(s, TokBom) == BeforeDoctypeRow(TokBom, Prolog(1));
    hide Row;
  }

  lemma Prolog0XmlDecl(s: PState)
    requires s.handler == Prolog(0)
    ensures Step(s, TokXmlDecl) == (s.(handler := Prolog(1)), RoleXmlDecl)
  {
    assert Row(s, TokXmlDecl) == Prolog0Row(TokXmlDecl);
    hide Row;
  }

  lemma Prolog0Other(s: PState, t: Token)
    requires s.handler == Prolog(0) && s.documentEntity && t != TokBom && t != TokXmlDecl
    ensures Step(s, t) == Step(s.(handler := Prolog(1)), t)
  {
    assert Row(s, t) == Prolog0Row(t) == Row(s.(handler := Prolog(1)), t);
    hide Row;
  }

  // Two runs that say the same.
  predicate SameRun(s: PState, toks: seq<Token>, start: seq<Lexeme>, s1: PState, toks1: seq<Token>) {
    && Told(s, toks) == start + Told(s1, toks1)
    && (Alive(s, toks) <==> Alive(s1, toks1))
    && RunState(s, toks) == RunState(s1, toks1)
  }

  lemma SameNext(s: PState, toks: seq<Token>, start: seq<Lexeme>, s1: PState, toks1: seq<Token>)
    requires s.handler != Failed && toks != [] && Step(s, toks[0]).1 != RoleError
    requires SameRun(Step(s, toks[0]).0, toks[1..], start, s1, toks1)
    ensures SameRun(s, toks, [Lexeme(toks[0], Step(s, toks[0]).1)] + start, s1, toks1)
  {
    hide Step;
    Assoc([Lexeme(toks[0], Step(s, toks[0]).1)], start, Told(s1, toks1));
  }

  lemma SameItself(s: PState, toks: seq<Token>)
    ensures SameRun(s, toks, [], s, toks)
  {
    hide Step;
  }

  lemma {:induction false} AfterXmlDecl(s: PState, toks: seq<Token>, n: nat)
    requires s.handler == Prolog(0) && s.documentEntity && HasXmlDecl(toks, n)
    ensures SameRun(s, toks, XmlDeclText(n), s.(handler := Prolog(1)), toks[n + 1..])
    decreases n
  {
    var s1 := s.(handler := Prolog(1));
    hide Step, SameRun;
    if n == 0 {
      Prolog0XmlDecl(s);
      SameItself(s1, toks[1..]);
      SameNext(s, toks, [], s1, toks[1..]);
      assert XmlDeclText(0) == [Lexeme(TokXmlDecl, RoleXmlDecl)] + [];
    } else {
      Prolog0Bom(s);
      AfterXmlDecl(s, toks[1..], n - 1);
      assert toks[1..][n..] == toks[n + 1..];
      SameNext(s, toks, XmlDeclText(n - 1), s1, toks[n + 1..]);
      Assoc([Lexeme(TokBom, RoleNone)], MarksText(n - 1), [Lexeme(TokXmlDecl, RoleXmlDecl)]);
    }
  }

  // Without an XML declaration prolog0 and prolog1 say the same.
  lemma {:induction false} WithoutXmlDecl(s: PState, toks: seq<Token>)
    requires s.handler == Prolog(0) && s.documentEntity && (forall n :: !HasXmlDecl(toks, n))
    ensures Told(s, toks) == Told(s.(handler := Prolog(1)), toks)
    ensures Alive(s, toks) <==> Alive(s.(handler := Prolog(1)), toks)
    ensures RunState(s, toks).handler == Failed <==> RunState(s.(handler := Prolog(1)), toks).handler == Failed
    decreases |toks|
  {
    hide Step;
    if toks != [] {
      assert !HasXmlDecl(toks, 0);
      if toks[0] != TokBom {
        Prolog0Other(s, toks[0]);
      } else {
        Prolog0Bom(s);
        Prolog0Bom(s.(handler := Prolog(1)));
        forall n: nat ensures !HasXmlDecl(toks[1..], n) {
          assert !HasXmlDecl(toks, n + 1);
        }
        WithoutXmlDecl(s, toks[1..]);
      }
    }
  }

  lemma ReadFromProlog1(s: PState, toks: seq<Token>) returns (before: seq<Misc>, t: DoctypePart)
    requires s.handler == Prolog(1) && s.documentEntity && s.includeLevel == 0
    requires Accepted(s, toks) && Highest(0, Solid(Told(s, toks))) <= U32
    ensures DoctypeFits(t) && Solid(Told(s, toks)) == PrologText(before, t)
  {
    hide Step, Runs, Solid, Told, Highest, PrologText, DoctypeFits;
    SolidRuns(s, toks);
    before, t := ReadProlog(s, Solid(Told(s, toks)), RunState(s, toks));
  }

  lemma AcceptFromProlog1(s: PState, toks: seq<Token>, before: seq<Misc>, t: DoctypePart)
    requires s.handler == Prolog(1) && s.documentEntity && s.includeLevel == 0 && DoctypeFits(t)
    requires toks != [] && toks[|toks| - 1] != TokS && DropBlanks(true, toks) == Tokens(PrologText(before, t))
    ensures Accepted(s, toks) && Solid(Told(s, toks)) == PrologText(before, t)
  {
    hide Step, Runs, Solid, Told, PrologText, DoctypeFits;
    var end := AcceptProlog(s, before, t);
    RunOfText(s, toks, PrologText(before, t), end);
  }

  // In a document entity white space is the only blank.
  lemma OnlySpaceIsBlank(s: PState, t: Token)
    requires s.documentEntity && Step(s, t).1 != RoleError
    ensures IsBlank(Lexeme(t, Step(s, t).1)) <==> t.TokS?
  {
    if Open(s.handler) {
      if t != TokS {
        NoBlank(s, t);
      }
    } else if t.TokParamEntityRef? {
      if s.handler.Prolog? {
        assert Row(s, t) == PrologRow(s.handler, t);
      } else if s.handler.CondSect? {
        assert Row(s, t) == CondSectRow(s.handler, t);
      } else {
        assert Row(s, t) == OtherRow(s, t);
      }
    }
    hide Step;
  }

  lemma {:induction false} DocumentTokens(s: PState, toks: seq<Token>)
    requires Alive(s, toks) && !IsInitial(s.handler) && s.documentEntity
    ensures Tokens(Solid(Told(s, toks))) == DropBlanks(true, toks)
    decreases |toks|
  {
    hide Step, Solid, IsBlank;
    if toks == [] {
      NothingTold(s);
    } else {
      var t, rest, next := toks[0], toks[1..], Step(s, toks[0]).0;
      var l := Lexeme(t, Step(s, t).1);
      NeverInitial(s, t);
      StepKeepsEntity(s, t);
      DocumentTokens(next, rest);
      TellSolid(l, Told(next, rest));
      TellSolid(l, Solid(Told(next, rest)));
      OnlySpaceIsBlank(s, t);
      if t.TokS? {
        BlankStays(s, t);
        assert Solid(Told(s, toks)) == Solid(Told(next, rest));
        assert DropBlanks(true, toks) == DropBlanks(true, rest);
      } else {
        assert DropBlanks(true, toks) == [t] + DropBlanks(true, rest);
      }
    }
  }

  lemma {:induction false} LastIsNoSpace(s: PState, toks: seq<Token>)
    requires Alive(s, toks) && !IsInitial(s.handler) && toks != [] && RunState(s, toks).handler == Failed
    ensures toks[|toks| - 1] != TokS
    decreases |toks|
  {
    hide Step, IsBlank;
    var t, rest := toks[0], toks[1..];
    NeverInitial(s, t);
    if rest != [] {
      LastIsNoSpace(Step(s, t).0, rest);
    } else if t.TokS? {
      SpaceLexeme(Lexeme(t, Step(s, t).1));
      BlankStays(s, t);
    }
  }

  lemma IsPrologExactly(s: PState, toks: seq<Token>)
    requires s.handler == Prolog(1) && s.documentEntity && s.includeLevel == 0
    requires Highest(0, Solid(Told(s, toks))) <= U32
    ensures Accepted(s, toks) <==> IsProlog(toks)
  {
    hide Step, Solid, Told, Highest, PrologText, DoctypeFits, Alive;
    if Accepted(s, toks) {
      var before, t := ReadFromProlog1(s, toks);
      DocumentTokens(s, toks);
      NothingTold(s);
      LastIsNoSpace(s, toks);
    }
    if IsProlog(toks) {
      var before, t :| DoctypeFits(t) && DropBlanks(true, toks) == Tokens(PrologText(before, t));
      AcceptFromProlog1(s, toks, before, t);
    }
  }

  lemma {:induction false} MarksSolid(n: nat, text: seq<Lexeme>)
    ensures Solid(XmlDeclText(n) + text) == XmlDeclText(n) + Solid(text)
    decreases n
  {
    var mark, decl := Lexeme(TokBom, RoleNone), Lexeme(TokXmlDecl, RoleXmlDecl);
    if n == 0 {
      assert XmlDeclText(0) == [decl];
      TellSolid(decl, text);
    } else {
      MarksSolid(n - 1, text);
      assert XmlDeclText(n) == [mark] + XmlDeclText(n - 1);
      Assoc([mark], XmlDeclText(n - 1), text);
      Assoc([mark], XmlDeclText(n - 1), Solid(text));
      TellSolid(mark, XmlDeclText(n - 1) + text);
    }
  }

  lemma {:induction false} MarksHighest(n: nat, text: seq<Lexeme>)
    ensures Highest(0, text) <= Highest(0, XmlDeclText(n) + text)
    decreases n
  {
    if n == 0 {
      assert XmlDeclText(0) + text == [Lexeme(TokXmlDecl, RoleXmlDecl)] + text;
      assert ([Lexeme(TokXmlDecl, RoleXmlDecl)] + text)[1..] == text;
    } else {
      MarksHighest(n - 1, text);
      assert XmlDeclText(n) + text == [Lexeme(TokBom, RoleNone)] + (XmlDeclText(n - 1) + text);
      assert ([Lexeme(TokBom, RoleNone)] + (XmlDeclText(n - 1) + text))[1..] == XmlDeclText(n - 1) + text;
    }
  }

  lemma OneXmlDecl(toks: seq<Token>, n: nat)
    requires HasXmlDecl(toks, n)
    ensures !IsProlog(toks)
  {
    hide DoctypeFits, DoctypeText;
    if IsProlog(toks) {
      var before, t :| DoctypeFits(t) && DropBlanks(true, toks) == Tokens(PrologText(before, t));
      KeepsXmlDecl(toks, n);
      NoXmlDecl(before, t, n);
    }
  }

  lemma {:induction false} KeepsXmlDecl(toks: seq<Token>, n: nat)
    requires HasXmlDecl(toks, n)
    ensures HasXmlDecl(DropBlanks(true, toks), n)
    decreases n
  {
    if n != 0 {
      assert HasXmlDecl(toks[1..], n - 1);
      KeepsXmlDecl(toks[1..], n - 1);
    }
  }

  lemma PrologFirst(t: DoctypePart)
    ensures |PrologText([], t)| > 0
    ensures var first := Tokens(PrologText([], t))[0]; first.TokInstanceStart? || first.TokDeclOpen?
  {
    hide Text, SubsetText;
    var text := PrologText([], t);
    assert Tokens(text)[0] == text[0].token;
    assert text == DoctypeText(t) + [Lexeme(TokInstanceStart, RoleInstanceStart)];
  }

  lemma PrologNext(before: seq<Misc>, t: DoctypePart)
    requires before != []
    ensures PrologText(before, t) == [MiscText(before[0])] + PrologText(before[1..], t)
  {
    hide DoctypeText, MiscText;
  }

  // After the marks of a prolog text comes no XML declaration.
  lemma {:induction false} NoXmlDecl(before: seq<Misc>, t: DoctypePart, n: nat)
    ensures !HasXmlDecl(Tokens(PrologText(before, t)), n)
    decreases n
  {
    hide PrologText;
    var text := PrologText(before, t);
    if HasXmlDecl(Tokens(text), n) {
      if before == [] {
        PrologFirst(t);
      } else {
        PrologNext(before, t);
        assert Tokens(text)[0] == MiscText(before[0]).token;
        assert Tokens(PrologText(before[1..], t)) == Tokens(text)[1..];
        NoXmlDecl(before[1..], t, n - 1);
      }
    }
  }

  /** The token strings that lead from XmlPrologStateInit to the root element
      without an error are exactly the prologs of XML 1.0, white space anywhere
      but before the XML declaration. */
  lemma DocumentsExactly(s: PState, toks: seq<Token>)
    requires IsDocumentStart(s) && Highest(0, Solid(Told(s, toks))) <= U32
    ensures Accepted(s, toks) <==> IsDocument(toks)
  {
    hide Step, Solid, Told, Highest, PrologText, DoctypeFits, Alive, IsProlog;
    var s1 := s.(handler := Prolog(1));
    if n :| HasXmlDecl(toks, n) {
      FromXmlDecl(s, toks, n);
      IsPrologExactly(s1, toks[n + 1..]);
      OneXmlDecl(toks, n);
      forall m: nat | HasXmlDecl(toks, m) ensures m == n {
        SameXmlDecl(toks, m, n);
      }
    } else {
      WithoutXmlDecl(s, toks);
      IsPrologExactly(s1, toks);
    }
  }

  lemma SameXmlDecl(toks: seq<Token>, m: nat, n: nat)
    requires HasXmlDecl(toks, m) && HasXmlDecl(toks, n)
    ensures m == n
  {
  }

  lemma FromXmlDecl(s: PState, toks: seq<Token>, n: nat)
    requires IsDocumentStart(s) && HasXmlDecl(toks, n)
    ensures var s1 := s.(handler := Prolog(1));
            && (Accepted(s, toks) <==> Accepted(s1, toks[n + 1..]))
            && Solid(Told(s, toks)) == XmlDeclText(n) + Solid(Told(s1, toks[n + 1..]))
            && Highest(0, Solid(Told(s1, toks[n + 1..]))) <= Highest(0, Solid(Told(s, toks)))
  {
    hide Step, Highest;
    var s1 := s.(handler := Prolog(1));
    AfterXmlDecl(s, toks, n);
    MarksSolid(n, Told(s1, toks[n + 1..]));
    MarksHighest(n, Solid(Told(s1, toks[n + 1..])));
  }

  /** ... and their tokens are answered with the roles of the text. */
  lemma DocumentRead(s: PState, toks: seq<Token>) returns (start: seq<Lexeme>, before: seq<Misc>, t: DoctypePart)
    requires IsDocumentStart(s) && Accepted(s, toks) && Highest(0, Solid(Told(s, toks))) <= U32
    ensures DoctypeFits(t) && Solid(Told(s, toks)) == start + PrologText(before, t)
    ensures start == [] || exists n :: HasXmlDecl(toks, n) && start == XmlDeclText(n)
  {
    hide Step, Solid, Told, Highest, PrologText, DoctypeFits, Alive, IsProlog;
    var s1 := s.(handler := Prolog(1));
    if n :| HasXmlDecl(toks, n) {
      FromXmlDecl(s, toks, n);
      before, t := ReadFromProlog1(s1, toks[n + 1..]);
      start := XmlDeclText(n);
    } else {
      WithoutXmlDecl(s, toks);
      before, t := ReadFromProlog1(s1, toks);
      start := [];
    }
  }

  /** Every prolog, with white space anywhere, is accepted from XmlPrologStateInit on. */
  lemma DocumentAccepted(s: PState, toks: seq<Token>, before: seq<Misc>, t: DoctypePart)
    requires IsDocumentStart(s) && DoctypeFits(t)
    requires toks != [] && toks[|toks| - 1] != TokS && DropBlanks(true, toks) == Tokens(PrologText(before, t))
    ensures Accepted(s, toks) && Solid(Told(s, toks)) == PrologText(before, t)
  {
    hide Step, Solid, Told, PrologText, DoctypeFits, Alive;
    assert IsProlog(toks);
    forall n: nat ensures !HasXmlDecl(toks, n) {
      if HasXmlDecl(toks, n) {
        OneXmlDecl(toks, n);
      }
    }
    WithoutXmlDecl(s, toks);
    AcceptFromProlog1(s.(handler := Prolog(1)), toks, before, t);
  }

  /** ... and with an XML declaration before it, which only byte order marks may precede. */
  lemma DeclaredDocumentAccepted(s: PState, toks: seq<Token>, n: nat, before: seq<Misc>, t: DoctypePart)
    requires IsDocumentStart(s) && DoctypeFits(t) && HasXmlDecl(toks, n)
    requires var more := toks[n + 1..];
             more != [] && more[|more| - 1] != TokS && DropBlanks(true, more) == Tokens(PrologText(before, t))
    ensures Accepted(s, toks) && Solid(Told(s, toks)) == XmlDeclText(n) + PrologText(before, t)
  {
    hide Step, Solid, Told, Highest, PrologText, DoctypeFits, Alive;
    FromXmlDecl(s, toks, n);
    AcceptFromProlog1(s.(handler := Prolog(1)), toks[n + 1..], before, t);
  }

  // ----- external subsets

  predicate IsSubsetStart(s: PState) {
    s.handler == ExternalSubset0 && !s.documentEntity && s.includeLevel == 0
  }

  // The subset ends outside of declarations, without an error.
  predicate SubsetAccepted(s: PState, toks: seq<Token>) {
    Alive(s, toks) && RunState(s, toks).handler == ExternalSubset1
  }

  // externalSubset0 takes a text declaration; with any other token it is externalSubset1.
  lemma ExternalStart(s: PState, toks: seq<Token>)
    requires IsSubsetStart(s) && toks != []
    ensures var s1 := s.(handler := ExternalSubset1);
            if toks[0] == TokXmlDecl
            then Told(s, toks) == [Lexeme(TokXmlDecl, RoleTextDecl)] + Told(s1, toks[1..])
                 && (SubsetAccepted(s, toks) <==> SubsetAccepted(s1, toks[1..]))
            else Told(s, toks) == Told(s1, toks) && (SubsetAccepted(s, toks) <==> SubsetAccepted(s1, toks))
  {
    ExternalFirst(s, toks[0]);
    hide Step;
  }

  lemma ExternalFirst(s: PState, t: Token)
    requires s.handler == ExternalSubset0
    ensures Step(s, t) == if t == TokXmlDecl then (s.(handler := ExternalSubset1), RoleTextDecl)
                          else Step(s.(handler := ExternalSubset1), t)
  {
    var s1 := s.(handler := ExternalSubset1);
    assert Row(s1, t) == ExternalRow(t, s.includeLevel);
    if t != TokXmlDecl {
      assert Row(s, t) == ExternalRow(t, s.includeLevel);
    }
    hide ExternalRow;
  }

  /** What goes through an external subset without an error is a sequence of its
      items, answered with their roles: conditional sections close what was
      opened, and includeLevel is the number of INCLUDE sections left open. */
  lemma SubsetRead(s: PState, toks: seq<Token>) returns (items: seq<Item>)
    requires s.handler == ExternalSubset1 && !s.documentEntity && s.includeLevel == 0
    requires SubsetAccepted(s, toks) && Highest(0, Solid(Told(s, toks))) <= U32
    ensures ItemsFit(items, false, 0) && Solid(Told(s, toks)) == ItemsText(items)
    ensures OpenAtEnd(items, 0) >= 0 && RunState(s, toks).includeLevel == OpenAtEnd(items, 0) % U32
  {
    hide Step, Runs, Solid, Told, Highest, ItemsFit, ItemsText, OpenAtEnd, Alive;
    SolidRuns(s, toks);
    var mid, rest;
    items, mid, rest := ReadItems(s, Solid(Told(s, toks)), RunState(s, toks), 0, 0);
    assert ItemsText(items) + [] == ItemsText(items);
  }

  /** Every sequence of items that can stand there goes through, with white space anywhere. */
  lemma SubsetItems(s: PState, toks: seq<Token>, items: seq<Item>)
    requires s.handler == ExternalSubset1 && !s.documentEntity && s.includeLevel == 0 && ItemsFit(items, false, 0)
    requires DropBlanks(true, toks) == Tokens(ItemsText(items)) && (toks != [] ==> toks[|toks| - 1] != TokS)
    ensures SubsetAccepted(s, toks) && Solid(Told(s, toks)) == ItemsText(items)
    ensures OpenAtEnd(items, 0) >= 0 && RunState(s, toks).includeLevel == OpenAtEnd(items, 0) % U32
  {
    hide Step, Runs, Solid, Told, ItemsFit, ItemsText, OpenAtEnd;
    var end := AcceptItems(s, items, 0);
    RunOfText(s, toks, ItemsText(items), end);
  }
}
