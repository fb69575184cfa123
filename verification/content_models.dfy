/**
 The content specification of an element declaration: handlers element1 to
 element7 of xmlrole.c against the grammar of sections 3.2, 3.2.1 and 3.2.2 of
 XML 1.0 (with `,` and `|` mixed freely in one group, which the file says it
 does not check).

 Main results: `AcceptsEverySpec`, `SpecOfEveryRun`, `TooDeepIsNoSpec` and
 `SpecTokensInjective`. The group counter is a 32-bit unsigned number, so the
 handlers recognise the grammar exactly up to 2^32 nested groups; beyond that a
 run that ends is never the text of a specification.
 */
module ContentModels {
  import opened Words
  import opened XmlRole

  datatype Quant = One | Opt | Rep | Plus
  datatype Separator = Comma | Bar
  datatype ElemName = Plain(kw: Keyword) | Prefixed
  datatype Leaf = Bare(name: ElemName) | OptName | RepName | PlusName
  datatype Particle = Elem(leaf: Leaf) | Group(body: Body, q: Quant)
  datatype Body = Last(p: Particle) | More(p: Particle, sep: Separator, rest: Body)

  // contentspec ::= 'EMPTY' | 'ANY' | Mixed | children
  datatype Spec = EmptySpec | AnySpec | Mixed(names: seq<ElemName>, star: bool) | Children(body: Body, q: Quant)

  // '(' S? '#PCDATA' S? ')' is the only mixed form without the asterisk.
  predicate WellFormed(spec: Spec) {
    spec.Mixed? && spec.names != [] ==> spec.star
  }

  // ----- the grammar's token strings, their roles, and their nesting depth

  function NameToken(n: ElemName): Token {
    match n
    case Plain(kw) => TokName(kw)
    case Prefixed => TokPrefixedName
  }

  function LeafToken(l: Leaf): Token {
    match l
    case Bare(n) => NameToken(n)
    case OptName => TokNameQuestion
    case RepName => TokNameAsterisk
    case PlusName => TokNamePlus
  }

  function LeafRole(l: Leaf): Role {
    match l
    case Bare(_) => RoleContentElement
    case OptName => RoleContentElementOpt
    case RepName => RoleContentElementRep
    case PlusName => RoleContentElementPlus
  }

  function CloseToken(q: Quant): Token {
    match q
    case One => TokCloseParen
    case Opt => TokCloseParenQuestion
    case Rep => TokCloseParenAsterisk
    case Plus => TokCloseParenPlus
  }

  function CloseRole(q: Quant): Role {
    match q
    case One => RoleGroupClose
    case Opt => RoleGroupCloseOpt
    case Rep => RoleGroupCloseRep
    case Plus => RoleGroupClosePlus
  }

  function SeparatorToken(sep: Separator): Token {
    if sep.Comma? then TokComma else TokOr
  }

  function SeparatorRole(sep: Separator): Role {
    if sep.Comma? then RoleGroupSequence else RoleGroupChoice
  }

  function ParticleTokens(p: Particle): seq<Token> {
    match p
    case Elem(leaf) => [LeafToken(leaf)]
    case Group(body, q) => [TokOpenParen] + BodyTokens(body) + [CloseToken(q)]
  }

  function BodyTokens(b: Body): seq<Token> {
    match b
    case Last(p) => ParticleTokens(p)
    case More(p, sep, rest) => ParticleTokens(p) + [SeparatorToken(sep)] + BodyTokens(rest)
  }

  function ParticleRoles(p: Particle): seq<Role> {
    match p
    case Elem(leaf) => [LeafRole(leaf)]
    case Group(body, q) => [RoleGroupOpen] + BodyRoles(body) + [CloseRole(q)]
  }

  function BodyRoles(b: Body): seq<Role> {
    match b
    case Last(p) => ParticleRoles(p)
    case More(p, sep, rest) => ParticleRoles(p) + [SeparatorRole(sep)] + BodyRoles(rest)
  }

  function ParticleDepth(p: Particle): nat {
    match p
    case Elem(_) => 0
    case Group(body, _) => 1 + BodyDepth(body)
  }

  function BodyDepth(b: Body): nat {
    match b
    case Last(p) => ParticleDepth(p)
    case More(p, _, rest) => Max(ParticleDepth(p), BodyDepth(rest))
  }

  function Max(a: int, b: int): int {
    if a < b then b else a
  }

  function MixedTokens(names: seq<ElemName>): seq<Token> {
    if names == [] then [] else [TokOr, NameToken(names[0])] + MixedTokens(names[1..])
  }

  function MixedRoles(names: seq<ElemName>): seq<Role> {
    if names == [] then [] else [RoleElementNone, RoleContentElement] + MixedRoles(names[1..])
  }

  function StarQuant(star: bool): Quant {
    if star then Rep else One
  }

  function SpecTokens(spec: Spec): seq<Token> {
    match spec
    case EmptySpec => [TokName(KwEmpty)]
    case AnySpec => [TokName(KwAny)]
    case Mixed(names, star) =>
      [TokOpenParen, TokPoundName(KwPcdata)] + MixedTokens(names) + [CloseToken(StarQuant(star))]
    case Children(body, q) => ParticleTokens(Group(body, q))
  }

  function SpecRoles(spec: Spec): seq<Role> {
    match spec
    case EmptySpec => [RoleContentEmpty]
    case AnySpec => [RoleContentAny]
    case Mixed(names, star) =>
      [RoleGroupOpen, RoleContentPcdata] + MixedRoles(names) + [CloseRole(StarQuant(star))]
    case Children(body, q) => ParticleRoles(Group(body, q))
  }

  function SpecDepth(spec: Spec): nat {
    if spec.Children? then 1 + BodyDepth(spec.body) else 0
  }

  // The deepest nesting a token string reaches when it starts inside n groups.
  function Delta(t: Token): int {
    if t.TokOpenParen? then 1
    else if t.TokCloseParen? || t.TokCloseParenQuestion? || t.TokCloseParenAsterisk? || t.TokCloseParenPlus? then -1
    else 0
  }

  function Peak(n: int, toks: seq<Token>): (peak: int)
    ensures n <= peak
    decreases |toks|
  {
    if toks == [] then n else Max(n, Peak(n + Delta(toks[0]), toks[1..]))
  }

  // ----- runs of the machine

  predicate InContent(h: Handler) {
    h.Element? && 1 <= h.n <= 7
  }

  // White space, and inside an external entity also a parameter entity reference.
  predicate Blank(documentEntity: bool, t: Token) {
    t.TokS? || (!documentEntity && t.TokParamEntityRef?)
  }

  function DropBlanks(documentEntity: bool, toks: seq<Token>): seq<Token>
    decreases |toks|
  {
    if toks == [] then []
    else (if Blank(documentEntity, toks[0]) then [] else [toks[0]]) + DropBlanks(documentEntity, toks[1..])
  }

  predicate NoBlanks(documentEntity: bool, toks: seq<Token>) {
    forall i :: 0 <= i < |toks| ==> !Blank(documentEntity, toks[i])
  }

  // The machine stays in the content handlers and reaches declClose with the last token of toks.
  predicate Spells(s: PState, toks: seq<Token>)
    decreases |toks|
  {
    toks != [] &&
    var next := Step(s, toks[0]).0;
    if |toks| == 1 then next.handler == DeclClose else InContent(next.handler) && Spells(next, toks[1..])
  }

  function RunState(s: PState, toks: seq<Token>): PState
    decreases |toks|
  {
    if toks == [] then s else RunState(Step(s, toks[0]).0, toks[1..])
  }

  function RunRoles(s: PState, toks: seq<Token>): seq<Role>
    decreases |toks|
  {
    if toks == [] then [] else [Step(s, toks[0]).1] + RunRoles(Step(s, toks[0]).0, toks[1..])
  }

  // ----- the same runs over the element rows alone, which keeps the proofs small

  function ElementStep(s: PState, t: Token): (PState, Role)
    requires InContent(s.handler)
  {
    Answer(s, t, ElementRow(s.handler, t))
  }

  lemma StepInContent(s: PState, t: Token)
    requires InContent(s.handler)
    ensures Step(s, t) == ElementStep(s, t)
  {
  }

  // Spells, with the final state and the roles returned on the way.
  predicate Walk(s: PState, toks: seq<Token>, end: PState, roles: seq<Role>)
    decreases |toks|
  {
    InContent(s.handler) && |toks| == |roles| && toks != [] &&
    var (next, role) := ElementStep(s, toks[0]);
    role == roles[0] &&
    if |toks| == 1 then next.handler == DeclClose && end == next else Walk(next, toks[1..], end, roles[1..])
  }

  lemma {:induction false} SpellsWalk(s: PState, toks: seq<Token>)
    requires InContent(s.handler) && Spells(s, toks)
    ensures Walk(s, toks, RunState(s, toks), RunRoles(s, toks))
    decreases |toks|
  {
    StepInContent(s, toks[0]);
    hide ElementStep;
    if |toks| == 1 {
      assert toks[1..] == [];
    } else {
      SpellsWalk(Step(s, toks[0]).0, toks[1..]);
    }
  }

  lemma {:induction false} WalkSpells(s: PState, toks: seq<Token>, end: PState, roles: seq<Role>)
    requires Walk(s, toks, end, roles)
    ensures Spells(s, toks) && end == RunState(s, toks) && roles == RunRoles(s, toks)
    decreases |toks|
  {
    StepInContent(s, toks[0]);
    hide ElementStep;
    if |toks| == 1 {
      assert toks[1..] == [];
      assert RunRoles(Step(s, toks[0]).0, toks[1..]) == [];
    } else {
      WalkSpells(Step(s, toks[0]).0, toks[1..], end, roles[1..]);
    }
  }

  // The state in handler h inside n groups; s supplies the other fields.
  function At(s: PState, h: Handler, n: nat): PState {
    s.(handler := h, level := n % U32)
  }

  function Closed(s: PState): PState {
    s.(handler := DeclClose, level := 0, roleNone := RoleElementNone)
  }

  lemma LeafStep(s: PState, n: nat, leaf: Leaf)
    ensures ElementStep(At(s, Element(6), n), LeafToken(leaf)) == (At(s, Element(7), n), LeafRole(leaf))
  {
  }

  lemma OpenStep(s: PState, n: nat)
    ensures ElementStep(At(s, Element(6), n), TokOpenParen) == (At(s, Element(6), n + 1), RoleGroupOpen)
  {
    assert (n % U32 + 1) % U32 == (n + 1) % U32;
  }

  lemma SeparatorStep(s: PState, n: nat, sep: Separator)
    ensures ElementStep(At(s, Element(7), n), SeparatorToken(sep)) == (At(s, Element(6), n), SeparatorRole(sep))
  {
  }

  lemma CloseStep(s: PState, n: nat, q: Quant)
    requires 1 <= n
    ensures ElementStep(At(s, Element(7), n), CloseToken(q))
         == (if (n - 1) % U32 == 0 then Closed(s) else At(s, Element(7), n - 1), CloseRole(q))
  {
    assert (n % U32 + U32 - 1) % U32 == (n - 1) % U32;
  }

  // ----- every specification is accepted

  lemma WalkFirst(s: PState, t: Token, rest: seq<Token>, end: PState, roles: seq<Role>)
    requires InContent(s.handler) && Walk(ElementStep(s, t).0, rest, end, roles)
    ensures Walk(s, [t] + rest, end, [ElementStep(s, t).1] + roles)
  {
    hide ElementStep;
    assert ([t] + rest)[1..] == rest;
    assert ([ElementStep(s, t).1] + roles)[1..] == roles;
  }

  lemma WalkLast(s: PState, t: Token)
    requires InContent(s.handler) && ElementStep(s, t).0.handler == DeclClose
    ensures Walk(s, [t], ElementStep(s, t).0, [ElementStep(s, t).1])
  {
    hide ElementStep;
  }

  // What follows the closing parenthesis of the nth group.
  predicate After(s: PState, n: nat, rest: seq<Token>, end: PState, roles: seq<Role>) {
    if n <= 1 then rest == [] && roles == [] && end == Closed(s) else Walk(At(s, Element(7), n - 1), rest, end, roles)
  }

  lemma WalkClose(s: PState, n: nat, q: Quant, rest: seq<Token>, end: PState, roles: seq<Role>)
    requires 1 <= n <= U32 && After(s, n, rest, end, roles)
    ensures Walk(At(s, Element(7), n), [CloseToken(q)] + rest, end, [CloseRole(q)] + roles)
  {
    CloseStep(s, n, q);
    hide ElementStep;
    if n != 1 {
      WalkFirst(At(s, Element(7), n), CloseToken(q), rest, end, roles);
    }
  }

  lemma {:induction false} WalkParticle(s: PState, n: nat, p: Particle, rest: seq<Token>, end: PState, roles: seq<Role>)
    requires 1 <= n && n + ParticleDepth(p) <= U32
    requires Walk(At(s, Element(7), n), rest, end, roles)
    ensures Walk(At(s, Element(6), n), ParticleTokens(p) + rest, end, ParticleRoles(p) + roles)
    decreases p, 0
  {
    hide ElementStep, Walk;
    match p {
      case Elem(leaf) =>
        LeafStep(s, n, leaf);
        WalkFirst(At(s, Element(6), n), LeafToken(leaf), rest, end, roles);
      case Group(body, q) =>
        WalkBody(s, n + 1, body, q, rest, end, roles);
        OpenStep(s, n);
        var inner := BodyTokens(body) + [CloseToken(q)] + rest;
        var innerRoles := BodyRoles(body) + [CloseRole(q)] + roles;
        WalkFirst(At(s, Element(6), n), TokOpenParen, inner, end, innerRoles);
        assert ParticleTokens(p) + rest == [TokOpenParen] + inner;
        assert ParticleRoles(p) + roles == [RoleGroupOpen] + innerRoles;
    }
  }

  lemma {:induction false} WalkBody(s: PState, n: nat, b: Body, q: Quant, rest: seq<Token>, end: PState, roles: seq<Role>)
    requires 1 <= n && n + BodyDepth(b) <= U32
    requires After(s, n, rest, end, roles)
    ensures Walk(At(s, Element(6), n), BodyTokens(b) + [CloseToken(q)] + rest, end, BodyRoles(b) + [CloseRole(q)] + roles)
    decreases b, 1
  {
    hide ElementStep, Walk, After;
    var tail := [CloseToken(q)] + rest;
    var tailRoles := [CloseRole(q)] + roles;
    match b {
      case Last(p) =>
        WalkClose(s, n, q, rest, end, roles);
        WalkParticle(s, n, p, tail, end, tailRoles);
        assert BodyTokens(b) + [CloseToken(q)] + rest == ParticleTokens(p) + tail;
        assert BodyRoles(b) + [CloseRole(q)] + roles == ParticleRoles(p) + tailRoles;
      case More(p, sep, more) =>
        WalkBody(s, n, more, q, rest, end, roles);
        var inner := BodyTokens(more) + [CloseToken(q)] + rest;
        var innerRoles := BodyRoles(more) + [CloseRole(q)] + roles;
        SeparatorStep(s, n, sep);
        WalkFirst(At(s, Element(7), n), SeparatorToken(sep), inner, end, innerRoles);
        WalkParticle(s, n, p, [SeparatorToken(sep)] + inner, end, [SeparatorRole(sep)] + innerRoles);
        assert BodyTokens(b) + [CloseToken(q)] + rest == ParticleTokens(p) + ([SeparatorToken(sep)] + inner);
        assert BodyRoles(b) + [CloseRole(q)] + roles == ParticleRoles(p) + ([SeparatorRole(sep)] + innerRoles);
    }
  }

  // The states of mixed content: element3 before the first name, element5 after each name.
  lemma MixedSteps(s: PState, h: Handler, name: ElemName)
    requires h == Element(3) || h == Element(5)
    ensures ElementStep(s.(handler := h), TokOr) == (s.(handler := Element(4)), RoleElementNone)
    ensures ElementStep(s.(handler := Element(4)), NameToken(name)) == (s.(handler := Element(5)), RoleContentElement)
  {
  }

  lemma MixedClose(s: PState, h: Handler, q: Quant)
    requires h == Element(3) || h == Element(5)
    requires q.Rep? || (q.One? && h == Element(3))
    ensures ElementStep(s.(handler := h), CloseToken(q))
            == (s.(handler := DeclClose, roleNone := RoleElementNone), CloseRole(q))
  {
  }

  lemma {:induction false} WalkMixed(s: PState, h: Handler, names: seq<ElemName>, q: Quant)
    requires h == Element(3) || h == Element(5)
    requires q.Rep? || (q.One? && h == Element(3) && names == [])
    ensures Walk(s.(handler := h), MixedTokens(names) + [CloseToken(q)],
                 s.(handler := DeclClose, roleNone := RoleElementNone), MixedRoles(names) + [CloseRole(q)])
    decreases |names|
  {
    hide ElementStep, Walk;
    var here, end := s.(handler := h), s.(handler := DeclClose, roleNone := RoleElementNone);
    if names == [] {
      MixedClose(s, h, q);
      WalkLast(here, CloseToken(q));
      assert MixedTokens(names) + [CloseToken(q)] == [CloseToken(q)];
      assert MixedRoles(names) + [CloseRole(q)] == [CloseRole(q)];
    } else {
      var four, name := s.(handler := Element(4)), NameToken(names[0]);
      MixedSteps(s, h, names[0]);
      WalkMixed(s, Element(5), names[1..], q);
      var toks, roles := MixedTokens(names[1..]) + [CloseToken(q)], MixedRoles(names[1..]) + [CloseRole(q)];
      WalkFirst(four, name, toks, end, roles);
      WalkFirst(here, TokOr, [name] + toks, end, [RoleContentElement] + roles);
      assert MixedTokens(names) + [CloseToken(q)] == [TokOr] + ([name] + toks);
      assert MixedRoles(names) + [CloseRole(q)] == [RoleElementNone] + ([RoleContentElement] + roles);
    }
  }

  // In its first group the machine waits in element2, which differs from element6 only in taking #PCDATA.
  lemma FirstGroupStep(s: PState, t: Token)
    requires !Blank(s.documentEntity, t) && t != TokPoundName(KwPcdata)
    ensures ElementStep(At(s, Element(2), 1), t) == ElementStep(At(s, Element(6), 1), t)
  {
  }

  function SpecEnd(s: PState, spec: Spec): PState {
    match spec
    case Children(_, _) => Closed(s)
    case Mixed(_, _) => Closed(s).(level := 1)
    case _ => Closed(s).(level := s.level)
  }

  lemma FirstSteps(s: PState)
    requires s.handler == Element(1)
    ensures ElementStep(s, TokOpenParen) == (At(s, Element(2), 1), RoleGroupOpen)
    ensures ElementStep(At(s, Element(2), 1), TokPoundName(KwPcdata)) == (At(s, Element(3), 1), RoleContentPcdata)
    ensures ElementStep(s, TokName(KwEmpty)) == (s.(handler := DeclClose, roleNone := RoleElementNone), RoleContentEmpty)
    ensures ElementStep(s, TokName(KwAny)) == (s.(handler := DeclClose, roleNone := RoleElementNone), RoleContentAny)
  {
  }

  lemma WalkMixedSpec(s: PState, spec: Spec)
    requires s.handler == Element(1) && spec.Mixed? && WellFormed(spec)
    ensures Walk(s, SpecTokens(spec), SpecEnd(s, spec), SpecRoles(spec))
  {
    hide ElementStep, Walk;
    var q := StarQuant(spec.star);
    var toks, roles := MixedTokens(spec.names) + [CloseToken(q)], MixedRoles(spec.names) + [CloseRole(q)];
    FirstSteps(s);
    WalkMixed(At(s, Element(3), 1), Element(3), spec.names, q);
    WalkFirst(At(s, Element(2), 1), TokPoundName(KwPcdata), toks, SpecEnd(s, spec), roles);
    WalkFirst(s, TokOpenParen, [TokPoundName(KwPcdata)] + toks, SpecEnd(s, spec), [RoleContentPcdata] + roles);
    assert SpecTokens(spec) == [TokOpenParen] + ([TokPoundName(KwPcdata)] + toks);
    assert SpecRoles(spec) == [RoleGroupOpen] + ([RoleContentPcdata] + roles);
  }

  lemma WalkChildren(s: PState, body: Body, q: Quant)
    requires s.handler == Element(1) && 1 + BodyDepth(body) <= U32
    ensures Walk(s, SpecTokens(Children(body, q)), Closed(s), SpecRoles(Children(body, q)))
  {
    hide ElementStep, BodyTokens, BodyRoles;
    var toks, roles := BodyTokens(body) + [CloseToken(q)], BodyRoles(body) + [CloseRole(q)];
    assert toks + [] == toks && roles + [] == roles;
    FirstSteps(s);
    WalkBody(s, 1, body, q, [], Closed(s), []);
    BodyStarts(body);
    FirstGroupStep(s, toks[0]);
    WalkFirst(s, TokOpenParen, toks, Closed(s), roles);
    assert SpecTokens(Children(body, q)) == [TokOpenParen] + toks;
    assert SpecRoles(Children(body, q)) == [RoleGroupOpen] + roles;
  }

  lemma WalkSpec(s: PState, spec: Spec)
    requires s.handler == Element(1) && WellFormed(spec) && SpecDepth(spec) <= U32
    ensures Walk(s, SpecTokens(spec), SpecEnd(s, spec), SpecRoles(spec))
  {
    hide ElementStep, Walk;
    FirstSteps(s);
    match spec {
      case EmptySpec => WalkLast(s, TokName(KwEmpty));
      case AnySpec => WalkLast(s, TokName(KwAny));
      case Mixed(names, star) => WalkMixedSpec(s, spec);
      case Children(body, q) => WalkChildren(s, body, q);
    }
  }

  predicate IsLeafToken(t: Token) {
    IsNameTok(t) || t.TokNameQuestion? || t.TokNameAsterisk? || t.TokNamePlus?
  }

  lemma {:induction false} ParticleStarts(p: Particle)
    ensures |ParticleTokens(p)| > 0
    ensures if p.Elem? then IsLeafToken(ParticleTokens(p)[0]) else ParticleTokens(p)[0] == TokOpenParen
  {
  }

  lemma {:induction false} BodyStarts(b: Body)
    ensures |BodyTokens(b)| > 0
    ensures IsLeafToken(BodyTokens(b)[0]) || BodyTokens(b)[0] == TokOpenParen
  {
    ParticleStarts(b.p);
  }

  // ----- white space between the tokens does not matter

  lemma BlankStep(s: PState, t: Token)
    requires InContent(s.handler) && Blank(s.documentEntity, t)
    ensures Step(s, t).0 == s
  {
    StepInContent(s, t);
  }

  lemma StepKeepsEntity(s: PState, t: Token)
    ensures Step(s, t).0.documentEntity == s.documentEntity
  {
    hide Row;
  }

  lemma {:induction false} BlanksDoNotMatter(s: PState, toks: seq<Token>)
    requires InContent(s.handler) && toks != []
    ensures var solid := DropBlanks(s.documentEntity, toks);
            Spells(s, toks) <==> Spells(s, solid) && !Blank(s.documentEntity, toks[|toks| - 1])
    ensures Spells(s, toks) ==> RunState(s, toks) == RunState(s, DropBlanks(s.documentEntity, toks))
    decreases |toks|
  {
    hide Step;
    var t, rest, doc := toks[0], toks[1..], s.documentEntity;
    var solid := DropBlanks(doc, rest);
    if Blank(doc, t) {
      BlankStep(s, t);
      assert DropBlanks(doc, toks) == solid;
      if rest != [] {
        BlanksDoNotMatter(s, rest);
      }
    } else {
      StepKeepsEntity(s, t);
      assert DropBlanks(doc, toks) == [t] + solid && ([t] + solid)[1..] == solid;
      var next := Step(s, t).0;
      if rest == [] {
        assert solid == [];
      } else {
        if solid == [] {
          AllBlank(doc, rest);
        }
        if InContent(next.handler) {
          BlanksDoNotMatter(next, rest);
        }
      }
    }
  }

  lemma {:induction false} AllBlank(documentEntity: bool, toks: seq<Token>)
    requires toks != [] && DropBlanks(documentEntity, toks) == []
    ensures Blank(documentEntity, toks[|toks| - 1])
    decreases |toks|
  {
    if |toks| > 1 {
      AllBlank(documentEntity, toks[1..]);
    }
  }

  lemma {:induction false} DropBlanksSolid(documentEntity: bool, toks: seq<Token>)
    ensures NoBlanks(documentEntity, DropBlanks(documentEntity, toks))
    decreases |toks|
  {
    if toks != [] {
      DropBlanksSolid(documentEntity, toks[1..]);
    }
  }

  /** Every content specification nested at most 2^32 deep, with blanks anywhere
      before its tokens, runs from element1 to declClose; without blanks the
      roles reported are those of the specification. */
  lemma AcceptsEverySpec(s: PState, spec: Spec, toks: seq<Token>)
    requires s.handler == Element(1) && WellFormed(spec) && SpecDepth(spec) <= U32
    requires DropBlanks(s.documentEntity, toks) == SpecTokens(spec)
    requires toks != [] && !Blank(s.documentEntity, toks[|toks| - 1])
    ensures Spells(s, toks) && RunState(s, toks) == SpecEnd(s, spec)
    ensures RunRoles(s, SpecTokens(spec)) == SpecRoles(spec)
  {
    WalkSpec(s, spec);
    WalkSpells(s, SpecTokens(spec), SpecEnd(s, spec), SpecRoles(spec));
    BlanksDoNotMatter(s, toks);
  }

  // ----- every run is a specification

  predicate IsSeparator(t: Token) {
    t.TokComma? || t.TokOr?
  }

  predicate IsClose(t: Token) {
    t.TokCloseParen? || t.TokCloseParenQuestion? || t.TokCloseParenAsterisk? || t.TokCloseParenPlus?
  }

  function NameOf(t: Token): (n: ElemName)
    requires IsNameTok(t)
    ensures NameToken(n) == t
  {
    if t.TokName? then Plain(t.kw) else Prefixed
  }

  function LeafOf(t: Token): (l: Leaf)
    requires IsLeafToken(t)
    ensures LeafToken(l) == t
  {
    if t.TokNameQuestion? then OptName
    else if t.TokNameAsterisk? then RepName
    else if t.TokNamePlus? then PlusName
    else Bare(NameOf(t))
  }

  function SeparatorOf(t: Token): (sep: Separator)
    requires IsSeparator(t)
    ensures SeparatorToken(sep) == t
  {
    if t.TokComma? then Comma else Bar
  }

  function CloseOf(t: Token): (q: Quant)
    requires IsClose(t)
    ensures CloseToken(q) == t
  {
    if t.TokCloseParen? then One
    else if t.TokCloseParenQuestion? then Opt
    else if t.TokCloseParenAsterisk? then Rep
    else Plus
  }

  lemma ParticleStepCases(s: PState, n: nat, t: Token)
    requires !Blank(s.documentEntity, t) && !IsLeafToken(t) && t != TokOpenParen
    ensures ElementStep(At(s, Element(6), n), t).0.handler == Failed
  {
  }

  lemma SeparatorStepCases(s: PState, n: nat, t: Token)
    requires !Blank(s.documentEntity, t) && !IsSeparator(t) && !IsClose(t)
    ensures ElementStep(At(s, Element(7), n), t).0.handler == Failed
  {
  }

  lemma MixedStepCases(s: PState, h: Handler, t: Token)
    requires !Blank(s.documentEntity, t)
    requires h == Element(3) || h == Element(4) || h == Element(5)
    requires if h == Element(4) then !IsNameTok(t)
             else t != TokOr && t != TokCloseParenAsterisk && (h == Element(5) || t != TokCloseParen)
    ensures ElementStep(s.(handler := h), t).0.handler == Failed
  {
  }

  lemma WalkHead(s: PState, toks: seq<Token>, end: PState, roles: seq<Role>)
    requires Walk(s, toks, end, roles)
    ensures InContent(s.handler) && |toks| == |roles| > 0
    ensures var next := ElementStep(s, toks[0]).0;
            if |toks| == 1 then next.handler == DeclClose
            else InContent(next.handler) && Walk(next, toks[1..], end, roles[1..])
  {
    hide ElementStep;
    assert |toks| > 1 ==> Walk(ElementStep(s, toks[0]).0, toks[1..], end, roles[1..]);
  }

  // Walks from h inside n groups over solid tokens that never nest deeper than 2^32.
  predicate Inside(s: PState, h: Handler, n: nat, toks: seq<Token>, end: PState, roles: seq<Role>) {
    1 <= n && Walk(At(s, h, n), toks, end, roles) && NoBlanks(s.documentEntity, toks) && Peak(n, toks) <= U32
  }

  lemma InsideHead(s: PState, h: Handler, n: nat, toks: seq<Token>, end: PState, roles: seq<Role>)
    requires Inside(s, h, n, toks, end, roles)
    ensures 1 <= n <= U32 && InContent(h)
    ensures |toks| == |roles| > 0 && !Blank(s.documentEntity, toks[0])
    ensures var next := ElementStep(At(s, h, n), toks[0]).0.handler;
            if |toks| == 1 then next == DeclClose else InContent(next)
  {
    WalkHead(At(s, h, n), toks, end, roles);
    hide ElementStep;
  }

  lemma TailInside(s: PState, h: Handler, n: nat, toks: seq<Token>, end: PState, roles: seq<Role>, h': Handler)
    requires Inside(s, h, n, toks, end, roles) && 1 <= n + Delta(toks[0])
    requires InContent(h') && ElementStep(At(s, h, n), toks[0]).0 == At(s, h', n + Delta(toks[0]))
    ensures Inside(s, h', n + Delta(toks[0]), toks[1..], end, roles[1..])
  {
    hide ElementStep;
  }

  /** rest is what follows the particle p. */
  lemma {:induction false} ParseParticle(s: PState, n: nat, toks: seq<Token>, end: PState, roles: seq<Role>)
    returns (p: Particle, rest: seq<Token>, restRoles: seq<Role>)
    requires Inside(s, Element(6), n, toks, end, roles)
    ensures toks == ParticleTokens(p) + rest && |rest| < |toks|
    ensures Inside(s, Element(7), n, rest, end, restRoles)
    decreases |toks|, 0
  {
    hide ElementStep, Inside;
    InsideHead(s, Element(6), n, toks, end, roles);
    var t := toks[0];
    assert toks == [t] + toks[1..];
    if IsLeafToken(t) {
      LeafStep(s, n, LeafOf(t));
      TailInside(s, Element(6), n, toks, end, roles, Element(7));
      p, rest, restRoles := Elem(LeafOf(t)), toks[1..], roles[1..];
    } else if t == TokOpenParen {
      OpenStep(s, n);
      TailInside(s, Element(6), n, toks, end, roles, Element(6));
      var body, q;
      body, q, rest, restRoles := ParseBody(s, n + 1, toks[1..], end, roles[1..]);
      p := Group(body, q);
    } else {
      ParticleStepCases(s, n, t);
      assert false;
    }
  }

  /** rest is what follows the closing parenthesis of the group. */
  lemma MoreTokens(p: Particle, sep: Separator, more: Body, close: seq<Token>, rest: seq<Token>)
    ensures ParticleTokens(p) + ([SeparatorToken(sep)] + (BodyTokens(more) + close + rest)) ==
            BodyTokens(More(p, sep, more)) + close + rest
  {
    hide ParticleTokens;
  }

  lemma LastTokens(p: Particle, close: seq<Token>, rest: seq<Token>)
    ensures ParticleTokens(p) + (close + rest) == BodyTokens(Last(p)) + close + rest
  {
    hide ParticleTokens;
  }

  lemma {:induction false} ParseBody(s: PState, n: nat, toks: seq<Token>, end: PState, roles: seq<Role>)
    returns (b: Body, q: Quant, rest: seq<Token>, restRoles: seq<Role>)
    requires Inside(s, Element(6), n, toks, end, roles)
    ensures toks == BodyTokens(b) + [CloseToken(q)] + rest
    ensures if n == 1 then rest == [] else Inside(s, Element(7), n - 1, rest, end, restRoles)
    decreases |toks|, 1
  {
    hide ElementStep, Inside, BodyTokens, ParticleTokens;
    var p, after, afterRoles := ParseParticle(s, n, toks, end, roles);
    InsideHead(s, Element(7), n, after, end, afterRoles);
    var t := after[0];
    rest, restRoles := after[1..], afterRoles[1..];
    assert after == [t] + rest;
    if IsSeparator(t) {
      SeparatorStep(s, n, SeparatorOf(t));
      TailInside(s, Element(7), n, after, end, afterRoles, Element(6));
      var more;
      more, q, rest, restRoles := ParseBody(s, n, rest, end, restRoles);
      b := More(p, SeparatorOf(t), more);
      MoreTokens(p, SeparatorOf(t), more, [CloseToken(q)], rest);
    } else if IsClose(t) {
      CloseStep(s, n, CloseOf(t));
      b, q := Last(p), CloseOf(t);
      LastTokens(p, [t], rest);
      if n != 1 {
        TailInside(s, Element(7), n, after, end, afterRoles, Element(7));
      }
    } else {
      SeparatorStepCases(s, n, t);
      assert false;
    }
  }

  lemma {:induction false} ParseMixed(s: PState, h: Handler, toks: seq<Token>, end: PState, roles: seq<Role>)
    returns (names: seq<ElemName>, q: Quant)
    requires h == Element(3) || h == Element(5)
    requires Walk(s.(handler := h), toks, end, roles) && NoBlanks(s.documentEntity, toks)
    ensures toks == MixedTokens(names) + [CloseToken(q)]
    ensures q.Rep? || (q.One? && h == Element(3) && names == [])
    decreases |toks|
  {
    hide ElementStep, Walk;
    WalkHead(s.(handler := h), toks, end, roles);
    var t := toks[0];
    if t == TokOr {
      MixedSteps(s, h, Prefixed);
      var rest := toks[1..];
      WalkHead(s.(handler := Element(4)), rest, end, roles[1..]);
      if IsNameTok(rest[0]) {
        MixedSteps(s, h, NameOf(rest[0]));
        var more;
        more, q := ParseMixed(s, Element(5), rest[1..], end, roles[1..][1..]);
        names := [NameOf(rest[0])] + more;
        assert toks == [TokOr, rest[0]] + rest[1..];
      } else {
        MixedStepCases(s, Element(4), rest[0]);
        assert false;
      }
    } else if t == TokCloseParenAsterisk || (t == TokCloseParen && h == Element(3)) {
      names, q := [], CloseOf(t);
      MixedClose(s, h, q);
    } else {
      MixedStepCases(s, h, t);
      assert false;
    }
  }

  lemma ContentStepCases(s: PState, t: Token)
    requires s.handler == Element(1) && !Blank(s.documentEntity, t)
    requires t != TokName(KwEmpty) && t != TokName(KwAny) && t != TokOpenParen
    ensures ElementStep(s, t).0.handler == Failed
  {
  }

  // From the second token on, a children model may as well be read from element6.
  lemma FirstGroupWalk(s: PState, toks: seq<Token>, end: PState, roles: seq<Role>)
    requires Walk(At(s, Element(2), 1), toks, end, roles) && NoBlanks(s.documentEntity, toks)
    requires toks[0] != TokPoundName(KwPcdata)
    ensures Walk(At(s, Element(6), 1), toks, end, roles)
  {
    FirstGroupStep(s, toks[0]);
    hide ElementStep;
    WalkHead(At(s, Element(2), 1), toks, end, roles);
  }

  lemma ParseSpec(s: PState, toks: seq<Token>, end: PState, roles: seq<Role>) returns (spec: Spec)
    requires s.handler == Element(1) && Walk(s, toks, end, roles)
    requires NoBlanks(s.documentEntity, toks) && Peak(0, toks) <= U32
    ensures WellFormed(spec) && toks == SpecTokens(spec)
  {
    hide ElementStep, Walk;
    WalkHead(s, toks, end, roles);
    FirstSteps(s);
    if toks[0] == TokName(KwEmpty) {
      spec := EmptySpec;
    } else if toks[0] == TokName(KwAny) {
      spec := AnySpec;
    } else if toks[0] == TokOpenParen {
      var rest := toks[1..];
      assert toks == [TokOpenParen] + rest;
      WalkHead(At(s, Element(2), 1), rest, end, roles[1..]);
      if rest[0] == TokPoundName(KwPcdata) {
        assert rest == [rest[0]] + rest[1..];
        var names, q := ParseMixed(At(s, Element(3), 1), Element(3), rest[1..], end, roles[1..][1..]);
        spec := Mixed(names, q.Rep?);
      } else {
        FirstGroupWalk(s, rest, end, roles[1..]);
        var body, q, none, noRoles := ParseBody(s, 1, rest, end, roles[1..]);
        spec := Children(body, q);
        assert rest == BodyTokens(body) + [CloseToken(q)];
      }
    } else {
      ContentStepCases(s, toks[0]);
      assert false;
    }
  }

  /** Every run from element1 to declClose that nests at most 2^32 groups is,
      blanks dropped, the text of a content specification. */
  lemma SpecOfEveryRun(s: PState, toks: seq<Token>) returns (spec: Spec)
    requires s.handler == Element(1) && Spells(s, toks)
    requires Peak(0, DropBlanks(s.documentEntity, toks)) <= U32
    ensures WellFormed(spec) && DropBlanks(s.documentEntity, toks) == SpecTokens(spec)
  {
    var solid := DropBlanks(s.documentEntity, toks);
    BlanksDoNotMatter(s, toks);
    DropBlanksSolid(s.documentEntity, toks);
    SpellsWalk(s, solid);
    spec := ParseSpec(s, solid, RunState(s, solid), RunRoles(s, solid));
  }

  // ----- ... and of exactly one

  lemma {:induction false} ParticlePrefix(p1: Particle, r1: seq<Token>, p2: Particle, r2: seq<Token>)
    requires ParticleTokens(p1) + r1 == ParticleTokens(p2) + r2
    ensures p1 == p2 && r1 == r2
    decreases p1, 0
  {
    var toks := ParticleTokens(p1) + r1;
    ParticleStarts(p1);
    ParticleStarts(p2);
    match p1 {
      case Elem(l1) =>
        assert toks[0] == LeafToken(l1) && p2.Elem? && LeafToken(p2.leaf) == LeafToken(l1);
        assert toks[1..] == r1 && (ParticleTokens(p2) + r2)[1..] == r2;
      case Group(b1, q1) =>
        assert toks[0] == TokOpenParen && p2.Group?;
        var t1, t2 := BodyTokens(b1) + [CloseToken(q1)] + r1, BodyTokens(p2.body) + [CloseToken(p2.q)] + r2;
        assert toks == [TokOpenParen] + t1 && ParticleTokens(p2) + r2 == [TokOpenParen] + t2;
        assert toks[1..] == t1 && ([TokOpenParen] + t2)[1..] == t2;
        BodyPrefix(b1, q1, r1, p2.body, p2.q, r2);
    }
  }

  lemma {:induction false} BodyPrefix(b1: Body, q1: Quant, r1: seq<Token>, b2: Body, q2: Quant, r2: seq<Token>)
    requires BodyTokens(b1) + [CloseToken(q1)] + r1 == BodyTokens(b2) + [CloseToken(q2)] + r2
    ensures b1 == b2 && q1 == q2 && r1 == r2
    decreases b1, 1
  {
    var t1, t2 := BodyRest(b1, q1, r1), BodyRest(b2, q2, r2);
    ParticlePrefix(b1.p, t1, b2.p, t2);
    if b1.Last? {
      assert t1[0] == CloseToken(q1) == t2[0];
      assert b2.Last?;
      assert t1[1..] == r1 && t2[1..] == r2;
    } else {
      assert t1[0] == SeparatorToken(b1.sep) == t2[0];
      assert b2.More?;
      assert t1[1..] == BodyTokens(b1.rest) + [CloseToken(q1)] + r1;
      assert t2[1..] == BodyTokens(b2.rest) + [CloseToken(q2)] + r2;
      BodyPrefix(b1.rest, q1, r1, b2.rest, q2, r2);
    }
  }

  // The tokens of a group after its first particle.
  function BodyRest(b: Body, q: Quant, r: seq<Token>): (toks: seq<Token>)
    ensures BodyTokens(b) + [CloseToken(q)] + r == ParticleTokens(b.p) + toks
  {
    if b.Last? then [CloseToken(q)] + r
    else [SeparatorToken(b.sep)] + (BodyTokens(b.rest) + [CloseToken(q)] + r)
  }

  lemma {:induction false} MixedInjective(n1: seq<ElemName>, q1: Quant, n2: seq<ElemName>, q2: Quant)
    requires MixedTokens(n1) + [CloseToken(q1)] == MixedTokens(n2) + [CloseToken(q2)]
    ensures n1 == n2 && q1 == q2
    decreases |n1|
  {
    var t1, t2 := MixedTokens(n1) + [CloseToken(q1)], MixedTokens(n2) + [CloseToken(q2)];
    assert t1[0] == if n1 == [] then CloseToken(q1) else TokOr;
    assert t2[0] == if n2 == [] then CloseToken(q2) else TokOr;
    if n1 != [] {
      assert t1[1] == NameToken(n1[0]) && t2[1] == NameToken(n2[0]);
      assert t1[2..] == MixedTokens(n1[1..]) + [CloseToken(q1)];
      assert t2[2..] == MixedTokens(n2[1..]) + [CloseToken(q2)];
      MixedInjective(n1[1..], q1, n2[1..], q2);
      assert n1 == [n1[0]] + n1[1..] && n2 == [n2[0]] + n2[1..];
    }
  }

  /** No two specifications have the same text. */
  lemma SpecTokensInjective(a: Spec, b: Spec)
    requires WellFormed(a) && WellFormed(b) && SpecTokens(a) == SpecTokens(b)
    ensures a == b
  {
    var ta, tb := SpecTokens(a), SpecTokens(b);
    if a.Children? { BodyStarts(a.body); assert ta[1] == BodyTokens(a.body)[0]; }
    if b.Children? { BodyStarts(b.body); assert tb[1] == BodyTokens(b.body)[0]; }
    if a.Children? && b.Children? {
      ParticlePrefix(Group(a.body, a.q), [], Group(b.body, b.q), []);
    } else if a.Mixed? && b.Mixed? {
      assert ta[2..] == MixedTokens(a.names) + [CloseToken(StarQuant(a.star))];
      assert tb[2..] == MixedTokens(b.names) + [CloseToken(StarQuant(b.star))];
      MixedInjective(a.names, StarQuant(a.star), b.names, StarQuant(b.star));
    }
  }

  // ----- beyond 2^32 groups

  function Net(toks: seq<Token>): int
    decreases |toks|
  {
    if toks == [] then 0 else Delta(toks[0]) + Net(toks[1..])
  }

  lemma NetFirst(n: int, t: Token, rest: seq<Token>)
    ensures Net([t] + rest) == Delta(t) + Net(rest)
    ensures Peak(n, [t] + rest) == Max(n, Peak(n + Delta(t), rest))
  {
    assert ([t] + rest)[1..] == rest;
  }

  lemma {:induction false} ParticleNesting(n: int, p: Particle, rest: seq<Token>)
    ensures Net(ParticleTokens(p) + rest) == Net(rest)
    ensures Peak(n, ParticleTokens(p) + rest) == Max(n + ParticleDepth(p), Peak(n, rest))
    decreases p, 0
  {
    hide Net, Peak;
    match p {
      case Elem(leaf) =>
        NetFirst(n, LeafToken(leaf), rest);
      case Group(body, q) =>
        var inner := BodyTokens(body) + ([CloseToken(q)] + rest);
        BodyNesting(n + 1, body, [CloseToken(q)] + rest);
        NetFirst(n + 1, CloseToken(q), rest);
        NetFirst(n, TokOpenParen, inner);
        assert ParticleTokens(p) + rest == [TokOpenParen] + inner;
    }
  }

  lemma {:induction false} BodyNesting(n: int, b: Body, rest: seq<Token>)
    ensures Net(BodyTokens(b) + rest) == Net(rest)
    ensures Peak(n, BodyTokens(b) + rest) == Max(n + BodyDepth(b), Peak(n, rest))
    decreases b, 1
  {
    hide Net, Peak;
    match b {
      case Last(p) => ParticleNesting(n, p, rest);
      case More(p, sep, more) =>
        var inner := BodyTokens(more) + rest;
        BodyNesting(n, more, rest);
        NetFirst(n, SeparatorToken(sep), inner);
        ParticleNesting(n, p, [SeparatorToken(sep)] + inner);
        assert BodyTokens(b) + rest == ParticleTokens(p) + ([SeparatorToken(sep)] + inner);
    }
  }

  // Once more than 2^32 groups are open, the counter can only reach 0 with at least 2^32 still open.
  lemma {:induction false} StopsTooEarly(s: PState, h: Handler, n: nat, toks: seq<Token>, end: PState, roles: seq<Role>)
    requires 1 <= n && (h == Element(6) || h == Element(7))
    requires Walk(At(s, h, n), toks, end, roles) && NoBlanks(s.documentEntity, toks)
    requires n > U32 || Peak(n, toks) > U32
    ensures n + Net(toks) >= U32
    decreases |toks|
  {
    hide ElementStep, Walk;
    WalkHead(At(s, h, n), toks, end, roles);
    var t, rest := toks[0], toks[1..];
    if h == Element(6) {
      if IsLeafToken(t) {
        LeafStep(s, n, LeafOf(t));
        StopsTooEarly(s, Element(7), n, rest, end, roles[1..]);
      } else if t == TokOpenParen {
        OpenStep(s, n);
        StopsTooEarly(s, Element(6), n + 1, rest, end, roles[1..]);
      } else {
        ParticleStepCases(s, n, t);
        assert false;
      }
    } else if IsSeparator(t) {
      SeparatorStep(s, n, SeparatorOf(t));
      StopsTooEarly(s, Element(6), n, rest, end, roles[1..]);
    } else if IsClose(t) {
      CloseStep(s, n, CloseOf(t));
      if (n - 1) % U32 != 0 {
        StopsTooEarly(s, Element(7), n - 1, rest, end, roles[1..]);
      }
    } else {
      SeparatorStepCases(s, n, t);
      assert false;
    }
  }

  /** A run that nests deeper than 2^32 and still ends is the text of no specification. */
  lemma TooDeepIsNoSpec(s: PState, toks: seq<Token>, spec: Spec)
    requires s.handler == Element(1) && Spells(s, toks)
    requires Peak(0, DropBlanks(s.documentEntity, toks)) > U32
    requires WellFormed(spec)
    ensures DropBlanks(s.documentEntity, toks) != SpecTokens(spec)
  {
    hide Walk, Spells;
    var solid := DropBlanks(s.documentEntity, toks);
    if solid == SpecTokens(spec) {
      BlanksDoNotMatter(s, toks);
      DropBlanksSolid(s.documentEntity, toks);
      SpellsWalk(s, solid);
      SpecNesting(spec);
      TooDeepWalk(s, spec.body, spec.q, RunState(s, solid), RunRoles(s, solid));
      assert false;
    }
  }

  lemma TooDeepWalk(s: PState, body: Body, q: Quant, end: PState, roles: seq<Role>)
    requires s.handler == Element(1) && 1 + BodyDepth(body) > U32
    requires NoBlanks(s.documentEntity, SpecTokens(Children(body, q)))
    ensures !Walk(s, SpecTokens(Children(body, q)), end, roles)
  {
    hide ElementStep, Walk;
    var toks := SpecTokens(Children(body, q));
    if Walk(s, toks, end, roles) {
      var rest := BodyTokens(body) + [CloseToken(q)];
      assert toks == [TokOpenParen] + rest && toks[1..] == rest;
      NetFirst(0, TokOpenParen, rest);
      SpecNesting(Children(body, q));
      BodyStarts(body);
      WalkHead(s, toks, end, roles);
      FirstSteps(s);
      FirstGroupWalk(s, rest, end, roles[1..]);
      StopsTooEarly(s, Element(6), 1, rest, end, roles[1..]);
      assert false;
    }
  }

  lemma {:induction false} MixedNesting(n: nat, names: seq<ElemName>, q: Quant)
    requires 1 <= n
    ensures Peak(n, MixedTokens(names) + [CloseToken(q)]) == n
    decreases |names|
  {
    if names == [] {
      assert MixedTokens(names) + [CloseToken(q)] == [CloseToken(q)];
    } else {
      var rest := MixedTokens(names[1..]) + [CloseToken(q)];
      MixedNesting(n, names[1..], q);
      NetFirst(n, NameToken(names[0]), rest);
      NetFirst(n, TokOr, [NameToken(names[0])] + rest);
      assert MixedTokens(names) + [CloseToken(q)] == [TokOr] + ([NameToken(names[0])] + rest);
    }
  }

  lemma SpecNesting(spec: Spec)
    ensures spec.Children? ==> Net(SpecTokens(spec)) == 0 && Peak(0, SpecTokens(spec)) == SpecDepth(spec)
    ensures !spec.Children? ==> Peak(0, SpecTokens(spec)) <= 1
  {
    match spec {
      case Children(body, q) =>
        ParticleNesting(0, Group(body, q), []);
        assert SpecTokens(spec) + [] == SpecTokens(spec);
      case Mixed(names, star) =>
        MixedSpecNesting(names, star);
      case _ =>
    }
  }

  lemma MixedSpecNesting(names: seq<ElemName>, star: bool)
    ensures Peak(0, SpecTokens(Mixed(names, star))) <= 1
  {
    var rest := MixedTokens(names) + [CloseToken(StarQuant(star))];
    assert SpecTokens(Mixed(names, star)) == [TokOpenParen] + ([TokPoundName(KwPcdata)] + rest);
    hide Peak, SpecTokens, MixedTokens;
    MixedNesting(1, names, StarQuant(star));
    NetFirst(1, TokPoundName(KwPcdata), rest);
    NetFirst(0, TokOpenParen, [TokPoundName(KwPcdata)] + rest);
  }

  /** The handlers accept the text of a specification exactly when it nests at
      most 2^32 groups, and what they accept is a text exactly when it does. */
  lemma ContentModelsExactly(s: PState, spec: Spec, toks: seq<Token>)
    requires s.handler == Element(1) && WellFormed(spec)
    ensures Spells(s, SpecTokens(spec)) <==> SpecDepth(spec) <= U32
    ensures Spells(s, toks) ==>
              ((exists m :: WellFormed(m) && DropBlanks(s.documentEntity, toks) == SpecTokens(m))
               <==> Peak(0, DropBlanks(s.documentEntity, toks)) <= U32)
  {
    var text := SpecTokens(spec);
    if SpecDepth(spec) <= U32 {
      WalkSpec(s, spec);
      WalkSpells(s, text, SpecEnd(s, spec), SpecRoles(spec));
    } else if Spells(s, text) {
      SpecNesting(spec);
      ParticleSolid(s.documentEntity, Group(spec.body, spec.q));
      SolidStays(s.documentEntity, text);
      TooDeepIsNoSpec(s, text, spec);
    }
    if Spells(s, toks) {
      if Peak(0, DropBlanks(s.documentEntity, toks)) <= U32 {
        var m := SpecOfEveryRun(s, toks);
      } else {
        forall m | WellFormed(m)
          ensures DropBlanks(s.documentEntity, toks) != SpecTokens(m)
        {
          TooDeepIsNoSpec(s, toks, m);
        }
      }
    }
  }

  lemma {:induction false} SolidStays(documentEntity: bool, toks: seq<Token>)
    requires NoBlanks(documentEntity, toks)
    ensures DropBlanks(documentEntity, toks) == toks
    decreases |toks|
  {
    if toks != [] {
      SolidStays(documentEntity, toks[1..]);
    }
  }

  lemma {:induction false} ParticleSolid(documentEntity: bool, p: Particle)
    ensures NoBlanks(documentEntity, ParticleTokens(p))
    decreases p, 0
  {
    if p.Group? {
      BodySolid(documentEntity, p.body);
    }
  }

  lemma {:induction false} BodySolid(documentEntity: bool, b: Body)
    ensures NoBlanks(documentEntity, BodyTokens(b))
    decreases b, 1
  {
    ParticleSolid(documentEntity, b.p);
    if b.More? {
      BodySolid(documentEntity, b.rest);
    }
  }
}
