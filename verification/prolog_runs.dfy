/**
 What every run of the prolog role machine keeps, whatever the tokens.

 A run is judged by what its caller sees: the tokens given and the roles
 returned. The histories below (open groups, the current declaration, open
 INCLUDE sections) are folds over those, and the theorems say that the fields
 of PROLOG_STATE agree with them.
 */
module PrologRuns {
  import opened Words
  import opened XmlRole

  // The state and the roles after the tokens, given one by one.
  function Final(s0: PState, toks: seq<Token>): PState
    decreases |toks|
  {
    if toks == [] then s0 else Step(Final(s0, toks[..|toks| - 1]), toks[|toks| - 1]).0
  }

  function Roles(s0: PState, toks: seq<Token>): (roles: seq<Role>)
    ensures |roles| == |toks|
    decreases |toks|
  {
    if toks == [] then []
    else var before := toks[..|toks| - 1];
         Roles(s0, before) + [Step(Final(s0, before), toks[|toks| - 1]).1]
  }

  predicate InitialState(s: PState) {
    (s.handler == Prolog(0) && s.documentEntity && s.includeLevel == 0)
    || (s.handler == ExternalSubset0 && !s.documentEntity && s.includeLevel == 0)
  }

  // ----- histories

  // The keyword of the last markup declaration opened.
  function Declaring(toks: seq<Token>): Keyword
    decreases |toks|
  {
    if toks == [] then NoKw
    else var t := toks[|toks| - 1];
         if t.TokDeclOpen? then t.kw else Declaring(toks[..|toks| - 1])
  }

  function NextGroups(groups: int, r: Role): int {
    if r.RoleElementName? then 0
    else if r.RoleGroupOpen? then groups + 1
    else if r.RoleGroupClose? || r.RoleGroupCloseRep? || r.RoleGroupCloseOpt? || r.RoleGroupClosePlus? then groups - 1
    else groups
  }

  // Model groups opened and not closed since the last element name.
  function OpenGroups(roles: seq<Role>): int
    decreases |roles|
  {
    if roles == [] then 0 else NextGroups(OpenGroups(roles[..|roles| - 1]), roles[|roles| - 1])
  }

  // INCLUDE sections opened and not closed; `armed` when the last token that is
  // not blank was the name INCLUDE, so that a bracket would open one.
  datatype Sections = Sections(open: int, armed: bool)

  function NextSections(x: Sections, t: Token): Sections {
    if t.TokS? || t.TokParamEntityRef? then x
    else if t == TokName(KwInclude) then x.(armed := true)
    else if t.TokOpenBracket? then Sections(if x.armed then x.open + 1 else x.open, false)
    else if t.TokCondSectClose? then Sections(x.open - 1, false)
    else x.(armed := false)
  }

  function OpenSections(toks: seq<Token>): Sections
    decreases |toks|
  {
    if toks == [] then Sections(0, false) else NextSections(OpenSections(toks[..|toks| - 1]), toks[|toks| - 1])
  }

  // ----- what each family of handlers can do

  predicate IsDoctypeRole(r: Role) {
    r.RoleDoctypeNone? || r.RoleDoctypeName? || r.RoleDoctypeSystemId? || r.RoleDoctypePublicId?
    || r.RoleDoctypeInternalSubset? || r.RoleDoctypeClose?
  }

  predicate IsMiscRole(r: Role) {
    r.RoleError? || r.RoleNone? || r.RoleXmlDecl? || r.RoleTextDecl? || r.RoleInstanceStart? || r.RolePi? || r.RoleComment?
    || r.RoleIgnoreSect? || r.RoleInnerParamEntityRef? || r.RoleParamEntityRef?
  }

  // The roles of entity, notation, attribute-list and element declarations.
  predicate IsDeclRole(r: Role) {
    !IsDoctypeRole(r) && !IsMiscRole(r)
  }

  predicate IsGroupRole(r: Role) {
    r.RoleElementName? || r.RoleGroupOpen? || r.RoleGroupClose? || r.RoleGroupCloseRep?
    || r.RoleGroupCloseOpt? || r.RoleGroupClosePlus?
  }

  // The tokens that no handler inside a declaration takes.
  predicate Outside(t: Token) {
    || t.TokDeclOpen? || t.TokOpenBracket? || t.TokCloseBracket?
    || t.TokCondSectOpen? || t.TokCondSectClose? || t.TokInstanceStart?
  }

  predicate InDecl(h: Handler) {
    h.Objects? || h.Notation? || h.Attlist? || h.Element?
  }

  predicate SameFamily(a: Handler, b: Handler) {
    (a.Objects? && b.Objects?) || (a.Notation? && b.Notation?) || (a.Attlist? && b.Attlist?) || (a.Element? && b.Element?)
  }

  // The keyword and the white space role of the declaration a handler belongs to.
  function DeclKeyword(h: Handler): Keyword
    requires InDecl(h)
  {
    match h
    case Objects(_) => KwEntity
    case Notation(_) => KwNotation
    case Attlist(_) => KwAttlist
    case _ => KwElement
  }

  function DeclNone(kw: Keyword): Role {
    match kw
    case KwEntity => RoleEntityNone
    case KwNotation => RoleNotationNone
    case KwAttlist => RoleAttlistNone
    case _ => RoleElementNone
  }

  // The cells of a declaration: they stay in its family, finish it, or hand over to declClose.
  predicate DeclCell(h: Handler, t: Token, top: Handler, c: Cell)
    requires InDecl(h)
  {
    c.Go? ==>
      && !Outside(t) && IsDeclRole(c.role)
      && (c.next == DeclClose ==> c.effect == Finish(DeclNone(DeclKeyword(h))) && !h.Attlist?)
      && (c.next != DeclClose ==> (SameFamily(c.next, h) || c.next == top) && !c.effect.Finish?)
      && !c.effect.OpenInclude? && !c.effect.CloseInclude?
      && (h.Element? || ((c.effect.Keep? || c.effect.Finish?) && !IsGroupRole(c.role)))
  }

  lemma GeneralEntityCells(h: Handler, t: Token, d: bool)
    requires h.Objects? && h.n <= 4
    ensures DeclCell(h, t, TopLevel(d), ObjectsRow(h, t, TopLevel(d)))
  {
  }

  lemma OtherEntityCells(h: Handler, t: Token, d: bool)
    requires h.Objects? && h.n > 4
    ensures DeclCell(h, t, TopLevel(d), ObjectsRow(h, t, TopLevel(d)))
  {
  }

  lemma ObjectsCells(h: Handler, t: Token, d: bool)
    requires h.Objects?
    ensures DeclCell(h, t, TopLevel(d), ObjectsRow(h, t, TopLevel(d)))
  {
    hide ObjectsRow, DeclCell;
    if h.n <= 4 {
      GeneralEntityCells(h, t, d);
    } else {
      OtherEntityCells(h, t, d);
    }
  }

  lemma NotationCells(h: Handler, t: Token, d: bool)
    requires h.Notation?
    ensures DeclCell(h, t, TopLevel(d), NotationRow(h, t, TopLevel(d)))
  {
  }

  lemma AttributeTypeCells(h: Handler, t: Token, d: bool)
    requires h.Attlist?
    ensures DeclCell(h, t, TopLevel(d), AttributeTypeRow(t))
  {
  }

  lemma AttlistParts(h: Handler, t: Token, another: int, d: bool)
    requires h.Attlist?
    ensures DeclCell(h, t, TopLevel(d), EnumerationRow(t, Attlist(another)))
    ensures DeclCell(h, t, TopLevel(d), DefaultValueRow(t))
  {
  }

  lemma AttributeCells(h: Handler, t: Token, d: bool)
    requires h.Attlist? && h.n <= 4
    ensures DeclCell(h, t, TopLevel(d), AttlistRow(h, t, TopLevel(d)))
  {
    hide AttributeTypeRow, EnumerationRow, DefaultValueRow;
    AttributeTypeCells(h, t, d);
    AttlistParts(h, t, 3, d);
  }

  lemma ValueCells(h: Handler, t: Token, d: bool)
    requires h.Attlist? && h.n > 4
    ensures DeclCell(h, t, TopLevel(d), AttlistRow(h, t, TopLevel(d)))
  {
    hide AttributeTypeRow, EnumerationRow, DefaultValueRow;
    AttlistParts(h, t, 6, d);
  }

  lemma AttlistCells(h: Handler, t: Token, d: bool)
    requires h.Attlist?
    ensures DeclCell(h, t, TopLevel(d), AttlistRow(h, t, TopLevel(d)))
  {
    hide AttlistRow, DeclCell;
    if h.n <= 4 {
      AttributeCells(h, t, d);
    } else {
      ValueCells(h, t, d);
    }
  }

  lemma ElementParts(h: Handler, t: Token, bare: bool, d: bool)
    requires h.Element?
    ensures DeclCell(h, t, TopLevel(d), ContentSpecRow(t))
    ensures DeclCell(h, t, TopLevel(d), MixedRow(t, bare))
  {
  }

  lemma GroupElementParts(h: Handler, t: Token, d: bool)
    requires h.Element?
    ensures DeclCell(h, t, TopLevel(d), ParticleRow(t))
    ensures DeclCell(h, t, TopLevel(d), AfterParticleRow(t))
  {
  }

  lemma ElementCells(h: Handler, t: Token, d: bool)
    requires h.Element?
    ensures DeclCell(h, t, TopLevel(d), ElementRow(h, t))
  {
    hide ContentSpecRow, MixedRow, ParticleRow, AfterParticleRow;
    ElementParts(h, t, true, d);
    ElementParts(h, t, false, d);
    GroupElementParts(h, t, d);
  }

  // The cells outside declarations: a declaration starts with its own keyword,
  // and neither a group role nor declClose comes from anywhere else.
  predicate OutsideCell(h: Handler, t: Token, top: Handler, c: Cell) {
    c.Go? ==>
      && (c.effect.Keep? || c.effect.OpenInclude? || c.effect.CloseInclude?)
      && (InDecl(c.next) ==> t == TokDeclOpen(DeclKeyword(c.next)) && c.next.n == 0)
      && (if h == DeclClose then !Outside(t) && c.effect.Keep? && (c.next == h || c.next == top)
          else c.next != DeclClose && !IsGroupRole(c.role) && (IsDeclRole(c.role) ==> InDecl(c.next)))
  }

  // The stages of a document entity: before the document type declaration, its
  // name, what follows the name, its internal subset, its end, and after it.
  function Stage(h: Handler): int {
    match h
    case Prolog(n) => if n == 2 then 5 else 0
    case Doctype(n) => if n == 0 then 1 else if n == 5 then 4 else 2
    case InternalSubset | Objects(_) | Notation(_) | Attlist(_) | Element(_) | DeclClose => 3
    case Failed => 6
    case _ => -1
  }

  predicate StageCell(p: int, t: Token, c: Cell) {
    c.Go? ==>
      var q := Stage(c.next);
      && p <= q
      && (c.role == RoleDoctypeName ==> p == 1 && q == 2)
      && (p < 2 <= q < 6 ==> c.role == RoleDoctypeName)
      && (IsDeclRole(c.role) || c.role == RoleParamEntityRef ==> p == 3)
      && (p < 3 && q == 3 ==> c.role == RoleDoctypeInternalSubset)
      && (q <= 3 ==> t != TokCloseBracket)
  }

  // The cells of an external entity, and how they move the INCLUDE counter.
  predicate ExternalCell(h: Handler, t: Token, includeLevel: nat, c: Cell) {
    c.Go? && c.next != Failed ==>
      && !c.next.Prolog? && !c.next.Doctype? && c.next != InternalSubset && c.next != ExternalSubset0
      && (c.effect.OpenInclude? <==> h == CondSect(1) && t == TokOpenBracket)
      && (c.effect.CloseInclude? <==> t == TokCondSectClose)
      && (t == TokOpenBracket ==> h.CondSect? && (h == CondSect(1) || h == CondSect(2)))
      && (t == TokCondSectClose ==> includeLevel != 0)
      && (c.next == CondSect(1) ==> t == TokName(KwInclude) || (h == c.next && t == TokS))
      && (c.next == CondSect(2) ==> t == TokName(KwIgnore) || (h == c.next && t == TokS))
  }

  lemma PrologCells(h: Handler, t: Token)
    requires h.Prolog?
    ensures OutsideCell(h, t, InternalSubset, PrologRow(h, t)) && StageCell(Stage(h), t, PrologRow(h, t))
  {
  }

  lemma DoctypeCells(h: Handler, t: Token)
    requires h.Doctype?
    ensures OutsideCell(h, t, InternalSubset, DoctypeRow(h, t)) && StageCell(Stage(h), t, DoctypeRow(h, t))
  {
  }

  lemma CondSectCells(h: Handler, t: Token, includeLevel: nat)
    requires h.CondSect?
    ensures OutsideCell(h, t, InternalSubset, CondSectRow(h, t)) && ExternalCell(h, t, includeLevel, CondSectRow(h, t))
  {
  }

  lemma InternalCells(t: Token)
    ensures OutsideCell(InternalSubset, t, InternalSubset, InternalRow(t, InternalSubset))
    ensures StageCell(3, t, InternalRow(t, InternalSubset))
  {
  }

  lemma ExternalCells(h: Handler, t: Token, includeLevel: nat)
    requires h == ExternalSubset0 || h == ExternalSubset1
    ensures OutsideCell(h, t, InternalSubset, ExternalRow(t, includeLevel))
            && ExternalCell(h, t, includeLevel, ExternalRow(t, includeLevel))
  {
  }

  lemma OtherCells(s: PState, t: Token)
    requires s.handler in {InternalSubset, ExternalSubset0, ExternalSubset1, DeclClose, Failed}
    ensures OutsideCell(s.handler, t, TopLevel(s.documentEntity), OtherRow(s, t))
    ensures s.handler == InternalSubset ==> StageCell(3, t, OtherRow(s, t))
    ensures s.handler == ExternalSubset0 || s.handler == ExternalSubset1 ==>
              ExternalCell(s.handler, t, s.includeLevel, OtherRow(s, t))
  {
    hide InternalRow, ExternalRow;
    InternalCells(t);
    ExternalCells(if s.handler == ExternalSubset0 then ExternalSubset0 else ExternalSubset1, t, s.includeLevel);
  }

  lemma DeclStep(s: PState, t: Token)
    requires InDecl(s.handler)
    ensures DeclCell(s.handler, t, TopLevel(s.documentEntity), Row(s, t))
  {
    hide ObjectsRow, NotationRow, AttlistRow, ElementRow;
    match s.handler {
      case Objects(_) => ObjectsCells(s.handler, t, s.documentEntity);
      case Notation(_) => NotationCells(s.handler, t, s.documentEntity);
      case Attlist(_) => AttlistCells(s.handler, t, s.documentEntity);
      case Element(_) => ElementCells(s.handler, t, s.documentEntity);
    }
  }

  lemma OutsideStep(s: PState, t: Token)
    requires !InDecl(s.handler)
    ensures OutsideCell(s.handler, t, TopLevel(s.documentEntity), Row(s, t))
    ensures s.handler.Prolog? || s.handler.Doctype? || s.handler.InternalSubset? ==> StageCell(Stage(s.handler), t, Row(s, t))
    ensures s.handler.CondSect? || s.handler.ExternalSubset0? || s.handler.ExternalSubset1?
            ==> ExternalCell(s.handler, t, s.includeLevel, Row(s, t))
  {
    hide PrologRow, DoctypeRow, CondSectRow, OtherRow;
    match s.handler {
      case Prolog(_) => PrologCells(s.handler, t);
      case Doctype(_) => DoctypeCells(s.handler, t);
      case CondSect(_) => CondSectCells(s.handler, t, s.includeLevel);
      case _ => OtherCells(s, t);
    }
  }

  // ----- the open declaration and the open groups

  // The state agrees with the keyword of the current declaration and the number of open groups.
  predicate Agrees(s: PState, kw: Keyword, groups: int) {
    var h := s.handler;
    && (InDecl(h) ==> kw == DeclKeyword(h))
    && (h == DeclClose ==> (kw == KwEntity || kw == KwNotation || kw == KwElement) && s.roleNone == DeclNone(kw))
    && (h.Element? && h.n == 1 ==> groups == 0)
    && (h.Element? && 2 <= h.n <= 5 ==> groups == 1 && s.level == 1)
    && (h.Element? && 6 <= h.n ==> groups >= 1 && s.level == groups % U32)
  }

  // How the element rows count groups; n is the number of the element handler.
  predicate GroupCell(n: int, c: Cell) {
    c.Go? && c.next.Element? ==>
      var m := c.next.n;
      match c.effect
      case FirstGroup => n == 1 && m == 2 && c.role == RoleGroupOpen
      case SecondGroup => n == 2 && m == 6 && c.role == RoleGroupOpen
      case OpenGroup => n == 6 && m == 6 && c.role == RoleGroupOpen
      case CloseGroup => n == 7 && m == 7 && IsGroupRole(c.role) && c.role != RoleElementName && c.role != RoleGroupOpen
      case Keep =>
        if c.role == RoleElementName then n == 0 && m == 1
        else !IsGroupRole(c.role) && (n == m || (2 <= n <= 5 && 3 <= m <= 7) || (n >= 6 && m >= 6))
      case _ => false
  }

  lemma GroupParts(n: int, t: Token, bare: bool)
    ensures n == 1 ==> GroupCell(n, ContentSpecRow(t))
    ensures 2 <= n <= 5 ==> GroupCell(n, MixedRow(t, bare))
  {
  }

  lemma ParticleParts(n: int, t: Token)
    requires n == 2 || n == 6
    ensures GroupCell(n, ParticleRow(t))
  {
  }

  lemma AfterParticleParts(t: Token)
    ensures GroupCell(7, AfterParticleRow(t))
  {
  }

  lemma FirstGroupCells(h: Handler, t: Token)
    requires h.Element? && h.n <= 2
    ensures GroupCell(h.n, ElementRow(h, t))
  {
    hide ContentSpecRow, MixedRow, ParticleRow, AfterParticleRow;
    GroupParts(h.n, t, true);
    if h.n == 2 {
      ParticleParts(h.n, t);
    }
  }

  lemma NestedGroupCells(h: Handler, t: Token)
    requires h.Element? && h.n > 2
    ensures GroupCell(h.n, ElementRow(h, t))
  {
    hide ContentSpecRow, MixedRow, ParticleRow, AfterParticleRow;
    GroupParts(h.n, t, true);
    GroupParts(h.n, t, false);
    if h.n == 6 {
      ParticleParts(h.n, t);
    }
    AfterParticleParts(t);
  }

  lemma GroupCells(h: Handler, t: Token)
    requires h.Element?
    ensures GroupCell(h.n, ElementRow(h, t))
  {
    hide GroupCell, ElementRow;
    if h.n <= 2 {
      FirstGroupCells(h, t);
    } else {
      NestedGroupCells(h, t);
    }
  }

  lemma Wraps(groups: int)
    ensures (groups % U32 + 1) % U32 == (groups + 1) % U32
    ensures (groups % U32 + U32 - 1) % U32 == (groups - 1) % U32
  {
  }

  lemma ElementAgrees(s: PState, t: Token, kw: Keyword, groups: int, c: Cell)
    requires Agrees(s, kw, groups) && s.handler.Element? && c.Go?
    requires c.next.Element? ==> GroupCell(s.handler.n, c)
    ensures var s' := Apply(s, c.next, c.effect); s'.handler.Element? ==> Agrees(s', kw, NextGroups(groups, c.role))
  {
    hide IsGroupRole;
    IsGroup(c.role, groups);
    Wraps(groups);
    hide NextGroups;
  }

  lemma IsGroup(r: Role, groups: int)
    ensures !IsGroupRole(r) ==> NextGroups(groups, r) == groups
    ensures IsGroupRole(r) && r != RoleElementName && r != RoleGroupOpen ==> NextGroups(groups, r) == groups - 1
    ensures r == RoleGroupOpen ==> NextGroups(groups, r) == groups + 1
    ensures r == RoleElementName ==> NextGroups(groups, r) == 0
  {
  }

  // Any answer to a cell that keeps the counters and returns no group role.
  lemma QuietAgrees(s: PState, t: Token, kw: Keyword, groups: int, c: Cell)
    requires Agrees(s, kw, groups) && !s.handler.Element?
    requires InDecl(s.handler) ==> DeclCell(s.handler, t, TopLevel(s.documentEntity), c)
    requires !InDecl(s.handler) ==> OutsideCell(s.handler, t, TopLevel(s.documentEntity), c)
    ensures var (s', r) := Answer(s, t, c);
            Agrees(s', if t.TokDeclOpen? then t.kw else kw, NextGroups(groups, r))
  {
  }

  lemma ContentAgrees(s: PState, t: Token, kw: Keyword, groups: int, c: Cell)
    requires Agrees(s, kw, groups) && s.handler.Element?
    requires DeclCell(s.handler, t, TopLevel(s.documentEntity), c) && GroupCell(s.handler.n, c)
    ensures var (s', r) := Answer(s, t, c);
            Agrees(s', if t.TokDeclOpen? then t.kw else kw, NextGroups(groups, r))
  {
    if c.Go? {
      ElementAgrees(s, t, kw, groups, c);
    }
    hide NextGroups;
  }

  lemma StepAgrees(s: PState, t: Token, kw: Keyword, groups: int)
    requires Agrees(s, kw, groups)
    ensures var (s', r) := Step(s, t);
            Agrees(s', if t.TokDeclOpen? then t.kw else kw, NextGroups(groups, r))
  {
    hide Row, ElementRow, Answer, OutsideCell, DeclCell, GroupCell, Agrees;
    if InDecl(s.handler) {
      DeclStep(s, t);
    } else {
      OutsideStep(s, t);
    }
    if s.handler.Element? {
      GroupCells(s.handler, t);
      RowInElement(s, t);
      ContentAgrees(s, t, kw, groups, Row(s, t));
    } else {
      QuietAgrees(s, t, kw, groups, Row(s, t));
    }
  }

  lemma RowInElement(s: PState, t: Token)
    requires s.handler.Element?
    ensures Row(s, t) == ElementRow(s.handler, t)
  {
  }

  lemma {:induction false} RunAgrees(s0: PState, toks: seq<Token>)
    requires InitialState(s0)
    ensures Agrees(Final(s0, toks), Declaring(toks), OpenGroups(Roles(s0, toks)))
    decreases |toks|
  {
    hide Step;
    if toks != [] {
      var before, t := toks[..|toks| - 1], toks[|toks| - 1];
      var s, roles := Final(s0, before), Roles(s0, before);
      RunAgrees(s0, before);
      StepAgrees(s, t, Declaring(before), OpenGroups(roles));
      assert Roles(s0, toks)[..|toks| - 1] == roles;
    }
  }

  /** In every run `level` is the number of open groups (mod 2^32) in all handlers
      of a model group, and there is at least one open in them; so `level` is at
      least 1 while fewer than 2^32 are open. */
  lemma LevelCountsGroups(s0: PState, toks: seq<Token>)
    requires InitialState(s0)
    ensures var s, groups := Final(s0, toks), OpenGroups(Roles(s0, toks));
            s.handler.Element? && s.handler.n >= 2 ==>
              groups >= 1 && s.level == groups % U32 && (groups < U32 ==> s.level >= 1)
  {
    hide Step, OpenGroups, Declaring, Final, Roles, DeclNone, DeclKeyword;
    RunAgrees(s0, toks);
  }

  /** declClose is reached with role_none set for the declaration that is open,
      which is an entity, notation or element declaration. */
  lemma RoleNoneIsSet(s0: PState, toks: seq<Token>)
    requires InitialState(s0)
    ensures var s, kw := Final(s0, toks), Declaring(toks);
            s.handler == DeclClose ==>
              (kw == KwEntity || kw == KwNotation || kw == KwElement) && s.roleNone == DeclNone(kw)
  {
    hide Step, OpenGroups, Declaring, Final, Roles, DeclNone, DeclKeyword;
    RunAgrees(s0, toks);
  }

  // ----- INCLUDE sections

  predicate CountsIncludes(s: PState, x: Sections) {
    s.handler == Failed ||
    (&& !s.documentEntity && !s.handler.Prolog? && !s.handler.Doctype? && s.handler != InternalSubset
     && x.open >= 0 && s.includeLevel == x.open % U32
     && (s.handler == CondSect(1) ==> x.armed)
     && (s.handler == CondSect(2) ==> !x.armed))
  }

  lemma DeclCountsIncludes(s: PState, t: Token, x: Sections, c: Cell)
    requires CountsIncludes(s, x) && InDecl(s.handler)
    requires DeclCell(s.handler, t, TopLevel(s.documentEntity), c)
    ensures CountsIncludes(Answer(s, t, c).0, NextSections(x, t))
  {
    Wraps(x.open);
    hide IsDeclRole, IsGroupRole, DeclNone, DeclKeyword;
  }

  lemma FallbackCountsIncludes(s: PState, t: Token, x: Sections)
    requires CountsIncludes(s, x) && s.handler != Failed
    ensures CountsIncludes(FallbackStep(s, t).0, NextSections(x, t))
  {
  }

  // External entities outside their declarations.
  lemma ExternalCountsIncludes(s: PState, t: Token, x: Sections, c: Cell)
    requires CountsIncludes(s, x) && c.Go?
    requires s.handler.CondSect? || s.handler.ExternalSubset0? || s.handler.ExternalSubset1?
    requires OutsideCell(s.handler, t, TopLevel(s.documentEntity), c) && ExternalCell(s.handler, t, s.includeLevel, c)
    ensures CountsIncludes(Apply(s, c.next, c.effect), NextSections(x, t))
  {
    Wraps(x.open);
    hide IsDeclRole, IsGroupRole, DeclKeyword;
  }

  lemma OutsideCountsIncludes(s: PState, t: Token, x: Sections, c: Cell)
    requires CountsIncludes(s, x) && s.handler != Failed && !InDecl(s.handler)
    requires OutsideCell(s.handler, t, TopLevel(s.documentEntity), c)
    requires s.handler.CondSect? || s.handler.ExternalSubset0? || s.handler.ExternalSubset1?
             ==> ExternalCell(s.handler, t, s.includeLevel, c)
    ensures CountsIncludes(Answer(s, t, c).0, NextSections(x, t))
  {
    if c.Fallback? {
      FallbackCountsIncludes(s, t, x);
    } else if s.handler == DeclClose {
      hide IsDeclRole, IsGroupRole, DeclKeyword;
    } else {
      ExternalCountsIncludes(s, t, x, c);
    }
  }

  lemma StepCountsIncludes(s: PState, t: Token, x: Sections)
    requires CountsIncludes(s, x)
    ensures CountsIncludes(Step(s, t).0, NextSections(x, t))
  {
    if s.handler != Failed {
      hide Row, Answer, CountsIncludes, NextSections, OutsideCell, DeclCell, ExternalCell;
      if InDecl(s.handler) {
        DeclStep(s, t);
        DeclCountsIncludes(s, t, x, Row(s, t));
      } else {
        OutsideStep(s, t);
        OutsideCountsIncludes(s, t, x, Row(s, t));
      }
    }
  }

  /** In an external entity that has not failed, `includeLevel` is the number of open
      INCLUDE sections (mod 2^32), and that number is never negative. */
  lemma {:induction false} IncludeLevel(s0: PState, toks: seq<Token>)
    requires InitialState(s0) && !s0.documentEntity
    ensures CountsIncludes(Final(s0, toks), OpenSections(toks))
    decreases |toks|
  {
    hide Step;
    if toks != [] {
      IncludeLevel(s0, toks[..|toks| - 1]);
      StepCountsIncludes(Final(s0, toks[..|toks| - 1]), toks[|toks| - 1], OpenSections(toks[..|toks| - 1]));
    }
  }

  // ----- the document entity

  // One step of a document entity: the stage never goes back, and each role belongs to its stage.
  predicate StageStep(p: int, t: Token, q: int, r: Role) {
    && p <= q
    && (r == RoleDoctypeName ==> p == 1 && q == 2)
    && (p < 2 <= q < 6 ==> r == RoleDoctypeName)
    && (IsDeclRole(r) || r == RoleParamEntityRef ==> p == 3)
    && (p < 3 && q == 3 ==> r == RoleDoctypeInternalSubset)
    && (q <= 3 ==> t != TokCloseBracket)
  }

  lemma CellStageStep(s: PState, t: Token, c: Cell)
    requires s.documentEntity && Stage(s.handler) >= 0 && s.handler != Failed
    requires InDecl(s.handler) ==> DeclCell(s.handler, t, InternalSubset, c)
    requires !InDecl(s.handler) ==> OutsideCell(s.handler, t, InternalSubset, c)
    requires s.handler.Prolog? || s.handler.Doctype? || s.handler.InternalSubset? ==> StageCell(Stage(s.handler), t, c)
    requires s.handler == DeclClose && c.Go? ==> c.role == s.roleNone && s.roleNone != RoleDoctypeName
    ensures var (s', r) := Answer(s, t, c); StageStep(Stage(s.handler), t, Stage(s'.handler), r)
  {
  }

  lemma DeclCloseRole(s: PState, t: Token)
    ensures s.handler == DeclClose && Row(s, t).Go? ==> Row(s, t).role == s.roleNone
  {
  }

  lemma DocumentStep(s: PState, t: Token, kw: Keyword, groups: int)
    requires s.documentEntity && Stage(s.handler) >= 0 && s.handler != Failed && Agrees(s, kw, groups)
    ensures var (s', r) := Step(s, t);
            s'.documentEntity && StageStep(Stage(s.handler), t, Stage(s'.handler), r)
  {
    hide Row, StageCell, OutsideCell, DeclCell, StageStep;
    if InDecl(s.handler) {
      DeclStep(s, t);
    } else {
      OutsideStep(s, t);
      DeclCloseRole(s, t);
    }
    CellStageStep(s, t, Row(s, t));
  }

  lemma FailedStep(s: PState, t: Token)
    requires s.handler == Failed
    ensures Step(s, t) == (s, RoleNone)
  {
  }

  // What the roles and tokens so far say about the stage p a document entity has reached.
  predicate Reached(p: int, toks: seq<Token>, roles: seq<Role>) {
    && |roles| == |toks| && p >= 0
    && (p < 2 ==> RoleDoctypeName !in roles)
    && (p == 3 ==> RoleDoctypeInternalSubset in roles)
    && (p <= 3 ==> TokCloseBracket !in toks)
    && (forall i, j :: 0 <= i < j < |roles| && roles[i] == RoleDoctypeName ==> roles[j] != RoleDoctypeName)
    && (forall i :: 0 <= i < |roles| && (IsDeclRole(roles[i]) || roles[i] == RoleParamEntityRef) ==>
          RoleDoctypeInternalSubset in roles[..i] && TokCloseBracket !in toks[..i])
  }

  lemma ReachedStep(p: int, toks: seq<Token>, roles: seq<Role>, q: int, t: Token, r: Role)
    requires Reached(p, toks, roles) && StageStep(p, t, q, r)
    ensures Reached(q, toks + [t], roles + [r])
  {
    var toks', roles' := toks + [t], roles + [r];
    forall i | 0 <= i < |roles'| && (IsDeclRole(roles'[i]) || roles'[i] == RoleParamEntityRef)
      ensures RoleDoctypeInternalSubset in roles'[..i] && TokCloseBracket !in toks'[..i]
    {
      assert roles'[..i] == roles[..i] && toks'[..i] == toks[..i];
      if i == |roles| {
        assert roles[..i] == roles && toks[..i] == toks;
      }
    }
  }

  lemma {:induction false} DocumentReached(s0: PState, toks: seq<Token>)
    requires InitialState(s0) && s0.documentEntity
    ensures var s := Final(s0, toks);
            s.documentEntity && Reached(Stage(s.handler), toks, Roles(s0, toks))
    decreases |toks|
  {
    hide Step, Reached;
    if toks == [] {
      NothingReached();
    } else {
      var before, t := toks[..|toks| - 1], toks[|toks| - 1];
      var s := Final(s0, before);
      DocumentReached(s0, before);
      StageReached(Stage(s.handler), before, Roles(s0, before));
      var (s', r) := Step(s, t);
      if s.handler == Failed {
        FailedStep(s, t);
        NoneRoleStep(t);
      } else {
        RunAgrees(s0, before);
        DocumentStep(s, t, Declaring(before), OpenGroups(Roles(s0, before)));
      }
      ReachedStep(Stage(s.handler), before, Roles(s0, before), Stage(s'.handler), t, r);
      assert toks == before + [t];
    }
  }

  lemma NothingReached()
    ensures Reached(0, [], [])
  {
  }

  lemma StageReached(p: int, toks: seq<Token>, roles: seq<Role>)
    requires Reached(p, toks, roles)
    ensures p >= 0
  {
  }

  lemma NoneRoleStep(t: Token)
    ensures StageStep(6, t, 6, RoleNone)
  {
  }

  /** A document entity has at most one document type declaration, and whatever is
      declared in it comes after the bracket that opens its internal subset and
      before the one that closes it. */
  lemma OneDoctypeAroundAllDeclarations(s0: PState, toks: seq<Token>, i: nat)
    requires InitialState(s0) && s0.documentEntity && i < |toks|
    ensures Roles(s0, toks)[i] == RoleDoctypeName ==>
              forall j :: 0 <= j < |toks| && Roles(s0, toks)[j] == RoleDoctypeName ==> j == i
    ensures IsDeclRole(Roles(s0, toks)[i]) || Roles(s0, toks)[i] == RoleParamEntityRef ==>
              RoleDoctypeInternalSubset in Roles(s0, toks)[..i] && TokCloseBracket !in toks[..i]
  {
    hide Step, Roles, IsDeclRole;
    DocumentReached(s0, toks);
  }

  // ----- failure is final

  // A cell returns ERROR or INSTANCE_START only on the way to the error handler.
  predicate EndCell(c: Cell) {
    c.Go? && (c.role == RoleError || c.role == RoleInstanceStart) ==> c.next == Failed
  }

  lemma PrologEnds(h: Handler, t: Token)
    ensures h.Prolog? ==> EndCell(PrologRow(h, t))
    ensures h.CondSect? ==> EndCell(CondSectRow(h, t))
  {
  }

  lemma DoctypeEnds(h: Handler, t: Token)
    ensures h.Doctype? ==> EndCell(DoctypeRow(h, t))
  {
  }

  lemma OtherEnds(s: PState, t: Token, kw: Keyword, groups: int)
    requires Agrees(s, kw, groups) && s.handler in {InternalSubset, ExternalSubset0, ExternalSubset1, DeclClose, Failed}
    ensures EndCell(OtherRow(s, t))
  {
  }

  lemma RowEnds(s: PState, t: Token, kw: Keyword, groups: int)
    requires Agrees(s, kw, groups) && !InDecl(s.handler)
    ensures EndCell(Row(s, t))
  {
    hide PrologRow, DoctypeRow, CondSectRow, OtherRow, EndCell;
    PrologEnds(s.handler, t);
    DoctypeEnds(s.handler, t);
    if !s.handler.Prolog? && !s.handler.Doctype? && !s.handler.CondSect? {
      OtherEnds(s, t, kw, groups);
    }
  }

  lemma FinalRole(s: PState, t: Token, kw: Keyword, groups: int)
    requires Agrees(s, kw, groups)
    ensures Step(s, t).1 == RoleError || Step(s, t).1 == RoleInstanceStart ==> Step(s, t).0.handler == Failed
  {
    hide Row, Agrees;
    if InDecl(s.handler) {
      DeclStep(s, t);
    } else {
      OutsideStep(s, t);
      RowEnds(s, t, kw, groups);
    }
  }

  lemma {:induction false} StaysFailed(s0: PState, toks: seq<Token>, i: nat)
    requires i < |toks| && Final(s0, toks[..i + 1]).handler == Failed
    ensures Final(s0, toks).handler == Failed
    ensures forall j :: i < j < |toks| ==> Roles(s0, toks)[j] == RoleNone
    decreases |toks|
  {
    hide Step;
    if i + 1 == |toks| {
      assert toks[..i + 1] == toks;
    } else {
      var before := toks[..|toks| - 1];
      assert before[..i + 1] == toks[..i + 1];
      StaysFailed(s0, before, i);
      FailedStep(Final(s0, before), toks[|toks| - 1]);
    }
  }

  lemma {:induction false} RoleAt(s0: PState, toks: seq<Token>, i: nat)
    requires i < |toks|
    ensures Roles(s0, toks)[i] == Step(Final(s0, toks[..i]), toks[i]).1
    ensures Final(s0, toks[..i + 1]) == Step(Final(s0, toks[..i]), toks[i]).0
    decreases |toks|
  {
    hide Step;
    var before := toks[..|toks| - 1];
    assert toks[..i + 1][..i] == toks[..i];
    if i + 1 < |toks| {
      RoleAt(s0, before, i);
      assert before[..i] == toks[..i];
    }
  }

  /** Nothing but ROLE_NONE is returned after an error or the start of the instance. */
  lemma NothingAfterTheEnd(s0: PState, toks: seq<Token>, i: nat, j: nat)
    requires InitialState(s0) && i < j < |toks|
    requires Roles(s0, toks)[i] == RoleError || Roles(s0, toks)[i] == RoleInstanceStart
    ensures Roles(s0, toks)[j] == RoleNone
  {
    hide Step;
    RoleAt(s0, toks, i);
    RunAgrees(s0, toks[..i]);
    FinalRole(Final(s0, toks[..i]), toks[i], Declaring(toks[..i]), OpenGroups(Roles(s0, toks[..i])));
    StaysFailed(s0, toks, i);
  }
}
