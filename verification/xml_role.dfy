/**
 The prolog role machine (expat/lib/xmlrole.c).

 A token is its kind plus, for names, the keyword its text spells (or `NoKw`),
 so that comparing a name with an ASCII keyword becomes a field test.

 `Row` is the transition table that the handlers have to implement; the class
 `PrologState` is the machine itself, with the fields of PROLOG_STATE.
 `level` and `includeLevel` are C `unsigned` counters and wrap at 2^32.
 */
module XmlRole {
  import opened Words

  datatype Keyword =
    | NoKw
    | KwAny | KwAttlist | KwCdata | KwDoctype | KwElement | KwEmpty
    | KwEntities | KwEntity | KwFixed | KwId | KwIdref | KwIdrefs | KwIgnore
    | KwImplied | KwInclude | KwNdata | KwNmtoken | KwNmtokens | KwNotation
    | KwPcdata | KwPublic | KwRequired | KwSystem

  // TokOther stands for every token kind that no handler names.
  datatype Token =
    | TokNone | TokS | TokXmlDecl | TokPi | TokComment | TokBom
    | TokDeclOpen(kw: Keyword) | TokDeclClose
    | TokName(kw: Keyword) | TokPrefixedName | TokNmtoken | TokPoundName(kw: Keyword)
    | TokNameQuestion | TokNameAsterisk | TokNamePlus
    | TokOr | TokComma | TokPercent | TokLiteral | TokParamEntityRef | TokInstanceStart
    | TokOpenParen | TokCloseParen | TokCloseParenQuestion | TokCloseParenAsterisk | TokCloseParenPlus
    | TokOpenBracket | TokCloseBracket | TokCondSectOpen | TokCondSectClose
    | TokOther(kind: int)

  datatype Role =
    | RoleError | RoleNone | RoleXmlDecl | RoleTextDecl | RoleInstanceStart | RolePi | RoleComment
    | RoleDoctypeNone | RoleDoctypeName | RoleDoctypeSystemId | RoleDoctypePublicId
    | RoleDoctypeInternalSubset | RoleDoctypeClose
    | RoleGeneralEntityName | RoleParamEntityName | RoleEntityNone | RoleEntityValue
    | RoleEntitySystemId | RoleEntityPublicId | RoleEntityComplete | RoleEntityNotationName
    | RoleNotationNone | RoleNotationName | RoleNotationSystemId | RoleNotationNoSystemId | RoleNotationPublicId
    | RoleAttributeName | RoleAttributeTypeCdata | RoleAttributeTypeId | RoleAttributeTypeIdref
    | RoleAttributeTypeIdrefs | RoleAttributeTypeEntity | RoleAttributeTypeEntities
    | RoleAttributeTypeNmtoken | RoleAttributeTypeNmtokens | RoleAttributeEnumValue
    | RoleAttributeNotationValue | RoleAttlistNone | RoleAttlistElementName
    | RoleImpliedAttributeValue | RoleRequiredAttributeValue | RoleDefaultAttributeValue | RoleFixedAttributeValue
    | RoleElementNone | RoleElementName | RoleContentAny | RoleContentEmpty | RoleContentPcdata
    | RoleGroupOpen | RoleGroupClose | RoleGroupCloseRep | RoleGroupCloseOpt | RoleGroupClosePlus
    | RoleGroupChoice | RoleGroupSequence
    | RoleContentElement | RoleContentElementRep | RoleContentElementOpt | RoleContentElementPlus
    | RoleIgnoreSect | RoleInnerParamEntityRef | RoleParamEntityRef

  // The handlers of the file, numbered within their family as there.
  datatype Handler =
    | Prolog(n: int) | Doctype(n: int)
    | InternalSubset | ExternalSubset0 | ExternalSubset1
    | CondSect(n: int) | Objects(n: int) | Notation(n: int) | Attlist(n: int) | Element(n: int)
    | DeclClose | Failed

  predicate IsHandler(h: Handler) {
    match h
    case Prolog(n) => 0 <= n <= 2
    case Doctype(n) => 0 <= n <= 5
    case CondSect(n) => 0 <= n <= 2
    case Objects(n) => 0 <= n <= 10
    case Notation(n) => 0 <= n <= 4
    case Attlist(n) => 0 <= n <= 9
    case Element(n) => 0 <= n <= 7
    case _ => true
  }

  datatype PState = PState(handler: Handler, level: nat, roleNone: Role, includeLevel: nat, documentEntity: bool)

  // What a transition does to the counters and to role_none.
  datatype Effect = Keep | FirstGroup | SecondGroup | OpenGroup | CloseGroup | OpenInclude | CloseInclude | Finish(none: Role)

  datatype Cell = Go(next: Handler, effect: Effect, role: Role) | Fallback

  function TopLevel(documentEntity: bool): Handler {
    if documentEntity then InternalSubset else ExternalSubset1
  }

  predicate IsNameTok(t: Token) {
    t.TokName? || t.TokPrefixedName?
  }

  function Literal(t: Token, next: Cell): Cell {
    if t.TokLiteral? then next else Fallback
  }

  function ExternalId(t: Token, none: Role, system: Handler, public: Handler): Cell {
    if t == TokName(KwSystem) then Go(system, Keep, none)
    else if t == TokName(KwPublic) then Go(public, Keep, none)
    else Fallback
  }

  function AttributeTypeRole(kw: Keyword): Role {
    match kw
    case KwCdata => RoleAttributeTypeCdata
    case KwId => RoleAttributeTypeId
    case KwIdref => RoleAttributeTypeIdref
    case KwIdrefs => RoleAttributeTypeIdrefs
    case KwEntity => RoleAttributeTypeEntity
    case KwEntities => RoleAttributeTypeEntities
    case KwNmtoken => RoleAttributeTypeNmtoken
    case KwNmtokens => RoleAttributeTypeNmtokens
    case _ => RoleError
  }

  // The tables of attribute types and of their roles.
  function TypeKeyword(i: nat): Keyword
    requires i < 8
  {
    match i
    case 0 => KwCdata
    case 1 => KwId
    case 2 => KwIdref
    case 3 => KwIdrefs
    case 4 => KwEntity
    case 5 => KwEntities
    case 6 => KwNmtoken
    case _ => KwNmtokens
  }

  function TypeRole(i: nat): Role
    requires i < 8
  {
    match i
    case 0 => RoleAttributeTypeCdata
    case 1 => RoleAttributeTypeId
    case 2 => RoleAttributeTypeIdref
    case 3 => RoleAttributeTypeIdrefs
    case 4 => RoleAttributeTypeEntity
    case 5 => RoleAttributeTypeEntities
    case 6 => RoleAttributeTypeNmtoken
    case _ => RoleAttributeTypeNmtokens
  }

  lemma NotationIsNoType()
    ensures AttributeTypeRole(KwNotation) == RoleError
  {
  }

  lemma TypeAt(i: nat)
    requires i < 8
    ensures AttributeTypeRole(TypeKeyword(i)) == TypeRole(i)
  {
  }

  lemma NoType(kw: Keyword)
    requires forall j :: 0 <= j < 8 ==> kw != TypeKeyword(j)
    ensures AttributeTypeRole(kw) == RoleError
  {
    assert TypeKeyword(0) != kw && TypeKeyword(1) != kw && TypeKeyword(2) != kw && TypeKeyword(3) != kw;
    assert TypeKeyword(4) != kw && TypeKeyword(5) != kw && TypeKeyword(6) != kw && TypeKeyword(7) != kw;
  }

  // An element name inside a model group, with its occurrence indicator.
  function ParticleRow(t: Token): Cell {
    if IsNameTok(t) then Go(Element(7), Keep, RoleContentElement)
    else if t.TokNameQuestion? then Go(Element(7), Keep, RoleContentElementOpt)
    else if t.TokNameAsterisk? then Go(Element(7), Keep, RoleContentElementRep)
    else if t.TokNamePlus? then Go(Element(7), Keep, RoleContentElementPlus)
    else Fallback
  }

  // Prolog: white space, PIs and comments before and after the document type declaration.
  function MiscRow(t: Token, after: Handler): Cell {
    if t.TokS? then Go(after, Keep, RoleNone)
    else if t.TokPi? then Go(after, Keep, RolePi)
    else if t.TokComment? then Go(after, Keep, RoleComment)
    else if t.TokInstanceStart? then Go(Failed, Keep, RoleInstanceStart)
    else Fallback
  }

  function BeforeDoctypeRow(t: Token, stay: Handler): Cell {
    if t.TokBom? then Go(stay, Keep, RoleNone)
    else if t == TokDeclOpen(KwDoctype) then Go(Doctype(0), Keep, RoleDoctypeNone)
    else MiscRow(t, Prolog(1))
  }

  function Prolog0Row(t: Token): Cell {
    if t.TokXmlDecl? then Go(Prolog(1), Keep, RoleXmlDecl) else BeforeDoctypeRow(t, Prolog(0))
  }

  function PrologRow(h: Handler, t: Token): Cell
    requires h.Prolog?
  {
    match h
    case Prolog(0) => Prolog0Row(t)
    case Prolog(1) => BeforeDoctypeRow(t, Prolog(1))
    case Prolog(2) => MiscRow(t, Prolog(2))
    case _ => Fallback
  }

  // The end of the document type declaration, or its internal subset.
  function SubsetRow(t: Token): Cell {
    if t.TokOpenBracket? then Go(InternalSubset, Keep, RoleDoctypeInternalSubset)
    else if t.TokDeclClose? then Go(Prolog(2), Keep, RoleDoctypeClose)
    else Fallback
  }

  function DoctypeRow(h: Handler, t: Token): Cell
    requires h.Doctype?
  {
    if t.TokS? then Go(h, Keep, RoleDoctypeNone)
    else match h
    case Doctype(0) => if IsNameTok(t) then Go(Doctype(1), Keep, RoleDoctypeName) else Fallback
    case Doctype(1) => if t.TokName? then ExternalId(t, RoleDoctypeNone, Doctype(3), Doctype(2)) else SubsetRow(t)
    case Doctype(2) => Literal(t, Go(Doctype(3), Keep, RoleDoctypePublicId))
    case Doctype(3) => Literal(t, Go(Doctype(4), Keep, RoleDoctypeSystemId))
    case Doctype(4) => SubsetRow(t)
    case Doctype(5) => if t.TokDeclClose? then Go(Prolog(2), Keep, RoleDoctypeClose) else Fallback
    case _ => Fallback
  }

  function InternalRow(t: Token, stay: Handler): Cell {
    if t.TokDeclOpen? then
      (if t.kw == KwEntity then Go(Objects(0), Keep, RoleEntityNone)
       else if t.kw == KwAttlist then Go(Attlist(0), Keep, RoleAttlistNone)
       else if t.kw == KwElement then Go(Element(0), Keep, RoleElementNone)
       else if t.kw == KwNotation then Go(Notation(0), Keep, RoleNotationNone)
       else Fallback)
    else if t.TokS? || t.TokNone? then Go(stay, Keep, RoleNone)
    else if t.TokPi? then Go(stay, Keep, RolePi)
    else if t.TokComment? then Go(stay, Keep, RoleComment)
    else if t.TokParamEntityRef? then Go(stay, Keep, RoleParamEntityRef)
    else if t.TokCloseBracket? then Go(Doctype(5), Keep, RoleDoctypeNone)
    else Fallback
  }

  function ExternalRow(t: Token, includeLevel: nat): Cell {
    if t.TokCondSectOpen? then Go(CondSect(0), Keep, RoleNone)
    else if t.TokCondSectClose? && includeLevel != 0 then Go(ExternalSubset1, CloseInclude, RoleNone)
    else if t.TokCondSectClose? || t.TokCloseBracket? || (t.TokNone? && includeLevel != 0) then Fallback
    else InternalRow(t, ExternalSubset1)
  }

  function CondSectRow(h: Handler, t: Token): Cell
    requires h.CondSect?
  {
    if t.TokS? then Go(h, Keep, RoleNone)
    else match h
    case CondSect(0) =>
      if t == TokName(KwInclude) then Go(CondSect(1), Keep, RoleNone)
      else if t == TokName(KwIgnore) then Go(CondSect(2), Keep, RoleNone)
      else Fallback
    case CondSect(1) => if t.TokOpenBracket? then Go(ExternalSubset1, OpenInclude, RoleNone) else Fallback
    case CondSect(2) => if t.TokOpenBracket? then Go(ExternalSubset1, Keep, RoleIgnoreSect) else Fallback
    case _ => Fallback
  }

  // General entities run Objects(2)..6, parameter entities Objects(7)..10.
  function ObjectsRow(h: Handler, t: Token, top: Handler): Cell
    requires h.Objects?
  {
    var none := RoleEntityNone;
    var value := Go(DeclClose, Finish(none), RoleEntityValue);
    var complete := Go(top, Keep, RoleEntityComplete);
    if t.TokS? then Go(h, Keep, none)
    else match h
    case Objects(0) =>
      if t.TokPercent? then Go(Objects(1), Keep, none)
      else if t.TokName? then Go(Objects(2), Keep, RoleGeneralEntityName)
      else Fallback
    case Objects(1) => if t.TokName? then Go(Objects(7), Keep, RoleParamEntityName) else Fallback
    case Objects(2) => if t.TokLiteral? then value else ExternalId(t, none, Objects(4), Objects(3))
    case Objects(3) => Literal(t, Go(Objects(4), Keep, RoleEntityPublicId))
    case Objects(4) => Literal(t, Go(Objects(5), Keep, RoleEntitySystemId))
    case Objects(5) =>
      if t.TokDeclClose? then complete
      else if t == TokName(KwNdata) then Go(Objects(6), Keep, none)
      else Fallback
    case Objects(6) => if t.TokName? then Go(DeclClose, Finish(none), RoleEntityNotationName) else Fallback
    case Objects(7) => if t.TokLiteral? then value else ExternalId(t, none, Objects(9), Objects(8))
    case Objects(8) => Literal(t, Go(Objects(9), Keep, RoleEntityPublicId))
    case Objects(9) => Literal(t, Go(Objects(10), Keep, RoleEntitySystemId))
    case Objects(10) => if t.TokDeclClose? then complete else Fallback
    case _ => Fallback
  }

  function NotationRow(h: Handler, t: Token, top: Handler): Cell
    requires h.Notation?
  {
    var none := RoleNotationNone;
    var system := Go(DeclClose, Finish(none), RoleNotationSystemId);
    if t.TokS? then Go(h, Keep, none)
    else match h
    case Notation(0) => if t.TokName? then Go(Notation(1), Keep, RoleNotationName) else Fallback
    case Notation(1) => ExternalId(t, none, Notation(3), Notation(2))
    case Notation(2) => Literal(t, Go(Notation(4), Keep, RoleNotationPublicId))
    case Notation(3) => Literal(t, system)
    case Notation(4) => if t.TokDeclClose? then Go(top, Keep, RoleNotationNoSystemId) else Literal(t, system)
    case _ => Fallback
  }

  function DefaultValueRow(t: Token): Cell {
    if t == TokPoundName(KwImplied) then Go(Attlist(1), Keep, RoleImpliedAttributeValue)
    else if t == TokPoundName(KwRequired) then Go(Attlist(1), Keep, RoleRequiredAttributeValue)
    else if t == TokPoundName(KwFixed) then Go(Attlist(9), Keep, RoleAttlistNone)
    else Literal(t, Go(Attlist(1), Keep, RoleDefaultAttributeValue))
  }

  function AttributeTypeRow(t: Token): Cell {
    if t.TokOpenParen? then Go(Attlist(3), Keep, RoleAttlistNone)
    else if !t.TokName? then Fallback
    else if t.kw == KwNotation then Go(Attlist(5), Keep, RoleAttlistNone)
    else if AttributeTypeRole(t.kw) != RoleError then Go(Attlist(8), Keep, AttributeTypeRole(t.kw))
    else Fallback
  }

  // After one value of an enumeration: another one, or its end.
  function EnumerationRow(t: Token, another: Handler): Cell {
    if t.TokCloseParen? then Go(Attlist(8), Keep, RoleAttlistNone)
    else if t.TokOr? then Go(another, Keep, RoleAttlistNone)
    else Fallback
  }

  function AttlistRow(h: Handler, t: Token, top: Handler): Cell
    requires h.Attlist?
  {
    var none := RoleAttlistNone;
    if t.TokS? then Go(h, Keep, none)
    else match h
    case Attlist(0) => if IsNameTok(t) then Go(Attlist(1), Keep, RoleAttlistElementName) else Fallback
    case Attlist(1) =>
      if t.TokDeclClose? then Go(top, Keep, none)
      else if IsNameTok(t) then Go(Attlist(2), Keep, RoleAttributeName)
      else Fallback
    case Attlist(2) => AttributeTypeRow(t)
    case Attlist(3) => if t.TokNmtoken? || IsNameTok(t) then Go(Attlist(4), Keep, RoleAttributeEnumValue) else Fallback
    case Attlist(4) => EnumerationRow(t, Attlist(3))
    case Attlist(5) => if t.TokOpenParen? then Go(Attlist(6), Keep, none) else Fallback
    case Attlist(6) => if t.TokName? then Go(Attlist(7), Keep, RoleAttributeNotationValue) else Fallback
    case Attlist(7) => EnumerationRow(t, Attlist(6))
    case Attlist(8) => DefaultValueRow(t)
    case Attlist(9) => Literal(t, Go(Attlist(1), Keep, RoleFixedAttributeValue))
    case _ => Fallback
  }

  function ContentSpecRow(t: Token): Cell {
    if t == TokName(KwEmpty) then Go(DeclClose, Finish(RoleElementNone), RoleContentEmpty)
    else if t == TokName(KwAny) then Go(DeclClose, Finish(RoleElementNone), RoleContentAny)
    else if t.TokOpenParen? then Go(Element(2), FirstGroup, RoleGroupOpen)
    else Fallback
  }

  // Mixed content: after #PCDATA (Element(3)) or after a name (Element(5)).
  function MixedRow(t: Token, bare: bool): Cell {
    if t.TokCloseParen? && bare then Go(DeclClose, Finish(RoleElementNone), RoleGroupClose)
    else if t.TokCloseParenAsterisk? then Go(DeclClose, Finish(RoleElementNone), RoleGroupCloseRep)
    else if t.TokOr? then Go(Element(4), Keep, RoleElementNone)
    else Fallback
  }

  function AfterParticleRow(t: Token): Cell {
    if t.TokCloseParen? then Go(Element(7), CloseGroup, RoleGroupClose)
    else if t.TokCloseParenAsterisk? then Go(Element(7), CloseGroup, RoleGroupCloseRep)
    else if t.TokCloseParenQuestion? then Go(Element(7), CloseGroup, RoleGroupCloseOpt)
    else if t.TokCloseParenPlus? then Go(Element(7), CloseGroup, RoleGroupClosePlus)
    else if t.TokComma? then Go(Element(6), Keep, RoleGroupSequence)
    else if t.TokOr? then Go(Element(6), Keep, RoleGroupChoice)
    else Fallback
  }

  function ElementRow(h: Handler, t: Token): Cell
    requires h.Element?
  {
    if t.TokS? then Go(h, Keep, RoleElementNone)
    else match h
    case Element(0) => if IsNameTok(t) then Go(Element(1), Keep, RoleElementName) else Fallback
    case Element(1) => ContentSpecRow(t)
    case Element(2) =>
      if t == TokPoundName(KwPcdata) then Go(Element(3), Keep, RoleContentPcdata)
      else if t.TokOpenParen? then Go(Element(6), SecondGroup, RoleGroupOpen)
      else ParticleRow(t)
    case Element(3) => MixedRow(t, true)
    case Element(4) => if IsNameTok(t) then Go(Element(5), Keep, RoleContentElement) else Fallback
    case Element(5) => MixedRow(t, false)
    case Element(6) => if t.TokOpenParen? then Go(Element(6), OpenGroup, RoleGroupOpen) else ParticleRow(t)
    case Element(7) => AfterParticleRow(t)
    case _ => Fallback
  }

  // The subsets themselves, the common tail of the declarations, and the error handler.
  function OtherRow(s: PState, t: Token): Cell {
    match s.handler
    case InternalSubset => InternalRow(t, InternalSubset)
    case ExternalSubset0 => if t.TokXmlDecl? then Go(ExternalSubset1, Keep, RoleTextDecl) else ExternalRow(t, s.includeLevel)
    case ExternalSubset1 => ExternalRow(t, s.includeLevel)
    case DeclClose =>
      if t.TokS? then Go(DeclClose, Keep, s.roleNone)
      else if t.TokDeclClose? then Go(TopLevel(s.documentEntity), Keep, s.roleNone)
      else Fallback
    case _ => Go(Failed, Keep, RoleNone)
  }

  /** The transition table: what each handler does with each token. */
  function Row(s: PState, t: Token): Cell {
    match s.handler
    case Prolog(_) => PrologRow(s.handler, t)
    case Doctype(_) => DoctypeRow(s.handler, t)
    case CondSect(_) => CondSectRow(s.handler, t)
    case Objects(_) => ObjectsRow(s.handler, t, TopLevel(s.documentEntity))
    case Notation(_) => NotationRow(s.handler, t, TopLevel(s.documentEntity))
    case Attlist(_) => AttlistRow(s.handler, t, TopLevel(s.documentEntity))
    case Element(_) => ElementRow(s.handler, t)
    case _ => OtherRow(s, t)
  }

  function Apply(s: PState, next: Handler, effect: Effect): PState {
    match effect
    case Keep => s.(handler := next)
    case FirstGroup => s.(handler := next, level := 1)
    case SecondGroup => s.(handler := next, level := 2)
    case OpenGroup => s.(handler := next, level := (s.level + 1) % U32)
    case CloseGroup =>
      var level := (s.level + U32 - 1) % U32;
      if level == 0 then s.(handler := DeclClose, level := 0, roleNone := RoleElementNone)
      else s.(handler := next, level := level)
    case OpenInclude => s.(handler := next, includeLevel := (s.includeLevel + 1) % U32)
    case CloseInclude => s.(handler := next, includeLevel := (s.includeLevel + U32 - 1) % U32)
    case Finish(none) => s.(handler := next, roleNone := none)
  }

  // A token no row accepts: an error, unless it is a parameter entity reference
  // inside a declaration of an external entity. `externalSubset0` has already
  // moved on when it falls back.
  function FallbackStep(s: PState, t: Token): (PState, Role) {
    if !s.documentEntity && t.TokParamEntityRef?
    then (s.(handler := if s.handler.ExternalSubset0? then ExternalSubset1 else s.handler), RoleInnerParamEntityRef)
    else (s.(handler := Failed), RoleError)
  }

  // The state and the role a handler with this table cell answers with.
  function Answer(s: PState, t: Token, cell: Cell): (PState, Role) {
    if cell.Go? then (Apply(s, cell.next, cell.effect), cell.role) else FallbackStep(s, t)
  }

  function Step(s: PState, t: Token): (PState, Role) {
    Answer(s, t, Row(s, t))
  }

  lemma MovedOn(s: PState, t: Token, cell: Cell)
    requires s.handler == ExternalSubset0
    ensures Answer(s.(handler := ExternalSubset1), t, cell) == Answer(s, t, cell)
  {
  }

  lemma TextDeclared(s: PState, t: Token)
    requires s.handler == ExternalSubset0 && t.TokXmlDecl?
    ensures Answer(s, t, OtherRow(s, t)) == (s.(handler := ExternalSubset1), RoleTextDecl)
  {
  }

  /** PROLOG_STATE and its handlers; each handler method answers one token. */
  class PrologState {
    var handler: Handler
    var level: nat
    var roleNone: Role
    var includeLevel: nat
    var documentEntity: bool

    function Snapshot(): PState
      reads this
    {
      PState(handler, level, roleNone, includeLevel, documentEntity)
    }

    predicate Valid()
      reads this
    {
      IsHandler(handler)
    }

    // XmlPrologStateInit: level and role_none keep whatever they held.
    method Init()
      modifies this
      ensures Valid()
      ensures Snapshot() == PState(Prolog(0), old(level), old(roleNone), 0, true)
    {
      handler := Prolog(0);
      documentEntity := true;
      includeLevel := 0;
    }

    method InitExternalEntity()
      modifies this
      ensures Valid()
      ensures Snapshot() == PState(ExternalSubset0, old(level), old(roleNone), 0, false)
    {
      handler := ExternalSubset0;
      documentEntity := false;
      includeLevel := 0;
    }

    method SetTopLevel()
      modifies this`handler
      ensures handler == TopLevel(documentEntity)
    {
      if documentEntity { handler := InternalSubset; } else { handler := ExternalSubset1; }
    }

    method Common(t: Token) returns (role: Role)
      modifies this`handler
      ensures !documentEntity && t.TokParamEntityRef? ==> handler == old(handler) && role == RoleInnerParamEntityRef
      ensures documentEntity || !t.TokParamEntityRef? ==> handler == Failed && role == RoleError
    {
      if !documentEntity && t.TokParamEntityRef? { return RoleInnerParamEntityRef; }
      handler := Failed;
      return RoleError;
    }

    method OnProlog0(t: Token) returns (role: Role)
      requires handler == Prolog(0)
      modifies this
      ensures Valid()
      ensures (Snapshot(), role) == Answer(old(Snapshot()), t, PrologRow(old(handler), t))
    {
      if t.TokS? { handler := Prolog(1); return RoleNone; }
      if t.TokXmlDecl? { handler := Prolog(1); return RoleXmlDecl; }
      if t.TokPi? { handler := Prolog(1); return RolePi; }
      if t.TokComment? { handler := Prolog(1); return RoleComment; }
      if t.TokBom? { return RoleNone; }
      if t == TokDeclOpen(KwDoctype) { handler := Doctype(0); return RoleDoctypeNone; }
      if t.TokInstanceStart? { handler := Failed; return RoleInstanceStart; }
      role := Common(t);
    }

    method OnProlog1(t: Token) returns (role: Role)
      requires handler == Prolog(1)
      modifies this
      ensures Valid()
      ensures (Snapshot(), role) == Answer(old(Snapshot()), t, PrologRow(old(handler), t))
    {
      if t.TokS? { return RoleNone; }
      if t.TokPi? { return RolePi; }
      if t.TokComment? { return RoleComment; }
      if t.TokBom? { return RoleNone; }
      if t == TokDeclOpen(KwDoctype) { handler := Doctype(0); return RoleDoctypeNone; }
      if t.TokInstanceStart? { handler := Failed; return RoleInstanceStart; }
      role := Common(t);
    }

    method OnProlog2(t: Token) returns (role: Role)
      requires handler == Prolog(2)
      modifies this
      ensures Valid()
      ensures (Snapshot(), role) == Answer(old(Snapshot()), t, PrologRow(old(handler), t))
    {
      if t.TokS? { return RoleNone; }
      if t.TokPi? { return RolePi; }
      if t.TokComment? { return RoleComment; }
      if t.TokInstanceStart? { handler := Failed; return RoleInstanceStart; }
      role := Common(t);
    }

    method OnDoctype0(t: Token) returns (role: Role)
      requires handler == Doctype(0)
      modifies this
      ensures Valid()
      ensures (Snapshot(), role) == Answer(old(Snapshot()), t, DoctypeRow(old(handler), t))
    {
      if t.TokS? { return RoleDoctypeNone; }
      if IsNameTok(t) { handler := Doctype(1); return RoleDoctypeName; }
      role := Common(t);
    }

    method OnDoctype1(t: Token) returns (role: Role)
      requires handler == Doctype(1)
      modifies this
      ensures Valid()
      ensures (Snapshot(), role) == Answer(old(Snapshot()), t, DoctypeRow(old(handler), t))
    {
      if t.TokS? { return RoleDoctypeNone; }
      if t.TokOpenBracket? { handler := InternalSubset; return RoleDoctypeInternalSubset; }
      if t.TokDeclClose? { handler := Prolog(2); return RoleDoctypeClose; }
      if t == TokName(KwSystem) { handler := Doctype(3); return RoleDoctypeNone; }
      if t == TokName(KwPublic) { handler := Doctype(2); return RoleDoctypeNone; }
      role := Common(t);
    }

    method OnDoctype2(t: Token) returns (role: Role)
      requires handler == Doctype(2)
      modifies this
      ensures Valid()
      ensures (Snapshot(), role) == Answer(old(Snapshot()), t, DoctypeRow(old(handler), t))
    {
      if t.TokS? { return RoleDoctypeNone; }
      if t.TokLiteral? { handler := Doctype(3); return RoleDoctypePublicId; }
      role := Common(t);
    }

    method OnDoctype3(t: Token) returns (role: Role)
      requires handler == Doctype(3)
      modifies this
      ensures Valid()
      ensures (Snapshot(), role) == Answer(old(Snapshot()), t, DoctypeRow(old(handler), t))
    {
      if t.TokS? { return RoleDoctypeNone; }
      if t.TokLiteral? { handler := Doctype(4); return RoleDoctypeSystemId; }
      role := Common(t);
    }

    method OnDoctype4(t: Token) returns (role: Role)
      requires handler == Doctype(4)
      modifies this
      ensures Valid()
      ensures (Snapshot(), role) == Answer(old(Snapshot()), t, DoctypeRow(old(handler), t))
    {
      if t.TokS? { return RoleDoctypeNone; }
      if t.TokOpenBracket? { handler := InternalSubset; return RoleDoctypeInternalSubset; }
      if t.TokDeclClose? { handler := Prolog(2); return RoleDoctypeClose; }
      role := Common(t);
    }

    method OnDoctype5(t: Token) returns (role: Role)
      requires handler == Doctype(5)
      modifies this
      ensures Valid()
      ensures (Snapshot(), role) == Answer(old(Snapshot()), t, DoctypeRow(old(handler), t))
    {
      if t.TokS? { return RoleDoctypeNone; }
      if t.TokDeclClose? { handler := Prolog(2); return RoleDoctypeClose; }
      role := Common(t);
    }

    // internalSubset; it is also run from externalSubset1 for the tokens that one leaves alone.
    method OnInternalSubset(t: Token) returns (role: Role)
      requires handler.InternalSubset? || handler.ExternalSubset1?
      modifies this
      ensures Valid()
      ensures (Snapshot(), role) == Answer(old(Snapshot()), t, InternalRow(t, old(handler)))
    {
      if t.TokS? { return RoleNone; }
      if t == TokDeclOpen(KwEntity) { handler := Objects(0); return RoleEntityNone; }
      if t == TokDeclOpen(KwAttlist) { handler := Attlist(0); return RoleAttlistNone; }
      if t == TokDeclOpen(KwElement) { handler := Element(0); return RoleElementNone; }
      if t == TokDeclOpen(KwNotation) { handler := Notation(0); return RoleNotationNone; }
      if t.TokPi? { return RolePi; }
      if t.TokComment? { return RoleComment; }
      if t.TokParamEntityRef? { return RoleParamEntityRef; }
      if t.TokCloseBracket? { handler := Doctype(5); return RoleDoctypeNone; }
      if t.TokNone? { return RoleNone; }
      role := Common(t);
    }

    method OnExternalSubset1(t: Token) returns (role: Role)
      requires handler.ExternalSubset1?
      modifies this
      ensures Valid()
      ensures (Snapshot(), role) == Answer(old(Snapshot()), t, ExternalRow(t, old(includeLevel)))
    {
      if t.TokCondSectOpen? { handler := CondSect(0); return RoleNone; }
      if t.TokCondSectClose? {
        if includeLevel != 0 {
          includeLevel := (includeLevel + U32 - 1) % U32;
          return RoleNone;
        }
      } else if t.TokS? {
        return RoleNone;
      } else if t.TokNone? {
        if includeLevel == 0 { return RoleNone; }
      } else if !t.TokCloseBracket? {
        role := OnInternalSubset(t);
        return;
      }
      role := Common(t);
    }

    method OnExternalSubset0(t: Token) returns (role: Role)
      requires handler.ExternalSubset0?
      modifies this
      ensures Valid()
      ensures (Snapshot(), role) == Answer(old(Snapshot()), t, OtherRow(old(Snapshot()), t))
    {
      hide ExternalRow, InternalRow, Apply, FallbackStep;
      MovedOn(Snapshot(), t, ExternalRow(t, includeLevel));
      handler := ExternalSubset1;
      if t.TokXmlDecl? {
        TextDeclared(old(Snapshot()), t);
        return RoleTextDecl;
      }
      hide Answer;
      role := OnExternalSubset1(t);
    }

    method OnCondSect0(t: Token) returns (role: Role)
      requires handler == CondSect(0)
      modifies this
      ensures Valid()
      ensures (Snapshot(), role) == Answer(old(Snapshot()), t, CondSectRow(old(handler), t))
    {
      if t.TokS? { return RoleNone; }
      if t == TokName(KwInclude) { handler := CondSect(1); return RoleNone; }
      if t == TokName(KwIgnore) { handler := CondSect(2); return RoleNone; }
      role := Common(t);
    }

    method OnCondSect1(t: Token) returns (role: Role)
      requires handler == CondSect(1)
      modifies this
      ensures Valid()
      ensures (Snapshot(), role) == Answer(old(Snapshot()), t, CondSectRow(old(handler), t))
    {
      if t.TokS? { return RoleNone; }
      if t.TokOpenBracket? {
        handler := ExternalSubset1;
        includeLevel := (includeLevel + 1) % U32;
        return RoleNone;
      }
      role := Common(t);
    }

    method OnCondSect2(t: Token) returns (role: Role)
      requires handler == CondSect(2)
      modifies this
      ensures Valid()
      ensures (Snapshot(), role) == Answer(old(Snapshot()), t, CondSectRow(old(handler), t))
    {
      if t.TokS? { return RoleNone; }
      if t.TokOpenBracket? { handler := ExternalSubset1; return RoleIgnoreSect; }
      role := Common(t);
    }

    method OnObjects0(t: Token) returns (role: Role)
      requires handler == Objects(0)
      modifies this
      ensures Valid()
      ensures (Snapshot(), role) == Answer(old(Snapshot()), t, ObjectsRow(old(handler), t, TopLevel(documentEntity)))
    {
      if t.TokS? { return RoleEntityNone; }
      if t.TokPercent? { handler := Objects(1); return RoleEntityNone; }
      if t.TokName? { handler := Objects(2); return RoleGeneralEntityName; }
      role := Common(t);
    }

    method OnObjects1(t: Token) returns (role: Role)
      requires handler == Objects(1)
      modifies this
      ensures Valid()
      ensures (Snapshot(), role) == Answer(old(Snapshot()), t, ObjectsRow(old(handler), t, TopLevel(documentEntity)))
    {
      if t.TokS? { return RoleEntityNone; }
      if t.TokName? { handler := Objects(7); return RoleParamEntityName; }
      role := Common(t);
    }

    method OnObjects2(t: Token) returns (role: Role)
      requires handler == Objects(2)
      modifies this
      ensures Valid()
      ensures (Snapshot(), role) == Answer(old(Snapshot()), t, ObjectsRow(old(handler), t, TopLevel(documentEntity)))
    {
      if t.TokS? { return RoleEntityNone; }
      if t == TokName(KwSystem) { handler := Objects(4); return RoleEntityNone; }
      if t == TokName(KwPublic) { handler := Objects(3); return RoleEntityNone; }
      if t.TokLiteral? { handler := DeclClose; roleNone := RoleEntityNone; return RoleEntityValue; }
      role := Common(t);
    }

    method OnObjects3(t: Token) returns (role: Role)
      requires handler == Objects(3)
      modifies this
      ensures Valid()
      ensures (Snapshot(), role) == Answer(old(Snapshot()), t, ObjectsRow(old(handler), t, TopLevel(documentEntity)))
    {
      if t.TokS? { return RoleEntityNone; }
      if t.TokLiteral? { handler := Objects(4); return RoleEntityPublicId; }
      role := Common(t);
    }

    method OnObjects4(t: Token) returns (role: Role)
      requires handler == Objects(4)
      modifies this
      ensures Valid()
      ensures (Snapshot(), role) == Answer(old(Snapshot()), t, ObjectsRow(old(handler), t, TopLevel(documentEntity)))
    {
      if t.TokS? { return RoleEntityNone; }
      if t.TokLiteral? { handler := Objects(5); return RoleEntitySystemId; }
      role := Common(t);
    }

    method OnObjects5(t: Token) returns (role: Role)
      requires handler == Objects(5)
      modifies this
      ensures Valid()
      ensures (Snapshot(), role) == Answer(old(Snapshot()), t, ObjectsRow(old(handler), t, TopLevel(documentEntity)))
    {
      if t.TokS? { return RoleEntityNone; }
      if t.TokDeclClose? { SetTopLevel(); return RoleEntityComplete; }
      if t == TokName(KwNdata) { handler := Objects(6); return RoleEntityNone; }
      role := Common(t);
    }

    method OnObjects6(t: Token) returns (role: Role)
      requires handler == Objects(6)
      modifies this
      ensures Valid()
      ensures (Snapshot(), role) == Answer(old(Snapshot()), t, ObjectsRow(old(handler), t, TopLevel(documentEntity)))
    {
      if t.TokS? { return RoleEntityNone; }
      if t.TokName? { handler := DeclClose; roleNone := RoleEntityNone; return RoleEntityNotationName; }
      role := Common(t);
    }

    method OnObjects7(t: Token) returns (role: Role)
      requires handler == Objects(7)
      modifies this
      ensures Valid()
      ensures (Snapshot(), role) == Answer(old(Snapshot()), t, ObjectsRow(old(handler), t, TopLevel(documentEntity)))
    {
      if t.TokS? { return RoleEntityNone; }
      if t == TokName(KwSystem) { handler := Objects(9); return RoleEntityNone; }
      if t == TokName(KwPublic) { handler := Objects(8); return RoleEntityNone; }
      if t.TokLiteral? { handler := DeclClose; roleNone := RoleEntityNone; return RoleEntityValue; }
      role := Common(t);
    }

    method OnObjects8(t: Token) returns (role: Role)
      requires handler == Objects(8)
      modifies this
      ensures Valid()
      ensures (Snapshot(), role) == Answer(old(Snapshot()), t, ObjectsRow(old(handler), t, TopLevel(documentEntity)))
    {
      if t.TokS? { return RoleEntityNone; }
      if t.TokLiteral? { handler := Objects(9); return RoleEntityPublicId; }
      role := Common(t);
    }

    method OnObjects9(t: Token) returns (role: Role)
      requires handler == Objects(9)
      modifies this
      ensures Valid()
      ensures (Snapshot(), role) == Answer(old(Snapshot()), t, ObjectsRow(old(handler), t, TopLevel(documentEntity)))
    {
      if t.TokS? { return RoleEntityNone; }
      if t.TokLiteral? { handler := Objects(10); return RoleEntitySystemId; }
      role := Common(t);
    }

    method OnObjects10(t: Token) returns (role: Role)
      requires handler == Objects(10)
      modifies this
      ensures Valid()
      ensures (Snapshot(), role) == Answer(old(Snapshot()), t, ObjectsRow(old(handler), t, TopLevel(documentEntity)))
    {
      if t.TokS? { return RoleEntityNone; }
      if t.TokDeclClose? { SetTopLevel(); return RoleEntityComplete; }
      role := Common(t);
    }

    method OnNotation0(t: Token) returns (role: Role)
      requires handler == Notation(0)
      modifies this
      ensures Valid()
      ensures (Snapshot(), role) == Answer(old(Snapshot()), t, NotationRow(old(handler), t, TopLevel(documentEntity)))
    {
      if t.TokS? { return RoleNotationNone; }
      if t.TokName? { handler := Notation(1); return RoleNotationName; }
      role := Common(t);
    }

    method OnNotation1(t: Token) returns (role: Role)
      requires handler == Notation(1)
      modifies this
      ensures Valid()
      ensures (Snapshot(), role) == Answer(old(Snapshot()), t, NotationRow(old(handler), t, TopLevel(documentEntity)))
    {
      if t.TokS? { return RoleNotationNone; }
      if t == TokName(KwSystem) { handler := Notation(3); return RoleNotationNone; }
      if t == TokName(KwPublic) { handler := Notation(2); return RoleNotationNone; }
      role := Common(t);
    }

    method OnNotation2(t: Token) returns (role: Role)
      requires handler == Notation(2)
      modifies this
      ensures Valid()
      ensures (Snapshot(), role) == Answer(old(Snapshot()), t, NotationRow(old(handler), t, TopLevel(documentEntity)))
    {
      if t.TokS? { return RoleNotationNone; }
      if t.TokLiteral? { handler := Notation(4); return RoleNotationPublicId; }
      role := Common(t);
    }

    method OnNotation3(t: Token) returns (role: Role)
      requires handler == Notation(3)
      modifies this
      ensures Valid()
      ensures (Snapshot(), role) == Answer(old(Snapshot()), t, NotationRow(old(handler), t, TopLevel(documentEntity)))
    {
      if t.TokS? { return RoleNotationNone; }
      if t.TokLiteral? { handler := DeclClose; roleNone := RoleNotationNone; return RoleNotationSystemId; }
      role := Common(t);
    }

    method OnNotation4(t: Token) returns (role: Role)
      requires handler == Notation(4)
      modifies this
      ensures Valid()
      ensures (Snapshot(), role) == Answer(old(Snapshot()), t, NotationRow(old(handler), t, TopLevel(documentEntity)))
    {
      if t.TokS? { return RoleNotationNone; }
      if t.TokLiteral? { handler := DeclClose; roleNone := RoleNotationNone; return RoleNotationSystemId; }
      if t.TokDeclClose? { SetTopLevel(); return RoleNotationNoSystemId; }
      role := Common(t);
    }

    method OnAttlist0(t: Token) returns (role: Role)
      requires handler == Attlist(0)
      modifies this
      ensures Valid()
      ensures (Snapshot(), role) == Answer(old(Snapshot()), t, AttlistRow(old(handler), t, TopLevel(documentEntity)))
    {
      if t.TokS? { return RoleAttlistNone; }
      if IsNameTok(t) { handler := Attlist(1); return RoleAttlistElementName; }
      role := Common(t);
    }

    method OnAttlist1(t: Token) returns (role: Role)
      requires handler == Attlist(1)
      modifies this
      ensures Valid()
      ensures (Snapshot(), role) == Answer(old(Snapshot()), t, AttlistRow(old(handler), t, TopLevel(documentEntity)))
    {
      if t.TokS? { return RoleAttlistNone; }
      if t.TokDeclClose? { SetTopLevel(); return RoleAttlistNone; }
      if IsNameTok(t) { handler := Attlist(2); return RoleAttributeName; }
      role := Common(t);
    }

    // The search through the attribute type keywords; RoleError when none matches.
    method AttributeType(kw: Keyword) returns (role: Role)
      ensures role == AttributeTypeRole(kw)
    {
      hide AttributeTypeRole, TypeKeyword, TypeRole;
      for i := 0 to 8
        invariant forall j :: 0 <= j < i ==> kw != TypeKeyword(j)
      {
        if kw == TypeKeyword(i) {
          TypeAt(i);
          return TypeRole(i);
        }
      }
      NoType(kw);
      return RoleError;
    }

    method OnAttlist2(t: Token) returns (role: Role)
      requires handler == Attlist(2)
      modifies this
      ensures Valid()
      ensures (Snapshot(), role) == Answer(old(Snapshot()), t, AttlistRow(old(handler), t, TopLevel(documentEntity)))
    {
      hide AttributeTypeRole, EnumerationRow, DefaultValueRow, Literal, IsNameTok;
      if t.TokS? { return RoleAttlistNone; }
      if t.TokName? {
        NotationIsNoType();
        role := AttributeType(t.kw);
        if role != RoleError { handler := Attlist(8); return; }
      }
      if t == TokName(KwNotation) { handler := Attlist(5); return RoleAttlistNone; }
      if t.TokOpenParen? { handler := Attlist(3); return RoleAttlistNone; }
      role := Common(t);
    }

    method OnAttlist3(t: Token) returns (role: Role)
      requires handler == Attlist(3)
      modifies this
      ensures Valid()
      ensures (Snapshot(), role) == Answer(old(Snapshot()), t, AttlistRow(old(handler), t, TopLevel(documentEntity)))
    {
      hide AttributeTypeRow, EnumerationRow, DefaultValueRow, Literal, IsNameTok;
      if t.TokS? { return RoleAttlistNone; }
      if t.TokNmtoken? || IsNameTok(t) { handler := Attlist(4); return RoleAttributeEnumValue; }
      role := Common(t);
    }

    method OnAttlist4(t: Token) returns (role: Role)
      requires handler == Attlist(4)
      modifies this
      ensures Valid()
      ensures (Snapshot(), role) == Answer(old(Snapshot()), t, AttlistRow(old(handler), t, TopLevel(documentEntity)))
    {
      if t.TokS? { return RoleAttlistNone; }
      if t.TokCloseParen? { handler := Attlist(8); return RoleAttlistNone; }
      if t.TokOr? { handler := Attlist(3); return RoleAttlistNone; }
      role := Common(t);
    }

    method OnAttlist5(t: Token) returns (role: Role)
      requires handler == Attlist(5)
      modifies this
      ensures Valid()
      ensures (Snapshot(), role) == Answer(old(Snapshot()), t, AttlistRow(old(handler), t, TopLevel(documentEntity)))
    {
      if t.TokS? { return RoleAttlistNone; }
      if t.TokOpenParen? { handler := Attlist(6); return RoleAttlistNone; }
      role := Common(t);
    }

    method OnAttlist6(t: Token) returns (role: Role)
      requires handler == Attlist(6)
      modifies this
      ensures Valid()
      ensures (Snapshot(), role) == Answer(old(Snapshot()), t, AttlistRow(old(handler), t, TopLevel(documentEntity)))
    {
      if t.TokS? { return RoleAttlistNone; }
      if t.TokName? { handler := Attlist(7); return RoleAttributeNotationValue; }
      role := Common(t);
    }

    method OnAttlist7(t: Token) returns (role: Role)
      requires handler == Attlist(7)
      modifies this
      ensures Valid()
      ensures (Snapshot(), role) == Answer(old(Snapshot()), t, AttlistRow(old(handler), t, TopLevel(documentEntity)))
    {
      if t.TokS? { return RoleAttlistNone; }
      if t.TokCloseParen? { handler := Attlist(8); return RoleAttlistNone; }
      if t.TokOr? { handler := Attlist(6); return RoleAttlistNone; }
      role := Common(t);
    }

    method OnAttlist8(t: Token) returns (role: Role)
      requires handler == Attlist(8)
      modifies this
      ensures Valid()
      ensures (Snapshot(), role) == Answer(old(Snapshot()), t, AttlistRow(old(handler), t, TopLevel(documentEntity)))
    {
      if t.TokS? { return RoleAttlistNone; }
      if t == TokPoundName(KwImplied) { handler := Attlist(1); return RoleImpliedAttributeValue; }
      if t == TokPoundName(KwRequired) { handler := Attlist(1); return RoleRequiredAttributeValue; }
      if t == TokPoundName(KwFixed) { handler := Attlist(9); return RoleAttlistNone; }
      if t.TokLiteral? { handler := Attlist(1); return RoleDefaultAttributeValue; }
      role := Common(t);
    }

    method OnAttlist9(t: Token) returns (role: Role)
      requires handler == Attlist(9)
      modifies this
      ensures Valid()
      ensures (Snapshot(), role) == Answer(old(Snapshot()), t, AttlistRow(old(handler), t, TopLevel(documentEntity)))
    {
      if t.TokS? { return RoleAttlistNone; }
      if t.TokLiteral? { handler := Attlist(1); return RoleFixedAttributeValue; }
      role := Common(t);
    }

    method OnElement0(t: Token) returns (role: Role)
      requires handler == Element(0)
      modifies this
      ensures Valid()
      ensures (Snapshot(), role) == Answer(old(Snapshot()), t, ElementRow(old(handler), t))
    {
      if t.TokS? { return RoleElementNone; }
      if IsNameTok(t) { handler := Element(1); return RoleElementName; }
      role := Common(t);
    }

    method OnElement1(t: Token) returns (role: Role)
      requires handler == Element(1)
      modifies this
      ensures Valid()
      ensures (Snapshot(), role) == Answer(old(Snapshot()), t, ElementRow(old(handler), t))
    {
      if t.TokS? { return RoleElementNone; }
      if t == TokName(KwEmpty) { handler := DeclClose; roleNone := RoleElementNone; return RoleContentEmpty; }
      if t == TokName(KwAny) { handler := DeclClose; roleNone := RoleElementNone; return RoleContentAny; }
      if t.TokOpenParen? { handler := Element(2); level := 1; return RoleGroupOpen; }
      role := Common(t);
    }

    method OnElement2(t: Token) returns (role: Role)
      requires handler == Element(2)
      modifies this
      ensures Valid()
      ensures (Snapshot(), role) == Answer(old(Snapshot()), t, ElementRow(old(handler), t))
    {
      if t.TokS? { return RoleElementNone; }
      if t == TokPoundName(KwPcdata) { handler := Element(3); return RoleContentPcdata; }
      if t.TokOpenParen? { level := 2; handler := Element(6); return RoleGroupOpen; }
      if t.TokName? { handler := Element(7); return RoleContentElement; }
      if t.TokPrefixedName? { handler := Element(7); return RoleContentElement; }
      if t.TokNameQuestion? { handler := Element(7); return RoleContentElementOpt; }
      if t.TokNameAsterisk? { handler := Element(7); return RoleContentElementRep; }
      if t.TokNamePlus? { handler := Element(7); return RoleContentElementPlus; }
      role := Common(t);
    }

    method OnElement3(t: Token) returns (role: Role)
      requires handler == Element(3)
      modifies this
      ensures Valid()
      ensures (Snapshot(), role) == Answer(old(Snapshot()), t, ElementRow(old(handler), t))
    {
      if t.TokS? { return RoleElementNone; }
      if t.TokCloseParen? { handler := DeclClose; roleNone := RoleElementNone; return RoleGroupClose; }
      if t.TokCloseParenAsterisk? { handler := DeclClose; roleNone := RoleElementNone; return RoleGroupCloseRep; }
      if t.TokOr? { handler := Element(4); return RoleElementNone; }
      role := Common(t);
    }

    method OnElement4(t: Token) returns (role: Role)
      requires handler == Element(4)
      modifies this
      ensures Valid()
      ensures (Snapshot(), role) == Answer(old(Snapshot()), t, ElementRow(old(handler), t))
    {
      if t.TokS? { return RoleElementNone; }
      if IsNameTok(t) { handler := Element(5); return RoleContentElement; }
      role := Common(t);
    }

    method OnElement5(t: Token) returns (role: Role)
      requires handler == Element(5)
      modifies this
      ensures Valid()
      ensures (Snapshot(), role) == Answer(old(Snapshot()), t, ElementRow(old(handler), t))
    {
      if t.TokS? { return RoleElementNone; }
      if t.TokCloseParenAsterisk? { handler := DeclClose; roleNone := RoleElementNone; return RoleGroupCloseRep; }
      if t.TokOr? { handler := Element(4); return RoleElementNone; }
      role := Common(t);
    }

    method OnElement6(t: Token) returns (role: Role)
      requires handler == Element(6)
      modifies this
      ensures Valid()
      ensures (Snapshot(), role) == Answer(old(Snapshot()), t, ElementRow(old(handler), t))
    {
      if t.TokS? { return RoleElementNone; }
      if t.TokOpenParen? { level := (level + 1) % U32; return RoleGroupOpen; }
      if t.TokName? { handler := Element(7); return RoleContentElement; }
      if t.TokPrefixedName? { handler := Element(7); return RoleContentElement; }
      if t.TokNameQuestion? { handler := Element(7); return RoleContentElementOpt; }
      if t.TokNameAsterisk? { handler := Element(7); return RoleContentElementRep; }
      if t.TokNamePlus? { handler := Element(7); return RoleContentElementPlus; }
      role := Common(t);
    }

    // The three statements every closing parenthesis of element7 runs.
    method LeaveGroup()
      requires handler == Element(7)
      modifies this
      ensures Snapshot() == Apply(old(Snapshot()), Element(7), CloseGroup)
    {
      level := (level + U32 - 1) % U32;
      if level == 0 {
        handler := DeclClose;
        roleNone := RoleElementNone;
      }
    }

    method OnElement7(t: Token) returns (role: Role)
      requires handler == Element(7)
      modifies this
      ensures Valid()
      ensures (Snapshot(), role) == Answer(old(Snapshot()), t, ElementRow(old(handler), t))
    {
      if t.TokS? { return RoleElementNone; }
      if t.TokCloseParen? { LeaveGroup(); return RoleGroupClose; }
      if t.TokCloseParenAsterisk? { LeaveGroup(); return RoleGroupCloseRep; }
      if t.TokCloseParenQuestion? { LeaveGroup(); return RoleGroupCloseOpt; }
      if t.TokCloseParenPlus? { LeaveGroup(); return RoleGroupClosePlus; }
      if t.TokComma? { handler := Element(6); return RoleGroupSequence; }
      if t.TokOr? { handler := Element(6); return RoleGroupChoice; }
      role := Common(t);
    }

    method OnDeclClose(t: Token) returns (role: Role)
      requires handler.DeclClose?
      modifies this
      ensures Valid()
      ensures (Snapshot(), role) == Answer(old(Snapshot()), t, OtherRow(old(Snapshot()), t))
    {
      if t.TokS? { return roleNone; }
      if t.TokDeclClose? { SetTopLevel(); return roleNone; }
      role := Common(t);
    }

    method OnProlog(t: Token) returns (role: Role)
      requires Valid() && handler.Prolog?
      modifies this
      ensures Valid()
      ensures (Snapshot(), role) == Answer(old(Snapshot()), t, PrologRow(old(handler), t))
    {
      match handler.n {
        case 0 => role := OnProlog0(t);
        case 1 => role := OnProlog1(t);
        case _ => role := OnProlog2(t);
      }
    }

    method OnDoctype(t: Token) returns (role: Role)
      requires Valid() && handler.Doctype?
      modifies this
      ensures Valid()
      ensures (Snapshot(), role) == Answer(old(Snapshot()), t, DoctypeRow(old(handler), t))
    {
      match handler.n {
        case 0 => role := OnDoctype0(t);
        case 1 => role := OnDoctype1(t);
        case 2 => role := OnDoctype2(t);
        case 3 => role := OnDoctype3(t);
        case 4 => role := OnDoctype4(t);
        case _ => role := OnDoctype5(t);
      }
    }

    method OnCondSect(t: Token) returns (role: Role)
      requires Valid() && handler.CondSect?
      modifies this
      ensures Valid()
      ensures (Snapshot(), role) == Answer(old(Snapshot()), t, CondSectRow(old(handler), t))
    {
      match handler.n {
        case 0 => role := OnCondSect0(t);
        case 1 => role := OnCondSect1(t);
        case _ => role := OnCondSect2(t);
      }
    }

    method OnObjects(t: Token) returns (role: Role)
      requires Valid() && handler.Objects?
      modifies this
      ensures Valid()
      ensures (Snapshot(), role) == Answer(old(Snapshot()), t, ObjectsRow(old(handler), t, TopLevel(documentEntity)))
    {
      match handler.n {
        case 0 => role := OnObjects0(t);
        case 1 => role := OnObjects1(t);
        case 2 => role := OnObjects2(t);
        case 3 => role := OnObjects3(t);
        case 4 => role := OnObjects4(t);
        case 5 => role := OnObjects5(t);
        case 6 => role := OnObjects6(t);
        case 7 => role := OnObjects7(t);
        case 8 => role := OnObjects8(t);
        case 9 => role := OnObjects9(t);
        case _ => role := OnObjects10(t);
      }
    }

    method OnNotation(t: Token) returns (role: Role)
      requires Valid() && handler.Notation?
      modifies this
      ensures Valid()
      ensures (Snapshot(), role) == Answer(old(Snapshot()), t, NotationRow(old(handler), t, TopLevel(documentEntity)))
    {
      match handler.n {
        case 0 => role := OnNotation0(t);
        case 1 => role := OnNotation1(t);
        case 2 => role := OnNotation2(t);
        case 3 => role := OnNotation3(t);
        case _ => role := OnNotation4(t);
      }
    }

    method OnAttlist(t: Token) returns (role: Role)
      requires Valid() && handler.Attlist?
      modifies this
      ensures Valid()
      ensures (Snapshot(), role) == Answer(old(Snapshot()), t, AttlistRow(old(handler), t, TopLevel(documentEntity)))
    {
      match handler.n {
        case 0 => role := OnAttlist0(t);
        case 1 => role := OnAttlist1(t);
        case 2 => role := OnAttlist2(t);
        case 3 => role := OnAttlist3(t);
        case 4 => role := OnAttlist4(t);
        case 5 => role := OnAttlist5(t);
        case 6 => role := OnAttlist6(t);
        case 7 => role := OnAttlist7(t);
        case 8 => role := OnAttlist8(t);
        case _ => role := OnAttlist9(t);
      }
    }

    method OnElement(t: Token) returns (role: Role)
      requires Valid() && handler.Element?
      modifies this
      ensures Valid()
      ensures (Snapshot(), role) == Answer(old(Snapshot()), t, ElementRow(old(handler), t))
    {
      match handler.n {
        case 0 => role := OnElement0(t);
        case 1 => role := OnElement1(t);
        case 2 => role := OnElement2(t);
        case 3 => role := OnElement3(t);
        case 4 => role := OnElement4(t);
        case 5 => role := OnElement5(t);
        case 6 => role := OnElement6(t);
        case _ => role := OnElement7(t);
      }
    }

    method OnDeclaration(t: Token) returns (role: Role)
      requires Valid() && (handler.Objects? || handler.Notation? || handler.Attlist? || handler.Element?)
      modifies this
      ensures Valid()
      ensures (Snapshot(), role) == Step(old(Snapshot()), t)
    {
      if handler.Objects? {
        role := OnObjects(t);
      } else if handler.Notation? {
        role := OnNotation(t);
      } else if handler.Attlist? {
        role := OnAttlist(t);
      } else {
        role := OnElement(t);
      }
    }

    /** XmlTokenRole: run the current handler on the token. */
    method TokenRole(t: Token) returns (role: Role)
      requires Valid()
      modifies this
      ensures Valid()
      ensures (Snapshot(), role) == Step(old(Snapshot()), t)
    {
      match handler {
        case Prolog(_) => role := OnProlog(t);
        case Doctype(_) => role := OnDoctype(t);
        case InternalSubset => role := OnInternalSubset(t);
        case ExternalSubset0 => role := OnExternalSubset0(t);
        case ExternalSubset1 => role := OnExternalSubset1(t);
        case CondSect(_) => role := OnCondSect(t);
        case DeclClose => role := OnDeclClose(t);
        case Failed => role := RoleNone;
        case _ => role := OnDeclaration(t);
      }
    }
  }
}
