/**
 The texts of the declarations of a prolog, productions 28, 45, 52 to 60, 70 to
 76, 82 and 83 of XML 1.0. A text gives each token with the role that xmlrole.c
 is to report for it, written out beside the token.
 */
module DeclTexts {
  import opened Words
  import opened XmlRole
  import opened ContentModels

  // A token and the role returned for it.
  datatype Lexeme = Lexeme(token: Token, role: Role)

  datatype ExternalId = SystemId | PublicId
  datatype EntityDef = Value | External(id: ExternalId)
  datatype NotationId = Identified(id: ExternalId) | PublicOnly

  datatype EnumValue = NmtokenValue | NameValue(name: ElemName)
  datatype AttType =
    | TypeCdata | TypeId | TypeIdref | TypeIdrefs | TypeEntity | TypeEntities | TypeNmtoken | TypeNmtokens
    | Enumeration(first: EnumValue, more: seq<EnumValue>)
    | Notations(name: Keyword, names: seq<Keyword>)
  datatype Default = Implied | Required | Fixed | Given
  datatype AttDef = AttDef(name: ElemName, typ: AttType, default: Default)

  // What follows the identifier of a document type.
  datatype DoctypeEnd = Closes | OpensSubset
  datatype DoctypeId = NoId | WithId(id: ExternalId)

  // The names of entities and notations are plain; `Keyword` is what such a name spells.
  datatype Declaration =
    | GeneralEntity(name: Keyword, def: EntityDef)
    | UnparsedEntity(name: Keyword, id: ExternalId, notation: Keyword)
    | ParameterEntity(name: Keyword, def: EntityDef)
    | NotationDecl(name: Keyword, notationId: NotationId)
    | AttlistDecl(element: ElemName, defs: seq<AttDef>)
    | ElementDecl(element: ElemName, spec: Spec)
    | DoctypeDecl(root: ElemName, doctypeId: DoctypeId, doctypeEnd: DoctypeEnd)

  // ----- the texts

  // ExternalID ::= 'SYSTEM' S SystemLiteral | 'PUBLIC' S PubidLiteral S SystemLiteral
  function IdText(id: ExternalId, none: Role, publicId: Role, systemId: Role): seq<Lexeme> {
    match id
    case SystemId => [Lexeme(TokName(KwSystem), none), Lexeme(TokLiteral, systemId)]
    case PublicId => [Lexeme(TokName(KwPublic), none), Lexeme(TokLiteral, publicId), Lexeme(TokLiteral, systemId)]
  }

  function EntityIdText(id: ExternalId): seq<Lexeme> {
    IdText(id, RoleEntityNone, RoleEntityPublicId, RoleEntitySystemId)
  }

  // EntityValue | ExternalID, and the end of the declaration
  function DefText(def: EntityDef): seq<Lexeme> {
    match def
    case Value => [Lexeme(TokLiteral, RoleEntityValue), Lexeme(TokDeclClose, RoleEntityNone)]
    case External(id) => EntityIdText(id) + [Lexeme(TokDeclClose, RoleEntityComplete)]
  }

  // NDataDecl ::= S 'NDATA' S Name
  function NdataText(notation: Keyword): seq<Lexeme> {
    [Lexeme(TokName(KwNdata), RoleEntityNone), Lexeme(TokName(notation), RoleEntityNotationName),
     Lexeme(TokDeclClose, RoleEntityNone)]
  }

  // ExternalID | PublicID, and the end of the declaration
  function NotationText(id: NotationId): seq<Lexeme> {
    match id
    case Identified(x) => IdText(x, RoleNotationNone, RoleNotationPublicId, RoleNotationSystemId)
                          + [Lexeme(TokDeclClose, RoleNotationNone)]
    case PublicOnly => [Lexeme(TokName(KwPublic), RoleNotationNone), Lexeme(TokLiteral, RoleNotationPublicId),
                        Lexeme(TokDeclClose, RoleNotationNoSystemId)]
  }

  function EnumToken(v: EnumValue): Token {
    match v
    case NmtokenValue => TokNmtoken
    case NameValue(name) => NameToken(name)
  }

  // (S? '|' S? Nmtoken)* S? ')'
  function EnumText(more: seq<EnumValue>): seq<Lexeme> {
    if more == [] then [Lexeme(TokCloseParen, RoleAttlistNone)]
    else [Lexeme(TokOr, RoleAttlistNone), Lexeme(EnumToken(more[0]), RoleAttributeEnumValue)] + EnumText(more[1..])
  }

  // (S? '|' S? Name)* S? ')'
  function NotationsText(names: seq<Keyword>): seq<Lexeme> {
    if names == [] then [Lexeme(TokCloseParen, RoleAttlistNone)]
    else
      var first := [Lexeme(TokOr, RoleAttlistNone), Lexeme(TokName(names[0]), RoleAttributeNotationValue)];
      first + NotationsText(names[1..])
  }

  function TypeText(typ: AttType): seq<Lexeme> {
    match typ
    case TypeCdata => [Lexeme(TokName(KwCdata), RoleAttributeTypeCdata)]
    case TypeId => [Lexeme(TokName(KwId), RoleAttributeTypeId)]
    case TypeIdref => [Lexeme(TokName(KwIdref), RoleAttributeTypeIdref)]
    case TypeIdrefs => [Lexeme(TokName(KwIdrefs), RoleAttributeTypeIdrefs)]
    case TypeEntity => [Lexeme(TokName(KwEntity), RoleAttributeTypeEntity)]
    case TypeEntities => [Lexeme(TokName(KwEntities), RoleAttributeTypeEntities)]
    case TypeNmtoken => [Lexeme(TokName(KwNmtoken), RoleAttributeTypeNmtoken)]
    case TypeNmtokens => [Lexeme(TokName(KwNmtokens), RoleAttributeTypeNmtokens)]
    case Enumeration(first, more) =>
      [Lexeme(TokOpenParen, RoleAttlistNone), Lexeme(EnumToken(first), RoleAttributeEnumValue)] + EnumText(more)
    case Notations(name, names) =>
      [Lexeme(TokName(KwNotation), RoleAttlistNone), Lexeme(TokOpenParen, RoleAttlistNone),
       Lexeme(TokName(name), RoleAttributeNotationValue)] + NotationsText(names)
  }

  function DefaultText(default: Default): seq<Lexeme> {
    match default
    case Implied => [Lexeme(TokPoundName(KwImplied), RoleImpliedAttributeValue)]
    case Required => [Lexeme(TokPoundName(KwRequired), RoleRequiredAttributeValue)]
    case Fixed => [Lexeme(TokPoundName(KwFixed), RoleAttlistNone), Lexeme(TokLiteral, RoleFixedAttributeValue)]
    case Given => [Lexeme(TokLiteral, RoleDefaultAttributeValue)]
  }

  // AttDef* S? '>'
  function DefsText(defs: seq<AttDef>): seq<Lexeme> {
    if defs == [] then [Lexeme(TokDeclClose, RoleAttlistNone)]
    else [Lexeme(NameToken(defs[0].name), RoleAttributeName)]
         + (TypeText(defs[0].typ) + (DefaultText(defs[0].default) + DefsText(defs[1..])))
  }

  function Pairs(toks: seq<Token>, roles: seq<Role>): (text: seq<Lexeme>)
    requires |toks| == |roles|
    ensures |text| == |toks|
  {
    seq(|toks|, i requires 0 <= i < |toks| => Lexeme(toks[i], roles[i]))
  }

  lemma {:induction false} ParticleLengths(p: Particle)
    ensures |ParticleTokens(p)| == |ParticleRoles(p)|
    decreases p, 0
  {
    if p.Group? {
      BodyLengths(p.body);
    }
  }

  lemma {:induction false} BodyLengths(b: Body)
    ensures |BodyTokens(b)| == |BodyRoles(b)|
    decreases b, 1
  {
    ParticleLengths(b.p);
    if b.More? {
      BodyLengths(b.rest);
    }
  }

  lemma {:induction false} MixedLengths(names: seq<ElemName>)
    ensures |MixedTokens(names)| == |MixedRoles(names)|
    decreases |names|
  {
    if names != [] {
      MixedLengths(names[1..]);
    }
  }

  lemma SpecLengths(spec: Spec)
    ensures |SpecTokens(spec)| == |SpecRoles(spec)|
  {
    match spec {
      case Mixed(names, _) => MixedLengths(names);
      case Children(body, q) => ParticleLengths(Group(body, q));
      case _ =>
    }
  }

  function DoctypeEndText(end: DoctypeEnd): Lexeme {
    match end
    case Closes => Lexeme(TokDeclClose, RoleDoctypeClose)
    case OpensSubset => Lexeme(TokOpenBracket, RoleDoctypeInternalSubset)
  }

  function DoctypeIdText(id: DoctypeId): seq<Lexeme> {
    match id
    case NoId => []
    case WithId(x) => IdText(x, RoleDoctypeNone, RoleDoctypePublicId, RoleDoctypeSystemId)
  }

  /** What follows the keyword of the declaration, up to its end. */
  function Text(d: Declaration): seq<Lexeme> {
    match d
    case GeneralEntity(name, def) => [Lexeme(TokName(name), RoleGeneralEntityName)] + DefText(def)
    case UnparsedEntity(name, id, notation) =>
      [Lexeme(TokName(name), RoleGeneralEntityName)] + (EntityIdText(id) + NdataText(notation))
    case ParameterEntity(name, def) =>
      [Lexeme(TokPercent, RoleEntityNone), Lexeme(TokName(name), RoleParamEntityName)] + DefText(def)
    case NotationDecl(name, id) => [Lexeme(TokName(name), RoleNotationName)] + NotationText(id)
    case AttlistDecl(element, defs) => [Lexeme(NameToken(element), RoleAttlistElementName)] + DefsText(defs)
    case ElementDecl(element, spec) =>
      SpecLengths(spec);
      [Lexeme(NameToken(element), RoleElementName)]
      + (Pairs(SpecTokens(spec), SpecRoles(spec)) + [Lexeme(TokDeclClose, RoleElementNone)])
    case DoctypeDecl(root, id, end) =>
      [Lexeme(NameToken(root), RoleDoctypeName)] + (DoctypeIdText(id) + [DoctypeEndText(end)])
  }

  predicate Fits(d: Declaration) {
    d.ElementDecl? ==> WellFormed(d.spec) && SpecDepth(d.spec) <= U32
  }

  // The handler that a declaration starts in, and the one that it ends in.
  function FirstHandler(d: Declaration): Handler {
    match d
    case NotationDecl(_, _) => Notation(0)
    case AttlistDecl(_, _) => Attlist(0)
    case ElementDecl(_, _) => Element(0)
    case DoctypeDecl(_, _, _) => Doctype(0)
    case _ => Objects(0)
  }

  function HandlerAfter(d: Declaration, documentEntity: bool): Handler {
    match d
    case DoctypeDecl(_, _, end) => if end.Closes? then Prolog(2) else InternalSubset
    case _ => if documentEntity then InternalSubset else ExternalSubset1
  }
}
