/**
 The declarations of a prolog: handlers doctype0 to doctype4, objects0 to
 objects10, notation0 to notation4, attlist0 to attlist9, element0 and declClose
 of xmlrole.c against the texts of DeclTexts. The content specification of an
 element is that of ContentModels.

 `DeclarationAccepted`, `DeclarationRead` and `DeclarationsExactly` say that the
 handlers accept exactly these texts, blanks aside, and return exactly their roles.
 */
module Declarations {
  import opened Words
  import opened XmlRole
  import opened ContentModels
  import opened DeclTexts

  // ----- runs

  // Inside a declaration.
  predicate Open(h: Handler) {
    h.Objects? || h.Notation? || h.Attlist? || h.Element? || h.Doctype? || h.DeclClose?
  }

  // White space, and in an external entity a parameter entity reference inside a declaration.
  predicate IsBlank(l: Lexeme) {
    l.token.TokS? || (l.token.TokParamEntityRef? && l.role.RoleInnerParamEntityRef?)
  }

  // Inside a declaration l, which is no blank, is answered with its role, without an error, and leads to next.
  predicate Takes(s: PState, l: Lexeme, next: PState) {
    Open(s.handler) && Step(s, l.token) == (next, l.role) && l.role != RoleError && !IsBlank(l)
  }

  // Inside a declaration text, which has no blanks, is answered with its roles and leads to end.
  predicate Reads(s: PState, text: seq<Lexeme>, end: PState)
    decreases |text|
  {
    if text == [] then s == end
    else var next := Step(s, text[0].token).0;
         Takes(s, text[0], next) && Reads(next, text[1..], end)
  }

  lemma Head(s: PState, text: seq<Lexeme>, end: PState) returns (l: Lexeme, rest: seq<Lexeme>, next: PState)
    requires Reads(s, text, end) && (s != end || text != [])
    ensures text == [l] + rest
    ensures Takes(s, l, next) && Reads(next, rest, end)
  {
    hide Step;
    l, rest, next := text[0], text[1..], Step(s, text[0].token).0;
  }

  lemma Prepend(s: PState, l: Lexeme, next: PState, rest: seq<Lexeme>, end: PState)
    requires Takes(s, l, next) && Reads(next, rest, end)
    ensures Reads(s, [l] + rest, end)
  {
    hide Step;
    assert ([l] + rest)[1..] == rest;
  }

  lemma {:induction false} Append(s: PState, a: seq<Lexeme>, mid: PState, b: seq<Lexeme>, end: PState)
    requires Reads(s, a, mid) && Reads(mid, b, end)
    ensures Reads(s, a + b, end)
    decreases |a|
  {
    hide Step;
    if a == [] {
      assert a + b == b;
    } else {
      var next := Step(s, a[0].token).0;
      Append(next, a[1..], mid, b, end);
      Prepend(s, a[0], next, a[1..] + b, end);
      assert a + b == [a[0]] + (a[1..] + b);
    }
  }

  // ----- what each handler takes

  lemma ObjectsStep(s: PState, t: Token)
    requires s.handler.Objects?
    ensures Step(s, t) == Answer(s, t, ObjectsRow(s.handler, t, TopLevel(s.documentEntity)))
  {
  }

  lemma NotationStep(s: PState, t: Token)
    requires s.handler.Notation?
    ensures Step(s, t) == Answer(s, t, NotationRow(s.handler, t, TopLevel(s.documentEntity)))
  {
  }

  lemma AttlistStep(s: PState, t: Token)
    requires s.handler.Attlist?
    ensures Step(s, t) == Answer(s, t, AttlistRow(s.handler, t, TopLevel(s.documentEntity)))
  {
  }

  lemma DoctypeStep(s: PState, t: Token)
    requires s.handler.Doctype?
    ensures Step(s, t) == Answer(s, t, DoctypeRow(s.handler, t))
  {
  }

  lemma CloseStep(s: PState, t: Token)
    requires s.handler == DeclClose
    ensures Step(s, t) == Answer(s, t, OtherRow(s, t))
  {
  }

  // Entity declarations.

  lemma Objects0(s: PState, l: Lexeme, next: PState)
    requires s.handler == Objects(0)
    ensures Takes(s, l, next) <==>
      || (l == Lexeme(TokPercent, RoleEntityNone) && next == s.(handler := Objects(1)))
      || (l.token.TokName? && l.role == RoleGeneralEntityName && next == s.(handler := Objects(2)))
  {
    ObjectsStep(s, l.token);
    hide Step;
  }

  lemma Objects1(s: PState, l: Lexeme, next: PState)
    requires s.handler == Objects(1)
    ensures Takes(s, l, next) <==>
      && l.token.TokName? && l.role == RoleParamEntityName
      && next == s.(handler := Objects(7))
  {
    ObjectsStep(s, l.token);
    hide Step;
  }

  // objects2 and objects7: after the name of a general and of a parameter entity.
  lemma ObjectsNamed(s: PState, l: Lexeme, next: PState)
    requires s.handler == Objects(2) || s.handler == Objects(7)
    ensures Takes(s, l, next) <==>
      || (l == Lexeme(TokLiteral, RoleEntityValue) && next == s.(handler := DeclClose, roleNone := RoleEntityNone))
      || (l == Lexeme(TokName(KwSystem), RoleEntityNone) && next == s.(handler := Objects(s.handler.n + 2)))
      || (l == Lexeme(TokName(KwPublic), RoleEntityNone) && next == s.(handler := Objects(s.handler.n + 1)))
  {
    ObjectsStep(s, l.token);
    hide Step;
  }

  lemma ObjectsPublic(s: PState, l: Lexeme, next: PState)
    requires s.handler == Objects(3) || s.handler == Objects(8)
    ensures Takes(s, l, next) <==>
      l == Lexeme(TokLiteral, RoleEntityPublicId) && next == s.(handler := Objects(s.handler.n + 1))
  {
    ObjectsStep(s, l.token);
    hide Step;
  }

  lemma ObjectsSystem(s: PState, l: Lexeme, next: PState)
    requires s.handler == Objects(4) || s.handler == Objects(9)
    ensures Takes(s, l, next) <==>
      l == Lexeme(TokLiteral, RoleEntitySystemId) && next == s.(handler := Objects(s.handler.n + 1))
  {
    ObjectsStep(s, l.token);
    hide Step;
  }

  lemma ObjectsIdentified(s: PState, l: Lexeme, next: PState)
    requires s.handler == Objects(5) || s.handler == Objects(10)
    ensures Takes(s, l, next) <==>
      || (l == Lexeme(TokDeclClose, RoleEntityComplete) && next == s.(handler := TopLevel(s.documentEntity)))
      || (l == Lexeme(TokName(KwNdata), RoleEntityNone) && s.handler == Objects(5) && next == s.(handler := Objects(6)))
  {
    ObjectsStep(s, l.token);
    hide Step;
  }

  lemma Objects6(s: PState, l: Lexeme, next: PState)
    requires s.handler == Objects(6)
    ensures Takes(s, l, next) <==>
      && l.token.TokName? && l.role == RoleEntityNotationName
      && next == s.(handler := DeclClose, roleNone := RoleEntityNone)
  {
    ObjectsStep(s, l.token);
    hide Step;
  }

  lemma Closing(s: PState, l: Lexeme, next: PState)
    requires s.handler == DeclClose && s.roleNone != RoleError
    ensures Takes(s, l, next) <==>
      l == Lexeme(TokDeclClose, s.roleNone) && next == s.(handler := TopLevel(s.documentEntity))
  {
    CloseStep(s, l.token);
    hide Step;
  }

  // Notation declarations.

  lemma Notation0(s: PState, l: Lexeme, next: PState)
    requires s.handler == Notation(0)
    ensures Takes(s, l, next) <==> l.token.TokName? && l.role == RoleNotationName && next == s.(handler := Notation(1))
  {
    NotationStep(s, l.token);
    hide Step;
  }

  lemma Notation1(s: PState, l: Lexeme, next: PState)
    requires s.handler == Notation(1)
    ensures Takes(s, l, next) <==>
      || (l == Lexeme(TokName(KwSystem), RoleNotationNone) && next == s.(handler := Notation(3)))
      || (l == Lexeme(TokName(KwPublic), RoleNotationNone) && next == s.(handler := Notation(2)))
  {
    NotationStep(s, l.token);
    hide Step;
  }

  lemma Notation2(s: PState, l: Lexeme, next: PState)
    requires s.handler == Notation(2)
    ensures Takes(s, l, next) <==> l == Lexeme(TokLiteral, RoleNotationPublicId) && next == s.(handler := Notation(4))
  {
    NotationStep(s, l.token);
    hide Step;
  }

  lemma NotationSystem(s: PState, l: Lexeme, next: PState)
    requires s.handler == Notation(3) || s.handler == Notation(4)
    ensures Takes(s, l, next) <==>
      || (l == Lexeme(TokLiteral, RoleNotationSystemId)
          && next == s.(handler := DeclClose, roleNone := RoleNotationNone))
      || (l == Lexeme(TokDeclClose, RoleNotationNoSystemId) && s.handler == Notation(4)
          && next == s.(handler := TopLevel(s.documentEntity)))
  {
    NotationStep(s, l.token);
    hide Step;
  }

  // Attribute-list declarations.

  lemma Attlist0(s: PState, l: Lexeme, next: PState)
    requires s.handler == Attlist(0)
    ensures Takes(s, l, next) <==>
      IsNameTok(l.token) && l.role == RoleAttlistElementName && next == s.(handler := Attlist(1))
  {
    AttlistStep(s, l.token);
    hide Step;
  }

  lemma Attlist1(s: PState, l: Lexeme, next: PState)
    requires s.handler == Attlist(1)
    ensures Takes(s, l, next) <==>
      || (IsNameTok(l.token) && l.role == RoleAttributeName && next == s.(handler := Attlist(2)))
      || (l == Lexeme(TokDeclClose, RoleAttlistNone) && next == s.(handler := TopLevel(s.documentEntity)))
  {
    AttlistStep(s, l.token);
    hide Step;
  }

  predicate IsTypeLexeme(l: Lexeme) {
    || l == Lexeme(TokName(KwCdata), RoleAttributeTypeCdata)
    || l == Lexeme(TokName(KwId), RoleAttributeTypeId)
    || l == Lexeme(TokName(KwIdref), RoleAttributeTypeIdref)
    || l == Lexeme(TokName(KwIdrefs), RoleAttributeTypeIdrefs)
    || l == Lexeme(TokName(KwEntity), RoleAttributeTypeEntity)
    || l == Lexeme(TokName(KwEntities), RoleAttributeTypeEntities)
    || l == Lexeme(TokName(KwNmtoken), RoleAttributeTypeNmtoken)
    || l == Lexeme(TokName(KwNmtokens), RoleAttributeTypeNmtokens)
  }

  lemma TypeLexeme(t: Token)
    requires t.TokName? && t.kw != KwNotation
    ensures IsTypeLexeme(Lexeme(t, AttributeTypeRole(t.kw))) <==> AttributeTypeRole(t.kw) != RoleError
    ensures AttributeTypeRole(t.kw) != RoleInnerParamEntityRef
  {
  }

  lemma TypeLexemeRole(l: Lexeme)
    requires IsTypeLexeme(l)
    ensures l.token.TokName? && l.token.kw != KwNotation && l.role == AttributeTypeRole(l.token.kw)
    ensures !IsBlank(l) && l.role != RoleError
  {
  }

  lemma Attlist2(s: PState, l: Lexeme, next: PState)
    requires s.handler == Attlist(2)
    ensures Takes(s, l, next) <==>
      || (l == Lexeme(TokOpenParen, RoleAttlistNone) && next == s.(handler := Attlist(3)))
      || (l == Lexeme(TokName(KwNotation), RoleAttlistNone) && next == s.(handler := Attlist(5)))
      || (IsTypeLexeme(l) && next == s.(handler := Attlist(8)))
  {
    AttlistStep(s, l.token);
    if l.token.TokName? && l.token.kw != KwNotation {
      TypeLexeme(l.token);
    }
    if IsTypeLexeme(l) {
      TypeLexemeRole(l);
    }
    hide Step, IsTypeLexeme, AttributeTypeRole;
  }

  lemma Attlist3(s: PState, l: Lexeme, next: PState)
    requires s.handler == Attlist(3)
    ensures Takes(s, l, next) <==>
      && (l.token.TokNmtoken? || IsNameTok(l.token)) && l.role == RoleAttributeEnumValue
      && next == s.(handler := Attlist(4))
  {
    AttlistStep(s, l.token);
    hide Step;
  }

  // attlist4 and attlist7: after a value of an enumeration.
  lemma AttlistValue(s: PState, l: Lexeme, next: PState)
    requires s.handler == Attlist(4) || s.handler == Attlist(7)
    ensures Takes(s, l, next) <==>
      || (l == Lexeme(TokCloseParen, RoleAttlistNone) && next == s.(handler := Attlist(8)))
      || (l == Lexeme(TokOr, RoleAttlistNone) && next == s.(handler := Attlist(s.handler.n - 1)))
  {
    AttlistStep(s, l.token);
    hide Step;
  }

  lemma Attlist5(s: PState, l: Lexeme, next: PState)
    requires s.handler == Attlist(5)
    ensures Takes(s, l, next) <==> l == Lexeme(TokOpenParen, RoleAttlistNone) && next == s.(handler := Attlist(6))
  {
    AttlistStep(s, l.token);
    hide Step;
  }

  lemma Attlist6(s: PState, l: Lexeme, next: PState)
    requires s.handler == Attlist(6)
    ensures Takes(s, l, next) <==>
      l.token.TokName? && l.role == RoleAttributeNotationValue && next == s.(handler := Attlist(7))
  {
    AttlistStep(s, l.token);
    hide Step;
  }

  lemma Attlist8(s: PState, l: Lexeme, next: PState)
    requires s.handler == Attlist(8)
    ensures Takes(s, l, next) <==>
      || (l == Lexeme(TokPoundName(KwImplied), RoleImpliedAttributeValue) && next == s.(handler := Attlist(1)))
      || (l == Lexeme(TokPoundName(KwRequired), RoleRequiredAttributeValue) && next == s.(handler := Attlist(1)))
      || (l == Lexeme(TokPoundName(KwFixed), RoleAttlistNone) && next == s.(handler := Attlist(9)))
      || (l == Lexeme(TokLiteral, RoleDefaultAttributeValue) && next == s.(handler := Attlist(1)))
  {
    AttlistStep(s, l.token);
    hide Step;
  }

  lemma Attlist9(s: PState, l: Lexeme, next: PState)
    requires s.handler == Attlist(9)
    ensures Takes(s, l, next) <==> l == Lexeme(TokLiteral, RoleFixedAttributeValue) && next == s.(handler := Attlist(1))
  {
    AttlistStep(s, l.token);
    hide Step;
  }

  // Document types.

  lemma Doctype0(s: PState, l: Lexeme, next: PState)
    requires s.handler == Doctype(0)
    ensures Takes(s, l, next) <==> IsNameTok(l.token) && l.role == RoleDoctypeName && next == s.(handler := Doctype(1))
  {
    DoctypeStep(s, l.token);
    hide Step;
  }

  // doctype1 and doctype4: after the name, and after the identifier.
  lemma DoctypeNamed(s: PState, l: Lexeme, next: PState)
    requires s.handler == Doctype(1) || s.handler == Doctype(4)
    ensures Takes(s, l, next) <==>
      || (l == Lexeme(TokDeclClose, RoleDoctypeClose) && next == s.(handler := Prolog(2)))
      || (l == Lexeme(TokOpenBracket, RoleDoctypeInternalSubset) && next == s.(handler := InternalSubset))
      || (s.handler == Doctype(1) && l == Lexeme(TokName(KwSystem), RoleDoctypeNone)
          && next == s.(handler := Doctype(3)))
      || (s.handler == Doctype(1) && l == Lexeme(TokName(KwPublic), RoleDoctypeNone)
          && next == s.(handler := Doctype(2)))
  {
    DoctypeStep(s, l.token);
    hide Step;
  }

  lemma Doctype2(s: PState, l: Lexeme, next: PState)
    requires s.handler == Doctype(2)
    ensures Takes(s, l, next) <==> l == Lexeme(TokLiteral, RoleDoctypePublicId) && next == s.(handler := Doctype(3))
  {
    DoctypeStep(s, l.token);
    hide Step;
  }

  lemma Doctype3(s: PState, l: Lexeme, next: PState)
    requires s.handler == Doctype(3)
    ensures Takes(s, l, next) <==> l == Lexeme(TokLiteral, RoleDoctypeSystemId) && next == s.(handler := Doctype(4))
  {
    DoctypeStep(s, l.token);
    hide Step;
  }

  // ----- accepted: entity and notation declarations, document types

  lemma One(s: PState, a: Lexeme, next: PState)
    requires Takes(s, a, next)
    ensures Reads(s, [a], next)
  {
    hide Step;
    assert [a][1..] == [];
  }

  lemma Two(s: PState, a: Lexeme, s1: PState, b: Lexeme, next: PState)
    requires Takes(s, a, s1) && Takes(s1, b, next)
    ensures Reads(s, [a, b], next)
  {
    hide Takes, Reads;
    One(s1, b, next);
    Prepend(s, a, s1, [b], next);
    assert [a, b] == [a] + [b];
  }

  lemma Three(s: PState, a: Lexeme, s1: PState, b: Lexeme, s2: PState, c: Lexeme, next: PState)
    requires Takes(s, a, s1) && Takes(s1, b, s2) && Takes(s2, c, next)
    ensures Reads(s, [a, b, c], next)
  {
    hide Takes, Reads;
    Two(s1, b, s2, c, next);
    Prepend(s, a, s1, [b, c], next);
    assert [a, b, c] == [a] + [b, c];
  }

  lemma AcceptEntityId(s: PState, id: ExternalId)
    requires s.handler == Objects(2) || s.handler == Objects(7)
    ensures Reads(s, EntityIdText(id), s.(handler := Objects(s.handler.n + 3)))
  {
    hide Takes, Reads;
    var literal := Lexeme(TokLiteral, RoleEntitySystemId);
    var public, system, end := s.(handler := Objects(s.handler.n + 1)), s.(handler := Objects(s.handler.n + 2)),
                               s.(handler := Objects(s.handler.n + 3));
    ObjectsSystem(system, literal, end);
    match id {
      case SystemId =>
        ObjectsNamed(s, Lexeme(TokName(KwSystem), RoleEntityNone), system);
        Two(s, Lexeme(TokName(KwSystem), RoleEntityNone), system, literal, end);
      case PublicId =>
        ObjectsNamed(s, Lexeme(TokName(KwPublic), RoleEntityNone), public);
        ObjectsPublic(public, Lexeme(TokLiteral, RoleEntityPublicId), system);
        Three(s, Lexeme(TokName(KwPublic), RoleEntityNone), public, Lexeme(TokLiteral, RoleEntityPublicId), system,
          literal, end);
    }
  }

  // The end of an entity declaration with this definition.
  function DefEnd(s: PState, def: EntityDef): PState {
    var end := s.(handler := TopLevel(s.documentEntity));
    if def.Value? then end.(roleNone := RoleEntityNone) else end
  }

  lemma AcceptDef(s: PState, def: EntityDef)
    requires s.handler == Objects(2) || s.handler == Objects(7)
    ensures Reads(s, DefText(def), DefEnd(s, def))
  {
    hide Takes, Reads;
    match def {
      case Value =>
        var closing := s.(handler := DeclClose, roleNone := RoleEntityNone);
        ObjectsNamed(s, Lexeme(TokLiteral, RoleEntityValue), closing);
        Closing(closing, Lexeme(TokDeclClose, RoleEntityNone), DefEnd(s, def));
        Two(s, Lexeme(TokLiteral, RoleEntityValue), closing, Lexeme(TokDeclClose, RoleEntityNone), DefEnd(s, def));
      case External(id) =>
        var identified, close := s.(handler := Objects(s.handler.n + 3)), Lexeme(TokDeclClose, RoleEntityComplete);
        ObjectsIdentified(identified, close, DefEnd(s, def));
        AcceptEntityId(s, id);
        One(identified, close, DefEnd(s, def));
        Append(s, EntityIdText(id), identified, [close], DefEnd(s, def));
    }
  }

  lemma AcceptUnparsed(s: PState, id: ExternalId, notation: Keyword)
    requires s.handler == Objects(2)
    ensures Reads(s, EntityIdText(id) + NdataText(notation), DefEnd(s, Value))
  {
    hide Takes, Reads;
    var identified, named := s.(handler := Objects(5)), s.(handler := Objects(6));
    var closing := s.(handler := DeclClose, roleNone := RoleEntityNone);
    ObjectsIdentified(identified, Lexeme(TokName(KwNdata), RoleEntityNone), named);
    Objects6(named, Lexeme(TokName(notation), RoleEntityNotationName), closing);
    Closing(closing, Lexeme(TokDeclClose, RoleEntityNone), DefEnd(s, Value));
    Three(identified, Lexeme(TokName(KwNdata), RoleEntityNone), named,
      Lexeme(TokName(notation), RoleEntityNotationName),
          closing, Lexeme(TokDeclClose, RoleEntityNone), DefEnd(s, Value));
    AcceptEntityId(s, id);
    Append(s, EntityIdText(id), identified, NdataText(notation), DefEnd(s, Value));
  }

  // ----- read: entity declarations

  lemma ReadEntityId(s: PState, text: seq<Lexeme>, end: PState) returns (id: ExternalId, rest: seq<Lexeme>)
    requires s.handler == Objects(2) || s.handler == Objects(7)
    requires Reads(s, text, end) && !Open(end.handler) && (text == [] || text[0].token != TokLiteral)
    ensures text == EntityIdText(id) + rest
    ensures Reads(s.(handler := Objects(s.handler.n + 3)), rest, end)
  {
    hide Takes, Reads;
    var l, rest1, next := Head(s, text, end);
    ObjectsNamed(s, l, next);
    var l2, rest2, next2 := Head(next, rest1, end);
    if l.token == TokName(KwSystem) {
      ObjectsSystem(next, l2, next2);
      id, rest := SystemId, rest2;
    } else {
      ObjectsPublic(next, l2, next2);
      var l3, rest3, next3 := Head(next2, rest2, end);
      ObjectsSystem(next2, l3, next3);
      id, rest := PublicId, rest3;
    }
  }

  lemma ReadNdata(s: PState, text: seq<Lexeme>, end: PState) returns (notation: Keyword, rest: seq<Lexeme>)
    requires s.handler == Objects(6)
    requires Reads(s, text, end) && !Open(end.handler)
    ensures text == [Lexeme(TokName(notation), RoleEntityNotationName), Lexeme(TokDeclClose, RoleEntityNone)] + rest
    ensures Reads(DefEnd(s, Value), rest, end)
  {
    hide Takes, Reads;
    var l, rest1, next := Head(s, text, end);
    Objects6(s, l, next);
    var l2, rest2, next2 := Head(next, rest1, end);
    Closing(next, l2, next2);
    notation, rest := l.token.kw, rest2;
  }

  // After the identifier: the end of the declaration, or the notation of an unparsed general entity.
  lemma ReadIdentified(s: PState, text: seq<Lexeme>, end: PState)
    returns (ndata: bool, notation: Keyword, rest: seq<Lexeme>)
    requires s.handler == Objects(5) || s.handler == Objects(10)
    requires Reads(s, text, end) && !Open(end.handler)
    ensures ndata ==> s.handler == Objects(5)
    ensures text == (if ndata then NdataText(notation) else [Lexeme(TokDeclClose, RoleEntityComplete)]) + rest
    ensures Reads(DefEnd(s, if ndata then Value else External(SystemId)), rest, end)
  {
    hide Takes, Reads;
    var l, rest1, next := Head(s, text, end);
    ObjectsIdentified(s, l, next);
    ndata, notation, rest := l.token != TokDeclClose, NoKw, rest1;
    if ndata {
      notation, rest := ReadNdata(next, rest1, end);
      assert text == [l] + ([Lexeme(TokName(notation), RoleEntityNotationName),
        Lexeme(TokDeclClose, RoleEntityNone)] + rest);
    }
  }

  lemma ReadDef(s: PState, text: seq<Lexeme>, end: PState)
    returns (def: EntityDef, ndata: bool, notation: Keyword, rest: seq<Lexeme>)
    requires s.handler == Objects(2) || s.handler == Objects(7)
    requires Reads(s, text, end) && !Open(end.handler)
    ensures ndata ==> s.handler == Objects(2) && def.External?
    ensures text == (if ndata then EntityIdText(def.id) + NdataText(notation) else DefText(def)) + rest
    ensures Reads(DefEnd(s, if ndata then Value else def), rest, end)
  {
    hide Takes, Reads, EntityIdText;
    var l, rest1, next := Head(s, text, end);
    ObjectsNamed(s, l, next);
    ndata, notation := false, NoKw;
    if l.token == TokLiteral {
      var l2, rest2, next2 := Head(next, rest1, end);
      Closing(next, l2, next2);
      def, rest := Value, rest2;
    } else {
      var id;
      id, rest1 := ReadEntityId(s, text, end);
      def := External(id);
      ndata, notation, rest := ReadIdentified(s.(handler := Objects(s.handler.n + 3)), rest1, end);
      Assoc(EntityIdText(id), if ndata then NdataText(notation) else [Lexeme(TokDeclClose, RoleEntityComplete)], rest);
    }
  }

  lemma Assoc<T>(a: seq<T>, b: seq<T>, c: seq<T>)
    ensures a + (b + c) == (a + b) + c
  {
  }

  // ----- notation declarations

  function NotationEnd(s: PState, id: NotationId): PState {
    var end := s.(handler := TopLevel(s.documentEntity));
    if id.PublicOnly? then end else end.(roleNone := RoleNotationNone)
  }

  lemma AcceptNotation(s: PState, id: NotationId)
    requires s.handler == Notation(1)
    ensures Reads(s, NotationText(id), NotationEnd(s, id))
  {
    hide Takes, Reads;
    var close := Lexeme(TokDeclClose, RoleNotationNone);
    var system, publicId := Lexeme(TokLiteral, RoleNotationSystemId), Lexeme(TokLiteral, RoleNotationPublicId);
    var closing := s.(handler := DeclClose, roleNone := RoleNotationNone);
    Closing(closing, close, NotationEnd(s, Identified(SystemId)));
    Notation1(s, Lexeme(TokName(KwSystem), RoleNotationNone), s.(handler := Notation(3)));
    NotationSystem(s.(handler := Notation(3)), system, closing);
    Notation1(s, Lexeme(TokName(KwPublic), RoleNotationNone), s.(handler := Notation(2)));
    Notation2(s.(handler := Notation(2)), publicId, s.(handler := Notation(4)));
    NotationSystem(s.(handler := Notation(4)), system, closing);
    NotationSystem(s.(handler := Notation(4)), Lexeme(TokDeclClose, RoleNotationNoSystemId),
      NotationEnd(s, PublicOnly));
    match id {
      case Identified(x) =>
        if x.SystemId? {
          Three(s, Lexeme(TokName(KwSystem), RoleNotationNone), s.(handler := Notation(3)), system, closing, close,
            NotationEnd(s, id));
          assert NotationText(id) == [Lexeme(TokName(KwSystem), RoleNotationNone), system, close];
        } else {
          Two(s.(handler := Notation(4)), system, closing, close, NotationEnd(s, id));
          Two(s, Lexeme(TokName(KwPublic), RoleNotationNone), s.(handler := Notation(2)), publicId,
            s.(handler := Notation(4)));
          Append(s, [Lexeme(TokName(KwPublic), RoleNotationNone), publicId], s.(handler := Notation(4)),
            [system, close],
                 NotationEnd(s, id));
          assert NotationText(id) == [Lexeme(TokName(KwPublic), RoleNotationNone), publicId] + [system, close];
        }
      case PublicOnly =>
        Three(s, Lexeme(TokName(KwPublic), RoleNotationNone), s.(handler := Notation(2)), publicId,
          s.(handler := Notation(4)),
              Lexeme(TokDeclClose, RoleNotationNoSystemId), NotationEnd(s, id));
    }
  }

  // After PUBLIC and its literal, or after SYSTEM.
  lemma ReadNotationSystem(s: PState, text: seq<Lexeme>, end: PState) returns (none: bool, rest: seq<Lexeme>)
    requires s.handler == Notation(3) || s.handler == Notation(4)
    requires Reads(s, text, end) && !Open(end.handler)
    ensures none ==> s.handler == Notation(4)
    ensures text == (if none then [Lexeme(TokDeclClose, RoleNotationNoSystemId)]
                     else [Lexeme(TokLiteral, RoleNotationSystemId), Lexeme(TokDeclClose, RoleNotationNone)]) + rest
    ensures Reads(NotationEnd(s, if none then PublicOnly else Identified(SystemId)), rest, end)
  {
    hide Takes, Reads;
    var l, rest1, next := Head(s, text, end);
    NotationSystem(s, l, next);
    none, rest := l.token == TokDeclClose, rest1;
    if !none {
      var l2, rest2, next2 := Head(next, rest1, end);
      Closing(next, l2, next2);
      rest := rest2;
    }
  }

  lemma ReadNotation(s: PState, text: seq<Lexeme>, end: PState) returns (id: NotationId, rest: seq<Lexeme>)
    requires s.handler == Notation(1)
    requires Reads(s, text, end) && !Open(end.handler)
    ensures text == NotationText(id) + rest
    ensures Reads(NotationEnd(s, id), rest, end)
  {
    hide Takes, Reads;
    var l, rest1, next := Head(s, text, end);
    Notation1(s, l, next);
    var none;
    if l.token == TokName(KwSystem) {
      none, rest := ReadNotationSystem(next, rest1, end);
      id := Identified(SystemId);
    } else {
      var l2, rest2, next2 := Head(next, rest1, end);
      Notation2(next, l2, next2);
      none, rest := ReadNotationSystem(next2, rest2, end);
      id := if none then PublicOnly else Identified(PublicId);
    }
  }

  // ----- document types

  function AfterDoctype(s: PState, end: DoctypeEnd): PState {
    s.(handler := if end.Closes? then Prolog(2) else InternalSubset)
  }

  lemma AcceptDoctype(s: PState, id: DoctypeId, end: DoctypeEnd)
    requires s.handler == Doctype(1)
    ensures Reads(s, DoctypeIdText(id) + [DoctypeEndText(end)], AfterDoctype(s, end))
  {
    hide Takes, Reads;
    var s2, s3, s4 := s.(handler := Doctype(2)), s.(handler := Doctype(3)), s.(handler := Doctype(4));
    var systemId, publicId := Lexeme(TokLiteral, RoleDoctypeSystemId), Lexeme(TokLiteral, RoleDoctypePublicId);
    var system, public := Lexeme(TokName(KwSystem), RoleDoctypeNone), Lexeme(TokName(KwPublic), RoleDoctypeNone);
    DoctypeNamed(s, DoctypeEndText(end), AfterDoctype(s, end));
    DoctypeNamed(s4, DoctypeEndText(end), AfterDoctype(s, end));
    DoctypeNamed(s, system, s3);
    DoctypeNamed(s, public, s2);
    Doctype2(s2, publicId, s3);
    Doctype3(s3, systemId, s4);
    One(s, DoctypeEndText(end), AfterDoctype(s, end));
    match id {
      case NoId => assert DoctypeIdText(id) + [DoctypeEndText(end)] == [DoctypeEndText(end)];
      case WithId(x) =>
        One(s4, DoctypeEndText(end), AfterDoctype(s, end));
        if x.SystemId? {
          Two(s, system, s3, systemId, s4);
        } else {
          Three(s, public, s2, publicId, s3, systemId, s4);
        }
        Append(s, DoctypeIdText(id), s4, [DoctypeEndText(end)], AfterDoctype(s, end));
    }
  }

  lemma ReadDoctypeEnd(s: PState, text: seq<Lexeme>, end: PState) returns (how: DoctypeEnd, rest: seq<Lexeme>)
    requires s.handler == Doctype(4)
    requires Reads(s, text, end) && !Open(end.handler)
    ensures text == [DoctypeEndText(how)] + rest
    ensures Reads(AfterDoctype(s, how), rest, end)
  {
    hide Takes, Reads;
    var l, rest1, next := Head(s, text, end);
    DoctypeNamed(s, l, next);
    how, rest := if l.token == TokDeclClose then Closes else OpensSubset, rest1;
  }

  lemma ReadDoctypeSystem(s: PState, text: seq<Lexeme>, end: PState) returns (how: DoctypeEnd, rest: seq<Lexeme>)
    requires s.handler == Doctype(3)
    requires Reads(s, text, end) && !Open(end.handler)
    ensures text == [Lexeme(TokLiteral, RoleDoctypeSystemId), DoctypeEndText(how)] + rest
    ensures Reads(AfterDoctype(s, how), rest, end)
  {
    hide Takes, Reads;
    var l, rest1, next := Head(s, text, end);
    Doctype3(s, l, next);
    how, rest := ReadDoctypeEnd(next, rest1, end);
  }

  lemma ReadDoctype(s: PState, text: seq<Lexeme>, end: PState)
    returns (id: DoctypeId, how: DoctypeEnd, rest: seq<Lexeme>)
    requires s.handler == Doctype(1)
    requires Reads(s, text, end) && !Open(end.handler)
    ensures text == (DoctypeIdText(id) + [DoctypeEndText(how)]) + rest
    ensures Reads(AfterDoctype(s, how), rest, end)
  {
    hide Takes, Reads;
    var l, rest1, next := Head(s, text, end);
    DoctypeNamed(s, l, next);
    if l.token == TokDeclClose || l.token == TokOpenBracket {
      id, how, rest := NoId, if l.token == TokDeclClose then Closes else OpensSubset, rest1;
    } else if l.token == TokName(KwSystem) {
      how, rest := ReadDoctypeSystem(next, rest1, end);
      id := WithId(SystemId);
    } else {
      var l2, rest2, next2 := Head(next, rest1, end);
      Doctype2(next, l2, next2);
      how, rest := ReadDoctypeSystem(next2, rest2, end);
      id := WithId(PublicId);
    }
  }

  // ----- attribute-list declarations

  lemma EnumValueToken(v: EnumValue)
    ensures EnumToken(v).TokNmtoken? || IsNameTok(EnumToken(v))
  {
  }

  function EnumValueOf(t: Token): (v: EnumValue)
    requires t.TokNmtoken? || IsNameTok(t)
    ensures EnumToken(v) == t
  {
    if t.TokNmtoken? then NmtokenValue else NameValue(NameOf(t))
  }

  lemma {:induction false} AcceptEnum(s: PState, more: seq<EnumValue>)
    requires s.handler == Attlist(4)
    ensures Reads(s, EnumText(more), s.(handler := Attlist(8)))
    decreases |more|
  {
    hide Takes, Reads;
    var end := s.(handler := Attlist(8));
    if more == [] {
      AttlistValue(s, Lexeme(TokCloseParen, RoleAttlistNone), end);
      One(s, Lexeme(TokCloseParen, RoleAttlistNone), end);
    } else {
      var bar, value, s3 := Lexeme(TokOr, RoleAttlistNone), Lexeme(EnumToken(more[0]), RoleAttributeEnumValue),
        s.(handler := Attlist(3));
      AttlistValue(s, bar, s3);
      Attlist3(s3, value, s);
      EnumValueToken(more[0]);
      Two(s, bar, s3, value, s);
      AcceptEnum(s, more[1..]);
      Append(s, [bar, value], s, EnumText(more[1..]), end);
    }
  }

  lemma {:induction false} AcceptNotations(s: PState, names: seq<Keyword>)
    requires s.handler == Attlist(7)
    ensures Reads(s, NotationsText(names), s.(handler := Attlist(8)))
    decreases |names|
  {
    hide Takes, Reads;
    var end := s.(handler := Attlist(8));
    if names == [] {
      AttlistValue(s, Lexeme(TokCloseParen, RoleAttlistNone), end);
      One(s, Lexeme(TokCloseParen, RoleAttlistNone), end);
    } else {
      var bar, value, s6 := Lexeme(TokOr, RoleAttlistNone), Lexeme(TokName(names[0]), RoleAttributeNotationValue),
        s.(handler := Attlist(6));
      AttlistValue(s, bar, s6);
      Attlist6(s6, value, s);
      Two(s, bar, s6, value, s);
      AcceptNotations(s, names[1..]);
      Append(s, [bar, value], s, NotationsText(names[1..]), end);
    }
  }

  lemma AcceptEnumeration(s: PState, first: EnumValue, more: seq<EnumValue>)
    requires s.handler == Attlist(2)
    ensures Reads(s, TypeText(Enumeration(first, more)), s.(handler := Attlist(8)))
  {
    hide Takes, Reads, EnumText;
    var open, value := Lexeme(TokOpenParen, RoleAttlistNone), Lexeme(EnumToken(first), RoleAttributeEnumValue);
    var s3, s4 := s.(handler := Attlist(3)), s.(handler := Attlist(4));
    Attlist2(s, open, s3);
    Attlist3(s3, value, s4);
    EnumValueToken(first);
    Two(s, open, s3, value, s4);
    AcceptEnum(s4, more);
    Append(s, [open, value], s4, EnumText(more), s.(handler := Attlist(8)));
  }

  lemma AcceptNotationType(s: PState, name: Keyword, names: seq<Keyword>)
    requires s.handler == Attlist(2)
    ensures Reads(s, TypeText(Notations(name, names)), s.(handler := Attlist(8)))
  {
    hide Takes, Reads, NotationsText;
    var notation, open := Lexeme(TokName(KwNotation), RoleAttlistNone), Lexeme(TokOpenParen, RoleAttlistNone);
    var value := Lexeme(TokName(name), RoleAttributeNotationValue);
    var s5, s6, s7 := s.(handler := Attlist(5)), s.(handler := Attlist(6)), s.(handler := Attlist(7));
    Attlist2(s, notation, s5);
    Attlist5(s5, open, s6);
    Attlist6(s6, value, s7);
    Three(s, notation, s5, open, s6, value, s7);
    AcceptNotations(s7, names);
    Append(s, [notation, open, value], s7, NotationsText(names), s.(handler := Attlist(8)));
  }

  lemma AcceptType(s: PState, typ: AttType)
    requires s.handler == Attlist(2)
    ensures Reads(s, TypeText(typ), s.(handler := Attlist(8)))
  {
    hide Takes, Reads, EnumText, NotationsText;
    match typ {
      case Enumeration(first, more) => AcceptEnumeration(s, first, more);
      case Notations(name, names) => AcceptNotationType(s, name, names);
      case _ =>
        var l := TypeText(typ)[0];
        Attlist2(s, l, s.(handler := Attlist(8)));
        One(s, l, s.(handler := Attlist(8)));
    }
  }

  lemma AcceptDefault(s: PState, default: Default)
    requires s.handler == Attlist(8)
    ensures Reads(s, DefaultText(default), s.(handler := Attlist(1)))
  {
    hide Takes, Reads;
    var l, end := DefaultText(default)[0], s.(handler := Attlist(1));
    if default.Fixed? {
      var s9, value := s.(handler := Attlist(9)), Lexeme(TokLiteral, RoleFixedAttributeValue);
      Attlist8(s, l, s9);
      Attlist9(s9, value, end);
      Two(s, l, s9, value, end);
    } else {
      Attlist8(s, l, end);
      One(s, l, end);
    }
  }

  lemma {:induction false} AcceptDefs(s: PState, defs: seq<AttDef>)
    requires s.handler == Attlist(1)
    ensures Reads(s, DefsText(defs), s.(handler := TopLevel(s.documentEntity)))
    decreases |defs|
  {
    hide Takes, Reads, TypeText, DefaultText;
    var end := s.(handler := TopLevel(s.documentEntity));
    if defs == [] {
      var close := Lexeme(TokDeclClose, RoleAttlistNone);
      Attlist1(s, close, end);
      One(s, close, end);
    } else {
      var name, s2, s8 := Lexeme(NameToken(defs[0].name), RoleAttributeName), s.(handler := Attlist(2)),
        s.(handler := Attlist(8));
      var after := DefaultText(defs[0].default) + DefsText(defs[1..]);
      AcceptDefs(s, defs[1..]);
      AcceptDefault(s8, defs[0].default);
      Append(s8, DefaultText(defs[0].default), s, DefsText(defs[1..]), end);
      AcceptType(s2, defs[0].typ);
      Append(s2, TypeText(defs[0].typ), s8, after, end);
      Attlist1(s, name, s2);
      Prepend(s, name, s2, TypeText(defs[0].typ) + after, end);
    }
  }

  lemma {:induction false} ReadEnum(s: PState, text: seq<Lexeme>, end: PState)
    returns (more: seq<EnumValue>, rest: seq<Lexeme>)
    requires s.handler == Attlist(4)
    requires Reads(s, text, end) && !Open(end.handler)
    ensures text == EnumText(more) + rest && |rest| < |text|
    ensures Reads(s.(handler := Attlist(8)), rest, end)
    decreases |text|
  {
    hide Takes, Reads;
    var l, rest1, next := Head(s, text, end);
    AttlistValue(s, l, next);
    if l.token == TokCloseParen {
      more, rest := [], rest1;
    } else {
      var l2, rest2, next2 := Head(next, rest1, end);
      Attlist3(next, l2, next2);
      more, rest := ReadEnum(s, rest2, end);
      more := [EnumValueOf(l2.token)] + more;
      assert more[1..] + [] == more[1..];
    }
  }

  lemma {:induction false} ReadNotations(s: PState, text: seq<Lexeme>, end: PState)
    returns (names: seq<Keyword>, rest: seq<Lexeme>)
    requires s.handler == Attlist(7)
    requires Reads(s, text, end) && !Open(end.handler)
    ensures text == NotationsText(names) + rest && |rest| < |text|
    ensures Reads(s.(handler := Attlist(8)), rest, end)
    decreases |text|
  {
    hide Takes, Reads;
    var l, rest1, next := Head(s, text, end);
    AttlistValue(s, l, next);
    if l.token == TokCloseParen {
      names, rest := [], rest1;
    } else {
      var l2, rest2, next2 := Head(next, rest1, end);
      Attlist6(next, l2, next2);
      names, rest := ReadNotations(s, rest2, end);
      names := [l2.token.kw] + names;
    }
  }

  function TypeOf(l: Lexeme): (typ: AttType)
    requires IsTypeLexeme(l)
    ensures TypeText(typ) == [l]
  {
    match l.token.kw
    case KwCdata => TypeCdata
    case KwId => TypeId
    case KwIdref => TypeIdref
    case KwIdrefs => TypeIdrefs
    case KwEntity => TypeEntity
    case KwEntities => TypeEntities
    case KwNmtoken => TypeNmtoken
    case _ => TypeNmtokens
  }

  lemma ReadEnumeration(s: PState, text: seq<Lexeme>, end: PState) returns (typ: AttType, rest: seq<Lexeme>)
    requires s.handler == Attlist(3)
    requires Reads(s, text, end) && !Open(end.handler)
    ensures [Lexeme(TokOpenParen, RoleAttlistNone)] + text == TypeText(typ) + rest && |rest| < |text|
    ensures Reads(s.(handler := Attlist(8)), rest, end)
  {
    hide Takes, Reads, EnumText;
    var l, rest1, next := Head(s, text, end);
    Attlist3(s, l, next);
    var more;
    more, rest := ReadEnum(next, rest1, end);
    typ := Enumeration(EnumValueOf(l.token), more);
  }

  lemma ReadNotationType(s: PState, text: seq<Lexeme>, end: PState) returns (typ: AttType, rest: seq<Lexeme>)
    requires s.handler == Attlist(5)
    requires Reads(s, text, end) && !Open(end.handler)
    ensures [Lexeme(TokName(KwNotation), RoleAttlistNone)] + text == TypeText(typ) + rest && |rest| < |text|
    ensures Reads(s.(handler := Attlist(8)), rest, end)
  {
    hide Takes, Reads, NotationsText;
    var l, rest1, next := Head(s, text, end);
    Attlist5(s, l, next);
    var l2, rest2, next2 := Head(next, rest1, end);
    Attlist6(next, l2, next2);
    var names;
    names, rest := ReadNotations(next2, rest2, end);
    typ := Notations(l2.token.kw, names);
  }

  lemma ReadType(s: PState, text: seq<Lexeme>, end: PState) returns (typ: AttType, rest: seq<Lexeme>)
    requires s.handler == Attlist(2)
    requires Reads(s, text, end) && !Open(end.handler)
    ensures text == TypeText(typ) + rest && |rest| < |text|
    ensures Reads(s.(handler := Attlist(8)), rest, end)
  {
    hide Takes, Reads, TypeText;
    var l, rest1, next := Head(s, text, end);
    Attlist2(s, l, next);
    if IsTypeLexeme(l) {
      typ, rest := TypeOf(l), rest1;
    } else if l.token == TokOpenParen {
      typ, rest := ReadEnumeration(next, rest1, end);
    } else {
      typ, rest := ReadNotationType(next, rest1, end);
    }
  }

  lemma ReadDefault(s: PState, text: seq<Lexeme>, end: PState) returns (default: Default, rest: seq<Lexeme>)
    requires s.handler == Attlist(8)
    requires Reads(s, text, end) && !Open(end.handler)
    ensures text == DefaultText(default) + rest && |rest| < |text|
    ensures Reads(s.(handler := Attlist(1)), rest, end)
  {
    hide Takes, Reads;
    var l, rest1, next := Head(s, text, end);
    Attlist8(s, l, next);
    rest := rest1;
    if l.token == TokPoundName(KwImplied) {
      default := Implied;
    } else if l.token == TokPoundName(KwRequired) {
      default := Required;
    } else if l.token == TokLiteral {
      default := Given;
    } else {
      var l2, rest2, next2 := Head(next, rest1, end);
      Attlist9(next, l2, next2);
      default, rest := Fixed, rest2;
    }
  }

  lemma {:induction false} ReadDefs(s: PState, text: seq<Lexeme>, end: PState)
    returns (defs: seq<AttDef>, rest: seq<Lexeme>)
    requires s.handler == Attlist(1)
    requires Reads(s, text, end) && !Open(end.handler)
    ensures text == DefsText(defs) + rest
    ensures Reads(s.(handler := TopLevel(s.documentEntity)), rest, end)
    decreases |text|
  {
    hide Takes, Reads, TypeText, DefaultText;
    var l, rest1, next := Head(s, text, end);
    Attlist1(s, l, next);
    if l.token == TokDeclClose {
      defs, rest := [], rest1;
    } else {
      var typ, rest2 := ReadType(next, rest1, end);
      var default, rest3 := ReadDefault(s.(handler := Attlist(8)), rest2, end);
      defs, rest := ReadDefs(s, rest3, end);
      var more := defs;
      defs := [AttDef(NameOf(l.token), typ, default)] + more;
      assert defs[1..] == more;
      Assoc(DefaultText(default), DefsText(more), rest);
      Assoc(TypeText(typ), DefaultText(default) + DefsText(more), rest);
      Assoc([l], TypeText(typ) + (DefaultText(default) + DefsText(more)), rest);
    }
  }

  // ----- element declarations

  lemma ElementAnswer(s: PState, t: Token)
    requires s.handler.Element?
    ensures Step(s, t) == Answer(s, t, ElementRow(s.handler, t))
  {
  }

  lemma Element0(s: PState, l: Lexeme, next: PState)
    requires s.handler == Element(0)
    ensures Takes(s, l, next) <==> IsNameTok(l.token) && l.role == RoleElementName && next == s.(handler := Element(1))
  {
    ElementAnswer(s, l.token);
    hide Step;
  }

  // Within a content specification: a step that is no failure takes its token.
  lemma ContentTakes(s: PState, t: Token)
    requires InContent(s.handler) && !Blank(false, t)
    requires InContent(ElementStep(s, t).0.handler) || ElementStep(s, t).0.handler == DeclClose
    ensures Takes(s, Lexeme(t, ElementStep(s, t).1), ElementStep(s, t).0)
  {
    StepInContent(s, t);
    hide Step;
  }

  lemma ContentTaken(s: PState, l: Lexeme, next: PState)
    requires InContent(s.handler) && Takes(s, l, next)
    ensures ElementStep(s, l.token) == (next, l.role) && !Blank(false, l.token)
  {
    StepInContent(s, l.token);
    hide Step;
  }

  // The cells of a content specification stay in it or end it.
  predicate ContentCell(c: Cell) {
    c.Go? ==>
      && (InContent(c.next) || c.next == DeclClose)
      && (if c.next == DeclClose then c.effect == Finish(RoleElementNone)
          else c.effect.Keep? || c.effect.FirstGroup? || c.effect.SecondGroup? || c.effect.OpenGroup? || c.effect.CloseGroup?)
  }

  lemma ContentParts(t: Token, bare: bool)
    ensures ContentCell(ContentSpecRow(t)) && ContentCell(MixedRow(t, bare))
  {
  }

  lemma GroupParts(t: Token)
    ensures ContentCell(ParticleRow(t)) && ContentCell(AfterParticleRow(t))
  {
  }

  lemma ContentCells(h: Handler, t: Token)
    requires InContent(h)
    ensures ContentCell(ElementRow(h, t))
  {
    hide ContentSpecRow, MixedRow, ParticleRow, AfterParticleRow;
    ContentParts(t, true);
    ContentParts(t, false);
    GroupParts(t);
  }

  lemma ContentGoesOn(s: PState, t: Token)
    requires InContent(s.handler) && ElementStep(s, t).1 != RoleError && !Blank(false, t)
    ensures var next := ElementStep(s, t).0;
            && (InContent(next.handler) || (next.handler == DeclClose && next.roleNone == RoleElementNone))
            && next.documentEntity == s.documentEntity && next.includeLevel == s.includeLevel
  {
    ContentCells(s.handler, t);
    hide ElementRow;
  }

  lemma {:induction false} WalkReads(s: PState, toks: seq<Token>, end: PState, roles: seq<Role>)
    requires Walk(s, toks, end, roles) && NoBlanks(false, toks)
    ensures |toks| == |roles| && Reads(s, Pairs(toks, roles), end)
    decreases |toks|
  {
    var next := ElementStep(s, toks[0]).0;
    WalkHead(s, toks, end, roles);
    ContentTakes(s, toks[0]);
    assert roles[0] == ElementStep(s, toks[0]).1 && (|toks| == 1 ==> next == end);
    hide ElementStep, Takes, Walk;
    if |toks| == 1 {
      One(s, Lexeme(toks[0], roles[0]), end);
      assert Pairs(toks, roles) == [Lexeme(toks[0], roles[0])];
    } else {
      WalkReads(next, toks[1..], end, roles[1..]);
      Prepend(s, Lexeme(toks[0], roles[0]), next, Pairs(toks[1..], roles[1..]), end);
      assert Pairs(toks, roles) == [Lexeme(toks[0], roles[0])] + Pairs(toks[1..], roles[1..]);
    }
  }

  lemma {:induction false} MixedSolid(names: seq<ElemName>)
    ensures NoBlanks(false, MixedTokens(names))
    decreases |names|
  {
    if names != [] {
      MixedSolid(names[1..]);
    }
  }

  lemma SpecSolid(spec: Spec)
    ensures NoBlanks(false, SpecTokens(spec))
  {
    match spec {
      case Mixed(names, _) => MixedSolid(names);
      case Children(body, q) => ParticleSolid(false, Group(body, q));
      case _ =>
    }
  }

  lemma SpecEndNone(s: PState, spec: Spec)
    ensures SpecEnd(s, spec).handler == DeclClose && SpecEnd(s, spec).roleNone == RoleElementNone
    ensures SpecEnd(s, spec).documentEntity == s.documentEntity && SpecEnd(s, spec).includeLevel == s.includeLevel
  {
  }

  // The tokens of a text.
  function Tokens(text: seq<Lexeme>): (toks: seq<Token>)
    ensures |toks| == |text|
  {
    seq(|text|, i requires 0 <= i < |text| => text[i].token)
  }

  lemma TakesRole(s: PState, l: Lexeme, next: PState)
    requires Takes(s, l, next)
    ensures l.role != RoleError
  {
    hide Step;
  }

  // The content specification ahead, as a walk, and what follows it.
  lemma {:induction false} SplitContent(s: PState, text: seq<Lexeme>, end: PState)
    returns (toks: seq<Token>, roles: seq<Role>, mid: PState, rest: seq<Lexeme>)
    requires InContent(s.handler) && Reads(s, text, end) && !Open(end.handler)
    ensures |toks| == |roles| && text == Pairs(toks, roles) + rest
    ensures Walk(s, toks, mid, roles) && NoBlanks(false, toks)
    ensures mid.handler == DeclClose && mid.roleNone == RoleElementNone && Reads(mid, rest, end)
    ensures mid.documentEntity == s.documentEntity && mid.includeLevel == s.includeLevel
    decreases |text|
  {
    hide Takes, Reads, ElementStep;
    var l, rest1, next := Head(s, text, end);
    ContentTaken(s, l, next);
    assert l.role != RoleError by { TakesRole(s, l, next); }
    ContentGoesOn(s, l.token);
    if next.handler == DeclClose {
      toks, roles, mid, rest := [l.token], [l.role], next, rest1;
      WalkLast(s, l.token);
      assert Pairs([l.token], [l.role]) == [l];
    } else {
      toks, roles, mid, rest := SplitContent(next, rest1, end);
      WalkFirst(s, l.token, toks, mid, roles);
      assert Pairs([l.token] + toks, [l.role] + roles) == [l] + Pairs(toks, roles);
      toks, roles := [l.token] + toks, [l.role] + roles;
    }
  }

  lemma {:induction false} PeakPrefix(n: int, a: seq<Token>, b: seq<Token>)
    ensures Peak(n, a) <= Peak(n, a + b)
    decreases |a|
  {
    if a != [] {
      assert (a + b)[1..] == a[1..] + b;
      PeakPrefix(n + Delta(a[0]), a[1..], b);
    }
  }

  lemma PairsTokens(toks: seq<Token>, roles: seq<Role>, rest: seq<Lexeme>)
    requires |toks| == |roles|
    ensures Tokens(Pairs(toks, roles) + rest) == toks + Tokens(rest)
  {
  }

  lemma AcceptSpec(s: PState, spec: Spec)
    requires s.handler == Element(1) && WellFormed(spec) && SpecDepth(spec) <= U32
    ensures |SpecTokens(spec)| == |SpecRoles(spec)|
    ensures Reads(s, Pairs(SpecTokens(spec), SpecRoles(spec)), SpecEnd(s, spec))
  {
    hide Walk, SpecTokens, SpecRoles, SpecEnd;
    WalkSpec(s, spec);
    SpecSolid(spec);
    WalkReads(s, SpecTokens(spec), SpecEnd(s, spec), SpecRoles(spec));
  }

  lemma ReadSpec(s: PState, text: seq<Lexeme>, end: PState) returns (spec: Spec, mid: PState, rest: seq<Lexeme>)
    requires s.handler == Element(1) && Reads(s, text, end) && !Open(end.handler)
    requires Peak(0, Tokens(text)) <= U32
    ensures WellFormed(spec) && SpecDepth(spec) <= U32 && |SpecTokens(spec)| == |SpecRoles(spec)|
    ensures text == Pairs(SpecTokens(spec), SpecRoles(spec)) + rest
    ensures Reads(mid, rest, end) && mid == SpecEnd(s, spec)
  {
    hide Takes, Reads, Walk, Peak, SpecTokens, SpecRoles, SpecEnd, SpecDepth;
    var toks, roles;
    toks, roles, mid, rest := SplitContent(s, text, end);
    PairsTokens(toks, roles, rest);
    PeakPrefix(0, toks, Tokens(rest));
    spec := ParseSpec(s, toks, mid, roles);
    SpecDepthPeak(spec);
    WalkSpec(s, spec);
    SpecLengths(spec);
    WalkSpells(s, toks, mid, roles);
    WalkSpells(s, toks, SpecEnd(s, spec), SpecRoles(spec));
  }

  lemma SpecDepthPeak(spec: Spec)
    ensures SpecDepth(spec) <= Peak(0, SpecTokens(spec))
  {
    SpecNesting(spec);
  }

  // ----- any declaration

  // The state after the declaration d that began in s.
  function Ended(s: PState, d: Declaration): PState {
    match d
    case GeneralEntity(_, def) => DefEnd(s, def)
    case UnparsedEntity(_, _, _) => DefEnd(s, Value)
    case ParameterEntity(_, def) => DefEnd(s, def)
    case NotationDecl(_, id) => NotationEnd(s, id)
    case AttlistDecl(_, _) => s.(handler := TopLevel(s.documentEntity))
    case ElementDecl(_, spec) => SpecEnd(s, spec).(handler := TopLevel(s.documentEntity))
    case DoctypeDecl(_, _, end) => AfterDoctype(s, end)
  }

  lemma AcceptElement(s: PState, element: ElemName, spec: Spec)
    requires s.handler == Element(0) && WellFormed(spec) && SpecDepth(spec) <= U32
    ensures Reads(s, Text(ElementDecl(element, spec)), Ended(s, ElementDecl(element, spec)))
  {
    hide Takes, Reads, SpecTokens, SpecRoles, SpecEnd;
    var s1, name, close := s.(handler := Element(1)), Lexeme(NameToken(element), RoleElementName),
      Lexeme(TokDeclClose, RoleElementNone);
    var mid := SpecEnd(s1, spec);
    SpecEndSame(s, s1, spec);
    Element0(s, name, s1);
    AcceptSpec(s1, spec);
    SpecEndNone(s1, spec);
    var end := mid.(handler := TopLevel(s.documentEntity));
    Closing(mid, close, end);
    One(mid, close, end);
    Append(s1, Pairs(SpecTokens(spec), SpecRoles(spec)), mid, [close], end);
    Prepend(s, name, s1, Pairs(SpecTokens(spec), SpecRoles(spec)) + [close], end);
  }

  lemma SpecEndSame(s: PState, s1: PState, spec: Spec)
    requires s1 == s.(handler := Element(1))
    ensures SpecEnd(s, spec) == SpecEnd(s1, spec)
  {
  }

  lemma ReadElement(s: PState, text: seq<Lexeme>, end: PState) returns (d: Declaration, rest: seq<Lexeme>)
    requires s.handler == Element(0) && Reads(s, text, end) && !Open(end.handler)
    requires Peak(0, Tokens(text)) <= U32
    ensures d.ElementDecl? && Fits(d) && text == Text(d) + rest && Reads(Ended(s, d), rest, end)
  {
    hide Takes, Reads, SpecTokens, SpecRoles, SpecEnd, Peak;
    var l, rest1, s1 := Head(s, text, end);
    Element0(s, l, s1);
    TailPeak(l, rest1);
    var spec, mid, rest2 := ReadSpec(s1, rest1, end);
    SpecEndSame(s, s1, spec);
    SpecEndNone(s1, spec);
    var l2, rest3, next := Head(mid, rest2, end);
    Closing(mid, l2, next);
    d, rest := ElementDecl(NameOf(l.token), spec), rest3;
    Assoc(Pairs(SpecTokens(spec), SpecRoles(spec)), [l2], rest);
    Assoc([l], Pairs(SpecTokens(spec), SpecRoles(spec)) + [l2], rest);
  }

  lemma TailPeak(l: Lexeme, rest: seq<Lexeme>)
    requires Delta(l.token) == 0
    ensures Peak(0, Tokens(rest)) <= Peak(0, Tokens([l] + rest))
  {
    assert Tokens([l] + rest) == [l.token] + Tokens(rest);
    NetFirst(0, l.token, Tokens(rest));
  }

  lemma AcceptParameter(s: PState, name: Keyword, def: EntityDef)
    requires s.handler == Objects(0)
    ensures Reads(s, Text(ParameterEntity(name, def)), DefEnd(s, def))
  {
    hide Takes, Reads, DefText;
    var percent, l := Lexeme(TokPercent, RoleEntityNone), Lexeme(TokName(name), RoleParamEntityName);
    var s1, s7 := s.(handler := Objects(1)), s.(handler := Objects(7));
    Objects0(s, percent, s1);
    Objects1(s1, l, s7);
    AcceptDef(s7, def);
    Two(s, percent, s1, l, s7);
    Append(s, [percent, l], s7, DefText(def), DefEnd(s, def));
  }

  lemma Accept(s: PState, d: Declaration)
    requires s.handler == FirstHandler(d) && Fits(d)
    ensures Reads(s, Text(d), Ended(s, d))
  {
    hide Takes, Reads, DefText, EntityIdText, NotationText, DefsText, DoctypeIdText, DoctypeEndText, WellFormed,
      SpecDepth, SpecEnd;
    match d {
      case GeneralEntity(name, def) =>
        var s2 := s.(handler := Objects(2));
        AcceptDef(s2, def);
        Objects0(s, Lexeme(TokName(name), RoleGeneralEntityName), s2);
        Prepend(s, Lexeme(TokName(name), RoleGeneralEntityName), s2, DefText(def), Ended(s, d));
      case UnparsedEntity(name, id, notation) =>
        var s2 := s.(handler := Objects(2));
        AcceptUnparsed(s2, id, notation);
        Objects0(s, Lexeme(TokName(name), RoleGeneralEntityName), s2);
        Prepend(s, Lexeme(TokName(name), RoleGeneralEntityName), s2, EntityIdText(id) + NdataText(notation),
          Ended(s, d));
      case ParameterEntity(name, def) => AcceptParameter(s, name, def);
      case NotationDecl(name, id) =>
        var s1 := s.(handler := Notation(1));
        Notation0(s, Lexeme(TokName(name), RoleNotationName), s1);
        AcceptNotation(s1, id);
        Prepend(s, Lexeme(TokName(name), RoleNotationName), s1, NotationText(id), Ended(s, d));
      case AttlistDecl(element, defs) =>
        var s1 := s.(handler := Attlist(1));
        Attlist0(s, Lexeme(NameToken(element), RoleAttlistElementName), s1);
        AcceptDefs(s1, defs);
        Prepend(s, Lexeme(NameToken(element), RoleAttlistElementName), s1, DefsText(defs), Ended(s, d));
      case ElementDecl(element, spec) => AcceptElement(s, element, spec);
      case DoctypeDecl(root, id, end) =>
        var s1 := s.(handler := Doctype(1));
        Doctype0(s, Lexeme(NameToken(root), RoleDoctypeName), s1);
        AcceptDoctype(s1, id, end);
        Prepend(s, Lexeme(NameToken(root), RoleDoctypeName), s1, DoctypeIdText(id) + [DoctypeEndText(end)],
          Ended(s, d));
    }
  }

  lemma ReadEntity(s: PState, text: seq<Lexeme>, end: PState) returns (d: Declaration, rest: seq<Lexeme>)
    requires s.handler == Objects(0)
    requires Reads(s, text, end) && !Open(end.handler)
    ensures FirstHandler(d) == Objects(0) && Fits(d) && text == Text(d) + rest && Reads(Ended(s, d), rest, end)
  {
    hide Takes, Reads, DefText, EntityIdText, NdataText;
    var l, rest1, next := Head(s, text, end);
    Objects0(s, l, next);
    if l.token == TokPercent {
      var l2, rest2, next2 := Head(next, rest1, end);
      Objects1(next, l2, next2);
      var def, ndata, notation, rest3 := ReadDef(next2, rest2, end);
      d, rest := ParameterEntity(l2.token.kw, def), rest3;
      Assoc([l, l2], DefText(def), rest);
      Assoc([l], [l2], rest2);
    } else {
      var def, ndata, notation, rest3 := ReadDef(next, rest1, end);
      rest := rest3;
      d := if ndata then UnparsedEntity(l.token.kw, def.id, notation) else GeneralEntity(l.token.kw, def);
      Assoc([l], if ndata then EntityIdText(def.id) + NdataText(notation) else DefText(def), rest);
    }
  }

  predicate IsFirst(h: Handler) {
    h == Objects(0) || h == Notation(0) || h == Attlist(0) || h == Element(0) || h == Doctype(0)
  }

  lemma Read(s: PState, text: seq<Lexeme>, end: PState) returns (d: Declaration)
    requires IsFirst(s.handler) && (s.handler == Element(0) ==> Peak(0, Tokens(text)) <= U32)
    requires Reads(s, text, end) && !Open(end.handler)
    ensures FirstHandler(d) == s.handler && Fits(d) && text == Text(d) && end == Ended(s, d)
  {
    hide Takes, Reads, Peak, WellFormed, SpecDepth, NotationText, DefsText, DoctypeIdText, DoctypeEndText;
    var rest;
    match s.handler {
      case Objects(_) => d, rest := ReadEntity(s, text, end);
      case Notation(_) =>
        var l, rest1, next := Head(s, text, end);
        Notation0(s, l, next);
        var id;
        id, rest := ReadNotation(next, rest1, end);
        d := NotationDecl(l.token.kw, id);
        Assoc([l], NotationText(id), rest);
      case Attlist(_) =>
        var l, rest1, next := Head(s, text, end);
        Attlist0(s, l, next);
        var defs;
        defs, rest := ReadDefs(next, rest1, end);
        d := AttlistDecl(NameOf(l.token), defs);
        Assoc([l], DefsText(defs), rest);
      case Element(_) => d, rest := ReadElement(s, text, end);
      case Doctype(_) =>
        var l, rest1, next := Head(s, text, end);
        Doctype0(s, l, next);
        var id, how;
        id, how, rest := ReadDoctype(next, rest1, end);
        d := DoctypeDecl(NameOf(l.token), id, how);
        Assoc([l], DoctypeIdText(id) + [DoctypeEndText(how)], rest);
    }
    AfterEnd(s, d, rest, end);
    assert Text(d) + [] == Text(d);
  }

  lemma EndedOutside(s: PState, d: Declaration)
    ensures Ended(s, d).handler == HandlerAfter(d, s.documentEntity)
    ensures Ended(s, d).documentEntity == s.documentEntity && Ended(s, d).includeLevel == s.includeLevel
  {
  }

  lemma AfterEnd(s: PState, d: Declaration, rest: seq<Lexeme>, end: PState)
    requires Reads(Ended(s, d), rest, end)
    ensures rest == [] && end == Ended(s, d)
  {
    EndedOutside(s, d);
    hide Ended, Step;
  }

  // ----- blanks

  // The tokens given one by one, each with the role it is answered with.
  function Told(s: PState, toks: seq<Token>): seq<Lexeme>
    decreases |toks|
  {
    if toks == [] then [] else [Lexeme(toks[0], Step(s, toks[0]).1)] + Told(Step(s, toks[0]).0, toks[1..])
  }

  function Solid(text: seq<Lexeme>): seq<Lexeme>
    decreases |text|
  {
    if text == [] then [] else (if IsBlank(text[0]) then [] else [text[0]]) + Solid(text[1..])
  }

  // The declaration that is open in s ends with the last of the tokens, and none of them is an error.
  predicate Completes(s: PState, toks: seq<Token>)
    decreases |toks|
  {
    toks != [] && Open(s.handler) &&
    var (next, role) := Step(s, toks[0]);
    role != RoleError && if |toks| == 1 then !Open(next.handler) else Completes(next, toks[1..])
  }

  // The role of white space: role_none of the declaration.
  function SpaceRole(s: PState): Role {
    match s.handler
    case Doctype(_) => RoleDoctypeNone
    case Objects(_) => RoleEntityNone
    case Notation(_) => RoleNotationNone
    case Attlist(_) => RoleAttlistNone
    case Element(_) => RoleElementNone
    case _ => s.roleNone
  }

  /** A blank inside a declaration changes nothing and is answered as one. */
  lemma BlankAnswer(s: PState, t: Token)
    requires Open(s.handler) && Blank(s.documentEntity, t)
    ensures Step(s, t) == (s, if t.TokS? then SpaceRole(s) else RoleInnerParamEntityRef)
  {
    match s.handler {
      case Objects(_) => ObjectsStep(s, t);
      case Notation(_) => NotationStep(s, t);
      case Attlist(_) => AttlistStep(s, t);
      case Doctype(_) => DoctypeStep(s, t);
      case Element(_) => ElementAnswer(s, t);
      case _ => CloseStep(s, t);
    }
    hide Step;
  }

  // Any other token is none, whatever its role.
  lemma NoBlank(s: PState, t: Token)
    requires Open(s.handler) && !Blank(s.documentEntity, t)
    ensures !IsBlank(Lexeme(t, Step(s, t).1)) || Step(s, t).1 == RoleError
  {
    if t.TokParamEntityRef? {
      match s.handler {
        case Objects(_) => ObjectsStep(s, t);
        case Notation(_) => NotationStep(s, t);
        case Attlist(_) => AttlistStep(s, t);
        case Doctype(_) => DoctypeStep(s, t);
        case Element(_) => ElementAnswer(s, t);
        case _ => CloseStep(s, t);
      }
    }
    hide Step;
  }

  lemma TellSolid(l: Lexeme, rest: seq<Lexeme>)
    ensures Solid([l] + rest) == (if IsBlank(l) then [] else [l]) + Solid(rest)
    ensures Tokens([l] + rest) == [l.token] + Tokens(rest)
  {
    assert ([l] + rest)[1..] == rest;
  }

  lemma BlankLexeme(s: PState, t: Token)
    requires Open(s.handler) && Blank(s.documentEntity, t)
    ensures IsBlank(Lexeme(t, Step(s, t).1))
  {
    BlankAnswer(s, t);
    hide Step;
  }

  lemma TakesStep(s: PState, t: Token)
    requires Open(s.handler) && !IsBlank(Lexeme(t, Step(s, t).1)) && Step(s, t).1 != RoleError
    ensures Takes(s, Lexeme(t, Step(s, t).1), Step(s, t).0)
  {
    hide Step;
  }

  lemma SolidFirst(s: PState, toks: seq<Token>)
    requires Open(s.handler) && toks != [] && Step(s, toks[0]).1 != RoleError
    ensures var t, next, more := toks[0], Step(s, toks[0]).0, Solid(Told(Step(s, toks[0]).0, toks[1..]));
            if Blank(s.documentEntity, t) then next == s && Solid(Told(s, toks)) == more
            else Takes(s, Lexeme(t, Step(s, t).1), next) && Solid(Told(s, toks)) == [Lexeme(t, Step(s, t).1)] + more
  {
    hide Step, Takes, IsBlank, Blank;
    var t := toks[0];
    var l := Lexeme(t, Step(s, t).1);
    TellSolid(l, Told(Step(s, t).0, toks[1..]));
    if Blank(s.documentEntity, t) {
      BlankAnswer(s, t);
      BlankLexeme(s, t);
    } else {
      NoBlank(s, t);
      TakesStep(s, t);
    }
  }

  lemma {:induction false} SolidOfRun(s: PState, toks: seq<Token>)
    requires Completes(s, toks)
    ensures Reads(s, Solid(Told(s, toks)), RunState(s, toks)) && !Open(RunState(s, toks).handler)
    decreases |toks|
  {
    SolidFirst(s, toks);
    hide Step, Takes, Solid, Reads, Blank;
    var t, rest := toks[0], toks[1..];
    var next, l := Step(s, t).0, Lexeme(t, Step(s, t).1);
    if |toks| > 1 {
      SolidOfRun(next, rest);
      if !Blank(s.documentEntity, t) {
        Prepend(s, l, next, Solid(Told(next, rest)), RunState(s, toks));
      }
    } else {
      assert rest == [];
      NothingTold(next);
      One(s, l, next);
    }
  }

  lemma NothingTold(s: PState)
    ensures Solid(Told(s, [])) == [] && RunState(s, []) == s
  {
  }

  lemma {:induction false} SolidTokens(s: PState, toks: seq<Token>)
    requires Completes(s, toks)
    ensures Tokens(Solid(Told(s, toks))) == DropBlanks(s.documentEntity, toks)
    decreases |toks|
  {
    SolidFirst(s, toks);
    var t, rest, next := toks[0], toks[1..], Step(s, toks[0]).0;
    var role, more := Step(s, t).1, Solid(Told(next, rest));
    hide Step, Takes, Solid, Blank, Told, Tokens;
    StepKeepsEntity(s, t);
    TellSolid(Lexeme(t, role), more);
    if |toks| > 1 {
      SolidTokens(next, rest);
    } else {
      assert rest == [];
      NothingTold(next);
    }
  }

  lemma {:induction false} EndsSolid(s: PState, toks: seq<Token>)
    requires Completes(s, toks)
    ensures !Blank(s.documentEntity, toks[|toks| - 1])
    decreases |toks|
  {
    StepKeepsEntity(s, toks[0]);
    if |toks| > 1 {
      EndsSolid(Step(s, toks[0]).0, toks[1..]);
    } else if Blank(s.documentEntity, toks[0]) {
      BlankAnswer(s, toks[0]);
    }
    hide Step, Blank;
  }

  lemma {:induction false} LastSolid(documentEntity: bool, toks: seq<Token>)
    requires toks != [] && !Blank(documentEntity, toks[|toks| - 1])
    ensures DropBlanks(documentEntity, toks) != []
    decreases |toks|
  {
    if Blank(documentEntity, toks[0]) {
      LastSolid(documentEntity, toks[1..]);
    }
  }

  lemma EmptyRead(s: PState, end: PState)
    requires Reads(s, [], end)
    ensures s == end
  {
  }

  lemma TakesOpen(s: PState, l: Lexeme, next: PState)
    requires Takes(s, l, next)
    ensures Open(s.handler) && Step(s, l.token) == (next, l.role) && l.role != RoleError && !IsBlank(l)
  {
    hide Step;
  }

  lemma BlankNoError(s: PState, t: Token, l: Lexeme, next: PState)
    requires Takes(s, l, next) && Blank(s.documentEntity, t)
    ensures Step(s, t).1 != RoleError
  {
    BlankAnswer(s, t);
    if s.handler == DeclClose {
      CloseStep(s, l.token);
    }
    hide Step;
  }

  // The other way round: blanks put anywhere into a text.
  lemma {:induction false} RunOfSolid(s: PState, toks: seq<Token>, text: seq<Lexeme>, end: PState)
    requires Reads(s, text, end) && !Open(end.handler) && DropBlanks(s.documentEntity, toks) == Tokens(text)
    requires toks != [] && !Blank(s.documentEntity, toks[|toks| - 1])
    ensures Completes(s, toks) && RunState(s, toks) == end && Solid(Told(s, toks)) == text
    decreases |toks|
  {
    hide Step, Takes, IsBlank, Reads, Blank;
    var t, rest, doc := toks[0], toks[1..], s.documentEntity;
    LastSolid(doc, toks);
    var l, text1, next := Head(s, text, end);
    StepKeepsEntity(s, t);
    TellSolid(l, text1);
    TakesOpen(s, l, next);
    TellSolid(Lexeme(t, Step(s, t).1), Told(Step(s, t).0, rest));
    if Blank(doc, t) {
      BlankAnswer(s, t);
      BlankLexeme(s, t);
      BlankNoError(s, t, l, next);
      assert DropBlanks(doc, toks) == DropBlanks(doc, rest);
      RunOfSolid(s, rest, text, end);
    } else {
      assert DropBlanks(doc, toks) == [t] + DropBlanks(doc, rest);
      assert l.token == ([l.token] + Tokens(text1))[0] == ([t] + DropBlanks(doc, rest))[0] == t;
      assert Tokens(text1) == ([l.token] + Tokens(text1))[1..] == DropBlanks(doc, rest);
      if rest == [] {
        assert text1 == [];
        EmptyRead(next, end);
      } else {
        RunOfSolid(next, rest, text1, end);
      }
    }
  }

  // ----- the declarations that are accepted

  ghost predicate IsText(h: Handler, toks: seq<Token>) {
    exists d :: FirstHandler(d) == h && Fits(d) && Tokens(Text(d)) == toks
  }

  /** Every declaration, with blanks anywhere before its tokens, is accepted, and
      its tokens are answered with its roles. */
  lemma DeclarationAccepted(s: PState, d: Declaration, toks: seq<Token>)
    requires s.handler == FirstHandler(d) && Fits(d)
    requires DropBlanks(s.documentEntity, toks) == Tokens(Text(d))
    requires toks != [] && !Blank(s.documentEntity, toks[|toks| - 1])
    ensures Completes(s, toks) && Solid(Told(s, toks)) == Text(d)
    ensures RunState(s, toks).handler == HandlerAfter(d, s.documentEntity)
  {
    Accept(s, d);
    EndedOutside(s, d);
    hide Reads, Text, Ended;
    RunOfSolid(s, toks, Text(d), Ended(s, d));
  }

  /** Whatever is accepted is, blanks dropped, a declaration, answered with its roles. */
  lemma DeclarationRead(s: PState, toks: seq<Token>) returns (d: Declaration)
    requires IsFirst(s.handler) && Completes(s, toks)
    requires s.handler == Element(0) ==> Peak(0, DropBlanks(s.documentEntity, toks)) <= U32
    ensures FirstHandler(d) == s.handler && Fits(d)
    ensures Solid(Told(s, toks)) == Text(d) && DropBlanks(s.documentEntity, toks) == Tokens(Text(d))
    ensures RunState(s, toks).handler == HandlerAfter(d, s.documentEntity)
  {
    SolidOfRun(s, toks);
    SolidTokens(s, toks);
    hide Reads, Text, Ended, Solid, Told, Peak, Step;
    d := Read(s, Solid(Told(s, toks)), RunState(s, toks));
    EndedOutside(s, d);
  }

  /** The handlers of a declaration accept exactly the texts of declarations of
      its kind, blanks aside; an element declaration as long as it nests at most
      2^32 groups. */
  lemma DeclarationsExactly(s: PState, toks: seq<Token>)
    requires IsFirst(s.handler) && toks != []
    requires s.handler == Element(0) ==> Peak(0, DropBlanks(s.documentEntity, toks)) <= U32
    ensures Completes(s, toks)
            <==> IsText(s.handler, DropBlanks(s.documentEntity, toks)) && !Blank(s.documentEntity, toks[|toks| - 1])
  {
    hide Text, FirstHandler, Fits, DropBlanks, Peak;
    if Completes(s, toks) {
      EndsSolid(s, toks);
      var d := DeclarationRead(s, toks);
    } else if IsText(s.handler, DropBlanks(s.documentEntity, toks)) && !Blank(s.documentEntity, toks[|toks| - 1]) {
      var d :| FirstHandler(d) == s.handler && Fits(d) && Tokens(Text(d)) == DropBlanks(s.documentEntity, toks);
      DeclarationAccepted(s, d, toks);
    }
  }
}
