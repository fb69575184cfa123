/**
 The role machine as its caller drives it: xmlparse.c sets a PROLOG_STATE up and
 gives it the tokens of the prolog one by one (doProlog, xmlparse.c 3793-3845).

 What the methods below promise of the roles and of the object is what the
 theorems of PrologRuns and ContentModels say about runs.
 */
module PrologPlay {
  import opened Words
  import opened XmlRole
  import opened PrologRuns
  import opened ContentModels
  import opened DeclTexts
  import opened Declarations
  import opened Prologs

  /** The tokens, one by one, from any state. */
  method Play(s: PrologState, toks: seq<Token>) returns (roles: seq<Role>)
    requires s.Valid()
    modifies s
    ensures s.Valid()
    ensures s.Snapshot() == Final(old(s.Snapshot()), toks)
    ensures roles == Roles(old(s.Snapshot()), toks)
  {
    hide Step;
    ghost var s0 := s.Snapshot();
    roles := [];
    var i := 0;
    while i < |toks|
      invariant i <= |toks| && s.Valid()
      invariant s.Snapshot() == Final(s0, toks[..i]) && roles == Roles(s0, toks[..i])
    {
      assert toks[..i + 1][..i] == toks[..i];
      var role := s.TokenRole(toks[i]);
      roles := roles + [role];
      i := i + 1;
    }
    assert toks[..i] == toks;
  }

  // What holds after any run from an initial state: level counts the open groups,
  // role_none fits the open declaration, and the roles stop at the first error.
  predicate Consistent(s: PState, toks: seq<Token>, roles: seq<Role>)
    requires |roles| == |toks|
  {
    var groups, kw := OpenGroups(roles), Declaring(toks);
    && (s.handler.Element? && s.handler.n >= 2 ==> groups >= 1 && s.level == groups % U32)
    && (s.handler == DeclClose ==> kw == KwEntity || kw == KwNotation || kw == KwElement)
    && (s.handler == DeclClose ==> s.roleNone == DeclNone(kw))
    && forall i, j :: 0 <= i < j < |roles| && (roles[i] == RoleError || roles[i] == RoleInstanceStart) ==>
         roles[j] == RoleNone
  }

  lemma RunConsistent(s0: PState, toks: seq<Token>)
    requires InitialState(s0)
    ensures Consistent(Final(s0, toks), toks, Roles(s0, toks))
  {
    LevelCountsGroups(s0, toks);
    RoleNoneIsSet(s0, toks);
    hide Final, Roles, OpenGroups, Declaring, DeclNone;
    forall i, j | 0 <= i < j < |toks| && (Roles(s0, toks)[i] == RoleError || Roles(s0, toks)[i] == RoleInstanceStart)
      ensures Roles(s0, toks)[j] == RoleNone
    {
      NothingAfterTheEnd(s0, toks, i, j);
    }
  }

  // Of a document entity: one document type, and the declarations between its brackets.
  predicate DocumentOrder(toks: seq<Token>, roles: seq<Role>)
    requires |roles| == |toks|
  {
    forall i :: 0 <= i < |roles| ==>
      && (roles[i] == RoleDoctypeName ==> forall j :: 0 <= j < |roles| && roles[j] == RoleDoctypeName ==> j == i)
      && (IsDeclRole(roles[i]) || roles[i] == RoleParamEntityRef ==>
            RoleDoctypeInternalSubset in roles[..i] && TokCloseBracket !in toks[..i])
  }

  /** A document entity, from XmlPrologStateInit on. */
  method PlayDocument(s: PrologState, toks: seq<Token>) returns (roles: seq<Role>)
    modifies s
    ensures s.Valid() && |roles| == |toks|
    ensures Consistent(s.Snapshot(), toks, roles) && DocumentOrder(toks, roles)
  {
    hide Final, Roles, Consistent, IsDeclRole;
    s.Init();
    ghost var s0 := s.Snapshot();
    roles := Play(s, toks);
    RunConsistent(s0, toks);
    forall i | 0 <= i < |toks|
      ensures roles[i] == RoleDoctypeName ==> forall j :: 0 <= j < |toks| && roles[j] == RoleDoctypeName ==> j == i
      ensures IsDeclRole(roles[i]) || roles[i] == RoleParamEntityRef ==>
                RoleDoctypeInternalSubset in roles[..i] && TokCloseBracket !in toks[..i]
    {
      OneDoctypeAroundAllDeclarations(s0, toks, i);
    }
  }

  /** An external entity, from XmlPrologStateInitExternalEntity on; while it has not
      failed, includeLevel counts its open INCLUDE sections, which are never fewer than none. */
  method PlayEntity(s: PrologState, toks: seq<Token>) returns (roles: seq<Role>)
    modifies s
    ensures s.Valid() && |roles| == |toks|
    ensures Consistent(s.Snapshot(), toks, roles)
    ensures s.handler != Failed ==>
              OpenSections(toks).open >= 0 && s.includeLevel == OpenSections(toks).open % U32
  {
    hide Final, Roles, Consistent, OpenSections;
    s.InitExternalEntity();
    ghost var s0 := s.Snapshot();
    roles := Play(s, toks);
    RunConsistent(s0, toks);
    IncludeLevel(s0, toks);
  }

  ghost predicate IsSpecText(documentEntity: bool, toks: seq<Token>) {
    exists spec :: WellFormed(spec) && DropBlanks(documentEntity, toks) == SpecTokens(spec)
  }

  lemma ContentAccepted(s: PState, toks: seq<Token>)
    requires s.handler == Element(1) && toks != []
    ensures Peak(0, DropBlanks(s.documentEntity, toks)) <= U32 ==>
              (Spells(s, toks) <==> IsSpecText(s.documentEntity, toks) && !Blank(s.documentEntity, toks[|toks| - 1]))
    ensures Peak(0, DropBlanks(s.documentEntity, toks)) > U32 && Spells(s, toks) ==> !IsSpecText(s.documentEntity, toks)
  {
    BlanksDoNotMatter(s, toks);
    hide DropBlanks, Spells, Peak;
    var solid := DropBlanks(s.documentEntity, toks);
    ContentModelsExactly(s, EmptySpec, toks);
    if IsSpecText(s.documentEntity, toks) && Peak(0, solid) <= U32 {
      var spec :| WellFormed(spec) && solid == SpecTokens(spec);
      SpecNesting(spec);
      ContentModelsExactly(s, spec, toks);
    }
  }

  /**
   The content specification of an element declaration: the tokens from the one
   after the element name to the one that completes it. While at most 2^32 groups
   nest it is accepted exactly when it is, blanks dropped, the text of a
   specification and ends with no blank; deeper ones that are accepted are no such text.
   */
  method PlayContent(s: PrologState, toks: seq<Token>) returns (accepted: bool)
    requires s.handler == Element(1)
    modifies s
    ensures var doc := old(s.documentEntity);
            if Peak(0, DropBlanks(doc, toks)) <= U32
            then accepted <==> toks != [] && IsSpecText(doc, toks) && !Blank(doc, toks[|toks| - 1])
            else accepted ==> !IsSpecText(doc, toks)
  {
    hide Step;
    ghost var s0 := s.Snapshot();
    var i := 0;
    while i < |toks| && InContent(s.handler)
      invariant i <= |toks| && s.Valid()
      invariant Spells(s0, toks) <==> if InContent(s.handler) then Spells(s.Snapshot(), toks[i..])
                                      else i == |toks| && s.handler == DeclClose
    {
      var role := s.TokenRole(toks[i]);
      i := i + 1;
    }
    accepted := i == |toks| && s.handler == DeclClose;
    if toks != [] {
      ContentAccepted(s0, toks);
    }
  }

  lemma ToldOn(s: PState, toks: seq<Token>, i: nat)
    requires i < |toks|
    ensures var next := Step(s, toks[i]).0;
            && Told(s, toks[i..]) == [Lexeme(toks[i], Step(s, toks[i]).1)] + Told(next, toks[i + 1..])
            && RunState(s, toks[i..]) == RunState(next, toks[i + 1..])
            && (Completes(s, toks[i..])
                <==> Open(s.handler) && Step(s, toks[i]).1 != RoleError
                     && if i + 1 == |toks| then !Open(next.handler) else Completes(next, toks[i + 1..]))
            && (Alive(s, toks[i..])
                <==> s.handler != Failed && Step(s, toks[i]).1 != RoleError && Alive(next, toks[i + 1..]))
  {
    assert toks[i..][0] == toks[i] && toks[i..][1..] == toks[i + 1..];
    hide Step;
  }

  ghost predicate ToldAsDeclaration(h: Handler, told: seq<Lexeme>) {
    exists d :: FirstHandler(d) == h && Fits(d) && Solid(told) == Text(d)
  }

  /**
   A declaration, from the first handler of its kind on: the tokens after the one
   that opens it. They are accepted exactly when they are, blanks dropped, the text
   of a declaration and end with no blank, and are then answered with its roles;
   for an element as long as at most 2^32 groups nest.
   */
  method PlayDeclaration(s: PrologState, toks: seq<Token>) returns (told: seq<Lexeme>, accepted: bool)
    requires s.Valid() && IsFirst(s.handler) && toks != []
    modifies s
    ensures s.Valid()
    ensures var doc, h := old(s.documentEntity), old(s.handler);
            (h == Element(0) ==> Peak(0, DropBlanks(doc, toks)) <= U32) ==>
              && (accepted <==> IsText(h, DropBlanks(doc, toks)) && !Blank(doc, toks[|toks| - 1]))
              && (accepted ==> ToldAsDeclaration(h, told))
  {
    hide Step, Completes, Told, Alive, RunState, IsText, ToldAsDeclaration, DropBlanks, Peak;
    ghost var s0 := s.Snapshot();
    var i, ok := 0, true;
    told := [];
    assert toks[0..] == toks;
    while i < |toks| && ok && Open(s.handler)
      invariant i <= |toks| && s.Valid()
      invariant told + Told(s.Snapshot(), toks[i..]) == Told(s0, toks)
      invariant Completes(s0, toks) <==> ok && if i < |toks| then Completes(s.Snapshot(),
              toks[i..]) else !Open(s.handler)
    {
      ToldOn(s.Snapshot(), toks, i);
      var role := s.TokenRole(toks[i]);
      Assoc(told, [Lexeme(toks[i], role)], Told(s.Snapshot(), toks[i + 1..]));
      told := told + [Lexeme(toks[i], role)];
      ok := role != RoleError;
      i := i + 1;
    }
    accepted := i == |toks| && ok && !Open(s.handler);
    OnlyOpen(s.Snapshot(), toks[i..]);
    if s0.handler == Element(0) ==> Peak(0, DropBlanks(s0.documentEntity, toks)) <= U32 {
      DeclarationTold(s0, toks, told, s.Snapshot(), i, accepted);
    }
  }

  lemma OnlyOpen(s: PState, toks: seq<Token>)
    ensures Completes(s, toks) ==> Open(s.handler)
  {
    hide Step;
  }

  lemma DeclarationTold(s0: PState, toks: seq<Token>, told: seq<Lexeme>, s: PState, i: nat, accepted: bool)
    requires IsFirst(s0.handler) && toks != [] && i <= |toks|
    requires told + Told(s, toks[i..]) == Told(s0, toks)
    requires s0.handler == Element(0) ==> Peak(0, DropBlanks(s0.documentEntity, toks)) <= U32
    requires (accepted <==> Completes(s0, toks)) && (accepted ==> i == |toks|)
    ensures accepted <==>
      && IsText(s0.handler, DropBlanks(s0.documentEntity, toks))
      && !Blank(s0.documentEntity, toks[|toks| - 1])
    ensures accepted ==> ToldAsDeclaration(s0.handler, told)
  {
    hide Step, Completes, IsText, DropBlanks, Peak;
    DeclarationsExactly(s0, toks);
    if accepted {
      assert toks[i..] == [];
      var d := DeclarationRead(s0, toks);
      assert told == Told(s0, toks);
    }
  }

  ghost predicate ToldAsDocument(told: seq<Lexeme>) {
    exists start, before, t :: DoctypeFits(t) && Solid(told) == start + PrologText(before, t)
                               && (start == [] || exists n: nat :: start == XmlDeclText(n))
  }

  /**
   A document entity up to its root element. As long as no element declaration
   nests more than 2^32 groups it is accepted exactly when it is a prolog of XML 1.0,
   and is then answered with the roles of its text.
   */
  method PlayProlog(s: PrologState, toks: seq<Token>) returns (told: seq<Lexeme>, accepted: bool)
    modifies s
    ensures s.Valid() && Tokens(told) == toks
    ensures Highest(0, Solid(told)) <= U32 ==>
              (accepted <==> IsDocument(toks)) && (accepted ==> ToldAsDocument(told))
  {
    hide Step, Completes, Told, Alive, RunState, IsDocument, ToldAsDocument, Highest, Solid;
    s.Init();
    ghost var s0 := s.Snapshot();
    var i, ok := 0, true;
    told := [];
    assert toks[0..] == toks;
    while i < |toks|
      invariant i <= |toks| && s.Valid() && Tokens(told) == toks[..i]
      invariant told + Told(s.Snapshot(), toks[i..]) == Told(s0, toks)
      invariant RunState(s0, toks) == RunState(s.Snapshot(), toks[i..])
      invariant Alive(s0, toks) <==> ok && Alive(s.Snapshot(), toks[i..])
    {
      ToldOn(s.Snapshot(), toks, i);
      ok := ok && s.handler != Failed;
      var role := s.TokenRole(toks[i]);
      Assoc(told, [Lexeme(toks[i], role)], Told(s.Snapshot(), toks[i + 1..]));
      told := told + [Lexeme(toks[i], role)];
      ok := ok && role != RoleError;
      i := i + 1;
    }
    accepted := ok && s.handler == Failed;
    NothingLeft(s.Snapshot());
    assert toks[i..] == [] && toks[..i] == toks && told == Told(s0, toks);
    if Highest(0, Solid(told)) <= U32 {
      PrologTold(s0, toks);
    }
  }

  lemma NothingLeft(s: PState)
    ensures Told(s, []) == [] && RunState(s, []) == s && Alive(s, [])
  {
  }

  lemma PrologTold(s0: PState, toks: seq<Token>)
    requires IsDocumentStart(s0) && Highest(0, Solid(Told(s0, toks))) <= U32
    ensures Accepted(s0, toks) <==> IsDocument(toks)
    ensures Accepted(s0, toks) ==> ToldAsDocument(Told(s0, toks))
  {
    hide Step, IsDocument, Highest, Solid, Told, PrologText, DoctypeFits, XmlDeclText, Alive, RunState;
    DocumentsExactly(s0, toks);
    if Accepted(s0, toks) {
      var start, before, t := DocumentRead(s0, toks);
    }
  }
}
