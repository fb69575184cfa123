/**
 UpnpRegistry (UpnpStack/UpnpRegistry/UpnpRegistry.c): the table of the objects found
 in the network, kept from alive, byebye and search response messages, and the calls
 of the discovery listener.

 What the validator makes of a message (ValidateUSN with the user's filter, ValidateNT)
 is part of the event. The table is a TinyMap, held as the items of module MapItems.
 */
module Registry {
  import opened Wrappers
  import opened MapItems

  const UPNP_USN_LEN: nat := 128

  datatype UpnpObject = UpnpObject(usn: string)

  datatype Event =
    | Alive(usn: string, usnOk: bool, ntOk: bool, behind: string)
    | Response(usn: string, usnOk: bool, stOk: bool, behind: string)
    | Byebye(usn: string, usnOk: bool)
    | Discover(listener: nat)
    | StopDiscovery

  // One call of a listener.
  datatype Call = Call(listener: nat, usn: string, alive: bool)

  datatype State = State(foundObjects: seq<Item<UpnpObject>>, listener: Option<nat>, calls: seq<Call>)

  // The USN of an object as it is read from its field: one that fills the field has no terminator
  // there and runs on into what stands behind it, up to the next zero.
  function StoredUsn(usn: string, behind: string): (stored: string)
    ensures |usn| <= 128 ==> (stored == usn <==> |usn| < 128 || behind == "")
  {
    if |usn| < UPNP_USN_LEN then usn else usn[..UPNP_USN_LEN] + behind
  }

  // The USN of a message that can make an object is the one the object will have.
  predicate Fits(e: Event) {
    e.Alive? || e.Response? ==> |e.usn| <= 128 && (|e.usn| < 128 || e.behind == "")
  }

  function Found(s: State, usn: string, usnOk: bool, ntOk: bool, behind: string): (r: State)
    ensures r.listener == s.listener
  {
    if s.listener.None? || !usnOk || Find(s.foundObjects, usn).Some? || !ntOk then s
    else
      var obj := UpnpObject(StoredUsn(usn, behind));
      s.(foundObjects := With(s.foundObjects, obj.usn, obj),
         calls := s.calls + [Call(s.listener.value, obj.usn, true)])
  }

  function Step(s: State, e: Event): State {
    match e
    case Alive(usn, usnOk, ntOk, behind) => Found(s, usn, usnOk, ntOk, behind)
    case Response(usn, usnOk, stOk, behind) => Found(s, usn, usnOk, stOk, behind)
    case Byebye(usn, usnOk) =>
      if s.listener.None? || !usnOk then s
      else
        (match Find(s.foundObjects, usn)
         case None => s
         case Some(obj) =>
           s.(foundObjects := Without(s.foundObjects, usn),
              calls := s.calls + [Call(s.listener.value, obj.usn, false)]))
    case Discover(listener) => s.(listener := Some(listener))
    case StopDiscovery => s.(listener := None)
  }

  class UpnpRegistry {
    var foundObjects: seq<Item<UpnpObject>>
    var listener: Option<nat>
    ghost var calls: seq<Call>

    ghost function Snapshot(): State
      reads this
    {
      State(foundObjects, listener, calls)
    }

    constructor ()
      ensures Snapshot() == State([], None, [])
    {
      foundObjects, listener, calls := [], None, [];
    }

    method Tell(obj: UpnpObject, alive: bool)
      requires listener.Some?
      modifies this`calls
      ensures calls == old(calls) + [Call(listener.value, obj.usn, alive)]
    {
      calls := calls + [Call(listener.value, obj.usn, alive)];
    }

    // UpnpObjectFactory: no object for a notification type that does not validate. The USN of an
    // object is that of the message as far as its field goes, and has something behind it only if
    // the field is full.
    method Create(usn: string, ntOk: bool, behind: string) returns (obj: Option<UpnpObject>)
      ensures obj.Some? <==> ntOk
      ensures obj.Some? ==> obj.value.usn == StoredUsn(usn, behind)
      ensures obj.Some? && |usn| >= UPNP_USN_LEN ==>
                |obj.value.usn| == UPNP_USN_LEN + |behind| && usn[..UPNP_USN_LEN] <= obj.value.usn
    {
      if !ntOk {
        return None;
      }
      obj := Some(UpnpObject(StoredUsn(usn, behind)));
    }

    method OnAlive(usn: string, usnOk: bool, ntOk: bool, behind: string)
      modifies this
      ensures Snapshot() == Step(old(Snapshot()), Alive(usn, usnOk, ntOk, behind))
    {
      if listener.None? {
        return;
      }
      if !usnOk {
        return;
      }
      if Find(foundObjects, usn).Some? {
        return;
      }
      var obj := Create(usn, ntOk, behind);
      if obj.None? {
        return;
      }
      foundObjects := With(foundObjects, obj.value.usn, obj.value);
      Tell(obj.value, true);
    }

    method OnResponse(usn: string, usnOk: bool, stOk: bool, behind: string)
      modifies this
      ensures Snapshot() == Step(old(Snapshot()), Response(usn, usnOk, stOk, behind))
    {
      if listener.None? {
        return;
      }
      if !usnOk {
        return;
      }
      if Find(foundObjects, usn).Some? {
        return;
      }
      var obj := Create(usn, stOk, behind);
      if obj.None? {
        return;
      }
      foundObjects := With(foundObjects, obj.value.usn, obj.value);
      Tell(obj.value, true);
    }

    method OnByebye(usn: string, usnOk: bool)
      modifies this
      ensures Snapshot() == Step(old(Snapshot()), Byebye(usn, usnOk))
    {
      if listener.None? {
        return;
      }
      if !usnOk {
        return;
      }
      var obj := Find(foundObjects, usn);
      if obj.None? {
        return;
      }
      Tell(obj.value, false);
      foundObjects := Without(foundObjects, usn);
    }

    method Discover(listener: nat)
      modifies this
      ensures Snapshot() == Step(old(Snapshot()), Event.Discover(listener))
    {
      this.listener := Some(listener);
    }

    method StopDiscovery()
      modifies this
      ensures Snapshot() == Step(old(Snapshot()), Event.StopDiscovery)
    {
      listener := None;
    }
  }

  // ---- runs ----

  function Run(events: seq<Event>): State {
    if events == [] then State([], None, [])
    else Step(Run(events[..|events| - 1]), events[|events| - 1])
  }

  predicate AllFit(events: seq<Event>) {
    forall i :: 0 <= i < |events| ==> Fits(events[i])
  }

  predicate InTable(s: State, usn: string) {
    Holds(s.foundObjects, UpnpObject(usn))
  }

  // What the calls about one USN said.
  function About(calls: seq<Call>, usn: string): seq<bool> {
    if calls == [] then []
    else
      About(calls[..|calls| - 1], usn)
      + if calls[|calls| - 1].usn == usn then [calls[|calls| - 1].alive] else []
  }

  lemma AboutNext(calls: seq<Call>, c: Call, usn: string)
    ensures About(calls + [c], usn) == About(calls, usn) + if c.usn == usn then [c.alive] else []
  {
    assert (calls + [c])[..|calls|] == calls;
  }

  // alive, gone, alive, gone, ...
  predicate Alternates(said: seq<bool>) {
    forall i :: 0 <= i < |said| ==> said[i] == (i % 2 == 0)
  }

  lemma AlternatesNext(said: seq<bool>, b: bool)
    requires Alternates(said) && b == (|said| % 2 == 0)
    ensures Alternates(said + [b])
  {
  }

  // The objects are kept under their own USNs, as these came.
  predicate Sound(s: State) {
    && Keyed(s.foundObjects)
    && forall i :: 0 <= i < |s.foundObjects| ==>
         s.foundObjects[i].key == s.foundObjects[i].value.usn && |s.foundObjects[i].key| <= 128
  }

  // The table holds the USN exactly when the calls about it are odd in number.
  predicate Agrees(s: State, usn: string) {
    && Alternates(About(s.calls, usn))
    && (InTable(s, usn) <==> |About(s.calls, usn)| % 2 == 1)
  }

  lemma FindInTable(s: State, usn: string)
    requires Sound(s)
    ensures Find(s.foundObjects, usn).Some? <==> InTable(s, usn)
    ensures Find(s.foundObjects, usn).Some? ==> Find(s.foundObjects, usn).value.usn == usn
  {
    IndexOfMeans(s.foundObjects, usn);
    hide IndexOf, Keyed;
  }

  lemma FoundSound(s: State, usn: string)
    requires Sound(s) && |usn| <= 128
    ensures Sound(s.(foundObjects := With(s.foundObjects, usn, UpnpObject(usn))))
  {
    InsertKeeps(s.foundObjects, usn, UpnpObject(usn));
    hide IndexOf, Keyed;
  }

  lemma FoundStep(s: State, usn: string, usnOk: bool, ntOk: bool, behind: string, u: string)
    requires Sound(s) && |usn| <= 128 && StoredUsn(usn, behind) == usn && Agrees(s, u)
    ensures var t := Found(s, usn, usnOk, ntOk, behind);
            && Sound(t) && Agrees(t, u)
            && (InTable(t, u) <==> InTable(s, u) || (u == usn && s.listener.Some? && usnOk && ntOk))
  {
    FindInTable(s, usn);
    FoundSound(s, usn);
    hide Find, With, Alternates, Holds, About, Keyed;
    var t := Found(s, usn, usnOk, ntOk, behind);
    if t != s {
      HoldsWith(s.foundObjects, usn, UpnpObject(usn), UpnpObject(u));
      AboutNext(s.calls, Call(s.listener.value, usn, true), u);
      if u == usn {
        AlternatesNext(About(s.calls, u), true);
      }
    }
  }

  lemma GoneTable(s: State, t: State, usn: string, u: string)
    requires Sound(s) && InTable(s, usn)
    requires t.foundObjects == Without(s.foundObjects, usn)
    ensures Sound(t)
    ensures InTable(t, u) <==> InTable(s, u) && u != usn
  {
    EraseKeeps(s.foundObjects, usn);
    FindInTable(s, usn);
    SoundApart(s);
    HoldsWithout(s.foundObjects, usn, UpnpObject(u));
    hide IndexOf, Keyed;
  }

  lemma SoundApart(s: State)
    requires Sound(s)
    ensures Apart(s.foundObjects)
  {
  }

  lemma GoneStep(s: State, usn: string, usnOk: bool, u: string)
    requires Sound(s) && Agrees(s, u)
    ensures var t := Step(s, Byebye(usn, usnOk));
            && Sound(t) && Agrees(t, u)
            && (InTable(t, u) <==> InTable(s, u) && !(u == usn && s.listener.Some? && usnOk))
  {
    FindInTable(s, usn);
    hide Find, Without, Keyed, Alternates, Sound, InTable;
    var t := Step(s, Byebye(usn, usnOk));
    if s.listener.Some? && usnOk && Find(s.foundObjects, usn).Some? {
      GoneTable(s, t, usn, u);
      AboutNext(s.calls, Call(s.listener.value, usn, false), u);
      if u == usn {
        AlternatesNext(About(s.calls, u), false);
      }
    }
  }

  // What the accepted messages said last about a USN: a listener must be set, and the
  // message must validate.
  function Listening(events: seq<Event>): bool {
    if events == [] then false
    else
      var e := events[|events| - 1];
      if e.Discover? then true else if e.StopDiscovery? then false else Listening(events[..|events| - 1])
  }

  function LastWord(events: seq<Event>, usn: string): bool {
    if events == [] then false
    else
      var was, e := events[..|events| - 1], events[|events| - 1];
      if e.Alive? && e.usn == usn && Listening(was) && e.usnOk && e.ntOk then true
      else if e.Response? && e.usn == usn && Listening(was) && e.usnOk && e.stOk then true
      else if e.Byebye? && e.usn == usn && Listening(was) && e.usnOk then false
      else LastWord(was, usn)
  }

  /**
   In every run the calls about a USN alternate, beginning with alive, and the table holds
   exactly the USNs whose last call was alive: those whose last accepted message was no byebye.
   */
  lemma {:induction false} CallsAlternate(events: seq<Event>, usn: string)
    requires AllFit(events)
    ensures Sound(Run(events)) && (Run(events).listener.Some? <==> Listening(events))
    ensures var said := About(Run(events).calls, usn);
            && Alternates(said)
            && (InTable(Run(events), usn) <==> said != [] && said[|said| - 1])
            && (InTable(Run(events), usn) <==> LastWord(events, usn))
  {
    CallsAgree(events, usn);
    hide Run, InTable, LastWord, Listening, Sound;
    var said := About(Run(events).calls, usn);
    if said != [] {
      assert said[|said| - 1] == ((|said| - 1) % 2 == 0);
    }
  }

  lemma BeginsEmpty(usn: string)
    ensures Sound(Run([])) && Agrees(Run([]), usn) && !InTable(Run([]), usn)
  {
  }

  lemma {:induction false} CallsAgree(events: seq<Event>, usn: string)
    requires AllFit(events)
    ensures Sound(Run(events)) && Agrees(Run(events), usn)
    ensures Run(events).listener.Some? <==> Listening(events)
    ensures InTable(Run(events), usn) <==> LastWord(events, usn)
  {
    hide Sound, Agrees, InTable, Found;
    if events == [] {
      BeginsEmpty(usn);
    } else {
      var was, e := events[..|events| - 1], events[|events| - 1];
      CallsAgree(was, usn);
      var s := Run(was);
      if e.Alive? {
        FoundStep(s, e.usn, e.usnOk, e.ntOk, e.behind, usn);
      } else if e.Response? {
        FoundStep(s, e.usn, e.usnOk, e.stOk, e.behind, usn);
      } else if e.Byebye? {
        GoneStep(s, e.usn, e.usnOk, usn);
      } else {
        SameTable(s, Step(s, e), usn);
      }
    }
  }

  lemma SameTable(s: State, t: State, usn: string)
    requires Sound(s) && Agrees(s, usn) && t.foundObjects == s.foundObjects && t.calls == s.calls
    ensures Sound(t) && Agrees(t, usn) && (InTable(t, usn) <==> InTable(s, usn))
  {
    assert t == s.(listener := t.listener);
  }

  // ---- a USN that fills its field ----

  /** An object made for a USN of at most 128 characters is found again under it exactly if its field
      has room for the terminator or a zero stands behind it. */
  lemma FoundAgainExactly(s: State, usn: string, behind: string)
    requires Keyed(s.foundObjects) && |usn| <= 128
    requires s.listener.Some? && Find(s.foundObjects, usn).None?
    ensures var t := Found(s, usn, true, true, behind);
            && Keyed(t.foundObjects) && t.listener == s.listener
            && t.calls == s.calls + [Call(s.listener.value, StoredUsn(usn, behind), true)]
            && (Find(t.foundObjects, usn).Some? <==> |usn| < 128 || behind == "")
  {
    var stored := StoredUsn(usn, behind);
    var t := Found(s, usn, true, true, behind);
    assert t.foundObjects == With(s.foundObjects, stored, UpnpObject(stored));
    InsertKeeps(s.foundObjects, stored, UpnpObject(stored));
    FindIsLookup(s.foundObjects, usn);
    FindIsLookup(t.foundObjects, usn);
    ClipApart(usn, behind);
    hide Keyed, With, Find, MapOf, StoredUsn, Clip;
  }

  lemma ClipApart(usn: string, behind: string)
    requires |usn| <= 128
    ensures Clip(StoredUsn(usn, behind)) == Clip(usn) <==> |usn| < 128 || behind == ""
  {
    if |usn| == 128 {
      assert usn[..128] == usn;
      assert behind != "" ==> |Clip(usn + behind)| > |usn|;
    }
  }

  // n alive messages of the same device.
  function Alives(usn: string, behind: string, n: nat): seq<Event> {
    if n == 0 then [Event.Discover(0)] else Alives(usn, behind, n - 1) + [Alive(usn, true, true, behind)]
  }

  /** So each of its alive messages is announced, where one alone should be. */
  lemma {:induction false} AnnouncedAgain(usn: string, behind: string, n: nat)
    requires |usn| == 128 && behind != ""
    ensures var s := Run(Alives(usn, behind, n));
            && Keyed(s.foundObjects) && s.listener == Some(0) && Find(s.foundObjects, usn).None?
            && |s.calls| == n && forall i :: 0 <= i < n ==> s.calls[i] == Call(0, StoredUsn(usn, behind), true)
  {
    hide Found, Find, Keyed, StoredUsn, Run;
    if n == 0 {
      OnlyListening();
    } else {
      AnnouncedAgain(usn, behind, n - 1);
      RunNext(Alives(usn, behind, n - 1), Alive(usn, true, true, behind));
      FoundAgainExactly(Run(Alives(usn, behind, n - 1)), usn, behind);
    }
  }

  lemma RunNext(events: seq<Event>, e: Event)
    ensures Run(events + [e]) == Step(Run(events), e)
  {
    assert (events + [e])[..|events|] == events;
  }

  lemma OnlyListening()
    ensures Run([Event.Discover(0)]) == State([], Some(0), [])
    ensures Keyed<UpnpObject>([]) && forall usn :: Find<UpnpObject>([], usn).None?
  {
    assert [Event.Discover(0)][..0] == [];
    assert Run([]) == State([], None, []);
  }

  method Handle(r: UpnpRegistry, e: Event)
    modifies r
    ensures r.Snapshot() == Step(old(r.Snapshot()), e)
  {
    hide Step;
    match e
    case Alive(usn, usnOk, ntOk, behind) => r.OnAlive(usn, usnOk, ntOk, behind);
    case Response(usn, usnOk, stOk, behind) => r.OnResponse(usn, usnOk, stOk, behind);
    case Byebye(usn, usnOk) => r.OnByebye(usn, usnOk);
    case Discover(listener) => r.Discover(listener);
    case StopDiscovery => r.StopDiscovery();
  }

  /** The events one by one on a new registry: with USNs that fit, the calls about each of them alternate,
      and the table holds it exactly when its last accepted message was no byebye. */
  method Serve(events: seq<Event>) returns (r: UpnpRegistry)
    ensures fresh(r) && r.Snapshot() == Run(events)
    ensures AllFit(events) ==>
              && (r.listener.Some? <==> Listening(events))
              && forall usn :: Alternates(About(r.calls, usn)) && (InTable(r.Snapshot(), usn) <==> LastWord(events, usn))
  {
    hide Step, About, InTable, Alternates, LastWord, Listening, Sound;
    r := new UpnpRegistry();
    var i := 0;
    while i < |events|
      invariant i <= |events| && fresh(r) && r.Snapshot() == Run(events[..i])
    {
      assert events[..i + 1][..i] == events[..i];
      Handle(r, events[i]);
      i := i + 1;
    }
    assert events[..i] == events;
    if AllFit(events) {
      forall usn
        ensures Alternates(About(r.calls, usn)) && (InTable(r.Snapshot(), usn) <==> LastWord(events, usn))
      {
        CallsAlternate(events, usn);
      }
      CallsAlternate(events, "");
    }
  }
}
