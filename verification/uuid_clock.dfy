/**
 The clock of time-based UUIDs (linux_get_clock, Tiny/Uuid/TinyUuid.c) without a state
 file and with `num` null: a clock sequence, the last reading and an adjustment that
 tells apart the timestamps taken within one microsecond.

 The readings of gettimeofday and the random bytes are inputs.
 */
module UuidClock {
  import opened Words
  import opened Wrappers

  const MAX_ADJUSTMENT: nat := 10
  const SEQUENCES: nat := 0x4000
  // From 15 October 1582 to 1 January 1970 in units of 100 nanoseconds.
  const OFFSET: nat := 0x01B21DD2 * 0x1_0000_0000 + 0x13814000

  // ----- the days from 15 October 1582 to 1 January 1970

  predicate IsLeap(year: nat) {
    year % 4 == 0 && (year % 100 != 0 || year % 400 == 0)
  }

  // Days from the beginning of one year to that of another.
  function DaysOfYears(first: nat, year: nat): nat
    requires first <= year
    decreases year
  {
    if first == year then 0 else DaysOfYears(first, year - 1) + if IsLeap(year - 1) then 366 else 365
  }

  // Leap years before a year.
  function LeapsBefore(year: nat): int
    requires year > 0
  {
    (year - 1) / 4 - (year - 1) / 100 + (year - 1) / 400
  }

  lemma Fourth(y: nat)
    requires y > 0
    ensures y / 4 - (y - 1) / 4 == if y % 4 == 0 then 1 else 0
  {
  }

  lemma Hundredth(y: nat)
    requires y > 0
    ensures y / 100 - (y - 1) / 100 == if y % 100 == 0 then 1 else 0
  {
  }

  lemma FourHundredth(y: nat)
    requires y > 0
    ensures y / 400 - (y - 1) / 400 == if y % 400 == 0 then 1 else 0
  {
  }

  lemma FourHundreds(q: nat)
    ensures (400 * q) % 100 == 0
  {
  }

  lemma Hundreds(q: nat)
    ensures (100 * q) % 4 == 0
  {
  }

  lemma Multiples(y: nat)
    ensures y % 400 == 0 ==> y % 100 == 0
    ensures y % 100 == 0 ==> y % 4 == 0
  {
    FourHundreds(y / 400);
    Hundreds(y / 100);
  }

  lemma OneMoreLeap(y: nat)
    requires y > 0
    ensures LeapsBefore(y + 1) - LeapsBefore(y) == if IsLeap(y) then 1 else 0
  {
    Fourth(y);
    Hundredth(y);
    FourHundredth(y);
    Multiples(y);
  }

  lemma {:induction false} DaysAre(first: nat, year: nat)
    requires 0 < first <= year
    ensures DaysOfYears(first, year) == 365 * (year - first) + LeapsBefore(year) - LeapsBefore(first)
    decreases year
  {
    if first != year {
      OneMoreLeap(year - 1);
      hide IsLeap, LeapsBefore;
      DaysAre(first, year - 1);
    }
  }

  /** The offset is what the Gregorian calendar has between the two dates: 17 days of October 1582, 30 of
      November, 31 of December, and the years 1583 to 1969. */
  lemma OffsetIs()
    ensures OFFSET == (17 + 30 + 31 + DaysOfYears(1583, 1970)) * 24 * 60 * 60 * 10_000_000
  {
    DaysAre(1583, 1970);
    assert LeapsBefore(1970) == 477 && LeapsBefore(1583) == 383;
    hide DaysOfYears, LeapsBefore;
  }

  datatype Time = Time(sec: int, usec: int)

  // The clock sequence has 14 bits.
  function Wrap14(n: nat): (r: nat)
    ensures r < 0x4000
  {
    n % SEQUENCES
  }

  function Micros(t: Time): int {
    t.sec * 1000000 + t.usec
  }

  function Register(t: Time, adjustment: nat): int {
    Micros(t) * 10 + adjustment + OFFSET
  }

  const EPOCH: Time := Time(0, 0)

  // A reading of the clock whose timestamps fit into 64 bits: from 15 October 1582 on.
  predicate Reading(t: Time) {
    0 <= Register(t, 0) && 0 <= t.usec < 1000000 && Register(t, MAX_ADJUSTMENT) < U64
  }

  datatype State = State(adjustment: nat, last: Time, clockSeq: nat)

  // What one call emits; `back` says that the clock was found to have gone back.
  datatype Stamp = Stamp(high: nat, low: nat, clockSeq: nat, time: Time, adjustment: nat, back: bool)

  function Value(s: Stamp): nat {
    s.high * 0x1_0000_0000 + s.low
  }

  function Emit(s: State, tv: Time, back: bool): (State, Stamp) {
    var register := (tv.usec * 10 + s.adjustment + tv.sec * 10000000 + OFFSET) % U64;
    (s, Stamp(register / 0x1_0000_0000, register % 0x1_0000_0000, s.clockSeq, tv, s.adjustment, back))
  }

  predicate Earlier(a: Time, b: Time) {
    a.sec < b.sec || (a.sec == b.sec && a.usec < b.usec)
  }

  // From label try_again on: what comes of one reading. None: try again.
  function Take(s: State, tv: Time): Option<(State, Stamp)> {
    if Earlier(tv, s.last) then Some(Emit(State(0, tv, Wrap14(s.clockSeq + 1)), tv, true))
    else if tv == s.last then
      if s.adjustment >= MAX_ADJUSTMENT then None else Some(Emit(s.(adjustment := s.adjustment + 1), tv, false))
    else Some(Emit(State(0, tv, s.clockSeq), tv, false))
  }

  // The first reading that is not refused. None: still trying.
  function Try(s: State, readings: seq<Time>): Option<(State, Stamp)> {
    if readings == [] then None
    else
      var taken := Take(s, readings[0]);
      if taken.Some? then taken else Try(s, readings[1..])
  }

  // What the first call does before, with random bytes and a reading of its own.
  function Prepared(s: State, random: nat, now: Time): State {
    if s.last == EPOCH then State(s.adjustment, Time(now.sec - 1, now.usec), Wrap14(random)) else s
  }

  datatype Call = Call(random: nat, now: Time, readings: seq<Time>)

  class Clock {
    var adjustment: nat
    var last: Time
    var clockSeq: nat

    ghost function Snapshot(): State
      reads this
    {
      State(adjustment, last, clockSeq)
    }

    // The static variables before the first call.
    constructor ()
      ensures Snapshot() == State(0, EPOCH, 0)
    {
      adjustment, last, clockSeq := 0, EPOCH, 0;
    }

    method GetClock(call: Call) returns (stamp: Option<Stamp>)
      modifies this
      ensures var prepared := Prepared(old(Snapshot()), call.random, call.now);
              match Try(prepared, call.readings)
              case None => stamp == None && Snapshot() == prepared
              case Some((s, emitted)) => stamp == Some(emitted) && Snapshot() == s
    {
      if last.sec == 0 && last.usec == 0 {
        clockSeq := Wrap14(call.random);
        last := call.now;
        last := last.(sec := last.sec - 1);
      }
      stamp := TryAgain(call.readings);
    }

    method TryAgain(readings: seq<Time>) returns (stamp: Option<Stamp>)
      modifies this
      ensures match Try(old(Snapshot()), readings)
              case None => stamp == None && Snapshot() == old(Snapshot())
              case Some((s, emitted)) => stamp == Some(emitted) && Snapshot() == s
    {
      var i := 0;
      assert readings[0..] == readings;
      while i < |readings|
        invariant i <= |readings| && Snapshot() == old(Snapshot())
        invariant Try(old(Snapshot()), readings[i..]) == Try(old(Snapshot()), readings)
      {
        var tv := readings[i];
        assert readings[i..][1..] == readings[i + 1..];
        var back := false;
        if Earlier(tv, last) {
          clockSeq := Wrap14(clockSeq + 1);
          adjustment := 0;
          last := tv;
          back := true;
        } else if tv.sec == last.sec && tv.usec == last.usec {
          if adjustment >= MAX_ADJUSTMENT {
            i := i + 1;
            continue;
          }
          adjustment := adjustment + 1;
        } else {
          adjustment := 0;
          last := tv;
        }
        var register := (tv.usec * 10 + adjustment + tv.sec * 10000000 + OFFSET) % U64;
        return Some(Stamp(register / 0x1_0000_0000, register % 0x1_0000_0000, clockSeq, tv, adjustment, back));
      }
      stamp := None;
    }
  }

  // ---- runs ----

  // The state and the stamps after some calls; a call that still tries is the last one.
  function Run(calls: seq<Call>): (State, seq<Stamp>) {
    if calls == [] then (State(0, EPOCH, 0), [])
    else
      var (s, stamps) := Run(calls[..|calls| - 1]);
      var call := calls[|calls| - 1];
      var prepared := Prepared(s, call.random, call.now);
      match Try(prepared, call.readings)
      case None => (prepared, stamps)
      case Some((t, stamp)) => (t, stamps + [stamp])
  }

  predicate AllReadings(calls: seq<Call>) {
    forall i :: 0 <= i < |calls| ==>
      Reading(calls[i].now) && forall j :: 0 <= j < |calls[i].readings| ==> Reading(calls[i].readings[j])
  }

  // Every call but the last gets a reading that it takes.
  ghost predicate Served(calls: seq<Call>) {
    forall n :: 1 <= n < |calls| ==> |Run(calls[..n]).1| == n
  }

  // How one stamp follows another that was not taken at the epoch.
  predicate Follows(a: Stamp, b: Stamp) {
    && (b.back <==> Micros(b.time) < Micros(a.time))
    && (if b.back then b.adjustment == 0 && b.clockSeq == Wrap14(a.clockSeq + 1)
        else b.clockSeq == a.clockSeq &&
             if b.time == a.time then b.adjustment == a.adjustment + 1
             else Micros(a.time) < Micros(b.time) && b.adjustment == 0)
  }

  predicate Sane(s: Stamp) {
    Reading(s.time) && s.adjustment <= MAX_ADJUSTMENT && Value(s) == Register(s.time, s.adjustment)
    && s.clockSeq < SEQUENCES && s.low < 0x1_0000_0000
  }

  predicate Chain(stamps: seq<Stamp>) {
    && (forall i :: 0 <= i < |stamps| ==> Sane(stamps[i]))
    && (forall i {:trigger stamps[i]} :: 1 <= i < |stamps| ==>
          stamps[i - 1].time == EPOCH || Follows(stamps[i - 1], stamps[i]))
  }

  // The state remembers the last stamp.
  predicate Remembers(s: State, stamps: seq<Stamp>) {
    if stamps == [] then s.adjustment == 0
    else
      var l := stamps[|stamps| - 1];
      s.last == l.time && s.adjustment == l.adjustment && s.clockSeq == l.clockSeq
  }

  lemma EmitIsSane(s: State, tv: Time, back: bool)
    requires Reading(tv) && s.adjustment <= MAX_ADJUSTMENT && s.clockSeq < SEQUENCES
    ensures var (t, stamp) := Emit(s, tv, back);
            && t == s && Sane(stamp) && stamp.time == tv && stamp.back == back
            && stamp.adjustment == s.adjustment && stamp.clockSeq == s.clockSeq
  {
    assert tv.usec * 10 + s.adjustment + tv.sec * 10000000 + OFFSET == Register(tv, s.adjustment);
  }

  lemma EarlierIs(a: Time, b: Time)
    requires 0 <= a.usec < 1000000 && 0 <= b.usec < 1000000
    ensures Earlier(a, b) <==> Micros(a) < Micros(b)
    ensures a != b && !Earlier(a, b) ==> Micros(b) < Micros(a)
  {
  }

  // What is emitted in state s, and the state after it.
  predicate Emitted(s: State, t: State, stamp: Stamp) {
    && Sane(stamp) && t == State(stamp.adjustment, stamp.time, stamp.clockSeq)
    && (stamp.back <==> Micros(stamp.time) < Micros(s.last))
    && (if stamp.back then stamp.adjustment == 0 && stamp.clockSeq == Wrap14(s.clockSeq + 1)
        else stamp.clockSeq == s.clockSeq &&
             if stamp.time == s.last then stamp.adjustment == s.adjustment + 1
             else Micros(s.last) < Micros(stamp.time) && stamp.adjustment == 0)
  }

  lemma TakeIs(s: State, tv: Time)
    ensures Take(s, tv) ==
            if Earlier(tv, s.last) then Some(Emit(State(0, tv, Wrap14(s.clockSeq + 1)), tv, true))
            else if tv != s.last then Some(Emit(State(0, tv, s.clockSeq), tv, false))
            else if s.adjustment < MAX_ADJUSTMENT then Some(Emit(s.(adjustment := s.adjustment + 1), tv, false))
            else None
  {
  }

  lemma TakeFollows(s: State, tv: Time)
    requires Reading(tv) && s.adjustment <= MAX_ADJUSTMENT && s.clockSeq < SEQUENCES && 0 <= s.last.usec < 1000000
    ensures Take(s, tv).Some? ==> Emitted(s, Take(s, tv).value.0, Take(s, tv).value.1)
  {
    EarlierIs(tv, s.last);
    hide Take, Micros, Sane, Emit, Earlier, Reading, Wrap14;
    TakeIs(s, tv);
    if Earlier(tv, s.last) {
      EmitIsSane(State(0, tv, Wrap14(s.clockSeq + 1)), tv, true);
    } else if tv != s.last {
      EmitIsSane(State(0, tv, s.clockSeq), tv, false);
    } else if s.adjustment < MAX_ADJUSTMENT {
      EmitIsSane(s.(adjustment := s.adjustment + 1), tv, false);
    }
  }

  lemma {:induction false} TryFollows(s: State, readings: seq<Time>)
    requires forall j :: 0 <= j < |readings| ==> Reading(readings[j])
    requires s.adjustment <= MAX_ADJUSTMENT && s.clockSeq < SEQUENCES && 0 <= s.last.usec < 1000000
    ensures Try(s, readings).Some? ==> Emitted(s, Try(s, readings).value.0, Try(s, readings).value.1)
  {
    hide Take, Emitted, Reading;
    if readings != [] {
      TakeFollows(s, readings[0]);
      if Take(s, readings[0]).None? {
        TryFollows(s, readings[1..]);
      }
    }
  }

  lemma {:induction false} RunIsChain(calls: seq<Call>)
    requires AllReadings(calls) && Served(calls)
    ensures Chain(Run(calls).1)
    ensures calls == [] || |Run(calls).1| == |calls| ==> Remembers(Run(calls).0, Run(calls).1)
  {
    assert Chain([]) && Remembers(State(0, EPOCH, 0), []);
    hide Chain, Remembers, Prepared, Try;
    if calls == [] {
    } else {
      var was, call := calls[..|calls| - 1], calls[|calls| - 1];
      ServedBefore(calls);
      RunIsChain(was);
      assert was != [] ==> calls[..|was|] == was;
      OneMoreCall(Run(was).0, Run(was).1, call);
    }
  }

  lemma OneMoreCall(s: State, stamps: seq<Stamp>, call: Call)
    requires Chain(stamps) && Remembers(s, stamps) && (stamps == [] ==> s == State(0, EPOCH, 0))
    requires Reading(call.now) && forall j :: 0 <= j < |call.readings| ==> Reading(call.readings[j])
    ensures match Try(Prepared(s, call.random, call.now), call.readings)
            case None => true
            case Some((t, stamp)) => Chain(stamps + [stamp]) && Remembers(t, stamps + [stamp])
  {
    hide Micros, Sane, Try;
    if stamps != [] {
      SaneLast(stamps[|stamps| - 1]);
    }
    TryFollows(Prepared(s, call.random, call.now), call.readings);
    match Try(Prepared(s, call.random, call.now), call.readings)
    case None =>
    case Some((t, stamp)) =>
      Extended(stamps, stamp);
  }

  lemma Extended(stamps: seq<Stamp>, stamp: Stamp)
    requires Chain(stamps) && Sane(stamp)
    requires stamps != [] ==> stamps[|stamps| - 1].time == EPOCH || Follows(stamps[|stamps| - 1], stamp)
    ensures Chain(stamps + [stamp])
  {
    hide Sane, Follows;
  }

  lemma SaneLast(s: Stamp)
    requires Sane(s)
    ensures 0 <= s.time.usec < 1000000 && s.adjustment <= MAX_ADJUSTMENT
    ensures s.clockSeq < SEQUENCES && s.clockSeq == Wrap14(s.clockSeq)
  {
    hide Value;
  }

  lemma ServedBefore(calls: seq<Call>)
    requires calls != [] && AllReadings(calls) && Served(calls)
    ensures AllReadings(calls[..|calls| - 1]) && Served(calls[..|calls| - 1])
  {
    var was := calls[..|calls| - 1];
    forall n | 1 <= n < |was|
      ensures |Run(was[..n]).1| == n
    {
      assert was[..n] == calls[..n];
    }
  }

  // The number of stamps from i on, up to and with j, that found the clock gone back.
  function Backs(stamps: seq<Stamp>, i: nat, j: nat): nat
    requires i <= j < |stamps|
  {
    if i == j then 0 else Backs(stamps, i, j - 1) + if stamps[j].back then 1 else 0
  }

  // None of the stamps from i to before j was taken at the epoch.
  predicate AfterEpoch(stamps: seq<Stamp>, i: nat, j: nat)
    requires j <= |stamps|
  {
    forall k :: i <= k < j ==> stamps[k].time != EPOCH
  }

  lemma {:induction false} Ascending(stamps: seq<Stamp>, i: nat, j: nat)
    requires Chain(stamps) && i < j < |stamps| && Backs(stamps, i, j) == 0 && AfterEpoch(stamps, i, j)
    ensures var a, b := stamps[i], stamps[j];
            && (a.time == b.time ==> a.adjustment + (j - i) == b.adjustment)
            && (a.time != b.time ==> Micros(a.time) < Micros(b.time))
            && (a.time != b.time && j > i + 1 && b.adjustment == 0 ==>
                  Micros(stamps[j - 1].time) < Micros(b.time))
  {
    hide Sane, Micros;
    assert Follows(stamps[j - 1], stamps[j]);
    if j > i + 1 {
      Ascending(stamps, i, j - 1);
    }
  }

  lemma {:induction false} Sequence(stamps: seq<Stamp>, i: nat, j: nat)
    requires Chain(stamps) && i <= j < |stamps| && AfterEpoch(stamps, i, j)
    ensures stamps[j].clockSeq == Wrap14(stamps[i].clockSeq + Backs(stamps, i, j))
  {
    hide Sane, Micros, Wrap14;
    if i < j {
      assert Follows(stamps[j - 1], stamps[j]);
      Sequence(stamps, i, j - 1);
      NextSequence(stamps[i].clockSeq + Backs(stamps, i, j - 1));
    } else {
      SaneLast(stamps[i]);
    }
  }

  lemma NextSequence(x: nat)
    ensures Wrap14(Wrap14(x) + 1) == Wrap14(x + 1)
  {
  }

  /**
   While the clock does not go back, the timestamps do not decrease, and two are equal just when
   the first used adjustment 10 and the second is the next one, taken in the next microsecond
   with adjustment 0.
   */
  lemma TimestampsAscend(calls: seq<Call>, i: nat, j: nat)
    requires AllReadings(calls) && Served(calls)
    requires i < j < |Run(calls).1| && Backs(Run(calls).1, i, j) == 0 && AfterEpoch(Run(calls).1, i, j)
    ensures var stamps := Run(calls).1;
            var a, b := stamps[i], stamps[j];
            && Value(a) <= Value(b)
            && (Value(a) == Value(b) <==>
                  a.adjustment == 10 && b.adjustment == 0 && Micros(b.time) == Micros(a.time) + 1)
            && (Value(a) == Value(b) ==> j == i + 1)
  {
    hide Chain, Backs, Micros, AllReadings, Served, AfterEpoch, Value, Run;
    RunIsChain(calls);
    ChainAscends(Run(calls).1, i, j);
  }

  lemma ChainAscends(stamps: seq<Stamp>, i: nat, j: nat)
    requires Chain(stamps) && i < j < |stamps| && Backs(stamps, i, j) == 0 && AfterEpoch(stamps, i, j)
    ensures var a, b := stamps[i], stamps[j];
            && Value(a) <= Value(b)
            && (Value(a) == Value(b) <==>
                  a.adjustment == 10 && b.adjustment == 0 && Micros(b.time) == Micros(a.time) + 1)
            && (Value(a) == Value(b) ==> j == i + 1)
  {
    hide Sane, Micros, Value, Backs, Follows;
    Ascending(stamps, i, j);
    assert Sane(stamps[i]) && Sane(stamps[j]);
    Compare(stamps[i], stamps[j]);
    if j > i + 1 {
      BacksSplit(stamps, i, j);
      Ascending(stamps, i, j - 1);
      assert Sane(stamps[j - 1]);
      BetweenNext(stamps[i], stamps[j - 1], stamps[j]);
    }
  }

  // Timestamps taken one after the other, in the same microsecond or a later one.
  lemma Compare(a: Stamp, b: Stamp)
    requires Sane(a) && Sane(b)
    requires if a.time == b.time then a.adjustment < b.adjustment else Micros(a.time) < Micros(b.time)
    ensures Value(a) <= Value(b)
    ensures Value(a) == Value(b) <==>
            a.adjustment == 10 && b.adjustment == 0 && Micros(b.time) == Micros(a.time) + 1
  {
    hide Value;
  }

  // No stamp fits between one and its equal.
  lemma BetweenNext(a: Stamp, m: Stamp, b: Stamp)
    requires Sane(a) && Sane(m) && Sane(b)
    requires if a.time == m.time then a.adjustment < m.adjustment else Micros(a.time) < Micros(m.time)
    requires a.time != b.time && b.adjustment == 0 ==> Micros(m.time) < Micros(b.time)
    ensures !(a.adjustment == 10 && b.adjustment == 0 && Micros(b.time) == Micros(a.time) + 1)
  {
    hide Value;
  }

  lemma BacksSplit(stamps: seq<Stamp>, i: nat, j: nat)
    requires i < j < |stamps| && Backs(stamps, i, j) == 0
    ensures Backs(stamps, i, j - 1) == 0 && !stamps[j].back
  {
  }

  /** So no three are equal. */
  lemma NoThreeEqual(calls: seq<Call>, i: nat, j: nat, k: nat)
    requires AllReadings(calls) && Served(calls)
    requires i < j < k < |Run(calls).1| && Backs(Run(calls).1, i, k) == 0 && AfterEpoch(Run(calls).1, i, k)
    ensures var stamps := Run(calls).1;
            !(Value(stamps[i]) == Value(stamps[j]) == Value(stamps[k]))
  {
    TimestampsAscend(calls, i, k);
  }

  /** Each step back of the clock, and nothing else, moves the clock sequence by one, modulo 2^14. */
  lemma SequenceCountsSteps(calls: seq<Call>, i: nat, j: nat)
    requires AllReadings(calls) && Served(calls) && i <= j < |Run(calls).1| && AfterEpoch(Run(calls).1, i, j)
    ensures var stamps := Run(calls).1;
            && stamps[j].clockSeq == Wrap14(stamps[i].clockSeq + Backs(stamps, i, j))
            && (j > i ==> (stamps[j].back <==> Micros(stamps[j].time) < Micros(stamps[j - 1].time)))
  {
    hide Chain, Backs, Micros, AllReadings, Served, AfterEpoch, Wrap14, Run;
    RunIsChain(calls);
    ChainCounts(Run(calls).1, i, j);
  }

  lemma ChainCounts(stamps: seq<Stamp>, i: nat, j: nat)
    requires Chain(stamps) && i <= j < |stamps| && AfterEpoch(stamps, i, j)
    ensures stamps[j].clockSeq == Wrap14(stamps[i].clockSeq + Backs(stamps, i, j))
    ensures j > i ==> (stamps[j].back <==> Micros(stamps[j].time) < Micros(stamps[j - 1].time))
  {
    Sequence(stamps, i, j);
    if j > i {
      assert stamps[j - 1].time != EPOCH;
      BackIsEarlier(stamps, j);
    }
    hide Chain, Backs, Micros;
  }

  lemma BackIsEarlier(stamps: seq<Stamp>, j: nat)
    requires Chain(stamps) && 0 < j < |stamps| && stamps[j - 1].time != EPOCH
    ensures stamps[j].back <==> Micros(stamps[j].time) < Micros(stamps[j - 1].time)
  {
    hide Sane, Micros;
  }

  /** After a stamp taken at the epoch the clock is set up anew, and equal timestamps can follow each other. */
  lemma EpochRepeats(random: nat)
    ensures var call := Call(random, EPOCH, [EPOCH]);
            var stamps := Run([call, call, call]).1;
            |stamps| == 3 && Value(stamps[0]) == Value(stamps[1]) == Value(stamps[2]) && Backs(stamps, 0, 2) == 0
  {
    var call := Call(random, EPOCH, [EPOCH]);
    var s, stamp := Emit(State(0, EPOCH, Wrap14(random)), EPOCH, false).0,
                    Emit(State(0, EPOCH, Wrap14(random)), EPOCH, false).1;
    assert [call][..0] == [] && [call, call][..1] == [call] && [call, call, call][..2] == [call, call];
    EpochCall(State(0, EPOCH, 0), random);
    EpochCall(s, random);
    assert !stamp.back;
    hide Try, Prepared, Emit, Value;
    assert [] + [stamp] == [stamp] && [stamp] + [stamp] == [stamp, stamp];
    assert [stamp, stamp] + [stamp] == [stamp, stamp, stamp];
    assert Run([]) == (State(0, EPOCH, 0), []);
    assert Run([call]) == (s, [stamp]);
    assert Run([call, call]) == (s, [stamp, stamp]);
    assert Run([call, call, call]) == (s, [stamp, stamp, stamp]);
    assert Backs([stamp, stamp, stamp], 0, 1) == 0;
  }

  lemma EpochCall(t: State, random: nat)
    requires t.last == EPOCH
    ensures Try(Prepared(t, random, EPOCH), [EPOCH])
            == Some(Emit(State(0, EPOCH, Wrap14(random)), EPOCH, false))
  {
  }

  /** The calls one by one on a new clock. Each stamp is later than the one before, or the next
      adjustment in the same microsecond, or, when the clock went back, has the next sequence
      number; unless the one before was taken at the epoch. */
  method Generate(calls: seq<Call>) returns (c: Clock, stamps: seq<Stamp>)
    requires AllReadings(calls) && Served(calls)
    ensures fresh(c) && Chain(stamps) && |stamps| <= |calls| <= |stamps| + 1
    ensures forall i, j :: 0 <= i < j < |stamps| && Backs(stamps, i, j) == 0 && AfterEpoch(stamps, i, j) ==>
              Value(stamps[i]) <= Value(stamps[j])
    ensures (c.Snapshot(), stamps) == Run(calls)
  {
    hide Try, Prepared, Chain, Value, Backs, AfterEpoch;
    c := new Clock();
    stamps := [];
    var i := 0;
    while i < |calls|
      invariant i <= |calls| && fresh(c) && (c.Snapshot(), stamps) == Run(calls[..i])
    {
      assert calls[..i + 1][..i] == calls[..i];
      var stamp := c.GetClock(calls[i]);
      if stamp.Some? {
        stamps := stamps + [stamp.value];
      }
      i := i + 1;
    }
    assert calls[..i] == calls;
    RunIsChain(calls);
    forall i, j | 0 <= i < j < |stamps| && Backs(stamps, i, j) == 0 && AfterEpoch(stamps, i, j)
      ensures Value(stamps[i]) <= Value(stamps[j])
    {
      TimestampsAscend(calls, i, j);
    }
  }
}
