/**
 The endless loop of TinyTimer (Tiny/Timer/TinyTimer.c): each wait is shortened by what
 the one before overran and by the time the listener took. Clock readings and what
 select and the listener return are inputs; times are 64-bit microseconds.
 */
module Timer {
  import opened Words

  const I63: int := 0x8000_0000_0000_0000

  type Word64 = n: int | 0 <= n < 0x1_0000_0000_0000_0000

  // Arithmetic modulo 2^64, and the cast to int64_t.
  function Wrap(n: int): Word64 {
    n % U64
  }

  function Signed(n: Word64): (d: int)
    ensures -I63 <= d < I63 && Wrap(d) == n
  {
    if n < I63 then n else n - U64
  }

  lemma WrapFits(n: int)
    requires 0 <= n < U64
    ensures Wrap(n) == n
  {
  }

  datatype Outcome = Break | Continue | Timeout

  // One turn of the loop: the readings around select and around the listener.
  datatype Turn = Turn(outcome: Outcome, before: Word64, after: Word64, called: Word64, returned: Word64, goOn: bool)

  datatype State = State(interval: Word64, running: Word64, previous: int)

  function Half(interval: Word64): Word64 {
    interval / 2
  }

  // At every wait.
  predicate Bounded(s: State) {
    s.interval / 2 <= s.running <= s.interval && 0 <= s.previous < I63
  }

  // By how much the wait overran, as the code computes it.
  function Overrun(s: State, t: Turn): (d: int)
    ensures -I63 <= d < I63
  {
    Signed(Wrap(t.after - t.before - s.running))
  }

  // Negating the smallest int64_t has no meaning in C.
  predicate Negatable(s: State, t: Turn) {
    t.outcome.Timeout? ==> Overrun(s, t) != -I63
  }

  // The correction to apply and the one to carry on.
  function Correction(s: State, t: Turn): (int, int) {
    var delta := Overrun(s, t);
    if 0 >= delta then (s.previous, if s.previous > -delta then s.previous + delta else 0)
    else (delta, delta)
  }

  function Step(s: State, t: Turn): State {
    if !t.outcome.Timeout? then s
    else
      var (delta, previous) := Correction(s, t);
      var corrected := Wrap(s.interval - if delta < Half(s.interval) then delta else Half(s.interval));
      if !t.goOn then State(s.interval, corrected, previous)
      else
        var took := Wrap(t.returned - t.called);
        var rest := if took < corrected then corrected - took else 0;
        State(s.interval, if rest < Half(s.interval) then Half(s.interval) else rest, previous)
  }

  predicate Ends(t: Turn) {
    t.outcome.Break? || (t.outcome.Timeout? && !t.goOn)
  }

  // The state at each wait.
  function Waits(s: State, turns: seq<Turn>): (r: seq<State>)
    ensures |r| <= |turns|
    decreases |turns|
  {
    if turns == [] then []
    else if Ends(turns[0]) then [s]
    else [s] + Waits(Step(s, turns[0]), turns[1..])
  }

  predicate AllNegatable(s: State, turns: seq<Turn>)
    decreases |turns|
  {
    turns == [] || (Negatable(s, turns[0]) && (Ends(turns[0]) || AllNegatable(Step(s, turns[0]), turns[1..])))
  }

  class TinyTimer {
    var interval: Word64
    var runningInterval: Word64
    ghost var waits: seq<State>

    constructor (interval: Word64)
      ensures this.interval == runningInterval == interval && waits == []
    {
      this.interval, runningInterval, waits := interval, interval, [];
    }

    method LoopOnce(ghost previous: int)
      modifies this`waits
      ensures waits == old(waits) + [State(interval, runningInterval, previous)]
    {
      waits := waits + [State(interval, runningInterval, previous)];
    }

    method Loop(turns: seq<Turn>)
      requires Bounded(State(interval, runningInterval, 0))
      requires AllNegatable(State(interval, runningInterval, 0), turns)
      modifies this
      ensures interval == old(interval)
      ensures waits == old(waits) + Waits(old(State(interval, runningInterval, 0)), turns)
      ensures Bounded(State(interval, runningInterval, 0))
    {
      hide Wrap, Signed, Step, Waits, AllNegatable, Negatable;
      var previousSelectDelta: int := 0;
      var maxSelectDelta: int := interval / 2;
      var i := 0;
      ghost var s := State(interval, runningInterval, 0);
      assert turns[0..] == turns;
      while i < |turns|
        invariant i <= |turns| && interval == old(interval) && maxSelectDelta == Half(interval)
        invariant Bounded(State(interval, runningInterval, previousSelectDelta))
        invariant AllNegatable(State(interval, runningInterval, previousSelectDelta), turns[i..])
        invariant waits + Waits(State(interval, runningInterval, previousSelectDelta), turns[i..])
                  == old(waits) + Waits(s, turns)
      {
        var turn := turns[i];
        ghost var now := State(interval, runningInterval, previousSelectDelta);
        WaitsNext(now, turns, i);
        LoopOnce(previousSelectDelta);
        if turn.outcome == Break {
          return;
        }
        i := i + 1;
        if turn.outcome != Timeout {
          Interrupted(now, turn);
          continue;
        }
        previousSelectDelta := SelectCorrection(turn, previousSelectDelta, maxSelectDelta);
        if !turn.goOn {
          return;
        }
        Listen(turn, previousSelectDelta);
        StepIs(now, turn);
        StepBounded(now, turn);
      }
    }

    // The call of the listener.
    method Listen(turn: Turn, ghost previous: int)
      modifies this`runningInterval
      ensures var took := Wrap(turn.returned - turn.called);
              var rest := if took < old(runningInterval) then old(runningInterval) - took else 0;
              runningInterval == if rest < Half(interval) then Half(interval) else rest
    {
      var delta := Signed(Wrap(turn.returned - turn.called));
      SubtractSigned(runningInterval, delta);
      runningInterval := if Wrap(delta) < runningInterval then Wrap(runningInterval - delta) else 0;
      if runningInterval < interval / 2 {
        runningInterval := interval / 2;
      }
    }

    // From the end of select to the call of the listener.
    method SelectCorrection(turn: Turn, previous: int, maxSelectDelta: int) returns (carried: int)
      requires Bounded(State(interval, runningInterval, previous)) && maxSelectDelta == Half(interval)
      requires turn.outcome == Timeout && Negatable(State(interval, runningInterval, previous), turn)
      modifies this`runningInterval
      ensures var s := State(interval, old(runningInterval), previous);
              State(interval, runningInterval, carried) == Step(s, turn.(goOn := false))
      ensures Bounded(State(interval, runningInterval, carried))
    {
      hide Wrap, Signed;
      ghost var s := State(interval, runningInterval, previous);
      assert -I63 <= Overrun(s, turn) < I63;
      carried := previous;
      var delta := Signed(Wrap(turn.after - turn.before - runningInterval));
      if 0 >= delta {
        var deltaAdjustment := -delta;
        delta := carried;
        if carried > deltaAdjustment {
          carried := carried - deltaAdjustment;
        } else {
          carried := 0;
        }
      } else {
        carried := delta;
      }
      WrapFits(interval - if delta < maxSelectDelta then delta else maxSelectDelta);
      runningInterval := Wrap(interval - if delta < maxSelectDelta then delta else maxSelectDelta);
    }
  }

  // Subtracting a signed number from a larger unsigned one.
  lemma SubtractSigned(n: Word64, d: int)
    requires -I63 <= d < I63
    ensures Wrap(d) < n ==> Wrap(n - d) == n - Wrap(d)
  {
  }

  lemma WaitsNext(s: State, turns: seq<Turn>, i: nat)
    requires i < |turns|
    ensures Waits(s, turns[i..]) == if Ends(turns[i]) then [s] else [s] + Waits(Step(s, turns[i]), turns[i + 1..])
    ensures AllNegatable(s, turns[i..]) ==>
              Negatable(s, turns[i]) && (Ends(turns[i]) || AllNegatable(Step(s, turns[i]), turns[i + 1..]))
  {
    assert turns[i..][1..] == turns[i + 1..];
  }

  lemma Interrupted(s: State, t: Turn)
    requires !t.outcome.Timeout?
    ensures Step(s, t) == s
  {
  }

  // A turn that goes on, from the state it has when the listener is called.
  lemma StepIs(s: State, t: Turn)
    requires Bounded(s) && t.outcome.Timeout? && t.goOn && Negatable(s, t)
    ensures var called := Step(s, t.(goOn := false));
            var took := Wrap(t.returned - t.called);
            var rest := if took < called.running then called.running - took else 0;
            Step(s, t) == called.(running := if rest < Half(s.interval) then Half(s.interval) else rest)
  {
  }

  lemma StepBounded(s: State, t: Turn)
    requires Bounded(s) && Negatable(s, t)
    ensures Bounded(Step(s, t)) && Step(s, t).interval == s.interval
  {
    hide Wrap, Overrun;
    if t.outcome.Timeout? {
      var delta := Correction(s, t).0;
      WrapFits(s.interval - if delta < Half(s.interval) then delta else Half(s.interval));
    }
  }

  /** Whatever the readings and the listener do, every wait lasts from half the interval to all of it. */
  lemma {:induction false} WaitsBounded(s: State, turns: seq<Turn>)
    requires Bounded(s) && AllNegatable(s, turns)
    ensures forall i :: 0 <= i < |Waits(s, turns)| ==>
              Bounded(Waits(s, turns)[i]) && Waits(s, turns)[i].interval == s.interval
    decreases |turns|
  {
    hide Step, Negatable;
    if turns != [] && !Ends(turns[0]) {
      StepBounded(s, turns[0]);
      WaitsBounded(Step(s, turns[0]), turns[1..]);
    }
  }

  // ---- drift ----

  // A turn on a clock that does not wrap: the wait overran by `over`, the listener took `took`.
  predicate Plain(s: State, t: Turn, over: int, took: int) {
    && took >= 0
    && t.outcome.Timeout? && t.goOn
    && t.after == t.before + s.running + over && t.returned == t.called + took
    && -I63 < over < I63
  }

  // The correction applied after a wait: its own overrun, or the one carried from before.
  function Made(s: State, over: int): int {
    if over > 0 then over else s.previous
  }

  // By how much that correction is too large: a wait that did not overrun is corrected all the same.
  function Early(s: State, over: int): int {
    Made(s, over) - over
  }

  // By how much correction and listener exceed what the next wait can be shortened by. The two bounds
  // differ for an odd interval only.
  function Late(interval: Word64, made: int, took: int): (late: int)
    ensures late >= 0
    ensures late == 0 <==> made <= interval / 2 && made + took <= interval - interval / 2
  {
    Max(0, Max(made - interval / 2, made + took - (interval - interval / 2)))
  }

  function Max(a: int, b: int): int {
    if a < b then b else a
  }

  /** The next wait makes up for the correction and the listener, as far as it can be shortened. */
  lemma NextWait(s: State, t: Turn, over: int, took: nat)
    requires Bounded(s) && Plain(s, t, over, took)
    ensures Step(s, t).running == s.interval - Made(s, over) - took + Late(s.interval, Made(s, over), took)
    ensures Step(s, t).previous == if over > 0 then over else if s.previous + over > 0 then s.previous + over else 0
  {
    assert t.after - t.before - s.running == over && t.returned - t.called == took;
    SignedBack(over);
    WrapFits(took);
    hide Wrap, Signed;
    assert Overrun(s, t) == over;
    var made := Made(s, over);
    WrapFits(s.interval - if made < s.interval / 2 then made else s.interval / 2);
  }

  lemma SignedBack(d: int)
    requires -I63 <= d < I63
    ensures Signed(Wrap(d)) == d
  {
  }

  // The state before turn k.
  function After(s: State, turns: seq<Turn>, k: nat): State
    requires k <= |turns|
  {
    if k == 0 then s else Step(After(s, turns, k - 1), turns[k - 1])
  }

  // The turns whose wait was not interrupted.
  function WakeUpTurns(turns: seq<Turn>): seq<Turn> {
    if turns == [] then []
    else
      var l := |turns| - 1;
      WakeUpTurns(turns[..l]) + if turns[l].outcome.Timeout? then [turns[l]] else []
  }

  lemma {:induction false} AfterPrefix(s: State, turns: seq<Turn>, k: nat, n: nat)
    requires k <= n <= |turns|
    ensures After(s, turns[..n], k) == After(s, turns, k)
  {
    hide Step;
    if k > 0 {
      AfterPrefix(s, turns, k - 1, n);
    }
  }

  /** An interrupted wait changes nothing: its time lies between two wake-ups like any other. */
  lemma {:induction false} InterruptsAreGaps(s: State, turns: seq<Turn>)
    ensures After(s, turns, |turns|) == After(s, WakeUpTurns(turns), |WakeUpTurns(turns)|)
  {
    if turns != [] {
      var l := |turns| - 1;
      var up := WakeUpTurns(turns[..l]);
      InterruptsAreGaps(s, turns[..l]);
      AfterPrefix(s, turns, l, l);
      if turns[l].outcome.Timeout? {
        assert (up + [turns[l]])[..|up|] == up;
        AfterPrefix(s, up + [turns[l]], |up|, |up|);
      } else {
        Interrupted(After(s, turns, l), turns[l]);
        assert up + [] == up;
      }
      hide Step;
    }
  }

  // Turn k goes on, on a clock that does not wrap.
  predicate PlainAt(s: State, turns: seq<Turn>, overs: seq<int>, k: nat)
    requires k < |turns| == |overs|
  {
    Plain(After(s, turns, k), turns[k], overs[k], turns[k].returned - turns[k].called)
  }

  predicate AllPlain(s: State, turns: seq<Turn>, overs: seq<int>)
    requires |turns| == |overs|
  {
    forall j :: 0 <= j < |turns| ==> PlainAt(s, turns, overs, j)
  }

  // The time before turn k that no clock reading covers: from select to the call of the listener,
  // and from its return to the next select.
  function Gaps(turns: seq<Turn>, k: nat): int
    requires k < |turns|
  {
    if k == 0 then 0
    else Gaps(turns, k - 1) + (turns[k - 1].called - turns[k - 1].after) + (turns[k].before - turns[k - 1].returned)
  }

  // k intervals.
  function Intervals(k: int, interval: int): int {
    k * interval
  }

  lemma OneMore(k: int, interval: int)
    ensures Intervals(k, interval) == Intervals(k - 1, interval) + interval
  {
  }

  // How much too early, and how much too late, the turns before k make the later ones.
  function Earlies(s: State, turns: seq<Turn>, overs: seq<int>, k: nat): int
    requires k <= |turns| == |overs|
  {
    if k == 0 then 0
    else Earlies(s, turns, overs, k - 1) + Early(After(s, turns, k - 1), overs[k - 1])
  }

  function LateAt(s: State, turns: seq<Turn>, overs: seq<int>, k: nat): (late: int)
    requires k < |turns| == |overs|
    ensures late >= 0
  {
    Late(s.interval, Made(After(s, turns, k), overs[k]), turns[k].returned - turns[k].called)
  }

  function Lates(s: State, turns: seq<Turn>, overs: seq<int>, k: nat): (late: int)
    requires k <= |turns| == |overs|
    ensures late >= 0
  {
    if k == 0 then 0 else Lates(s, turns, overs, k - 1) + LateAt(s, turns, overs, k - 1)
  }

  /**
   Wake-up k, its own overrun taken off, comes k intervals after the first, and later by the time
   between the clock readings and by what no wait could make up for, and earlier by the corrections
   of waits that did not overrun. All three add up.
   */
  lemma {:induction false} WakeUps(s: State, turns: seq<Turn>, overs: seq<int>, k: nat)
    requires Bounded(s) && k < |turns| == |overs| && AllPlain(s, turns, overs)
    ensures Bounded(After(s, turns, k)) && After(s, turns, k).interval == s.interval
    ensures turns[k].after - overs[k] ==
            turns[0].after - overs[0] + Intervals(k, s.interval)
            + Gaps(turns, k) + Lates(s, turns, overs, k) - Earlies(s, turns, overs, k)
  {
    assert Intervals(0, s.interval) == 0;
    hide Bounded, Intervals, Gaps, Early, Late, Made, PlainAt;
    if k == 0 {
      NoGap(turns);
    } else {
      hide Step;
      WakeUps(s, turns, overs, k - 1);
      assert PlainAt(s, turns, overs, k - 1) && PlainAt(s, turns, overs, k);
      PlainTurn(s, turns, overs, k);
      OneMore(k, s.interval);
      NextGap(turns, k);
    }
  }

  lemma PlainTurn(s: State, turns: seq<Turn>, overs: seq<int>, k: nat)
    requires 0 < k < |turns| == |overs| && PlainAt(s, turns, overs, k - 1) && PlainAt(s, turns, overs, k)
    requires Bounded(After(s, turns, k - 1)) && After(s, turns, k - 1).interval == s.interval
    ensures Bounded(After(s, turns, k)) && After(s, turns, k).interval == s.interval
    ensures turns[k].after - overs[k] ==
            turns[k - 1].after - overs[k - 1] + s.interval
            + (turns[k - 1].called - turns[k - 1].after) + (turns[k].before - turns[k - 1].returned)
            + LateAt(s, turns, overs, k - 1) - Early(After(s, turns, k - 1), overs[k - 1])
  {
    hide Step, Bounded, Early, Late, Made;
    OneTurn(After(s, turns, k - 1), turns[k - 1], turns[k], overs[k - 1], overs[k]);
  }

  lemma NoGap(turns: seq<Turn>)
    requires turns != []
    ensures Gaps(turns, 0) == 0
  {
  }

  lemma NextGap(turns: seq<Turn>, k: nat)
    requires 0 < k < |turns|
    ensures Gaps(turns, k) ==
            Gaps(turns, k - 1) + (turns[k - 1].called - turns[k - 1].after) + (turns[k].before - turns[k - 1].returned)
  {
  }

  lemma OneTurn(s: State, t: Turn, u: Turn, over: int, next: int)
    requires Bounded(s)
    requires Plain(s, t, over, t.returned - t.called) && Plain(Step(s, t), u, next, u.returned - u.called)
    ensures Bounded(Step(s, t)) && Step(s, t).interval == s.interval
    ensures u.after - next ==
            t.after - over + s.interval + (t.called - t.after) + (u.before - t.returned)
            + Late(s.interval, Made(s, over), t.returned - t.called) - Early(s, over)
  {
    NextWait(s, t, over, t.returned - t.called);
    hide Late;
    assert Negatable(s, t) by {
      SignedBack(over);
    }
    StepBounded(s, t);
    hide Step;
  }

  /** Nothing is too early exactly when each wait overran, or ended on time with no correction carried. */
  lemma {:induction false} NeverEarly(s: State, turns: seq<Turn>, overs: seq<int>, k: nat)
    requires Bounded(s) && k < |turns| == |overs| && AllPlain(s, turns, overs)
    ensures Earlies(s, turns, overs, k) >= 0
    ensures Earlies(s, turns, overs, k) == 0 <==>
            forall j :: 0 <= j < k ==> overs[j] > 0 || (overs[j] == 0 && After(s, turns, j).previous == 0)
  {
    hide Step, AllPlain;
    if k > 0 {
      NeverEarly(s, turns, overs, k - 1);
      WakeUps(s, turns, overs, k - 1);
    }
  }

  /** And nothing too late exactly when the next wait can make up for each correction and listener. */
  lemma {:induction false} NeverLate(s: State, turns: seq<Turn>, overs: seq<int>, k: nat)
    requires k <= |turns| == |overs|
    ensures Lates(s, turns, overs, k) == 0 <==>
            forall j :: 0 <= j < k ==>
              var made := Made(After(s, turns, j), overs[j]);
              made <= s.interval / 2 && made + (turns[j].returned - turns[j].called) <= s.interval - s.interval / 2
  {
    hide After, Made;
    if k > 0 {
      NeverLate(s, turns, overs, k - 1);
    }
  }

  // Every wait before wake-up k can be made up for, and so can the listener's time behind it.
  predicate Fits(s: State, turns: seq<Turn>, overs: seq<int>, k: nat)
    requires k <= |turns| == |overs|
  {
    forall j :: 0 <= j < k ==>
      Made(After(s, turns, j), overs[j]) + (turns[j].returned - turns[j].called) <= s.interval / 2
  }

  /**
   As long as the next wait can make up for everything, only the time between the readings adds up if
   and only if no wait ended early, nor on time with a correction carried.
   */
  lemma DriftIsGaps(s: State, turns: seq<Turn>, overs: seq<int>, k: nat)
    requires Bounded(s) && k < |turns| == |overs| && AllPlain(s, turns, overs) && Fits(s, turns, overs, k)
    ensures turns[k].after - overs[k] == turns[0].after - overs[0] + Intervals(k, s.interval) + Gaps(turns, k)
            <==> forall j :: 0 <= j < k ==> overs[j] > 0 || (overs[j] == 0 && After(s, turns, j).previous == 0)
  {
    hide Step, Bounded, Made, Early, Late, Intervals, Gaps, Earlies, Lates, After;
    WakeUps(s, turns, overs, k);
    NeverEarly(s, turns, overs, k);
    NeverLate(s, turns, overs, k);
    forall j | 0 <= j < k
      ensures var made := Made(After(s, turns, j), overs[j]);
              made <= s.interval / 2 && made + (turns[j].returned - turns[j].called) <= s.interval - s.interval / 2
    {
      assert PlainAt(s, turns, overs, j);
      HalfFits(s.interval);
    }
  }

  lemma HalfFits(interval: Word64)
    ensures interval / 2 <= interval - interval / 2
  {
  }

  /** After one late wait, waits that end on time carry the correction on and apply it each time anew. */
  lemma CarriedOn(s: State, t: Turn, took: nat)
    requires Bounded(s) && Plain(s, t, 0, took)
    ensures Step(s, t).previous == s.previous && Early(s, 0) == s.previous
  {
    NextWait(s, t, 0, took);
    hide Step;
  }

  /** So after one overrun, waits that end on time make each later wake-up earlier by as much again. */
  lemma {:induction false} DriftsEarly(s: State, turns: seq<Turn>, overs: seq<int>, k: nat)
    requires Bounded(s) && 0 < k < |turns| == |overs| && AllPlain(s, turns, overs)
    requires overs[0] > 0 && forall j :: 0 < j < |overs| ==> overs[j] == 0
    ensures After(s, turns, k).previous == overs[0]
    ensures Earlies(s, turns, overs, k) == Intervals(k - 1, overs[0])
  {
    hide Step, Intervals;
    assert PlainAt(s, turns, overs, k - 1);
    WakeUps(s, turns, overs, k - 1);
    if k == 1 {
      NextWait(s, turns[0], overs[0], turns[0].returned - turns[0].called);
      NoIntervals(overs[0]);
    } else {
      DriftsEarly(s, turns, overs, k - 1);
      CarriedOn(After(s, turns, k - 1), turns[k - 1], turns[k - 1].returned - turns[k - 1].called);
      OneMore(k - 1, overs[0]);
    }
  }

  lemma NoIntervals(interval: int)
    ensures Intervals(0, interval) == 0
  {
  }

  /** Such a run: the interval is 100, the first wait takes 110, and the others what they should, 90. */
  lemma EarlyRun() returns (s: State, turns: seq<Turn>, overs: seq<int>)
    ensures s == State(100, 100, 0) && overs == [10, 0, 0]
    ensures |turns| == 3 && turns[0] == Turn(Timeout, 0, 110, 110, 110, true)
            && turns[1] == Turn(Timeout, 110, 200, 200, 200, true)
            && turns[2] == Turn(Timeout, 200, 290, 290, 290, true)
    ensures AllPlain(s, turns, overs) && Gaps(turns, 2) == 0 && Earlies(s, turns, overs, 2) == 10
  {
    s, overs := State(100, 100, 0), [10, 0, 0];
    turns := [Turn(Timeout, 0, 110, 110, 110, true), Turn(Timeout, 110, 200, 200, 200, true),
              Turn(Timeout, 200, 290, 290, 290, true)];
    EarlyStates(s, turns, overs);
  }

  lemma EarlyStates(s: State, turns: seq<Turn>, overs: seq<int>)
    requires s == State(100, 100, 0) && |turns| == |overs| == 3 && overs == [10, 0, 0]
    requires Plain(s, turns[0], 10, 0)
    requires Plain(State(100, 90, 10), turns[1], 0, 0) && Plain(State(100, 90, 10), turns[2], 0, 0)
    ensures AllPlain(s, turns, overs) && Earlies(s, turns, overs, 2) == 10
  {
    OverrunStep(turns[0]);
    OnTimeStep(turns[1]);
    assert forall j :: 0 <= j < 3 ==> turns[j].returned - turns[j].called == 0;
    hide Step, Plain;
    assert After(s, turns, 0) == s;
    assert After(s, turns, 1) == State(100, 90, 10);
    assert After(s, turns, 2) == State(100, 90, 10);
    hide After, Earlies, Early, Made;
    assert AllPlain(s, turns, overs);
    hide AllPlain, PlainAt;
    DriftsEarly(s, turns, overs, 2);
    NoIntervals(10);
    OneMore(1, 10);
  }

  lemma OverrunStep(t: Turn)
    requires Plain(State(100, 100, 0), t, 10, 0)
    ensures Step(State(100, 100, 0), t) == State(100, 90, 10)
  {
    NextWait(State(100, 100, 0), t, 10, 0);
    StepKeepsInterval(State(100, 100, 0), t);
    hide Step, Plain;
  }

  lemma OnTimeStep(t: Turn)
    requires Plain(State(100, 90, 10), t, 0, 0)
    ensures Step(State(100, 90, 10), t) == State(100, 90, 10)
  {
    NextWait(State(100, 90, 10), t, 0, 0);
    StepKeepsInterval(State(100, 90, 10), t);
    hide Step, Plain;
  }

  lemma StepKeepsInterval(s: State, t: Turn)
    ensures Step(s, t).interval == s.interval
  {
    hide Wrap, Overrun;
  }
}
