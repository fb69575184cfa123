/**
 The worker (Tiny/Worker/TinyWorker.c) under every interleaving of producers, the
 worker thread, pollers, and one thread that starts, stops and disposes it.

 Each statement that touches shared state is one step; lines 242-248 (the listener
 test and the call) are one step. A delete listener is set. A job is
 known by its number in the order of the puts, so `queue`, `handled` and the other
 lists hold numbers below `puts`.
 */
module Worker {

  // Where worker_loop is: no thread; before the wait; past the wait; holding a job
  // before the is_running test; holding it after that test.
  datatype Loop = NoThread | Waiting | Taking | Holding(job: nat) | Passed(job: nat)

  // Where the controlling thread is in Start, Stop and Dispose.
  datatype Control =
    | Idle
    | StartFlagged | StartListening      // is_running set; listener set
    | StopFlagged | StopCleared | Joining  // is_running cleared; listener cleared; semaphore posted
    | Polling | Drained | Disposed       // the poll loop of Dispose, its end, and everything freed

  datatype State = State(
    queue: seq<nat>, sem: nat, posting: nat,
    running: bool, listening: bool,
    loop: Loop, control: Control, disposing: bool,
    puts: nat, starts: nat,
    handled: seq<nat>, deleted: seq<nat>, polled: seq<nat>, lost: seq<nat>,
    drainedAt: nat)  // the number of puts when Dispose last polled and found nothing

  datatype Step =
    | Push | Post | GetJob
    | Wait | Take | TestRunning | Handle(goOn: bool)
    | Start | SetListener | StartThread
    | StopOrDispose(dispose: bool) | ClearListener | PostStop | Join | PollStep | Free

  function Initial(): State {
    State([], 0, 0, false, false, NoThread, Idle, false, 0, 0, [], [], [], [], 0)
  }

  predicate Enabled(s: State, step: Step) {
    match step
    case Push => s.control != Disposed
    case Post => s.posting > 0
    case GetJob => s.control != Disposed
    case Wait => s.loop == Waiting && s.sem > 0
    case Take => s.loop == Taking
    case TestRunning => s.loop.Holding?
    case Handle(_) => s.loop.Passed?
    case Start => s.control == Idle
    case SetListener => s.control == StartFlagged
    case StartThread => s.control == StartListening
    case StopOrDispose(_) => s.control == Idle
    case ClearListener => s.control == StopFlagged
    case PostStop => s.control == StopCleared
    case Join => s.control == Joining && s.loop == NoThread
    case PollStep => s.control == Polling
    case Free => s.control == Drained
  }

  // worker_loop after the is_running test: lines 225-240.
  function AfterTest(s: State): State
    requires s.loop.Holding?
  {
    if s.running then s.(loop := Passed(s.loop.job))
    else s.(loop := NoThread, deleted := s.deleted + [s.loop.job])
  }

  // Lines 242-251: without a listener the loop ends and the job goes nowhere.
  function AfterHandle(s: State, goOn: bool): State
    requires s.loop.Passed?
  {
    if !s.listening then s.(loop := NoThread, lost := s.lost + [s.loop.job])
    else s.(loop := if goOn then Waiting else NoThread, handled := s.handled + [s.loop.job])
  }

  function Do(s: State, step: Step): State
    requires Enabled(s, step)
  {
    match step
    case Push => s.(queue := s.queue + [s.puts], puts := s.puts + 1, posting := s.posting + 1)
    case Post => s.(posting := s.posting - 1, sem := s.sem + 1)
    case GetJob => if s.queue == [] then s else s.(queue := s.queue[1..], polled := s.polled + [s.queue[0]])
    case Wait => s.(sem := s.sem - 1, loop := Taking)
    case Take => if s.queue == [] then s.(loop := NoThread) else s.(queue := s.queue[1..], loop := Holding(s.queue[0]))
    case TestRunning => AfterTest(s)
    case Handle(goOn) => AfterHandle(s, goOn)
    case Start => if s.running then s else s.(running := true, control := StartFlagged)
    case SetListener => s.(listening := true, control := StartListening)
    case StartThread => s.(loop := Waiting, starts := s.starts + 1, control := Idle)
    case StopOrDispose(dispose) =>
      if s.running then s.(running := false, control := StopFlagged, disposing := dispose)
      else if dispose then s.(control := Polling)
      else s
    case ClearListener => s.(listening := false, control := StopCleared)
    case PostStop => s.(sem := s.sem + 1, control := Joining)
    case Join => s.(control := if s.disposing then Polling else Idle, disposing := false)
    case PollStep =>
      if s.queue == [] then s.(control := Drained, drainedAt := s.puts)
      else s.(queue := s.queue[1..], deleted := s.deleted + [s.queue[0]])
    case Free => s.(control := Disposed)
  }

  predicate IsRun(steps: seq<Step>)
    decreases |steps|, 0
  {
    steps == [] ||
    var before, last := steps[..|steps| - 1], steps[|steps| - 1];
    IsRun(before) && Enabled(After(before), last)
  }

  function After(steps: seq<Step>): State
    requires IsRun(steps)
    decreases |steps|, 1
  {
    if steps == [] then Initial() else Do(After(steps[..|steps| - 1]), steps[|steps| - 1])
  }

  // ----- where every job is

  function InFlight(loop: Loop): seq<nat> {
    if loop.Holding? || loop.Passed? then [loop.job] else []
  }

  function Times(s: seq<nat>, job: nat): nat {
    multiset(s)[job]
  }

  // How often a job is among those handled, deleted, polled or lost.
  function Gone(s: State, job: nat): nat {
    Times(s.handled, job) + Times(s.deleted, job) + Times(s.polled, job) + Times(s.lost, job)
  }

  predicate Increasing(s: seq<nat>) {
    forall i, j :: 0 <= i < j < |s| ==> s[i] < s[j]
  }

  function Places(s: State, job: nat): nat {
    Gone(s, job) + Times(InFlight(s.loop), job) + Times(s.queue, job)
  }

  // Every job put is in exactly one place, once, and there is no other.
  ghost predicate Conserves(s: State) {
    forall job: nat :: Places(s, job) == if job < s.puts then 1 else 0
  }

  // The jobs handled, the one in the worker's hands, and those queued, in this order.
  function Line(s: State): seq<nat> {
    s.handled + InFlight(s.loop) + s.queue
  }

  // Jobs are handled in the order they were put, and those to come are later still.
  predicate InOrder(s: State) {
    Increasing(Line(s)) && forall i :: 0 <= i < |Line(s)| ==> Line(s)[i] < s.puts
  }

  // What the controlling thread knows of the flags and of the worker thread.
  predicate Controls(s: State) {
    && (s.loop != NoThread ==> s.control in {Idle, StopFlagged, StopCleared, Joining})
    && (s.control == Idle && !s.running ==> s.loop == NoThread)
    && (s.control == Idle && s.running ==> s.listening)
    && (s.control in {StartFlagged, StartListening} ==> s.running)
    && (s.control == StartListening ==> s.listening)
    && (s.control in {StopFlagged, StopCleared, Joining, Polling, Drained, Disposed} ==> !s.running)
    && (s.control == StopFlagged ==> s.listening)
    && (s.control in {StopCleared, Joining} ==> !s.listening)
    && (s.control == Joining && s.loop == Waiting ==> s.sem > 0)
  }

  // What is left in the queue of a drained worker was put after the last poll.
  predicate DrainedQueue(s: State) {
    s.control in {Drained, Disposed} ==>
      s.drainedAt <= s.puts && forall i :: 0 <= i < |s.queue| ==> s.drainedAt <= s.queue[i]
  }

  // ----- every step keeps all this

  lemma FirstOut(s: seq<nat>, job: nat)
    requires s != []
    ensures Times(s, job) == (if s[0] == job then 1 else 0) + Times(s[1..], job)
  {
    assert s == [s[0]] + s[1..];
  }

  lemma Append(s: seq<nat>, x: nat, job: nat)
    ensures Times(s + [x], job) == Times(s, job) + if x == job then 1 else 0
  {
  }

  lemma Single(x: nat, job: nat)
    ensures Times([x], job) == if x == job then 1 else 0
    ensures Times([], job) == 0
  {
  }

  // The steps that touch no job.
  predicate Quiet(step: Step) {
    step != Push && step != GetJob && step != PollStep && step != Take && step != TestRunning && !step.Handle?
  }

  lemma QuietStep(s: State, step: Step)
    requires Controls(s) && Enabled(s, step) && Quiet(step)
    ensures var s' := Do(s, step);
            && s'.queue == s.queue && InFlight(s'.loop) == InFlight(s.loop) && s'.puts == s.puts
            && s'.handled == s.handled && s'.deleted == s.deleted && s'.polled == s.polled && s'.lost == s.lost
  {
  }

  lemma QueuePlaces(s: State, step: Step, job: nat)
    requires Enabled(s, step) && (step == GetJob || step == PollStep || step == Take)
    ensures Places(Do(s, step), job) == Places(s, job)
  {
    hide Times;
    if s.queue != [] {
      FirstOut(s.queue, job);
      Append(s.polled, s.queue[0], job);
      Append(s.deleted, s.queue[0], job);
      Single(s.queue[0], job);
    }
    Single(0, job);
  }

  lemma TestPlaces(s: State, job: nat)
    requires Enabled(s, TestRunning)
    ensures Places(Do(s, TestRunning), job) == Places(s, job)
  {
    hide Times;
    Append(s.deleted, s.loop.job, job);
    Single(s.loop.job, job);
  }

  lemma HandlePlaces(s: State, step: Step, job: nat)
    requires Enabled(s, step) && step.Handle?
    ensures Places(Do(s, step), job) == Places(s, job)
  {
    hide Times;
    Append(s.handled, s.loop.job, job);
    Append(s.lost, s.loop.job, job);
    Single(s.loop.job, job);
  }

  lemma StepPlaces(s: State, step: Step, job: nat)
    requires Controls(s) && Enabled(s, step)
    ensures Places(Do(s, step), job) == Places(s, job) + if step == Push && job == s.puts then 1 else 0
  {
    if step == Push {
      Append(s.queue, s.puts, job);
    } else if Quiet(step) {
      QuietStep(s, step);
      hide Do;
    } else if step == TestRunning {
      TestPlaces(s, job);
      hide Do;
    } else if step.Handle? {
      HandlePlaces(s, step, job);
      hide Do;
    } else {
      QueuePlaces(s, step, job);
      hide Do;
    }
  }

  lemma PutsGrow(s: State, step: Step)
    requires Enabled(s, step)
    ensures Do(s, step).puts == s.puts + if step == Push then 1 else 0
  {
  }

  lemma StepConserves(s: State, step: Step)
    requires Controls(s) && Conserves(s) && Enabled(s, step)
    ensures Conserves(Do(s, step))
  {
    hide Do, Places, Controls, Enabled;
    PutsGrow(s, step);
    forall job: nat
      ensures Places(Do(s, step), job) == if job < Do(s, step).puts then 1 else 0
    {
      StepPlaces(s, step, job);
      assert Places(s, job) == if job < s.puts then 1 else 0;
    }
  }

  lemma Without(a: seq<nat>, x: seq<nat>, b: seq<nat>, limit: nat)
    requires Increasing(a + x + b) && forall i :: 0 <= i < |a + x + b| ==> (a + x + b)[i] < limit
    ensures Increasing(a + b) && forall i :: 0 <= i < |a + b| ==> (a + b)[i] < limit
  {
    var l, m := a + x + b, a + b;
    forall i | 0 <= i < |m|
      ensures m[i] == l[if i < |a| then i else i + |x|]
    {
    }
  }

  // A step other than Push takes a segment x, often empty, out of the line.
  lemma StepLine(s: State, step: Step) returns (a: seq<nat>, x: seq<nat>, b: seq<nat>)
    requires Controls(s) && Enabled(s, step) && step != Push
    ensures Line(s) == a + x + b && Line(Do(s, step)) == a + b
  {
    a, x, b := Line(s), [], [];
    if Quiet(step) {
      QuietStep(s, step);
      hide Do;
    } else if step == TestRunning || step.Handle? {
      a, x, b := LoopLine(s, step);
      hide Do;
    } else if s.queue != [] {
      a, x, b := QueueLine(s, step);
      hide Do;
    }
  }

  lemma LoopLine(s: State, step: Step) returns (a: seq<nat>, x: seq<nat>, b: seq<nat>)
    requires Enabled(s, step) && (step == TestRunning || step.Handle?)
    ensures Line(s) == a + x + b && Line(Do(s, step)) == a + b
  {
    if (step == TestRunning && !s.running) || (step.Handle? && !s.listening) {
      a, x, b := s.handled, InFlight(s.loop), s.queue;
    } else {
      a, x, b := Line(s), [], [];
      assert Line(Do(s, step)) == Line(s);
    }
  }

  lemma QueueLine(s: State, step: Step) returns (a: seq<nat>, x: seq<nat>, b: seq<nat>)
    requires Enabled(s, step) && (step == GetJob || step == PollStep || step == Take) && s.queue != []
    ensures Line(s) == a + x + b && Line(Do(s, step)) == a + b
  {
    assert s.queue == [s.queue[0]] + s.queue[1..];
    if step == Take {
      a, x, b := Line(s), [], [];
      assert Line(Do(s, step)) == Line(s);
    } else {
      a, x, b := s.handled + InFlight(s.loop), [s.queue[0]], s.queue[1..];
    }
  }

  lemma StepInOrder(s: State, step: Step)
    requires Controls(s) && InOrder(s) && Enabled(s, step)
    ensures InOrder(Do(s, step))
  {
    PutsGrow(s, step);
    if step == Push {
      assert Line(Do(s, step)) == Line(s) + [s.puts];
    } else {
      hide Do, Line;
      var a, x, b := StepLine(s, step);
      Without(a, x, b, s.puts);
    }
  }

  lemma StepControls(s: State, step: Step)
    requires Controls(s) && Enabled(s, step)
    ensures Controls(Do(s, step))
  {
  }

  lemma StepDrained(s: State, step: Step)
    requires DrainedQueue(s) && Enabled(s, step)
    ensures DrainedQueue(Do(s, step))
  {
  }

  lemma {:induction false} RunKeeps(steps: seq<Step>)
    requires IsRun(steps)
    ensures var s := After(steps); Conserves(s) && InOrder(s) && Controls(s) && DrainedQueue(s)
    decreases |steps|
  {
    if steps != [] {
      var before, last := steps[..|steps| - 1], steps[|steps| - 1];
      RunKeeps(before);
      var s := After(before);
      StepConserves(s, last);
      StepInOrder(s, last);
      StepControls(s, last);
      StepDrained(s, last);
      hide Do, Conserves, InOrder, Controls, DrainedQueue, Enabled;
    }
  }

  /** In every run each job put is, exactly once, among the handled, deleted, polled
      and lost jobs, in the worker's hands, or queued; and jobs are handled in the
      order they were put. */
  lemma NoJobVanishes(steps: seq<Step>)
    requires IsRun(steps)
    ensures Conserves(After(steps)) && Increasing(After(steps).handled)
  {
    RunKeeps(steps);
    var s := After(steps);
    hide *;
    var l := s.handled + InFlight(s.loop) + s.queue;
    assert l[..|s.handled|] == s.handled;
  }

  // The queue is the end of the line, so what is in it was put.
  lemma QueuedWasPut(s: State, i: nat)
    requires InOrder(s) && i < |s.queue|
    ensures s.queue[i] < s.puts
  {
    assert Line(s)[|Line(s)| - |s.queue| + i] == s.queue[i];
  }

  /** From the end of Dispose's polls on, each job put is, exactly once, among the handled,
      deleted, polled and lost ones, or queued; and what is queued was put after the last poll. */
  lemma DisposedAccounts(steps: seq<Step>, job: nat)
    requires IsRun(steps) && After(steps).control in {Drained, Disposed}
    ensures var s := After(steps);
            && Gone(s, job) + Times(s.queue, job) == (if job < s.puts then 1 else 0)
            && s.drainedAt <= s.puts
            && (job < s.drainedAt ==> Gone(s, job) == 1)
            && (s.puts == s.drainedAt ==> s.queue == [])
  {
    RunKeeps(steps);
    var s := After(steps);
    forall i | 0 <= i < |s.queue|
      ensures s.drainedAt <= s.queue[i] < s.puts
    {
      QueuedWasPut(s, i);
    }
    assert InFlight(s.loop) == [];
    assert Places(s, job) == Gone(s, job) + Times([], job) + Times(s.queue, job);
    if job < s.drainedAt {
      assert job !in s.queue;
    }
  }

  // ----- losing a job

  function Alive(s: State): nat {
    if s.loop == NoThread then 0 else 1
  }

  lemma StepLoses(s: State, step: Step)
    requires Controls(s) && Enabled(s, step)
    ensures var s' := Do(s, step); |s'.lost| + Alive(s') - s'.starts <= |s.lost| + Alive(s) - s.starts
  {
  }

  /** Between any two moments of a run, at most one job is lost for the thread alive at
      the first and for each thread started since: at most one per start. */
  lemma {:induction false} OneLossPerStart(steps: seq<Step>, i: nat)
    requires IsRun(steps) && i <= |steps| && IsRun(steps[..i])
    ensures var s, e := After(steps[..i]), After(steps);
            && s.starts <= e.starts
            && |e.lost| + Alive(e) <= |s.lost| + Alive(s) + (e.starts - s.starts)
            && (s.starts == e.starts ==> |e.lost| <= |s.lost| + 1)
    decreases |steps|
  {
    hide Do, Controls, Enabled;
    if i == |steps| {
      assert steps[..i] == steps;
    } else {
      var before, last := steps[..|steps| - 1], steps[|steps| - 1];
      assert before[..i] == steps[..i];
      OneLossPerStart(before, i);
      RunKeeps(before);
      StepLoses(After(before), last);
      StartsGrow(After(before), last);
    }
  }

  lemma StartsGrow(s: State, step: Step)
    requires Enabled(s, step)
    ensures s.starts <= Do(s, step).starts
  {
  }

  // At step i the job passed the is_running test, with the flag and the listener still set.
  predicate PassedAt(steps: seq<Step>, i: nat, job: nat)
    requires IsRun(steps)
  {
    && i < |steps| && steps[i] == TestRunning && IsRun(steps[..i])
    && After(steps[..i]).loop == Holding(job) && After(steps[..i]).running && After(steps[..i]).listening
  }

  // A job that passed the test did so in this run, and if the listener is gone by now it was cleared since.
  lemma {:induction false} PassedTest(steps: seq<Step>) returns (i: nat, m: nat)
    requires IsRun(steps) && After(steps).loop.Passed?
    ensures PassedAt(steps, i, After(steps).loop.job)
    ensures !After(steps).listening ==> i < m < |steps| && steps[m] == ClearListener
    decreases |steps|
  {
    hide Do, Controls, Enabled;
    var before, last := steps[..|steps| - 1], steps[|steps| - 1];
    var s := After(before);
    RunKeeps(before);
    PassStep(s, last);
    if last == TestRunning && s.loop.Holding? {
      i, m := |before|, 0;
    } else {
      i, m := PassedTest(before);
      assert before[..i] == steps[..i];
      if last == ClearListener {
        m := |before|;
      }
    }
  }

  // The ways into Passed, and the way the listener goes.
  lemma PassStep(s: State, step: Step)
    requires Controls(s) && Enabled(s, step) && Do(s, step).loop.Passed?
    ensures if step == TestRunning then s.loop == Holding(Do(s, step).loop.job) && s.running && s.listening
            else s.loop == Do(s, step).loop
    ensures step == TestRunning ==> Do(s, step).listening
    ensures step != ClearListener && !Do(s, step).listening ==> !s.listening
  {
  }

  /** A job is lost only when Stop clears the listener between the is_running test
      that the job passed and the listener test. */
  lemma LostOnlyToStop(steps: seq<Step>, step: Step) returns (i: nat, m: nat)
    requires IsRun(steps) && Enabled(After(steps), step)
    requires |Do(After(steps), step).lost| > |After(steps).lost|
    ensures After(steps).loop.Passed?
    ensures PassedAt(steps, i, After(steps).loop.job)
    ensures i < m < |steps| && steps[m] == ClearListener
  {
    LossStep(After(steps), step);
    i, m := PassedTest(steps);
  }

  lemma LossStep(s: State, step: Step)
    requires Enabled(s, step) && |Do(s, step).lost| > |s.lost|
    ensures s.loop.Passed? && !s.listening
  {
  }

  // Since the last is_running test of the thread, Stop has cleared the listener.
  predicate ClearedSinceTest(steps: seq<Step>) {
    steps != [] &&
    var before, last := steps[..|steps| - 1], steps[|steps| - 1];
    last == ClearListener || (last != TestRunning && ClearedSinceTest(before))
  }

  lemma {:induction false} ClearedIsGone(steps: seq<Step>)
    requires IsRun(steps) && After(steps).loop.Passed?
    ensures ClearedSinceTest(steps) <==> !After(steps).listening
    decreases |steps|
  {
    hide Do, Controls, Enabled;
    var before, last := steps[..|steps| - 1], steps[|steps| - 1];
    var s := After(before);
    RunKeeps(before);
    PassStep(s, last);
    ListenStep(s, last);
    if last != TestRunning {
      ClearedIsGone(before);
    }
  }

  // While the thread lives, the listener only goes, and it goes in ClearListener.
  lemma ListenStep(s: State, step: Step)
    requires Controls(s) && Enabled(s, step) && s.loop != NoThread
    ensures Do(s, step).listening == (s.listening && step != ClearListener)
  {
  }

  /** A step loses a job exactly when it is the listener test of a job that passed the is_running
      test before Stop cleared the listener; Stop is then on its way to the join. */
  lemma LossExactly(steps: seq<Step>, step: Step)
    requires IsRun(steps) && Enabled(After(steps), step)
    ensures var s := After(steps);
            var lost := if step.Handle? && ClearedSinceTest(steps) then [s.loop.job] else [];
            Do(s, step).lost == s.lost + lost
    ensures step.Handle? ==> (ClearedSinceTest(steps) <==> After(steps).control in {StopCleared, Joining})
  {
    var s := After(steps);
    RunKeeps(steps);
    assert s.lost + [] == s.lost;
    if step.Handle? {
      ClearedIsGone(steps);
    }
  }

  // ----- handling and deleting a job

  // The is_running flag by what the controlling thread did last: Start, or Stop or Dispose.
  predicate StartedLast(steps: seq<Step>) {
    steps != [] &&
    var before, last := steps[..|steps| - 1], steps[|steps| - 1];
    last == Start || (!last.StopOrDispose? && StartedLast(before))
  }

  lemma FlagStep(s: State, step: Step)
    requires Enabled(s, step)
    ensures Do(s, step).running == (step == Start || (!step.StopOrDispose? && s.running))
  {
  }

  lemma {:induction false} FlagIs(steps: seq<Step>)
    requires IsRun(steps)
    ensures After(steps).running <==> StartedLast(steps)
    decreases |steps|
  {
    hide Do, Enabled;
    if steps != [] {
      FlagIs(steps[..|steps| - 1]);
      FlagStep(After(steps[..|steps| - 1]), steps[|steps| - 1]);
    }
  }

  lemma JobLists(s: State, step: Step)
    requires Enabled(s, step)
    ensures Do(s, step).handled == s.handled + if step.Handle? && s.listening then [s.loop.job] else []
    ensures Do(s, step).deleted == s.deleted + if step == PollStep && s.queue != [] then [s.queue[0]]
                                               else if step == TestRunning && !s.running then [s.loop.job] else []
    ensures Do(s, step).polled == s.polled + if step == GetJob && s.queue != [] then [s.queue[0]] else []
  {
    assert s.handled + [] == s.handled && s.deleted + [] == s.deleted && s.polled + [] == s.polled;
  }

  /** A step hands a job to the listener exactly when it is the listener test of a job since whose is_running
      test Stop has not cleared the listener. */
  lemma HandledExactly(steps: seq<Step>, step: Step)
    requires IsRun(steps) && Enabled(After(steps), step)
    ensures var s := After(steps);
            var handled := if step.Handle? && !ClearedSinceTest(steps) then [s.loop.job] else [];
            Do(s, step).handled == s.handled + handled
  {
    JobLists(After(steps), step);
    if step.Handle? {
      ClearedIsGone(steps);
    }
    hide Do, ClearedSinceTest;
  }

  /** A step deletes a job exactly when it is a poll of Dispose that finds one, or the is_running test of one
      after Stop or Dispose and no Start since. */
  lemma DeletedExactly(steps: seq<Step>, step: Step)
    requires IsRun(steps) && Enabled(After(steps), step)
    ensures var s := After(steps);
            var deleted := if step == PollStep && s.queue != [] then [s.queue[0]]
                           else if step == TestRunning && !StartedLast(steps) then [s.loop.job]
                           else [];
            Do(s, step).deleted == s.deleted + deleted
  {
    JobLists(After(steps), step);
    FlagIs(steps);
    hide Do, StartedLast;
  }

  lemma RunFurther(steps: seq<Step>, step: Step)
    requires IsRun(steps) && Enabled(After(steps), step)
    ensures IsRun(steps + [step]) && After(steps + [step]) == Do(After(steps), step)
  {
    assert (steps + [step])[..|steps|] == steps;
  }

  // A run in which the thread passes the test, and then Stop clears the listener.
  function LossAt(n: nat): Step {
    match n
    case 1 => Start
    case 2 => SetListener
    case 3 => StartThread
    case 4 => Push
    case 5 => Post
    case 6 => Wait
    case 7 => Take
    case 8 => TestRunning
    case 9 => StopOrDispose(false)
    case 10 => ClearListener
    case _ => Handle(true)
  }

  function LossRun(n: nat): seq<Step> {
    if n == 0 then [] else LossRun(n - 1) + [LossAt(n)]
  }

  // The states that run goes through.
  function LossState(n: nat): State {
    var t := Initial().(running := true, listening := true, loop := Waiting, starts := 1);
    match n
    case 0 => Initial()
    case 1 => Initial().(running := true, control := StartFlagged)
    case 2 => Initial().(running := true, listening := true, control := StartListening)
    case 3 => t
    case 4 => t.(queue := [0], puts := 1, posting := 1)
    case 5 => t.(queue := [0], puts := 1, sem := 1)
    case 6 => t.(queue := [0], puts := 1, loop := Taking)
    case 7 => t.(puts := 1, loop := Holding(0))
    case 8 => t.(puts := 1, loop := Passed(0))
    case 9 => t.(puts := 1, loop := Passed(0), running := false, control := StopFlagged)
    case 10 => t.(puts := 1, loop := Passed(0), running := false, listening := false, control := StopCleared)
    case _ => t.(puts := 1, loop := NoThread, running := false, listening := false, control := StopCleared, lost := [0])
  }

  lemma LossGoesOn(n: nat)
    requires 0 < n <= 11
    ensures Enabled(LossState(n - 1), LossAt(n)) && Do(LossState(n - 1), LossAt(n)) == LossState(n)
  {
  }

  lemma {:induction false} LossRuns(n: nat)
    requires n <= 11
    ensures IsRun(LossRun(n)) && After(LossRun(n)) == LossState(n)
  {
    if n == 0 {
      hide Do, Enabled;
    } else {
      assert LossRun(n) == LossRun(n - 1) + [LossAt(n)];
      hide *;
      LossRuns(n - 1);
      LossGoesOn(n);
      RunFurther(LossRun(n - 1), LossAt(n));
    }
  }

  /** Such a loss does happen. */
  lemma LossHappens() returns (steps: seq<Step>)
    ensures IsRun(steps) && After(steps).lost == [0]
  {
    steps := LossRun(11);
    LossRuns(11);
    LostAtLast();
    hide *;
  }

  lemma LostAtLast()
    ensures LossState(11).lost == [0]
  {
  }

  // ----- Stop comes back

  function ToGo(loop: Loop): nat {
    match loop
    case Waiting => 3
    case Taking => 2
    case NoThread => 0
    case _ => 1
  }

  function LoopStep(loop: Loop): Step {
    match loop
    case Waiting => Wait
    case Taking => Take
    case Holding(_) => TestRunning
    case _ => Handle(true)
  }

  predicate OfThread(step: Step) {
    step == Wait || step == Take || step == TestRunning || step.Handle?
  }

  function ThreadSteps(steps: seq<Step>): nat {
    if steps == [] then 0
    else ThreadSteps(steps[..|steps| - 1]) + if OfThread(steps[|steps| - 1]) then 1 else 0
  }

  lemma JoiningStep(s: State, step: Step)
    requires Controls(s) && s.control == Joining && Enabled(s, step) && step != Join
    ensures Do(s, step).control == Joining
    ensures ToGo(Do(s, step).loop) + (if OfThread(step) then 1 else 0) <= ToGo(s.loop)
  {
  }

  lemma ThreadGoesOn(s: State)
    requires Controls(s) && s.control == Joining
    ensures Enabled(s, if s.loop == NoThread then Join else LoopStep(s.loop))
  {
  }

  /** While Stop waits for the thread, whatever all the others do: the thread can go on or the wait
      is over, and after at most three steps of the thread it is over. */
  lemma {:induction false} StopTerminates(steps: seq<Step>, more: seq<Step>)
    requires IsRun(steps) && IsRun(steps + more) && After(steps).control == Joining && Join !in more
    ensures var s, e := After(steps), After(steps + more);
            && e.control == Joining
            && ThreadSteps(more) + ToGo(e.loop) <= ToGo(s.loop) <= 3
            && Enabled(e, if e.loop == NoThread then Join else LoopStep(e.loop))
            && (ThreadSteps(more) == ToGo(s.loop) ==> Enabled(e, Join))
    decreases |more|
  {
    RunKeeps(steps + more);
    if more == [] {
      assert steps + more == steps;
      ThreadGoesOn(After(steps));
    } else {
      hide Do, Controls, Enabled, LoopStep, ToGo;
      var before, last := more[..|more| - 1], more[|more| - 1];
      OneStepLess(steps, more);
      StopTerminates(steps, before);
      RunKeeps(steps + before);
      JoiningStep(After(steps + before), last);
      ThreadGoesOn(After(steps + more));
      NothingToGo(After(steps + more).loop);
      hide IsRun, After;
    }
  }

  lemma OneStepLess(steps: seq<Step>, more: seq<Step>)
    requires more != [] && IsRun(steps + more)
    ensures var before, last := more[..|more| - 1], more[|more| - 1];
            && IsRun(steps + before) && Enabled(After(steps + before), last)
            && After(steps + more) == Do(After(steps + before), last)
  {
    assert (steps + more)[..|steps + more| - 1] == steps + more[..|more| - 1];
  }

  lemma NothingToGo(loop: Loop)
    ensures ToGo(loop) == 0 <==> loop == NoThread
  {
  }

  // ----- a running worker without a thread

  // Stops posted, jobs taken off the queue by pollers or by Dispose, and threads that ended by a Take
  // that returned NULL.
  datatype Tally = Tally(stops: nat, polls: nat, nulls: nat)

  predicate NullTake(s: State, step: Step) {
    step == Take && s.queue == []
  }

  function Count(c: Tally, s: State, step: Step): Tally {
    if step == PostStop then c.(stops := c.stops + 1)
    else if (step == GetJob || step == PollStep) && s.queue != [] then c.(polls := c.polls + 1)
    else if NullTake(s, step) then c.(nulls := c.nulls + 1)
    else c
  }

  function Tallied(steps: seq<Step>): Tally
    requires IsRun(steps)
    decreases |steps|
  {
    if steps == [] then Tally(0, 0, 0)
    else Count(Tallied(steps[..|steps| - 1]), After(steps[..|steps| - 1]), steps[|steps| - 1])
  }

  // What is in the semaphore, on its way there, or in the hands of the thread past its wait.
  function Tokens(s: State): nat {
    s.sem + s.posting + if s.loop == Taking then 1 else 0
  }

  predicate Balanced(s: State, c: Tally) {
    |s.queue| + c.stops + c.polls == Tokens(s) + c.nulls
  }

  // A step that neither takes nor polls, and not the post of a Stop.
  lemma QuietBalances(s: State, step: Step, c: Tally)
    requires Enabled(s, step) && Controls(s) && Balanced(s, c)
    requires step != Take && step != PostStop && step != GetJob && step != PollStep
    ensures Balanced(Do(s, step), Count(c, s, step)) && Count(c, s, step) == c
  {
  }

  lemma StepBalances(s: State, step: Step, c: Tally)
    requires Enabled(s, step) && Controls(s) && Balanced(s, c) && c.nulls <= c.stops + c.polls
    ensures Balanced(Do(s, step), Count(c, s, step))
    ensures Count(c, s, step).nulls <= Count(c, s, step).stops + Count(c, s, step).polls
  {
    if step != Take && step != PostStop && step != GetJob && step != PollStep {
      QuietBalances(s, step, c);
      hide Do, Count, Balanced;
    }
    hide Controls;
  }

  /** In every run: queued jobs, stops and polled jobs are as many as the tokens and the threads that
      ended by a NULL Take; and there are no more such threads than stops and polled jobs. */
  lemma {:induction false} TokensBalance(steps: seq<Step>)
    requires IsRun(steps)
    ensures Balanced(After(steps), Tallied(steps))
    ensures Tallied(steps).nulls <= Tallied(steps).stops + Tallied(steps).polls
    decreases |steps|
  {
    hide Do, Controls, Enabled, Count;
    if steps != [] {
      var before, last := steps[..|steps| - 1], steps[|steps| - 1];
      RunKeeps(before);
      TokensBalance(before);
      StepBalances(After(before), last, Tallied(before));
    }
  }

  // Tokens that no job stands behind.
  function Spare(steps: seq<Step>): int
    requires IsRun(steps)
  {
    Tallied(steps).stops + Tallied(steps).polls - Tallied(steps).nulls
  }

  predicate Disturbs(step: Step) {
    step == GetJob || step == PollStep || step == PostStop
  }

  // A run after which the next step of the thread is a Take that returns NULL.
  predicate EndsByNull(steps: seq<Step>) {
    IsRun(steps) && After(steps).loop == Taking && After(steps).queue == []
  }

  lemma {:induction false} SpareStays(steps: seq<Step>, more: seq<Step>)
    requires IsRun(steps) && IsRun(steps + more)
    requires forall i :: 0 <= i < |more| ==> !Disturbs(more[i])
    ensures Spare(steps + more) <= Spare(steps)
    decreases |more|
  {
    hide Do, Enabled;
    if more == [] {
      assert steps + more == steps;
    } else {
      assert (steps + more)[..|steps + more| - 1] == steps + more[..|more| - 1];
      SpareStays(steps, more[..|more| - 1]);
    }
  }

  lemma NullNeedsSpare(steps: seq<Step>, more: seq<Step>)
    requires IsRun(steps) && EndsByNull(steps + more)
    requires forall i :: 0 <= i < |more| ==> !Disturbs(more[i])
    ensures Spare(steps) > 0
  {
    SpareStays(steps, more);
    TokensBalance(steps + more);
  }

  // Posts of jobs already put, and the thread at work with a listener that goes on.
  predicate LeftAlone(more: seq<Step>) {
    forall i :: 0 <= i < |more| ==>
      more[i] == Post || more[i] == Wait || more[i] == Take || more[i] == TestRunning || more[i] == Handle(true)
  }

  ghost predicate NullReachable(steps: seq<Step>) {
    exists more :: LeftAlone(more) && EndsByNull(steps + more)
  }

  // The worker runs and its thread is alive.
  predicate Working(s: State) {
    s.control == Idle && s.running && s.listening && s.loop != NoThread
  }

  function NextStep(s: State): Step
    requires Working(s)
  {
    match s.loop
    case Holding(_) => TestRunning
    case Passed(_) => Handle(true)
    case Taking => Take
    case _ => if s.sem > 0 then Wait else Post
  }

  function Rank(s: State): nat {
    5 * |s.queue| + 3 * s.sem + 4 * s.posting
    + match s.loop
      case Taking => 2
      case Holding(_) => 4
      case Passed(_) => 3
      case _ => 0
  }

  lemma GoesOnWorking(s: State)
    requires Working(s) && Tokens(s) > |s.queue| && !(s.loop == Taking && s.queue == [])
    ensures Enabled(s, NextStep(s)) && Working(Do(s, NextStep(s))) && Rank(Do(s, NextStep(s))) < Rank(s)
    ensures !Disturbs(NextStep(s)) && !NullTake(s, NextStep(s))
    ensures LeftAlone([NextStep(s)])
  {
  }

  lemma WorkedOn(steps: seq<Step>)
    requires IsRun(steps) && Working(After(steps)) && Spare(steps) > 0 && !EndsByNull(steps)
    ensures Enabled(After(steps), NextStep(After(steps)))
    ensures var on := steps + [NextStep(After(steps))];
            IsRun(on) && Working(After(on)) && Spare(on) > 0 && Rank(After(on)) < Rank(After(steps))
    ensures LeftAlone([NextStep(After(steps))])
  {
    var s := After(steps);
    TokensBalance(steps);
    GoesOnWorking(s);
    hide Do, Enabled, NextStep, Rank, Working;
    RunFurther(steps, NextStep(s));
    assert (steps + [NextStep(s)])[..|steps|] == steps;
  }

  lemma {:induction false} SpareEndsThread(steps: seq<Step>) returns (more: seq<Step>)
    requires IsRun(steps) && Working(After(steps)) && Spare(steps) > 0
    ensures LeftAlone(more) && EndsByNull(steps + more)
    decreases Rank(After(steps))
  {
    hide *;
    if EndsByNull(steps) {
      more := [];
      NoMore(steps);
    } else {
      WorkedOn(steps);
      var step := NextStep(After(steps));
      var rest := SpareEndsThread(steps + [step]);
      more := [step] + rest;
      LeftAloneLonger(step, rest);
      assert steps + more == steps + [step] + rest;
    }
  }

  lemma NoMore(steps: seq<Step>)
    ensures LeftAlone([]) && steps + [] == steps
  {
  }

  lemma LeftAloneLonger(step: Step, rest: seq<Step>)
    requires LeftAlone([step]) && LeftAlone(rest)
    ensures LeftAlone([step] + rest)
  {
    assert step == [step][0];
  }

  /** A working thread that is left alone ends by a Take that returns NULL exactly if there have been
      more stops and polled jobs than threads that ended so before; and whatever else happens, no such
      Take comes without another stop or poll. The worker then stays running without a thread. */
  lemma NullEndsExactly(steps: seq<Step>, more: seq<Step>)
    requires IsRun(steps)
    ensures Working(After(steps)) ==> (NullReachable(steps) <==> Spare(steps) > 0)
    ensures EndsByNull(steps + more) && (forall i :: 0 <= i < |more| ==> !Disturbs(more[i])) ==> Spare(steps) > 0
  {
    hide Do, Enabled;
    if NullReachable(steps) {
      var way :| LeftAlone(way) && EndsByNull(steps + way);
      NullNeedsSpare(steps, way);
    }
    if EndsByNull(steps + more) && forall i :: 0 <= i < |more| ==> !Disturbs(more[i]) {
      NullNeedsSpare(steps, more);
    }
    if Working(After(steps)) && Spare(steps) > 0 {
      var way := SpareEndsThread(steps);
      assert LeftAlone(way) && EndsByNull(steps + way);
    }
  }

  // Stop, and Start again.
  function RestartAt(n: nat): Step {
    match n
    case 1 => StopOrDispose(false)
    case 2 => ClearListener
    case 3 => PostStop
    case 4 => Join
    case 5 => Start
    case 6 => SetListener
    case _ => StartThread
  }

  function Restart(n: nat): seq<Step> {
    if n == 0 then [] else Restart(n - 1) + [RestartAt(n)]
  }

  predicate ThreadGone(s: State) {
    s.control == Idle && s.running && s.loop == NoThread
  }

  lemma {:induction false} RestartRuns(steps: seq<Step>, n: nat)
    requires IsRun(steps) && ThreadGone(After(steps)) && n <= 7
    ensures IsRun(steps + Restart(n)) && After(steps + Restart(n)) == Restarted(After(steps), n)
    ensures Spare(steps + Restart(n)) == Spare(steps) + if n < 3 then 0 else 1
  {
    if n == 0 {
      assert steps + Restart(0) == steps;
    } else {
      assert steps + Restart(n) == (steps + Restart(n - 1)) + [RestartAt(n)];
      hide *;
      RestartRuns(steps, n - 1);
      RestartStep(After(steps), n);
      RunFurther(steps + Restart(n - 1), RestartAt(n));
      SpareFurther(steps + Restart(n - 1), RestartAt(n));
    }
  }

  lemma SpareFurther(steps: seq<Step>, step: Step)
    requires IsRun(steps) && IsRun(steps + [step])
    requires step != GetJob && step != PollStep && step != Take
    ensures Spare(steps + [step]) == Spare(steps) + if step == PostStop then 1 else 0
  {
    assert (steps + [step])[..|steps|] == steps;
    hide Do, Enabled;
  }

  // The states in between.
  function Restarted(s: State, n: nat): State {
    var stopped := s.(running := false, disposing := false);
    match n
    case 0 => s
    case 1 => stopped.(control := StopFlagged)
    case 2 => stopped.(control := StopCleared, listening := false)
    case 3 => stopped.(control := Joining, listening := false, sem := s.sem + 1)
    case 4 => stopped.(control := Idle, listening := false, sem := s.sem + 1)
    case 5 => stopped.(running := true, control := StartFlagged, listening := false, sem := s.sem + 1)
    case 6 => stopped.(running := true, control := StartListening, listening := true, sem := s.sem + 1)
    case _ => stopped.(running := true, control := Idle, listening := true, sem := s.sem + 1,
                       loop := Waiting, starts := s.starts + 1)
  }

  lemma RestartStep(s: State, n: nat)
    requires 0 < n <= 7 && ThreadGone(s)
    ensures Enabled(Restarted(s, n - 1), RestartAt(n))
    ensures Do(Restarted(s, n - 1), RestartAt(n)) == Restarted(s, n)
    ensures RestartAt(n) != GetJob && RestartAt(n) != PollStep && RestartAt(n) != Take
    ensures RestartAt(n) == PostStop <==> n == 3
  {
  }

  /** A worker whose thread has ended by itself and that is stopped and started again gets a thread that,
      left alone, ends by a Take that returns NULL. */
  lemma RestartedEndsByNull(steps: seq<Step>)
    requires IsRun(steps) && ThreadGone(After(steps))
    ensures IsRun(steps + Restart(7)) && Working(After(steps + Restart(7))) && NullReachable(steps + Restart(7))
  {
    RestartedWorks(After(steps));
    hide *;
    RestartRuns(steps, 7);
    SpareIsLeft(steps);
    NullEndsExactly(steps + Restart(7), []);
  }

  lemma SpareIsLeft(steps: seq<Step>)
    requires IsRun(steps)
    ensures Spare(steps) >= 0
  {
    TokensBalance(steps);
  }

  lemma RestartedWorks(s: State)
    ensures Working(Restarted(s, 7))
  {
  }

  // ----- a thread left alone

  // The worker runs and nobody stops it.
  predicate Up(s: State) {
    s.control == Idle && s.running && s.listening
  }

  // Neither a post nor a step of the thread is left.
  predicate AtRest(s: State) {
    s.posting == 0 && (s.loop == NoThread || (s.loop == Waiting && s.sem == 0))
  }

  // A working thread, or one that has ended with nothing queued.
  predicate GoesOn(s: State) {
    Up(s) && (s.loop == NoThread ==> s.queue == [])
  }

  // No job left the line but by being handled.
  predicate Kept(s: State, e: State) {
    Line(e) == Line(s) && e.deleted == s.deleted && e.polled == s.polled && e.lost == s.lost
  }

  lemma StepKept(s: State, step: Step)
    requires Up(s) && Enabled(s, step) && LeftAlone([step])
    ensures Kept(s, Do(s, step))
  {
    assert step == [step][0];
    if step == Take && s.queue != [] {
      assert s.queue == [s.queue[0]] + s.queue[1..];
    }
  }

  lemma StepAlone(s: State, step: Step)
    requires GoesOn(s) && Enabled(s, step) && LeftAlone([step])
    ensures GoesOn(Do(s, step)) && Rank(Do(s, step)) < Rank(s)
    ensures Do(s, step).loop == NoThread <==> s.loop == NoThread || NullTake(s, step)
  {
    assert step == [step][0];
  }

  lemma WorkingGoesOn(s: State)
    requires Working(s)
    ensures GoesOn(s) && s.loop != NoThread && Kept(s, s)
  {
  }

  lemma KeptOn(s: State, m: State, e: State)
    requires Kept(s, m) && Kept(m, e)
    ensures Kept(s, e)
  {
  }

  // What n steps of a thread left alone keep, from a run to a longer one.
  predicate KeptAlone(steps: seq<Step>, on: seq<Step>, n: nat)
    requires IsRun(steps) && IsRun(on)
  {
    && GoesOn(After(on)) && Kept(After(steps), After(on)) && n + Rank(After(on)) <= Rank(After(steps))
    && Spare(on) == Spare(steps) - if After(on).loop == NoThread then 1 else 0
  }

  lemma KeptAloneFirst(steps: seq<Step>)
    requires IsRun(steps) && Working(After(steps))
    ensures KeptAlone(steps, steps, 0)
  {
    WorkingGoesOn(After(steps));
    hide GoesOn, Kept, Rank, Spare, Working;
  }

  lemma KeptAloneNext(steps: seq<Step>, on: seq<Step>, n: nat, step: Step)
    requires IsRun(steps) && IsRun(on) && Enabled(After(on), step) && LeftAlone([step]) && KeptAlone(steps, on, n)
    ensures IsRun(on + [step]) && KeptAlone(steps, on + [step], n + 1)
  {
    hide Do, Enabled, LeftAlone, GoesOn, Kept, Rank, Spare, NullTake;
    RunFurther(on, step);
    StepAlone(After(on), step);
    UpGoesOn(After(on));
    StepKept(After(on), step);
    KeptOn(After(steps), After(on), After(on + [step]));
    SpareAlone(on, step);
    if NullTake(After(on), step) {
      NullTakes(After(on), step);
    }
  }

  lemma LeftAloneShorter(more: seq<Step>)
    requires LeftAlone(more) && more != []
    ensures LeftAlone(more[..|more| - 1]) && LeftAlone([more[|more| - 1]])
  {
  }

  lemma {:induction false} AloneKeeps(steps: seq<Step>, more: seq<Step>)
    requires IsRun(steps) && IsRun(steps + more) && Working(After(steps)) && LeftAlone(more)
    ensures KeptAlone(steps, steps + more, |more|)
    decreases |more|
  {
    hide *;
    if more == [] {
      assert steps + more == steps;
      KeptAloneFirst(steps);
    } else {
      var before, last := more[..|more| - 1], more[|more| - 1];
      OneStepLess(steps, more);
      LeftAloneShorter(more);
      AloneKeeps(steps, before);
      KeptAloneNext(steps, steps + before, |before|, last);
      assert steps + before + [last] == steps + more;
    }
  }

  lemma UpGoesOn(s: State)
    requires GoesOn(s)
    ensures Up(s)
  {
  }

  lemma NullTakes(s: State, step: Step)
    requires Enabled(s, step) && NullTake(s, step)
    ensures s.loop != NoThread
  {
  }

  lemma SpareAlone(steps: seq<Step>, step: Step)
    requires IsRun(steps) && IsRun(steps + [step]) && LeftAlone([step])
    ensures Spare(steps + [step]) == Spare(steps) - if NullTake(After(steps), step) then 1 else 0
  {
    assert step == [step][0];
    assert (steps + [step])[..|steps|] == steps;
    hide Do, Enabled;
  }

  // A state at rest is one in which no such step can be made.
  lemma RestExactly(s: State)
    ensures AtRest(s) <==> !Enabled(s, Post) && !Enabled(s, Wait) && !Enabled(s, Take) && !Enabled(s, TestRunning)
                           && !Enabled(s, Handle(true))
  {
  }

  lemma RestEmpty(steps: seq<Step>)
    requires IsRun(steps) && AtRest(After(steps)) && After(steps).loop == Waiting
    ensures After(steps).queue == [] && Spare(steps) == 0
  {
    TokensBalance(steps);
    SpareIsLeft(steps);
    hide Do, Enabled;
  }

  /** A working thread that is left alone comes to rest after at most so many steps, and has then handled, in
      this order, the job in its hands and those queued, and nothing else. It waits for the next job exactly
      if there were no more stops and polled jobs than threads that ended by a NULL Take, and has ended otherwise. */
  lemma LeftAloneHandles(steps: seq<Step>, more: seq<Step>)
    requires IsRun(steps) && IsRun(steps + more) && Working(After(steps)) && LeftAlone(more)
    ensures |more| <= Rank(After(steps))
    ensures var s, e := After(steps), After(steps + more);
            AtRest(e) ==>
              && e.handled == s.handled + InFlight(s.loop) + s.queue && e.queue == []
              && e.deleted == s.deleted && e.polled == s.polled && e.lost == s.lost
              && e.loop == (if Spare(steps) == 0 then Waiting else NoThread)
  {
    var s, e := After(steps), After(steps + more);
    AloneKeeps(steps, more);
    SpareIsLeft(steps + more);
    if AtRest(e) {
      if e.loop == Waiting {
        RestEmpty(steps + more);
      }
      assert InFlight(e.loop) == [] && e.queue == [];
      assert Line(e) == e.handled + [] + [];
      hide *;
      assert e.handled + [] + [] == e.handled;
    }
  }

  lemma StepLeft(s: State) returns (step: Step)
    requires !AtRest(s)
    ensures Enabled(s, step) && LeftAlone([step])
  {
    step := if s.posting > 0 then Post
            else match s.loop
                 case Waiting => Wait
                 case Taking => Take
                 case Holding(_) => TestRunning
                 case _ => Handle(true);
  }

  /** It does come to rest. */
  lemma {:induction false} ComesToRest(steps: seq<Step>) returns (more: seq<Step>)
    requires IsRun(steps) && GoesOn(After(steps))
    ensures LeftAlone(more) && IsRun(steps + more) && AtRest(After(steps + more))
    decreases Rank(After(steps))
  {
    hide *;
    var s := After(steps);
    if AtRest(s) {
      more := [];
      NoMore(steps);
    } else {
      var step := StepLeft(s);
      StepAlone(s, step);
      RunFurther(steps, step);
      var rest := ComesToRest(steps + [step]);
      more := [step] + rest;
      LeftAloneLonger(step, rest);
      assert steps + more == steps + [step] + rest;
    }
  }
}
