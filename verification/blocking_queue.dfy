/**
 The blocking queue (Tiny/Worker/TinyBlockingQueue.c) under every interleaving of
 any number of threads.

 What a mutex protects is one step; everything between two such steps may be
 interleaved. Threads in the same place are interchangeable, so the state counts
 them: `posting` threads have pushed and not yet posted the semaphore, `taking`
 threads are past the wait and have not yet taken.
 */
module BlockingQueue {
  import opened Wrappers

  datatype State<T> = State(queue: seq<T>, sem: nat, posting: nat, taking: nat)

  // Put is PutPush then PutPost; Take is TakeWait then TakePop; Poll and Stop are one step.
  datatype Step<T> = PutPush(job: T) | PutPost | TakeWait | TakePop | Poll | Stop

  predicate Enabled<T>(s: State<T>, step: Step<T>) {
    match step
    case PutPost => s.posting > 0
    case TakeWait => s.sem > 0
    case TakePop => s.taking > 0
    case _ => true
  }

  // TinyQueue_Head then TinyQueue_Pop; both do nothing on an empty queue.
  function Head<T>(queue: seq<T>): Option<T> {
    if queue == [] then None else Some(queue[0])
  }

  function Pop<T>(queue: seq<T>): seq<T> {
    if queue == [] then [] else queue[1..]
  }

  function Do<T>(s: State<T>, step: Step<T>): State<T>
    requires Enabled(s, step)
  {
    match step
    case PutPush(job) => s.(queue := s.queue + [job], posting := s.posting + 1)
    case PutPost => s.(posting := s.posting - 1, sem := s.sem + 1)
    case TakeWait => s.(sem := s.sem - 1, taking := s.taking + 1)
    case TakePop => s.(queue := Pop(s.queue), taking := s.taking - 1)
    case Poll => s.(queue := Pop(s.queue))
    case Stop => s.(sem := s.sem + 1)
  }

  function Initial<T>(): State<T> {
    State([], 0, 0, 0)
  }

  /** TinyBlockingQueue: each method is one atomic step of one thread. */
  class TinyBlockingQueue<T> {
    var queue: seq<T>
    var sem: nat
    ghost var posting: nat
    ghost var taking: nat

    ghost function Snapshot(): State<T>
      reads this
    {
      State(queue, sem, posting, taking)
    }

    constructor ()
      ensures Snapshot() == Initial()
    {
      queue, sem, posting, taking := [], 0, 0, 0;
    }

    method PushJob(job: T)
      modifies this
      ensures Snapshot() == Do(old(Snapshot()), PutPush(job))
    {
      queue := queue + [job];
      posting := posting + 1;
    }

    method PostJob()
      requires Enabled(Snapshot(), PutPost)
      modifies this
      ensures Snapshot() == Do(old(Snapshot()), PutPost)
    {
      sem := sem + 1;
      posting := posting - 1;
    }

    // TinySemaphore_Wait, once it lets the thread go on.
    method WaitForJob()
      requires Enabled(Snapshot(), TakeWait)
      modifies this
      ensures Snapshot() == Do(old(Snapshot()), TakeWait)
    {
      sem := sem - 1;
      taking := taking + 1;
    }

    method TakeJob() returns (data: Option<T>)
      requires Enabled(Snapshot(), TakePop)
      modifies this
      ensures Snapshot() == Do(old(Snapshot()), TakePop)
      ensures data == Head(old(queue))
    {
      data := None;
      if queue != [] {
        data := Some(queue[0]);
        queue := queue[1..];
      }
      taking := taking - 1;
    }

    method PollJob() returns (data: Option<T>)
      modifies this
      ensures Snapshot() == Do(old(Snapshot()), Poll)
      ensures data == Head(old(queue))
    {
      data := None;
      if queue != [] {
        data := Some(queue[0]);
        queue := queue[1..];
      }
    }

    method StopTaking()
      modifies this
      ensures Snapshot() == Do(old(Snapshot()), Stop)
    {
      sem := sem + 1;
    }
  }

  // ----- runs

  predicate IsRun<T>(steps: seq<Step<T>>)
    decreases |steps|, 0
  {
    steps == [] ||
    var before, last := steps[..|steps| - 1], steps[|steps| - 1];
    IsRun(before) && Enabled(After(before), last)
  }

  function After<T>(steps: seq<Step<T>>): State<T>
    requires IsRun(steps)
    decreases |steps|, 1
  {
    if steps == [] then Initial() else Do(After(steps[..|steps| - 1]), steps[|steps| - 1])
  }

  // What a run has done so far.
  datatype Tally<T> = Tally(pushed: seq<T>, popped: seq<T>, stops: nat, polled: nat, nulls: nat)

  function Count<T>(c: Tally<T>, s: State<T>, step: Step<T>): Tally<T> {
    match step
    case PutPush(job) => c.(pushed := c.pushed + [job])
    case TakePop => if s.queue == [] then c.(nulls := c.nulls + 1) else c.(popped := c.popped + [s.queue[0]])
    case Poll => if s.queue == [] then c else c.(popped := c.popped + [s.queue[0]], polled := c.polled + 1)
    case Stop => c.(stops := c.stops + 1)
    case _ => c
  }

  // The jobs pushed and popped, the stops, the jobs polled, and the takes that returned NULL.
  function Tallied<T>(steps: seq<Step<T>>): Tally<T>
    requires IsRun(steps)
    decreases |steps|
  {
    if steps == [] then Tally([], [], 0, 0, 0)
    else var before := steps[..|steps| - 1];
         Count(Tallied(before), After(before), steps[|steps| - 1])
  }

  predicate Balanced<T(==)>(s: State<T>, c: Tally<T>) {
    && c.pushed == c.popped + s.queue
    && |s.queue| + c.stops + c.polled == s.sem + s.posting + s.taking + c.nulls
    && c.nulls <= c.stops + c.polled
  }

  lemma StepBalances<T>(s: State<T>, step: Step<T>, c: Tally<T>)
    requires Enabled(s, step) && Balanced(s, c)
    ensures Balanced(Do(s, step), Count(c, s, step))
  {
    if step.PutPush? {
      assert c.popped + (s.queue + [step.job]) == (c.popped + s.queue) + [step.job];
    } else if (step.TakePop? || step.Poll?) && s.queue != [] {
      assert c.popped + s.queue == (c.popped + [s.queue[0]]) + s.queue[1..];
    }
  }

  /** In every run: jobs leave in the order they came; queue length plus stop posts
      plus polled jobs is the semaphore plus the posts still to come plus the takes
      under way plus the takes that returned NULL; and there are no more NULL takes
      than stops and polled jobs. */
  lemma {:induction false} Balance<T>(steps: seq<Step<T>>)
    requires IsRun(steps)
    ensures Balanced(After(steps), Tallied(steps))
    decreases |steps|
  {
    hide Do, Count, Enabled;
    if steps != [] {
      var before, last := steps[..|steps| - 1], steps[|steps| - 1];
      Balance(before);
      hide Balanced;
      StepBalances(After(before), last, Tallied(before));
    }
  }

  /** Without Poll, Take never returns NULL before a Stop. */
  lemma NoNullBeforeStop<T>(steps: seq<Step<T>>)
    requires IsRun(steps) && Enabled(After(steps), TakePop)
    requires Tallied(steps).stops == 0 && Tallied(steps).polled == 0
    ensures Head(After(steps).queue).Some?
  {
    Balance(steps);
  }

  lemma RunFurther<T>(steps: seq<Step<T>>, step: Step<T>)
    requires IsRun(steps) && Enabled(After(steps), step)
    ensures IsRun(steps + [step])
    ensures After(steps + [step]) == Do(After(steps), step)
    ensures Tallied(steps + [step]) == Count(Tallied(steps), After(steps), step)
  {
    assert (steps + [step])[..|steps|] == steps;
  }

  // The next of the waiting threads to go on.
  function NextStep<T>(s: State<T>): Step<T> {
    if s.taking > 0 then TakePop else if s.sem > 0 then TakeWait else PutPost
  }

  function Rank<T>(s: State<T>): nat {
    3 * s.posting + 2 * s.sem + s.taking
  }

  function Spare<T>(steps: seq<Step<T>>): int
    requires IsRun(steps)
  {
    Tallied(steps).stops + Tallied(steps).polled - Tallied(steps).nulls
  }

  lemma WaitedOn<T>(steps: seq<Step<T>>)
    requires IsRun(steps) && Spare(steps) > 0
    requires After(steps).taking == 0 || After(steps).queue != []
    ensures Enabled(After(steps), NextStep(After(steps)))
    ensures var on := steps + [NextStep(After(steps))];
            IsRun(on) && Spare(on) > 0 && Rank(After(on)) < Rank(After(steps))
  {
    Balance(steps);
    RunFurther(steps, NextStep(After(steps)));
  }

  // Only posts of pushes already made, waits and takes.
  predicate Waits<T>(more: seq<Step<T>>) {
    forall i :: 0 <= i < |more| ==> more[i].PutPost? || more[i].TakeWait? || more[i].TakePop?
  }

  predicate NullNext<T>(steps: seq<Step<T>>) {
    IsRun(steps) && Enabled(After(steps), TakePop) && After(steps).queue == []
  }

  /** As long as fewer takes have returned NULL than there were stops and polled
      jobs, some continuation makes one more Take return NULL. */
  lemma {:induction false} NullTakeReachable<T>(steps: seq<Step<T>>) returns (more: seq<Step<T>>)
    requires IsRun(steps) && Spare(steps) > 0
    ensures Waits(more) && NullNext(steps + more)
    decreases Rank(After(steps))
  {
    hide *;
    if NullNext(steps) {
      more := [];
      NoMore(steps);
    } else {
      NotYetNull(steps);
      WaitedOn(steps);
      var step := NextStep(After(steps));
      var rest := NullTakeReachable(steps + [step]);
      more := [step] + rest;
      WaitsLonger(After(steps), rest);
      assert steps + more == steps + [step] + rest;
    }
  }

  lemma NoMore<T>(steps: seq<Step<T>>)
    ensures Waits<T>([]) && steps + [] == steps
  {
  }

  lemma NotYetNull<T>(steps: seq<Step<T>>)
    requires IsRun(steps) && !NullNext(steps)
    ensures After(steps).taking == 0 || After(steps).queue != []
  {
  }

  lemma WaitsLonger<T>(s: State<T>, rest: seq<Step<T>>)
    requires Waits(rest)
    ensures Waits([NextStep(s)] + rest)
  {
  }

  // Such steps can lead to a Take that returns NULL.
  ghost predicate NullReachable<T(!new)>(steps: seq<Step<T>>) {
    exists more: seq<Step<T>> :: Waits(more) && NullNext(steps + more)
  }

  lemma {:induction false} NothingMore<T>(steps: seq<Step<T>>, more: seq<Step<T>>)
    requires IsRun(steps) && IsRun(steps + more)
    requires forall i :: 0 <= i < |more| ==> !more[i].Poll? && !more[i].Stop?
    ensures Tallied(steps + more).stops == Tallied(steps).stops && Tallied(steps + more).polled == Tallied(steps).polled
    ensures Tallied(steps + more).nulls >= Tallied(steps).nulls
    decreases |more|
  {
    if more == [] {
      assert steps + more == steps;
    } else {
      assert (steps + more)[..|steps + more| - 1] == steps + more[..|more| - 1];
      NothingMore(steps, more[..|more| - 1]);
    }
  }

  /** Without another Poll or Stop a Take can return NULL exactly as long as fewer takes have
      done so than there were stops and polled jobs; and then no further Put is needed. */
  lemma NullTakeExactly<T(!new)>(steps: seq<Step<T>>, more: seq<Step<T>>)
    requires IsRun(steps)
    ensures NullReachable(steps) <==> Spare(steps) > 0
    ensures (forall i :: 0 <= i < |more| ==> !more[i].Poll? && !more[i].Stop?) && NullNext(steps + more) ==>
              NullReachable(steps)
  {
    if NullReachable(steps) {
      var way :| Waits(way) && NullNext(steps + way);
      NullNeedsStop(steps, way);
    }
    if (forall i :: 0 <= i < |more| ==> !more[i].Poll? && !more[i].Stop?) && NullNext(steps + more) {
      NullNeedsStop(steps, more);
    }
    if Spare(steps) > 0 {
      var way := NullTakeReachable(steps);
      assert Waits(way) && NullNext(steps + way);
    }
  }

  lemma NullNeedsStop<T>(steps: seq<Step<T>>, more: seq<Step<T>>)
    requires IsRun(steps) && NullNext(steps + more)
    requires forall i :: 0 <= i < |more| ==> !more[i].Poll? && !more[i].Stop?
    ensures Spare(steps) > 0
  {
    NothingMore(steps, more);
    RunFurther(steps + more, TakePop);
    Balance(steps + more + [TakePop]);
  }

  /** One Poll of a queued job is enough: from then on a NULL take is reachable. */
  lemma PollMakesNullReachable<T>(steps: seq<Step<T>>) returns (more: seq<Step<T>>)
    requires IsRun(steps) && After(steps).queue != []
    ensures IsRun(steps + [Poll] + more) && Enabled(After(steps + [Poll] + more), TakePop)
    ensures Head(After(steps + [Poll] + more).queue) == None
  {
    Balance(steps);
    RunFurther(steps, Poll);
    more := NullTakeReachable(steps + [Poll]);
  }

  /** The steps of any interleaving, one by one on a new queue: the jobs that the takes and polls
      return, and those still queued, are the jobs put, in their order; and the takes that return
      NULL are no more than the stops and the polled jobs. */
  method Interleave<T>(steps: seq<Step<T>>) returns (q: TinyBlockingQueue<T>, returned: seq<T>, nulls: nat)
    requires IsRun(steps)
    ensures fresh(q) && q.Snapshot() == After(steps)
    ensures Tallied(steps).pushed == returned + q.queue
    ensures nulls <= Tallied(steps).stops + Tallied(steps).polled
  {
    hide Do;
    q := new TinyBlockingQueue();
    returned, nulls := [], 0;
    var i := 0;
    RunPrefix(steps, |steps|);
    while i < |steps|
      invariant i <= |steps| && fresh(q) && IsRun(steps[..i]) && q.Snapshot() == After(steps[..i])
      invariant returned == Tallied(steps[..i]).popped && nulls == Tallied(steps[..i]).nulls
    {
      RunPrefix(steps, i + 1);
      assert steps[..i + 1][..i] == steps[..i];
      var data := Perform(q, steps[i]);
      if data.Some? {
        returned := returned + [data.value];
      } else if steps[i].TakePop? {
        nulls := nulls + 1;
      }
      i := i + 1;
    }
    assert steps[..i] == steps;
    Balance(steps);
  }

  method Perform<T>(q: TinyBlockingQueue<T>, step: Step<T>) returns (data: Option<T>)
    requires Enabled(q.Snapshot(), step)
    modifies q
    ensures q.Snapshot() == Do(old(q.Snapshot()), step)
    ensures data == if step.TakePop? || step.Poll? then Head(old(q.queue)) else None
  {
    data := None;
    match step
    case PutPush(job) => q.PushJob(job);
    case PutPost => q.PostJob();
    case TakeWait => q.WaitForJob();
    case TakePop => data := q.TakeJob();
    case Poll => data := q.PollJob();
    case Stop => q.StopTaking();
  }

  lemma {:induction false} RunPrefix<T>(steps: seq<Step<T>>, n: nat)
    requires IsRun(steps) && n <= |steps|
    ensures IsRun(steps[..n])
    ensures n > 0 ==> IsRun(steps[..n - 1]) && Enabled(After(steps[..n - 1]), steps[n - 1])
    decreases |steps|
  {
    if n == |steps| {
      assert steps[..n] == steps;
    } else {
      var before := steps[..|steps| - 1];
      RunPrefix(before, n);
      assert before[..n] == steps[..n] && (n > 0 ==> before[..n - 1] == steps[..n - 1]);
    }
  }
}
