/** The actor clock: a thread that sleeps until the earliest timeout in a heap, and any number
    of threads that schedule actions and notify it after they left their critical section. */
module Clock {

  /** `time_point::min()`, the timeout of the entry that stops the clock. */
  const MIN_TIME: int := -9223372036854775808

  /** An entry of the queue; the sentinel has no callback. */
  datatype Entry = Entry(id: nat, timeout: int, sentinel: bool)

  /** Where the clock thread is. */
  datatype Thread =
    | CheckEmpty              // about to test whether the queue is empty
    | Asleep                  // waits for a notification on an empty queue
    | AtTop                   // at the top of the loop, queue not empty
    | Dozing(until: int)      // waits for a notification or a point in time
    | Busy(job: Entry)        // runs a callback without holding the mutex
    | Done

  /** `owed` counts threads that pushed an entry and still have to notify.  The queue is the vector
      whose first entry is the front of the heap; entries carry the identity of the call that made
      them. */
  datatype State = State(
    now: int, queue: seq<Entry>, thread: Thread, owed: nat, closing: bool, nextId: nat)

  /** What the standard library makes of the vector is part of a step. */
  datatype Step =
    | Tick(dt: nat)
    | Schedule(timeout: int, to: seq<Entry>)   // with a callback; without one `schedule` does nothing
    | Shutdown(to: seq<Entry>)                 // the destructor pushes the sentinel
    | Notify                                   // one of the owed notifications
    | WakeUp                                   // a wait returns, by itself or because its time came
    | Check
    | Front(to: seq<Entry>)                    // one iteration; `to` is what a pop leaves

  // -- the heap ----------------------------------------------------------------------------------

  /** No entry is due before its parent. */
  predicate IsHeap(q: seq<Entry>) {
    forall i :: 0 < i < |q| ==> ParentIsFirst(q, i)
  }

  predicate ParentIsFirst(q: seq<Entry>, i: nat)
    requires 0 < i < |q|
  {
    q[(i - 1) / 2].timeout <= q[i].timeout
  }

  /** `push_back` and then `push_heap`, which needs a heap before the new entry. */
  predicate PushHeap(q: seq<Entry>, x: Entry, to: seq<Entry>) {
    multiset(to) == multiset(q) + multiset{x} && (IsHeap(q) ==> IsHeap(to))
  }

  /** `pop_heap`, which needs a heap and moves its front to the end, and then `pop_back`. */
  predicate PopHeap(q: seq<Entry>, to: seq<Entry>)
    requires q != []
  {
    multiset(to) + multiset{q[0]} == multiset(q) && (IsHeap(q) ==> IsHeap(to))
  }

  predicate IsMin(q: seq<Entry>, e: Entry) {
    e in q && forall f :: f in q ==> e.timeout <= f.timeout
  }

  /** The front of a heap is a minimum. */
  lemma FrontIsMin(q: seq<Entry>)
    requires IsHeap(q) && q != []
    ensures IsMin(q, q[0])
  {
    forall i | 0 <= i < |q|
      ensures q[0].timeout <= q[i].timeout
    {
      FrontIsFirst(q, i);
    }
  }

  lemma {:induction false} FrontIsFirst(q: seq<Entry>, i: nat)
    requires IsHeap(q) && i < |q|
    ensures q[0].timeout <= q[i].timeout
  {
    if i > 0 {
      assert ParentIsFirst(q, i);
      FrontIsFirst(q, (i - 1) / 2);
    }
  }

  lemma Pushed(q: seq<Entry>, x: Entry, to: seq<Entry>)
    requires PushHeap(q, x, to)
    ensures forall e :: e in to <==> e in q || e == x
    ensures x !in q && Once(q) ==> Once(to)
  {
    hide IsHeap;
    forall e
      ensures e in to <==> e in q || e == x
    {
      assert e in multiset(to) <==> e in multiset(q) || e == x;
    }
    assert x !in q ==> x !in multiset(q);
  }

  lemma Popped(q: seq<Entry>, to: seq<Entry>)
    requires q != [] && Once(q) && PopHeap(q, to)
    ensures forall e :: e in to <==> e in q && e != q[0]
    ensures Once(to)
  {
    hide IsHeap;
    forall e
      ensures e in to <==> e in q && e != q[0]
    {
      assert multiset(q)[e] <= 1 && multiset(q)[e] == multiset(to)[e] + if e == q[0] then 1 else 0;
      assert e in to <==> e in multiset(to);
      assert e in q <==> e in multiset(q);
    }
    forall e
      ensures multiset(to)[e] <= 1
    {
      assert multiset(q)[e] == multiset(to)[e] + if e == q[0] then 1 else 0;
    }
  }

  /** No entry is in the queue twice. */
  ghost predicate Once(q: seq<Entry>) {
    forall e :: multiset(q)[e] <= 1
  }

  predicate Sorted(q: seq<Entry>) {
    forall i, j :: 0 <= i < j < |q| ==> q[i].timeout <= q[j].timeout
  }

  /** Any entries can be arranged as a heap. */
  lemma {:induction false} Arranged(q: seq<Entry>) returns (to: seq<Entry>)
    ensures multiset(to) == multiset(q) && Sorted(to) && IsHeap(to)
  {
    if q == [] {
      to := [];
    } else {
      var rest := Arranged(q[1..]);
      to := Inserted(q[0], rest);
      assert q == [q[0]] + q[1..];
    }
  }

  lemma {:induction false} Inserted(x: Entry, q: seq<Entry>) returns (to: seq<Entry>)
    requires Sorted(q)
    ensures multiset(to) == multiset{x} + multiset(q) && Sorted(to)
    ensures to != [] && (to[0] == x || (q != [] && to[0] == q[0]))
  {
    if q == [] || x.timeout <= q[0].timeout {
      Prepended(x, q);
      to := [x] + q;
    } else {
      assert Sorted(q[1..]);
      assert |q| > 1 ==> q[0].timeout <= q[1].timeout;
      hide Sorted;
      var rest := Inserted(x, q[1..]);
      Prepended(q[0], rest);
      to := [q[0]] + rest;
      assert q == [q[0]] + q[1..];
    }
  }

  lemma Prepended(x: Entry, q: seq<Entry>)
    requires Sorted(q) && (q != [] ==> x.timeout <= q[0].timeout)
    ensures Sorted([x] + q)
  {
  }

  // -- steps -------------------------------------------------------------------------------------

  predicate Init(s: State) {
    s == State(s.now, [], CheckEmpty, 0, false, 0) && s.now >= MIN_TIME
  }

  function New(s: State, timeout: int, sentinel: bool): Entry {
    Entry(s.nextId, timeout, sentinel)
  }

  predicate Enabled(s: State, a: Step) {
    match a
    case Tick(_) => true
    case Schedule(timeout, to) => !s.closing && timeout >= MIN_TIME && PushHeap(s.queue, New(s, timeout, false), to)
    case Shutdown(to) => !s.closing && PushHeap(s.queue, New(s, MIN_TIME, true), to)
    case Notify => s.owed > 0
    case WakeUp => s.thread.Asleep? || s.thread.Dozing? || s.thread.Busy?
    case Check => s.thread.CheckEmpty?
    case Front(to) => s.thread.AtTop? && s.queue != [] && PopHeap(s.queue, to)
  }

  function Apply(s: State, a: Step): State
    requires Enabled(s, a)
  {
    match a
    case Tick(dt) => s.(now := s.now + dt)
    case Schedule(timeout, to) =>
      var wakeup := s.queue == [] || timeout < s.queue[0].timeout;
      Push(s, to).(owed := if wakeup then s.owed + 1 else s.owed)
    case Shutdown(to) => Push(s, to).(owed := s.owed + 1, closing := true)
    case Notify => Awaken(s.(owed := s.owed - 1))
    case WakeUp => if s.thread.Busy? then s.(thread := CheckEmpty) else Awaken(s)
    case Check => s.(thread := if s.queue == [] then Asleep else AtTop)
    case Front(to) =>
      var e := s.queue[0];
      if e.sentinel then s.(thread := Done)
      else if s.now >= e.timeout then s.(queue := to, thread := Busy(e))
      else s.(thread := Dozing(e.timeout))
  }

  function Push(s: State, to: seq<Entry>): State {
    s.(queue := to, nextId := s.nextId + 1)
  }

  function Awaken(s: State): State {
    match s.thread
    case Asleep => s.(thread := CheckEmpty)
    case Dozing(_) => s.(thread := AtTop)
    case _ => s
  }

  ghost predicate IsRun(run: seq<State>, steps: seq<Step>) {
    && |run| == |steps| + 1
    && Init(run[0])
    && forall i :: 0 <= i < |steps| ==> Enabled(run[i], steps[i]) && run[i + 1] == Apply(run[i], steps[i])
  }

  // -- the invariant ---------------------------------------------------------------------------

  /** Whoever makes the clock sleep too long still owes it a notification. */
  ghost predicate SleepOk(s: State) {
    match s.thread
    case Asleep => s.queue != [] ==> s.owed > 0
    case AtTop => s.queue != []
    case Dozing(until) =>
      && (exists e :: e in s.queue && e.timeout == until)
      && (forall e :: e in s.queue && e.timeout < until ==> s.owed > 0)
    case Done => exists e :: e in s.queue && e.sentinel
    case _ => true
  }

  ghost predicate EntriesOk(s: State) {
    && s.now >= MIN_TIME && IsHeap(s.queue) && Once(s.queue)
    && (forall e :: e in s.queue ==> e.id < s.nextId)
    && (forall e :: e in s.queue && e.sentinel ==> s.closing && e.timeout == MIN_TIME)
    && (s.closing ==> exists e :: e in s.queue && e.sentinel)
  }

  ghost predicate Inv(s: State) {
    SleepOk(s) && EntriesOk(s)
  }

  lemma PushKeepsInv(s: State, a: Step)
    requires Inv(s) && Enabled(s, a) && (a.Schedule? || a.Shutdown?)
    ensures Inv(Apply(s, a))
  {
    var x := New(s, if a.Schedule? then a.timeout else MIN_TIME, a.Shutdown?);
    assert x !in s.queue;
    Pushed(s.queue, x, a.to);
    if s.queue != [] {
      FrontIsMin(s.queue);
    }
    hide IsHeap, Once;
    assert x in a.to;
  }

  lemma FrontKeepsInv(s: State, a: Step)
    requires Inv(s) && Enabled(s, a) && a.Front?
    ensures Inv(Apply(s, a))
  {
    Popped(s.queue, a.to);
    FrontIsMin(s.queue);
    hide IsHeap, Once;
    assert s.queue[0] in s.queue;
    assert forall f :: f in s.queue && f != s.queue[0] ==> f in a.to;
  }

  lemma OtherKeepsInv(s: State, a: Step)
    requires Inv(s) && Enabled(s, a) && !a.Schedule? && !a.Shutdown? && !a.Front?
    ensures Inv(Apply(s, a))
  {
  }

  lemma ApplyKeepsInv(s: State, a: Step)
    requires Inv(s) && Enabled(s, a)
    ensures Inv(Apply(s, a))
  {
    hide Inv, Apply;
    match a
    case Schedule(_, _) => PushKeepsInv(s, a);
    case Shutdown(_) => PushKeepsInv(s, a);
    case Front(_) => FrontKeepsInv(s, a);
    case _ => OtherKeepsInv(s, a);
  }

  lemma {:induction false} RunKeepsInv(run: seq<State>, steps: seq<Step>, i: nat)
    requires IsRun(run, steps) && i < |run|
    ensures Inv(run[i])
  {
    if i > 0 {
      hide Apply;
      RunKeepsInv(run, steps, i - 1);
      ApplyKeepsInv(run[i - 1], steps[i - 1]);
    }
  }

  // -- main results ----------------------------------------------------------------------------

  /** Whenever the clock waits although an entry before the end of its wait is queued, some
      thread still owes a notification; so if an entry is due, a notification is on its way or
      the wait has timed out already. */
  lemma NeverOversleeps(run: seq<State>, steps: seq<Step>, i: nat, e: Entry)
    requires IsRun(run, steps) && i < |run| && e in run[i].queue
    ensures run[i].thread.Asleep? ==> run[i].owed > 0
    ensures run[i].thread.Dozing? && e.timeout < run[i].thread.until ==> run[i].owed > 0
    ensures run[i].thread.Dozing? && e.timeout <= run[i].now ==>
              run[i].owed > 0 || run[i].thread.until <= run[i].now
  {
    RunKeepsInv(run, steps, i);
  }

  /** The loop never reads the front of an empty queue, the front is always a minimum, and only the
      sentinel, which only the destructor pushes, ends the loop. */
  lemma LoopIsSafe(run: seq<State>, steps: seq<Step>, i: nat)
    requires IsRun(run, steps) && i < |run|
    ensures run[i].queue != [] ==> IsMin(run[i].queue, run[i].queue[0])
    ensures run[i].thread.AtTop? ==> exists to :: Enabled(run[i], Front(to))
    ensures run[i].thread.Done? ==> run[i].closing
    ensures run[i].closing <==> exists k :: 0 <= k < i && steps[k].Shutdown?
  {
    RunKeepsInv(run, steps, i);
    var q := run[i].queue;
    if q != [] {
      FrontIsMin(q);
    }
    if run[i].thread.AtTop? {
      var to := Arranged(q[1..]);
      assert q == [q[0]] + q[1..];
      assert Enabled(run[i], Front(to));
    }
    ClosingMeansShutdown(run, steps, i);
  }

  /** Scheduling is always possible until the clock is shut down. */
  lemma CanSchedule(s: State, timeout: int) returns (to: seq<Entry>)
    requires !s.closing && timeout >= MIN_TIME
    ensures Enabled(s, Schedule(timeout, to))
  {
    to := Arranged(s.queue + [New(s, timeout, false)]);
  }

  lemma {:induction false} ClosingMeansShutdown(run: seq<State>, steps: seq<Step>, i: nat)
    requires IsRun(run, steps) && i < |run|
    ensures run[i].closing <==> exists k :: 0 <= k < i && steps[k].Shutdown?
  {
    if i > 0 {
      ClosingMeansShutdown(run, steps, i - 1);
      assert run[i].closing <==> run[i - 1].closing || steps[i - 1].Shutdown?;
    }
  }

  /** The step takes `e` out of the queue and runs it. */
  predicate Takes(s: State, a: Step, e: Entry) {
    a.Front? && s.queue != [] && s.queue[0] == e && !e.sentinel && s.now >= e.timeout
  }

  ghost predicate Pops(run: seq<State>, steps: seq<Step>, k: nat, e: Entry)
    requires |run| == |steps| + 1 && k < |steps|
  {
    Takes(run[k], steps[k], e)
  }

  lemma {:induction false} FateOfEntry(run: seq<State>, steps: seq<Step>, i: nat, j: nat, e: Entry)
    requires IsRun(run, steps) && i <= j < |run| && e.id < run[i].nextId
    ensures e in run[j].queue ==> e in run[i].queue && forall k :: i <= k < j ==> !Pops(run, steps, k, e)
    ensures e !in run[j].queue && e in run[i].queue ==> exists k :: i <= k < j && Pops(run, steps, k, e)
    ensures e.id < run[j].nextId
    decreases j - i
  {
    hide Inv, Apply, Enabled, Init, Takes;
    if i < j {
      FateOfEntry(run, steps, i, j - 1, e);
      RunKeepsInv(run, steps, j - 1);
      FateInStep(run[j - 1], steps[j - 1], e);
      assert Pops(run, steps, j - 1, e) <==> Takes(run[j - 1], steps[j - 1], e);
    }
  }

  /** Only its own turn takes an entry out of the queue. */
  lemma FateInStep(s: State, a: Step, e: Entry)
    requires Inv(s) && Enabled(s, a) && e.id < s.nextId
    ensures e in Apply(s, a).queue <==> e in s.queue && !Takes(s, a, e)
    ensures s.nextId <= Apply(s, a).nextId
  {
    match a
    case Schedule(timeout, to) => Pushed(s.queue, New(s, timeout, false), to);
    case Shutdown(to) => Pushed(s.queue, New(s, MIN_TIME, true), to);
    case Front(to) => Popped(s.queue, to);
    case _ =>
  }

  lemma TakenAsMin(s: State, a: Step, e: Entry)
    requires Inv(s) && Enabled(s, a) && e.id < s.nextId && Takes(s, a, e)
    ensures IsMin(s.queue, e) && e !in Apply(s, a).queue
  {
    FrontIsMin(s.queue);
    FateInStep(s, a, e);
  }

  /** A scheduled entry stays in the queue until it is popped; it is popped at most once, not
      before its timeout, and as a minimum of the queue. */
  lemma EntriesRunOnceAndInTime(run: seq<State>, steps: seq<Step>, i: nat, j: nat)
    requires IsRun(run, steps) && i < |steps| && i < j < |run| && steps[i].Schedule?
    ensures var e := New(run[i], steps[i].timeout, false);
            && (e in run[j].queue <==> forall k :: i < k < j ==> !Pops(run, steps, k, e))
            && (forall k, l :: i < k < j && i < l < j && Pops(run, steps, k, e) && Pops(run, steps, l, e) ==> k == l)
            && (forall k :: i < k < j && Pops(run, steps, k, e) ==>
                  run[k].now >= e.timeout && IsMin(run[k].queue, e) && e !in run[k + 1].queue)
            && (forall k :: 0 <= k <= i ==> !Pops(run, steps, k, e))
  {
    var e := New(run[i], steps[i].timeout, false);
    Pushed(run[i].queue, e, steps[i].to);
    assert e in run[i + 1].queue && e.id < run[i + 1].nextId;
    hide Inv, Apply, Enabled, Init, IsHeap, Once, PushHeap;
    FateOfEntry(run, steps, i + 1, j, e);
    forall k, l | i < k < l < j && Pops(run, steps, k, e)
      ensures !Pops(run, steps, l, e)
    {
      FateOfEntry(run, steps, i + 1, k + 1, e);
      PoppedIsGone(run, steps, k, e);
      FateOfEntry(run, steps, k + 1, l, e);
      PoppedWasThere(run, steps, l, e);
    }
    forall k | i < k < j && Pops(run, steps, k, e)
      ensures run[k].now >= e.timeout && IsMin(run[k].queue, e) && e !in run[k + 1].queue
    {
      FateOfEntry(run, steps, i + 1, k, e);
      RunKeepsInv(run, steps, k);
      TakenAsMin(run[k], steps[k], e);
    }
    forall k | 0 <= k <= i
      ensures !Pops(run, steps, k, e)
    {
      IdsGrow(run, steps, k, i);
      PoppedWasThere(run, steps, k, e);
    }
  }

  lemma PoppedIsGone(run: seq<State>, steps: seq<Step>, k: nat, e: Entry)
    requires IsRun(run, steps) && k < |steps| && Pops(run, steps, k, e) && e.id < run[k].nextId
    ensures e !in run[k + 1].queue
  {
    RunKeepsInv(run, steps, k);
    FateInStep(run[k], steps[k], e);
  }

  lemma PoppedWasThere(run: seq<State>, steps: seq<Step>, k: nat, e: Entry)
    requires IsRun(run, steps) && k < |steps|
    ensures Pops(run, steps, k, e) ==> e in run[k].queue && e.id < run[k].nextId
  {
    RunKeepsInv(run, steps, k);
    assert Pops(run, steps, k, e) ==> run[k].queue[0] in run[k].queue;
  }

  lemma {:induction false} IdsGrow(run: seq<State>, steps: seq<Step>, i: nat, j: nat)
    requires IsRun(run, steps) && i <= j < |run|
    ensures run[i].nextId <= run[j].nextId
    decreases j - i
  {
    if i < j {
      IdsGrow(run, steps, i, j - 1);
    }
  }

  // -- callbacks run ---------------------------------------------------------------------------

  ghost predicate RunsSince(run: seq<State>, steps: seq<Step>, k: nat, j: nat, e: Entry)
    requires |run| == |steps| + 1 && k < j < |run|
  {
    Pops(run, steps, k, e) && forall l :: k < l < j ==> !steps[l].WakeUp?
  }

  lemma BusyInStep(s: State, a: Step, e: Entry)
    requires Enabled(s, a)
    ensures Apply(s, a).thread == Busy(e) <==> Takes(s, a, e) || (s.thread == Busy(e) && !a.WakeUp?)
  {
  }

  /** The clock runs the callback of an entry exactly from the step that pops it until that callback
      returns. */
  lemma {:induction false} PoppedEntriesRun(run: seq<State>, steps: seq<Step>, j: nat, e: Entry)
    requires IsRun(run, steps) && j < |run|
    ensures run[j].thread == Busy(e) <==> exists k :: 0 <= k < j && RunsSince(run, steps, k, j, e)
  {
    if j > 0 {
      hide Apply, Enabled, Init, Takes;
      var i := j - 1;
      PoppedEntriesRun(run, steps, i, e);
      BusyInStep(run[i], steps[i], e);
      if Takes(run[i], steps[i], e) {
        assert RunsSince(run, steps, i, j, e);
      }
      if run[i].thread == Busy(e) && !steps[i].WakeUp? {
        var k :| 0 <= k < i && RunsSince(run, steps, k, i, e);
        assert RunsSince(run, steps, k, j, e);
      }
      if k :| 0 <= k < j && RunsSince(run, steps, k, j, e) {
        if k < i {
          assert RunsSince(run, steps, k, i, e);
        }
      }
    }
  }

  /** The clock goes to sleep exactly if nothing is queued or due, and then until the earliest timeout. */
  lemma SleepsIffNothingIsDue(run: seq<State>, steps: seq<Step>, i: nat)
    requires IsRun(run, steps) && i < |steps|
    ensures steps[i].Check? ==> (run[i + 1].thread.Asleep? <==> run[i].queue == [])
    ensures steps[i].Front? ==> (run[i + 1].thread.Dozing? <==> forall e :: e in run[i].queue ==> run[i].now < e.timeout)
    ensures steps[i].Front? && run[i + 1].thread.Dozing? ==>
      exists e :: IsMin(run[i].queue, e) && e.timeout == run[i + 1].thread.until
  {
    RunKeepsInv(run, steps, i);
    if steps[i].Front? {
      FrontIsMin(run[i].queue);
    }
  }

  // -- who has to notify -------------------------------------------------------------------------

  /** A step after which a notification is owed: the new entry is due before all others, or the clock
      has to stop. */
  predicate Announces(s: State, a: Step) {
    a.Shutdown? || (a.Schedule? && forall e :: e in s.queue ==> a.timeout < e.timeout)
  }

  ghost function Announced(run: seq<State>, steps: seq<Step>, i: nat): nat
    requires |run| == |steps| + 1 && i < |run|
  {
    if i == 0 then 0 else Announced(run, steps, i - 1) + if Announces(run[i - 1], steps[i - 1]) then 1 else 0
  }

  function Notified(steps: seq<Step>): nat {
    if steps == [] then 0
    else Notified(steps[..|steps| - 1]) + if steps[|steps| - 1].Notify? then 1 else 0
  }

  /** Exactly the threads whose entries came first owe a notification, one each. */
  lemma {:induction false} EachFirstEntryIsNotified(run: seq<State>, steps: seq<Step>, i: nat)
    requires IsRun(run, steps) && i < |run|
    ensures run[i].owed == Announced(run, steps, i) - Notified(steps[..i])
  {
    if i > 0 {
      EachFirstEntryIsNotified(run, steps, i - 1);
      RunKeepsInv(run, steps, i - 1);
      assert steps[..i][..i - 1] == steps[..i - 1];
      OwedInStep(run[i - 1], steps[i - 1]);
      hide Apply, Enabled, Init, Inv, Announces;
    }
  }

  lemma OwedInStep(s: State, a: Step)
    requires Inv(s) && Enabled(s, a)
    ensures Apply(s, a).owed == s.owed + (if Announces(s, a) then 1 else 0) - if a.Notify? then 1 else 0
  {
    if s.queue != [] {
      FrontIsMin(s.queue);
    }
    hide IsHeap, Once;
  }

  // -- progress ----------------------------------------------------------------------------------

  /** A step of the clock itself, of a thread that owes a notification, or of time.  No wait returns
      without a notification before its time. */
  predicate Genuine(s: State, a: Step) {
    && !a.Schedule? && !a.Shutdown?
    && (a.WakeUp? ==> s.thread.Busy? || (s.thread.Dozing? && s.thread.until <= s.now))
  }

  /** The second run goes on from the first one with genuine steps only. */
  ghost predicate GoesOn(run: seq<State>, steps: seq<Step>, run': seq<State>, steps': seq<Step>) {
    && IsRun(run, steps) && IsRun(run', steps') && run <= run' && steps <= steps'
    && forall i :: |steps| <= i < |steps'| ==> Genuine(run'[i], steps'[i])
  }

  lemma GoOn(run: seq<State>, steps: seq<Step>, run1: seq<State>, steps1: seq<Step>, a: Step)
    requires GoesOn(run, steps, run1, steps1) && Enabled(run1[|steps1|], a) && Genuine(run1[|steps1|], a)
    ensures GoesOn(run, steps, run1 + [Apply(run1[|steps1|], a)], steps1 + [a])
  {
    hide Apply, Enabled, Init, Genuine;
    var run2, steps2 := run1 + [Apply(run1[|steps1|], a)], steps1 + [a];
    forall k | 0 <= k < |steps2|
      ensures Enabled(run2[k], steps2[k]) && run2[k + 1] == Apply(run2[k], steps2[k])
      ensures |steps| <= k ==> Genuine(run2[k], steps2[k])
    {
      assert run2[k] == run1[k];
    }
  }

  /** How far the thread is from looking at the front of the queue. */
  function Distance(t: Thread): nat {
    match t
    case Busy(_) => 3
    case Asleep => 3
    case CheckEmpty => 2
    case Dozing(_) => 2
    case AtTop => 1
    case Done => 0
  }

  /** A genuine step towards running `e`, which is due. */
  lemma StepTowards(s: State, e: Entry) returns (a: Step)
    requires Inv(s) && e in s.queue && e.timeout <= s.now && !s.thread.Done?
    ensures Enabled(s, a) && Genuine(s, a)
    ensures var t := Apply(s, a);
      && t.now == s.now && t.closing == s.closing && (t.thread.Done? ==> s.closing)
      && (Takes(s, a, e) || (e in t.queue && (|t.queue| < |s.queue|
            || (|t.queue| == |s.queue| && Distance(t.thread) < Distance(s.thread)))))
  {
    FrontIsMin(s.queue);
    match s.thread
    case Busy(_) => a := WakeUp;
    case Asleep => a := Notify;
    case CheckEmpty => a := Check;
    case Dozing(until) => a := if until <= s.now then WakeUp else Notify;
    case AtTop =>
      var to := Arranged(s.queue[1..]);
      assert s.queue == [s.queue[0]] + s.queue[1..];
      a := Front(to);
      Popped(s.queue, to);
      assert |multiset(to)| + 1 == |multiset(s.queue)|;
  }

  lemma {:induction false} DueEntryCanRun(run: seq<State>, steps: seq<Step>, run1: seq<State>, steps1: seq<Step>, e: Entry)
    returns (run': seq<State>, steps': seq<Step>)
    requires GoesOn(run, steps, run1, steps1)
    requires e in run1[|steps1|].queue && e.timeout <= run1[|steps1|].now
    ensures GoesOn(run, steps, run', steps')
    ensures run'[|steps'|].closing == run1[|steps1|].closing
    ensures (run'[|steps'|].thread == Busy(e) && !e.sentinel) || (run'[|steps'|].thread.Done? && run'[|steps'|].closing)
    decreases |run1[|steps1|].queue|, Distance(run1[|steps1|].thread)
  {
    var s := run1[|steps1|];
    RunKeepsInv(run1, steps1, |steps1|);
    if s.thread.Done? {
      run', steps' := run1, steps1;
    } else {
      var a := StepTowards(s, e);
      GoOn(run, steps, run1, steps1, a);
      run', steps' := run1 + [Apply(s, a)], steps1 + [a];
      if !Takes(s, a, e) {
        hide GoesOn, Inv, Apply, Enabled, Genuine, Takes, Distance;
        run', steps' := DueEntryCanRun(run, steps, run', steps', e);
      }
    }
  }

  /** Nothing is forgotten: from every state of every run that is not shut down, each queued entry
      can be run although no wait returns by itself before its time. */
  lemma EntryCanRun(run: seq<State>, steps: seq<Step>, e: Entry) returns (run': seq<State>, steps': seq<Step>)
    requires IsRun(run, steps) && e in run[|steps|].queue && !run[|steps|].closing
    ensures GoesOn(run, steps, run', steps') && run'[|steps'|].thread == Busy(e)
  {
    var s := run[|steps|];
    var a := Tick(if e.timeout <= s.now then 0 else e.timeout - s.now);
    assert GoesOn(run, steps, run, steps);
    GoOn(run, steps, run, steps, a);
    hide GoesOn;
    run', steps' := DueEntryCanRun(run, steps, run + [Apply(s, a)], steps + [a], e);
  }

  /** And after the destructor has pushed its sentinel the clock can stop. */
  lemma ClockCanStop(run: seq<State>, steps: seq<Step>) returns (run': seq<State>, steps': seq<Step>)
    requires IsRun(run, steps) && run[|steps|].closing
    ensures GoesOn(run, steps, run', steps') && run'[|steps'|].thread.Done?
  {
    RunKeepsInv(run, steps, |steps|);
    var e :| e in run[|steps|].queue && e.sentinel;
    assert GoesOn(run, steps, run, steps);
    run', steps' := DueEntryCanRun(run, steps, run, steps, e);
  }
}
