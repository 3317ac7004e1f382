/** How a blocking actor waits for messages: it marks its mailbox as blocked and sleeps on a
    condition variable; the sender whose push removes the mark notifies it. */
module Handshake {

  datatype Lock = Free | ByReader | BySender

  /** Where the actor is inside `await_data`. */
  datatype Reader =
    | Outside                      // not waiting
    | TryBlock                     // about to mark the mailbox as blocked
    | WantsLock                    // marked it, about to lock the mutex
    | Checks                       // holds the mutex, about to test `blocked()`
    | Waits                        // inside the wait, mutex released
    | Relocks(timedOut: bool)      // woke up, about to lock the mutex again
    | Unblocks                     // timed out, holds the mutex, about to remove the mark
    | Returned(hasData: bool)

  /** `size` is the number of messages in the mailbox; `owing` counts senders between a push
      that removed the mark and the lock of the mutex. */
  datatype State = State(size: nat, blocked: bool, lock: Lock, reader: Reader, timed: bool, owing: nat)

  datatype Step =
    | Push                         // a sender: `push_back`
    | SenderLocks                  // a sender that unblocked the reader locks the mutex
    | SenderNotifies               // and notifies, then unlocks
    | Await(timed: bool)
    | ReaderMoves                  // the reader's next atomic step
    | ReaderWakes(timedOut: bool)  // a wait returns by itself or by timeout
    | PopFront

  predicate Init(s: State) {
    s == State(0, false, Free, Outside, false, 0)
  }

  predicate Enabled(s: State, a: Step) {
    match a
    case Push => true
    case SenderLocks => s.owing > 0 && s.lock == Free
    case SenderNotifies => s.lock == BySender
    case Await(_) => s.reader == Outside
    case ReaderMoves =>
      match s.reader {
        case TryBlock => true
        case WantsLock => s.lock == Free
        case Checks => true
        case Relocks(_) => s.lock == Free
        case Unblocks => true
        case Returned(hasData) => !hasData
        case _ => false
      }
    case ReaderWakes(timedOut) => s.reader == Waits && (timedOut ==> s.timed)
    case PopFront => s.reader == Returned(true)
  }

  function Apply(s: State, a: Step): State
    requires Enabled(s, a)
  {
    match a
    case Push =>
      s.(size := s.size + 1, blocked := false, owing := if s.blocked then s.owing + 1 else s.owing)
    case SenderLocks => s.(owing := s.owing - 1, lock := BySender)
    case SenderNotifies => s.(lock := Free, reader := if s.reader == Waits then Relocks(false) else s.reader)
    case Await(timed) => s.(reader := TryBlock, timed := timed)
    case ReaderWakes(timedOut) => s.(reader := Relocks(timedOut))
    case PopFront => s.(size := if s.size > 0 then s.size - 1 else 0, reader := Outside)
    case ReaderMoves =>
      match s.reader
      case TryBlock => if s.size == 0 then s.(blocked := true, reader := WantsLock) else s.(reader := Returned(true))
      case WantsLock => s.(lock := ByReader, reader := Checks)
      case Checks => s.(lock := Free, reader := if s.blocked then Waits else Returned(true))
      case Relocks(timedOut) => s.(lock := ByReader, reader := if timedOut then Unblocks else Checks)
      case Unblocks => s.(lock := Free, blocked := false, reader := Returned(!s.blocked))
      case Returned(_) => s.(reader := Outside)
      case _ => s
  }

  ghost predicate IsRun(run: seq<State>, steps: seq<Step>) {
    && |run| == |steps| + 1
    && Init(run[0])
    && forall i :: 0 <= i < |steps| ==> Enabled(run[i], steps[i]) && run[i + 1] == Apply(run[i], steps[i])
  }

  predicate Marked(r: Reader) {
    r.WantsLock? || r.Checks? || r.Waits? || r.Relocks? || r.Unblocks?
  }

  predicate Inv(s: State) {
    && (s.blocked ==> s.size == 0 && Marked(s.reader))
    && (Marked(s.reader) && !s.blocked ==> s.size > 0)
    && (s.reader == Returned(true) ==> s.size > 0)
    && (s.lock == ByReader <==> s.reader.Checks? || s.reader.Unblocks?)
    && (s.reader == Waits && !s.blocked ==> s.owing > 0 || s.lock == BySender)
    && (s.reader == Relocks(true) || s.reader.Unblocks? || s.reader == Returned(false) ==> s.timed)
  }

  lemma ApplyKeepsInv(s: State, a: Step)
    requires Inv(s) && Enabled(s, a)
    ensures Inv(Apply(s, a))
  {
  }

  lemma {:induction false} RunKeepsInv(run: seq<State>, steps: seq<Step>, i: nat)
    requires IsRun(run, steps) && i < |run|
    ensures Inv(run[i])
  {
    if i > 0 {
      hide Inv, Apply;
      RunKeepsInv(run, steps, i - 1);
      ApplyKeepsInv(run[i - 1], steps[i - 1]);
    }
  }

  /** No wakeup is lost: whenever the actor sleeps although its mailbox is no longer marked,
      some sender has not notified yet, and that sender can take its next step. */
  lemma NoLostWakeup(run: seq<State>, steps: seq<Step>, i: nat)
    requires IsRun(run, steps) && i < |run| && run[i].reader == Waits
    ensures run[i].size > 0 <==> !run[i].blocked
    ensures run[i].size > 0 ==> run[i].owing > 0 || run[i].lock == BySender
    ensures run[i].size > 0 ==> Enabled(run[i], SenderLocks) || Enabled(run[i], SenderNotifies)
  {
    RunKeepsInv(run, steps, i);
  }

  /** `await_data` only reports data when there is some, so the message that `receive_impl`
      takes next exists; only a timed wait reports that there is none, and at that moment the
      mailbox is empty and unmarked. */
  lemma AwaitIsHonest(run: seq<State>, steps: seq<Step>, i: nat)
    requires IsRun(run, steps) && i < |run|
    ensures run[i].reader == Returned(true) ==> run[i].size > 0
    ensures run[i].reader == Returned(false) ==> run[i].timed && !run[i].blocked
    ensures 0 < i && run[i].reader == Returned(false) && run[i - 1].reader != Returned(false) ==>
              run[i].size == 0
    ensures i < |steps| && steps[i] == PopFront ==> run[i + 1].size == run[i].size - 1 && run[i + 1].reader == Outside
  {
    RunKeepsInv(run, steps, i);
    if i > 0 {
      RunKeepsInv(run, steps, i - 1);
    }
  }

  /** The actor never gets stuck inside `await_data`: it can move, or a sender must move first,
      or it sleeps on an empty mailbox. */
  lemma AwaitMakesProgress(run: seq<State>, steps: seq<Step>, i: nat)
    requires IsRun(run, steps) && i < |run| && run[i].reader != Outside
    ensures || Enabled(run[i], ReaderMoves)
            || Enabled(run[i], PopFront)
            || Enabled(run[i], SenderLocks)
            || Enabled(run[i], SenderNotifies)
            || (run[i].reader == Waits && run[i].size == 0)
  {
    RunKeepsInv(run, steps, i);
  }

  // -- what the steps so far amount to -----------------------------------------------------------

  function Times(steps: seq<Step>, a: Step): nat {
    if steps == [] then 0 else Times(steps[..|steps| - 1], a) + if steps[|steps| - 1] == a then 1 else 0
  }

  /** Pushes that removed the mark. */
  function Unblocking(run: seq<State>, steps: seq<Step>, i: nat): nat
    requires |run| == |steps| + 1 && i < |run|
  {
    if i == 0 then 0
    else Unblocking(run, steps, i - 1) + if steps[i - 1] == Push && run[i - 1].blocked then 1 else 0
  }

  /** The mailbox holds what was pushed and not popped, and each push that removed the mark is followed
      by one notification. */
  lemma {:induction false} NothingIsLost(run: seq<State>, steps: seq<Step>, i: nat)
    requires IsRun(run, steps) && i < |run|
    ensures run[i].size == Times(steps[..i], Push) - Times(steps[..i], PopFront)
    ensures run[i].owing == Unblocking(run, steps, i) - Times(steps[..i], SenderLocks)
    ensures Times(steps[..i], SenderLocks) == Times(steps[..i], SenderNotifies) + if run[i].lock == BySender then 1 else 0
  {
    if i > 0 {
      var s, a := run[i - 1], steps[i - 1];
      NothingIsLost(run, steps, i - 1);
      RunKeepsInv(run, steps, i - 1);
      assert steps[..i][..i - 1] == steps[..i - 1];
      assert Apply(s, a).size == s.size + (if a == Push then 1 else 0) - if a == PopFront then 1 else 0;
    }
  }

  // -- waits end -----------------------------------------------------------------------------------

  /** The second run goes on from the first one without spurious wakeups and new messages. */
  ghost predicate GoesOn(run: seq<State>, steps: seq<Step>, run': seq<State>, steps': seq<Step>) {
    && IsRun(run, steps) && IsRun(run', steps') && run <= run' && steps <= steps'
    && forall i :: |steps| <= i < |steps'| ==> steps'[i] != Push && steps'[i] != ReaderWakes(false)
  }

  lemma GoOn(run: seq<State>, steps: seq<Step>, run1: seq<State>, steps1: seq<Step>, a: Step)
    requires GoesOn(run, steps, run1, steps1) && Enabled(run1[|steps1|], a) && a != Push && a != ReaderWakes(false)
    ensures GoesOn(run, steps, run1 + [Apply(run1[|steps1|], a)], steps1 + [a])
  {
    hide Apply, Enabled, Init;
    var run2, steps2 := run1 + [Apply(run1[|steps1|], a)], steps1 + [a];
    forall k | 0 <= k < |steps2|
      ensures Enabled(run2[k], steps2[k]) && run2[k + 1] == Apply(run2[k], steps2[k])
    {
      assert run2[k] == run1[k];
    }
  }

  function Stage(r: Reader): nat {
    match r
    case Waits => 3
    case WantsLock => 2
    case Relocks(_) => 2
    case Checks => 1
    case Unblocks => 1
    case TryBlock => 1
    case _ => 0
  }

  function Unlocked(s: State): nat {
    if s.lock == BySender then 1 else 0
  }

  predicate Closer(t: State, s: State) {
    || Stage(t.reader) < Stage(s.reader)
    || (t.reader == s.reader && t.owing < s.owing)
    || (t.reader == s.reader && t.owing == s.owing && Unlocked(t) < Unlocked(s))
  }

  lemma NextMove(s: State) returns (a: Step)
    requires Inv(s) && s.size > 0 && Stage(s.reader) > 0
    ensures Enabled(s, a) && a != Push && !a.ReaderWakes? && !a.Await? && a != PopFront
    ensures Closer(Apply(s, a), s) && Apply(s, a).size == s.size
    ensures Stage(Apply(s, a).reader) == 0 ==> Apply(s, a).reader == Returned(true)
  {
    if s.lock == BySender {
      a := SenderNotifies;
    } else if s.reader == Waits {
      a := SenderLocks;
    } else {
      a := ReaderMoves;
    }
  }

  /** An actor inside `await_data` with a message in its mailbox can always get it, although its wait
      does not end by itself. */
  lemma {:induction false} WakesForMessage(run: seq<State>, steps: seq<Step>, run1: seq<State>, steps1: seq<Step>)
    returns (run': seq<State>, steps': seq<Step>)
    requires GoesOn(run, steps, run1, steps1) && run1[|steps1|].size > 0 && Stage(run1[|steps1|].reader) > 0
    ensures GoesOn(run, steps, run', steps') && run'[|steps'|].reader == Returned(true)
    ensures run'[|steps'|].size == run1[|steps1|].size
    decreases Stage(run1[|steps1|].reader), run1[|steps1|].owing, Unlocked(run1[|steps1|])
  {
    var s := run1[|steps1|];
    RunKeepsInv(run1, steps1, |steps1|);
    hide Inv, Apply, Enabled, Stage, Unlocked;
    var a := NextMove(s);
    GoOn(run, steps, run1, steps1, a);
    run', steps' := run1 + [Apply(s, a)], steps1 + [a];
    if Stage(Apply(s, a).reader) > 0 {
      hide GoesOn;
      run', steps' := WakesForMessage(run, steps, run', steps');
    }
  }

  /** A timed wait on an empty mailbox can come to its end, and then reports that there is nothing and
      leaves everything as if it had not waited. */
  lemma TimedWaitEnds(run: seq<State>, steps: seq<Step>) returns (run': seq<State>, steps': seq<Step>)
    requires IsRun(run, steps) && run[|steps|].reader == Outside && run[|steps|].size == 0
    ensures GoesOn(run, steps, run', steps') && |steps'| > |steps| && run'[|steps'| - 1].reader == Returned(false)
    ensures run'[|steps'|] == run[|steps|].(timed := true, lock := Free)
  {
    RunKeepsInv(run, steps, |steps|);
    run', steps' := LetSendersGo(run, steps, run, steps);
    hide GoesOn;
    run', steps' := FallAsleep(run, steps, run', steps');
    run', steps' := TimeOut(run, steps, run', steps');
    ghost var reported := run'[|steps'|];
    run', steps' := OneStep(run, steps, run', steps', ReaderMoves);
    assert run'[|steps'| - 1] == reported;
  }

  lemma FallAsleep(run: seq<State>, steps: seq<Step>, run1: seq<State>, steps1: seq<Step>)
    returns (run': seq<State>, steps': seq<Step>)
    requires GoesOn(run, steps, run1, steps1)
    requires var s := run1[|steps1|]; s.reader == Outside && s.size == 0 && s.lock == Free
    ensures GoesOn(run, steps, run', steps') && |steps'| >= |steps1|
    ensures run'[|steps'|] == run1[|steps1|].(timed := true, blocked := true, reader := Waits)
  {
    hide GoesOn;
    run', steps' := OneStep(run, steps, run1, steps1, Await(true));
    run', steps' := OneStep(run, steps, run', steps', ReaderMoves);
    run', steps' := OneStep(run, steps, run', steps', ReaderMoves);
    run', steps' := OneStep(run, steps, run', steps', ReaderMoves);
  }

  lemma TimeOut(run: seq<State>, steps: seq<Step>, run1: seq<State>, steps1: seq<Step>)
    returns (run': seq<State>, steps': seq<Step>)
    requires GoesOn(run, steps, run1, steps1)
    requires var s := run1[|steps1|]; s.reader == Waits && s.timed && s.blocked && s.lock == Free
    ensures GoesOn(run, steps, run', steps') && |steps'| >= |steps1|
    ensures run'[|steps'|] == run1[|steps1|].(blocked := false, reader := Returned(false))
  {
    hide GoesOn;
    run', steps' := OneStep(run, steps, run1, steps1, ReaderWakes(true));
    run', steps' := OneStep(run, steps, run', steps', ReaderMoves);
    run', steps' := OneStep(run, steps, run', steps', ReaderMoves);
  }

  lemma OneStep(run: seq<State>, steps: seq<Step>, run1: seq<State>, steps1: seq<Step>, a: Step)
    returns (run': seq<State>, steps': seq<Step>)
    requires GoesOn(run, steps, run1, steps1) && Enabled(run1[|steps1|], a) && a != Push && a != ReaderWakes(false)
    ensures GoesOn(run, steps, run', steps') && |steps'| == |steps1| + 1
    ensures run'[|steps'|] == Apply(run1[|steps1|], a) && run'[|steps1|] == run1[|steps1|]
  {
    GoOn(run, steps, run1, steps1, a);
    run', steps' := run1 + [Apply(run1[|steps1|], a)], steps1 + [a];
  }

  lemma LetSendersGo(run: seq<State>, steps: seq<Step>, run1: seq<State>, steps1: seq<Step>)
    returns (run': seq<State>, steps': seq<Step>)
    requires GoesOn(run, steps, run1, steps1) && run1[|steps1|].reader == Outside
    ensures GoesOn(run, steps, run', steps') && |steps'| >= |steps1|
    ensures run'[|steps'|] == run1[|steps1|].(lock := Free)
  {
    RunKeepsInv(run1, steps1, |steps1|);
    run', steps' := run1, steps1;
    if run1[|steps1|].lock == BySender {
      run', steps' := OneStep(run, steps, run', steps', SenderNotifies);
    }
  }
}
