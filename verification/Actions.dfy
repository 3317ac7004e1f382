/** An action: a function object that any number of threads race to run and to dispose.
    Every atomic operation is one step; a thread inside `dispose` or `resume` is a program
    counter in `ops`. */
module Actions {

  datatype ActionState = Scheduled | Running | DeferredDispose | Disposed

  datatype Pc =
    | DisposeLoad        // `dispose`: about to load the state
    | DisposeScheduled   // `dispose`: saw `scheduled`, about to CAS to `disposed`
    | DisposeRunning     // `dispose`: saw `running`, about to CAS to `deferred_dispose`
    | DisposeDestroy     // `dispose`: about to destroy the function object
    | RunCas             // `resume`: about to CAS away from `scheduled`
    | BeforeCall         // `resume`: won the CAS, about to call the function
    | InCall             // `resume`: inside the function
    | RunCasBack         // multi-shot: about to CAS from `running` to `scheduled`
    | RunCasDisposed     // multi-shot: about to CAS from `deferred_dispose` to `disposed`
    | RunDestroy         // `resume`: about to destroy the function object

  /** `calls` counts calls of the function, `runWins` and `disposeWins` the CASes that took
      the action out of `scheduled`, `destroyed` the destructions of the function object;
      `released` says that the action object itself is gone. */
  datatype Action = Action(
    singleShot: bool, state: ActionState, ops: multiset<Pc>,
    calls: nat, runWins: nat, disposeWins: nat, destroyed: nat, released: bool)

  datatype Step =
    | StartDispose | StartRun
    | Advance(pc: Pc)
    | SpuriousFailure(pc: Pc)   // a weak CAS may fail for no reason
    | Release                   // the last reference goes away

  predicate Init(s: Action) {
    s == Action(s.singleShot, Scheduled, multiset{}, 0, 0, 0, 0, false)
  }

  predicate Enabled(s: Action, a: Step) {
    match a
    case StartDispose => !s.released
    case StartRun => !s.released
    case Advance(pc) => pc in s.ops
    case SpuriousFailure(pc) => pc in s.ops && (pc == DisposeScheduled || pc == DisposeRunning)
    case Release => !s.released && s.ops == multiset{}
  }

  function Enter(s: Action, pc: Pc): Action {
    s.(ops := s.ops[pc := s.ops[pc] + 1])
  }

  function Leave(s: Action, pc: Pc): Action
    requires pc in s.ops
  {
    s.(ops := s.ops[pc := s.ops[pc] - 1])
  }

  function Apply(s: Action, a: Step): Action
    requires Enabled(s, a)
  {
    match a
    case StartDispose => Enter(s, DisposeLoad)
    case StartRun => Enter(s, RunCas)
    case Advance(pc) => Move(Leave(s, pc), pc)
    case SpuriousFailure(pc) => Enter(Leave(s, pc), DisposeLoad)
    case Release => s.(released := true, destroyed := if s.state == Scheduled then s.destroyed + 1 else s.destroyed)
  }

  /** What a thread at `pc` does; `s` no longer holds its old program counter. */
  function Move(s: Action, pc: Pc): Action {
    match pc
    case DisposeLoad =>
      if s.state == Scheduled then Enter(s, DisposeScheduled)
      else if s.state == Running then Enter(s, DisposeRunning)
      else s
    case DisposeScheduled =>
      if s.state == Scheduled
      then Enter(s.(state := Disposed, disposeWins := s.disposeWins + 1), DisposeDestroy)
      else Enter(s, DisposeLoad)
    case DisposeRunning =>
      if s.state == Running then s.(state := DeferredDispose) else Enter(s, DisposeLoad)
    case DisposeDestroy => s.(destroyed := s.destroyed + 1)
    case RunCas =>
      if s.state == Scheduled
      then Enter(s.(state := if s.singleShot then Disposed else Running, runWins := s.runWins + 1), BeforeCall)
      else s
    case BeforeCall => Enter(s.(calls := s.calls + 1), InCall)
    case InCall => Enter(s, if s.singleShot then RunDestroy else RunCasBack)
    case RunCasBack =>
      if s.state == Running then s.(state := Scheduled) else Enter(s, RunCasDisposed)
    case RunCasDisposed =>
      if s.state == DeferredDispose then Enter(s.(state := Disposed), RunDestroy) else Enter(s, RunDestroy)
    case RunDestroy => s.(destroyed := s.destroyed + 1)
  }

  ghost predicate IsRun(run: seq<Action>, steps: seq<Step>) {
    && |run| == |steps| + 1
    && Init(run[0])
    && forall i :: 0 <= i < |steps| ==> Enabled(run[i], steps[i]) && run[i + 1] == Apply(run[i], steps[i])
  }

  // -- the invariant ------------------------------------------------------------------------

  /** Threads between a successful CAS of `resume` and the end of the call. */
  function Callers(s: Action): nat {
    s.ops[BeforeCall] + s.ops[InCall]
  }

  /** Threads that own the function object and will destroy it. */
  function Destroyers(s: Action): nat {
    s.ops[DisposeDestroy] + s.ops[RunDestroy]
  }

  /** Who owns the function object, state by state. */
  predicate OwnerOk(s: Action) {
    match s.state
    case Scheduled =>
      && s.destroyed == (if s.released then 1 else 0)
      && Callers(s) + Destroyers(s) + s.ops[RunCasBack] + s.ops[RunCasDisposed] == 0
    case Running =>
      && !s.singleShot && !s.released && s.destroyed + Destroyers(s) + s.ops[RunCasDisposed] == 0
      && Callers(s) + s.ops[RunCasBack] == 1
    case DeferredDispose =>
      && !s.singleShot && !s.released && s.destroyed + Destroyers(s) == 0
      && Callers(s) + s.ops[RunCasBack] + s.ops[RunCasDisposed] == 1
    case Disposed =>
      && s.destroyed + Destroyers(s) + Callers(s) == 1
      && s.ops[RunCasBack] + s.ops[RunCasDisposed] == 0
      && (!s.singleShot ==> Callers(s) == 0)
  }

  predicate CountsOk(s: Action) {
    && s.runWins == s.calls + s.ops[BeforeCall]
    && (s.singleShot ==> s.runWins + s.disposeWins == if s.state == Scheduled then 0 else 1)
    && s.disposeWins <= 1
    && (s.disposeWins == 1 ==> s.state == Disposed)
    && (s.released ==> s.ops == multiset{})
  }

  predicate Inv(s: Action) {
    OwnerOk(s) && CountsOk(s)
  }

  lemma DisposeKeepsInv(s: Action, pc: Pc)
    requires Inv(s) && pc in s.ops
    requires pc.DisposeScheduled? || pc.DisposeDestroy?
    ensures Inv(Apply(s, Advance(pc)))
  {
  }

  lemma LoadKeepsInv(s: Action)
    requires Inv(s) && DisposeLoad in s.ops
    ensures Inv(Apply(s, Advance(DisposeLoad)))
  {
  }

  lemma DeferKeepsInv(s: Action)
    requires Inv(s) && DisposeRunning in s.ops
    ensures Inv(Apply(s, Advance(DisposeRunning)))
  {
  }

  lemma CallKeepsInv(s: Action, pc: Pc)
    requires Inv(s) && pc in s.ops && (pc.RunCas? || pc.BeforeCall? || pc.InCall?)
    ensures Inv(Apply(s, Advance(pc)))
  {
  }

  lemma ReturnKeepsInv(s: Action, pc: Pc)
    requires Inv(s) && pc in s.ops && (pc.RunCasBack? || pc.RunCasDisposed? || pc.RunDestroy?)
    ensures Inv(Apply(s, Advance(pc)))
  {
  }

  lemma OtherKeepsInv(s: Action, a: Step)
    requires Inv(s) && Enabled(s, a) && !a.Advance?
    ensures Inv(Apply(s, a))
  {
  }

  lemma ApplyKeepsInv(s: Action, a: Step)
    requires Inv(s) && Enabled(s, a)
    ensures Inv(Apply(s, a))
  {
    hide Inv, Apply;
    match a
    case Advance(pc) =>
      match pc {
        case RunCas => CallKeepsInv(s, pc);
        case BeforeCall => CallKeepsInv(s, pc);
        case InCall => CallKeepsInv(s, pc);
        case RunCasBack => ReturnKeepsInv(s, pc);
        case RunCasDisposed => ReturnKeepsInv(s, pc);
        case RunDestroy => ReturnKeepsInv(s, pc);
        case DisposeLoad => LoadKeepsInv(s);
        case DisposeRunning => DeferKeepsInv(s);
        case _ => DisposeKeepsInv(s, pc);
      }
    case _ => OtherKeepsInv(s, a);
  }

  lemma {:induction false} RunKeepsInv(run: seq<Action>, steps: seq<Step>, i: nat)
    requires IsRun(run, steps) && i < |run|
    ensures Inv(run[i])
  {
    if i > 0 {
      hide Inv, Apply;
      RunKeepsInv(run, steps, i - 1);
      ApplyKeepsInv(run[i - 1], steps[i - 1]);
    }
  }

  // -- main results ---------------------------------------------------------------------------

  /** The function object is destroyed at most once, never before or during a call, and calls
      never overlap; when the action object is gone it has been destroyed exactly once. */
  lemma FunctionIsSafe(run: seq<Action>, steps: seq<Step>, i: nat)
    requires IsRun(run, steps) && i < |run|
    ensures run[i].destroyed <= 1 && Callers(run[i]) <= 1
    ensures Callers(run[i]) == 1 ==> run[i].destroyed == 0 && Destroyers(run[i]) == 0
    ensures run[i].released ==> run[i].destroyed == 1
  {
    RunKeepsInv(run, steps, i);
  }

  /** A single-shot action leaves `scheduled` by exactly one CAS, and its function is called,
      once, iff that CAS was one of `resume`. */
  lemma SingleShotRunsAtMostOnce(run: seq<Action>, steps: seq<Step>, i: nat)
    requires IsRun(run, steps) && i < |run| && run[i].singleShot
    ensures run[i].runWins + run[i].disposeWins == if run[i].state == Scheduled then 0 else 1
    ensures run[i].calls + run[i].ops[BeforeCall] == run[i].runWins <= 1
    ensures run[i].released ==> run[i].calls == run[i].runWins
  {
    RunKeepsInv(run, steps, i);
  }

  /** The asserts of the source hold: a failed CAS back to `scheduled` saw `deferred_dispose`,
      the CAS after it succeeds, and the destructor never meets a running action. */
  lemma AssertsHold(run: seq<Action>, steps: seq<Step>, i: nat)
    requires IsRun(run, steps) && i < |steps|
    ensures steps[i] == Advance(RunCasBack) && run[i].state != Running ==> run[i].state == DeferredDispose
    ensures steps[i] == Advance(RunCasDisposed) ==> run[i].state == DeferredDispose
    ensures steps[i] == Release ==> run[i].state == Scheduled || run[i].state == Disposed
  {
    RunKeepsInv(run, steps, i);
  }

  /** Once disposed, or marked for it, an action stays so and no run ever starts again. */
  lemma {:induction false} DisposedStaysDisposed(run: seq<Action>, steps: seq<Step>, i: nat, j: nat)
    requires IsRun(run, steps) && i <= j < |run|
    requires run[i].state == DeferredDispose || run[i].state == Disposed
    ensures run[j].state == DeferredDispose || run[j].state == Disposed
    ensures run[j].runWins == run[i].runWins
    decreases j - i
  {
    hide Inv, Apply, Enabled;
    if i < j {
      DisposedStaysDisposed(run, steps, i, j - 1);
      RunKeepsInv(run, steps, j - 1);
      AfterDisposal(run[j - 1], steps[j - 1]);
    }
  }

  lemma AfterDisposal(s: Action, a: Step)
    requires Inv(s) && Enabled(s, a) && (s.state == DeferredDispose || s.state == Disposed)
    ensures Apply(s, a).state == DeferredDispose || Apply(s, a).state == Disposed
    ensures Apply(s, a).runWins == s.runWins
  {
  }

  // -- what calls of `resume` and `dispose` achieve -----------------------------------------------

  /** How many calls of `resume` and of `dispose` were made. */
  function Resumes(steps: seq<Step>): nat {
    if steps == [] then 0
    else Resumes(steps[..|steps| - 1]) + if steps[|steps| - 1] == StartRun then 1 else 0
  }

  function Disposals(steps: seq<Step>): nat {
    if steps == [] then 0
    else Disposals(steps[..|steps| - 1]) + if steps[|steps| - 1] == StartDispose then 1 else 0
  }

  /** Threads inside the loop of `dispose`. */
  function Disposers(s: Action): nat {
    s.ops[DisposeLoad] + s.ops[DisposeScheduled] + s.ops[DisposeRunning]
  }

  /** As long as nobody disposes the action, the first `resume` to reach its CAS wins it; a call of
      `dispose` is in progress until the action is disposed or marked for it. */
  predicate Explained(s: Action, resumes: nat, disposals: nat) {
    && s.runWins + s.ops[RunCas] <= resumes
    && (disposals == 0 ==>
         && Disposers(s) + s.ops[DisposeDestroy] + s.ops[RunCasDisposed] + s.disposeWins == 0
         && s.state != DeferredDispose && (s.state == Disposed ==> s.singleShot && s.runWins > 0)
         && (s.runWins == 0 ==> s.state == Scheduled && s.ops[RunCas] == resumes))
    && (disposals > 0 ==> s.state == Disposed || s.state == DeferredDispose || Disposers(s) > 0)
  }

  lemma CallStepExplained(s: Action, pc: Pc, resumes: nat, disposals: nat)
    requires Inv(s) && Explained(s, resumes, disposals) && pc in s.ops
    requires pc.BeforeCall? || pc.InCall? || pc.RunDestroy?
    ensures Explained(Apply(s, Advance(pc)), resumes, disposals)
  {
  }

  lemma CasStepExplained(s: Action, pc: Pc, resumes: nat, disposals: nat)
    requires Inv(s) && Explained(s, resumes, disposals) && pc in s.ops
    requires pc.RunCas? || pc.RunCasBack? || pc.RunCasDisposed?
    ensures Explained(Apply(s, Advance(pc)), resumes, disposals)
  {
  }

  lemma DisposeStepExplained(s: Action, pc: Pc, resumes: nat, disposals: nat)
    requires Inv(s) && Explained(s, resumes, disposals) && pc in s.ops
    requires pc.DisposeLoad? || pc.DisposeScheduled? || pc.DisposeRunning? || pc.DisposeDestroy?
    ensures Explained(Apply(s, Advance(pc)), resumes, disposals)
  {
  }

  lemma OtherStepExplained(s: Action, a: Step, resumes: nat, disposals: nat)
    requires Inv(s) && Explained(s, resumes, disposals) && Enabled(s, a) && !a.Advance?
    ensures Explained(Apply(s, a), resumes + (if a == StartRun then 1 else 0), disposals + if a == StartDispose then 1 else 0)
  {
  }

  lemma StepExplained(s: Action, a: Step, resumes: nat, disposals: nat)
    requires Inv(s) && Explained(s, resumes, disposals) && Enabled(s, a)
    ensures Explained(Apply(s, a), resumes + (if a == StartRun then 1 else 0), disposals + if a == StartDispose then 1 else 0)
  {
    hide Inv, Apply, Explained;
    match a
    case Advance(pc) =>
      match pc {
        case DisposeLoad => DisposeStepExplained(s, pc, resumes, disposals);
        case DisposeScheduled => DisposeStepExplained(s, pc, resumes, disposals);
        case DisposeRunning => DisposeStepExplained(s, pc, resumes, disposals);
        case DisposeDestroy => DisposeStepExplained(s, pc, resumes, disposals);
        case BeforeCall => CallStepExplained(s, pc, resumes, disposals);
        case InCall => CallStepExplained(s, pc, resumes, disposals);
        case RunDestroy => CallStepExplained(s, pc, resumes, disposals);
        case _ => CasStepExplained(s, pc, resumes, disposals);
      }
    case _ => OtherStepExplained(s, a, resumes, disposals);
  }

  lemma {:induction false} RunExplained(run: seq<Action>, steps: seq<Step>, i: nat)
    requires IsRun(run, steps) && i < |run|
    ensures Explained(run[i], Resumes(steps[..i]), Disposals(steps[..i]))
  {
    if i > 0 {
      hide Inv, Apply, Explained, Enabled;
      RunExplained(run, steps, i - 1);
      RunKeepsInv(run, steps, i - 1);
      assert steps[..i][..i - 1] == steps[..i - 1] && steps[..i][i - 1] == steps[i - 1];
      StepExplained(run[i - 1], steps[i - 1], Resumes(steps[..i - 1]), Disposals(steps[..i - 1]));
    }
  }

  /** When all calls have returned: an action that was disposed by anybody is disposed.  Otherwise, if
      it was resumed at all, a single-shot action was called once and destroyed its function, and a
      multi-shot one was called and is scheduled again.  Nobody calls the function without `resume`. */
  lemma CompletedCalls(run: seq<Action>, steps: seq<Step>, i: nat)
    requires IsRun(run, steps) && i < |run| && run[i].ops == multiset{}
    ensures Disposals(steps[..i]) > 0 ==> run[i].state == Disposed && run[i].destroyed == 1
    ensures Disposals(steps[..i]) == 0 && Resumes(steps[..i]) > 0 && run[i].singleShot ==>
      run[i].calls == 1 && run[i].destroyed == 1 && run[i].state == Disposed
    ensures Disposals(steps[..i]) == 0 && Resumes(steps[..i]) > 0 && !run[i].singleShot ==>
      run[i].calls >= 1 && run[i].state == Scheduled
    ensures run[i].calls <= Resumes(steps[..i])
  {
    RunKeepsInv(run, steps, i);
    RunExplained(run, steps, i);
  }

  /** No call of `resume` starts before the previous one returned. */
  ghost predicate OneAtATime(run: seq<Action>, steps: seq<Step>, i: nat)
    requires |run| == |steps| + 1 && i < |run|
  {
    forall k :: 0 <= k < i && steps[k] == StartRun ==> run[k].ops == multiset{}
  }

  /** The only thread inside an operation is at `pc`. */
  predicate Alone(s: Action, pc: Pc) {
    s.ops == multiset{pc}
  }

  /** At most one thread is inside an operation, and each `resume` so far has won its CAS, except for
      one that is about to try it. */
  predicate Sequential(s: Action, resumes: nat) {
    && !s.singleShot
    && ((s.ops == multiset{} && s.runWins == resumes)
        || (Alone(s, RunCas) && s.runWins + 1 == resumes)
        || (exists pc :: Alone(s, pc) && pc != RunCas && s.runWins == resumes))
  }

  lemma JustOne(pc: Pc)
    ensures multiset{}[pc := 1] == multiset{pc} && multiset{pc}[pc := 0] == multiset{}
  {
  }

  /** A thread inside `resume` moves on while nobody else does anything. */
  lemma AloneMove(s: Action, pc: Pc) returns (next: Pc)
    requires s.ops == multiset{} && InResume(pc) && !s.singleShot && (pc == RunCas ==> s.state == Scheduled)
    ensures var t := Move(s, pc);
      && !t.singleShot && t.runWins == s.runWins + (if pc == RunCas then 1 else 0)
      && next != RunCas && (t.ops == multiset{} || t.ops == multiset{next})
  {
    next := match pc
      case RunCas => BeforeCall
      case BeforeCall => InCall
      case InCall => RunCasBack
      case RunCasBack => RunCasDisposed
      case _ => RunDestroy;
    JustOne(next);
  }

  lemma AloneStep(s: Action, pc: Pc)
    requires Alone(s, pc) && InResume(pc) && !s.singleShot && (pc == RunCas ==> s.state == Scheduled)
    ensures var t := Apply(s, Advance(pc));
      && !t.singleShot && t.runWins == s.runWins + (if pc == RunCas then 1 else 0)
      && (t.ops == multiset{} || exists next :: next != RunCas && Alone(t, next))
  {
    JustOne(pc);
    hide Move;
    var next := AloneMove(Leave(s, pc), pc);
    assert Apply(s, Advance(pc)).ops == multiset{} || Alone(Apply(s, Advance(pc)), next);
  }

  lemma NotRunning(s: Action, resumes: nat)
    requires Inv(s) && Explained(s, resumes, 0) && Alone(s, RunCas) && !s.singleShot
    ensures s.state == Scheduled
  {
  }

  lemma SequentialStep(s: Action, a: Step, resumes: nat)
    requires Inv(s) && Explained(s, resumes, 0) && Enabled(s, a) && a != StartDispose && Sequential(s, resumes)
    requires a == StartRun ==> s.ops == multiset{}
    ensures Sequential(Apply(s, a), resumes + if a == StartRun then 1 else 0)
  {
    match a
    case Advance(pc) =>
      assert Alone(s, pc);
      if pc == RunCas {
        NotRunning(s, resumes);
      }
      assert InResume(pc);
      hide Apply, Explained, Inv, Alone;
      AloneStep(s, pc);
    case StartRun =>
      hide Explained, Inv;
      JustOne(RunCas);
    case SpuriousFailure(pc) => assert false;
    case Release => hide Explained, Inv;
  }

  /** A multi-shot action that nobody disposes is called once for each of such calls of `resume`. */
  lemma {:induction false} SequentialRuns(run: seq<Action>, steps: seq<Step>, i: nat)
    requires IsRun(run, steps) && i < |run| && !run[0].singleShot
    requires OneAtATime(run, steps, i) && Disposals(steps[..i]) == 0
    ensures Sequential(run[i], Resumes(steps[..i]))
    ensures run[i].ops == multiset{} ==> run[i].calls == Resumes(steps[..i])
  {
    if i > 0 {
      var n := i - 1;
      assert steps[..i][..n] == steps[..n] && steps[..i][n] == steps[n];
      SequentialRuns(run, steps, n);
      RunKeepsInv(run, steps, n);
      RunExplained(run, steps, n);
      hide Apply, Enabled, Explained, Sequential, Init, Inv;
      SequentialStep(run[n], steps[n], Resumes(steps[..n]));
    }
    hide Apply, Enabled, Explained, Init;
    RunKeepsInv(run, steps, i);
  }

  // -- every operation returns --------------------------------------------------------------------

  /** The work left for threads inside `resume`. */
  function RunWork(s: Action): nat {
    6 * s.ops[RunCas] + 5 * s.ops[BeforeCall] + 4 * s.ops[InCall] + 3 * s.ops[RunCasBack] + 2 * s.ops[RunCasDisposed]
    + s.ops[RunDestroy]
  }

  /** The work left for threads inside `dispose` when nobody is inside `resume`. */
  function DisposeWork(s: Action): nat {
    2 * s.ops[DisposeLoad] + 3 * s.ops[DisposeRunning] + s.ops[DisposeDestroy]
    + (if s.state == Scheduled then 1 else 3) * s.ops[DisposeScheduled]
  }

  predicate InResume(pc: Pc) {
    pc.RunCas? || pc.BeforeCall? || pc.InCall? || pc.RunCasBack? || pc.RunCasDisposed? || pc.RunDestroy?
  }

  function RunWeight(pc: Pc): nat {
    match pc
    case RunCas => 6
    case BeforeCall => 5
    case InCall => 4
    case RunCasBack => 3
    case RunCasDisposed => 2
    case RunDestroy => 1
    case _ => 0
  }

  lemma WorkOfEntering(s: Action, pc: Pc)
    ensures RunWork(Enter(s, pc)) == RunWork(s) + RunWeight(pc)
  {
    var more := Enter(s, pc).ops;
    assert forall q :: more[q] == s.ops[q] + if q == pc then 1 else 0;
    hide Enter;
  }

  lemma WorkOfLeaving(s: Action, pc: Pc)
    requires pc in s.ops
    ensures RunWork(Leave(s, pc)) == RunWork(s) - RunWeight(pc)
    ensures InResume(pc) ==> RunWeight(pc) > 0
  {
    WorkOfEntering(Leave(s, pc), pc);
    assert Enter(Leave(s, pc), pc) == s;
    hide RunWork, Enter, Leave;
  }

  /** Where a thread inside `resume` goes from `pc`, if it does not return. */
  lemma NextInResume(s: Action, pc: Pc) returns (next: Pc)
    requires InResume(pc)
    ensures Move(s, pc).ops == s.ops || (Move(s, pc).ops == Enter(s, next).ops && RunWeight(next) < RunWeight(pc))
  {
    match pc
    case RunCas => next := BeforeCall;
    case BeforeCall => next := InCall;
    case InCall => next := if s.singleShot then RunDestroy else RunCasBack;
    case RunCasBack => next := RunCasDisposed;
    case _ => next := RunDestroy;
  }

  lemma ResumeDecreases(s: Action, pc: Pc)
    requires pc in s.ops && InResume(pc)
    ensures RunWork(Apply(s, Advance(pc))) < RunWork(s)
  {
    var left := Leave(s, pc);
    hide Enter, Leave, Move, RunWeight, RunWork;
    WorkOfLeaving(s, pc);
    var next := NextInResume(left, pc);
    WorkOfEntering(left, next);
    SameWork(Move(left, pc), left);
    SameWork(Move(left, pc), Enter(left, next));
  }

  lemma SameWork(s: Action, t: Action)
    ensures s.ops == t.ops ==> RunWork(s) == RunWork(t)
  {
  }

  /** With nobody inside `resume`, what is left after a step of `dispose` is less, or the step
      disposed the action. */
  predicate Less(t: Action, s: Action) {
    && RunWork(t) == 0 && (s.state != Scheduled ==> t.state != Scheduled)
    && ((s.state == Scheduled && t.state != Scheduled) || DisposeWork(t) < DisposeWork(s))
  }

  lemma LoadDecreases(s: Action)
    requires Inv(s) && RunWork(s) == 0 && DisposeLoad in s.ops
    ensures Less(Apply(s, Advance(DisposeLoad)), s)
  {
  }

  lemma DisposeDecreases(s: Action)
    requires RunWork(s) == 0 && DisposeScheduled in s.ops
    ensures Less(Apply(s, Advance(DisposeScheduled)), s)
  {
  }

  lemma DeferDecreases(s: Action)
    requires RunWork(s) == 0 && DisposeRunning in s.ops
    ensures Less(Apply(s, Advance(DisposeRunning)), s)
  {
  }

  lemma DestroyDecreases(s: Action)
    requires RunWork(s) == 0 && DisposeDestroy in s.ops
    ensures Less(Apply(s, Advance(DisposeDestroy)), s)
  {
  }

  /** Some thread can make the work smaller. */
  lemma SomebodyDecreases(s: Action) returns (pc: Pc)
    requires Inv(s) && s.ops != multiset{}
    ensures pc in s.ops
    ensures var t := Apply(s, Advance(pc));
      RunWork(t) < RunWork(s) || (RunWork(s) == 0 && Less(t, s))
  {
    hide Inv, Apply, RunWork, Less;
    if pc' :| pc' in s.ops && InResume(pc') {
      pc := pc';
      ResumeDecreases(s, pc);
    } else {
      pc :| pc in s.ops;
      assert !InResume(pc);
      NothingToRun(s);
      match pc
      case DisposeLoad => LoadDecreases(s);
      case DisposeScheduled => DisposeDecreases(s);
      case DisposeRunning => DeferDecreases(s);
      case DisposeDestroy => DestroyDecreases(s);
    }
  }

  lemma NothingToRun(s: Action)
    requires forall pc :: pc in s.ops ==> !InResume(pc)
    ensures RunWork(s) == 0
  {
    assert forall pc :: InResume(pc) ==> s.ops[pc] == 0;
  }

  /** From every state of every run all calls can return, without any new ones. */
  lemma {:induction false} CallsReturn(run: seq<Action>, steps: seq<Step>) returns (run': seq<Action>, steps': seq<Step>)
    requires IsRun(run, steps)
    ensures IsRun(run', steps') && run <= run' && steps <= steps' && run'[|steps'|].ops == multiset{}
    ensures Resumes(steps') == Resumes(steps) && Disposals(steps') == Disposals(steps)
    decreases RunWork(run[|steps|]), run[|steps|].state == Scheduled, DisposeWork(run[|steps|])
  {
    var n := |steps|;
    var s := run[n];
    if s.ops == multiset{} {
      return run, steps;
    }
    RunKeepsInv(run, steps, n);
    var pc := SomebodyDecreases(s);
    var step := Advance(pc);
    var t := Apply(s, step);
    hide Apply, Init, Inv, RunWork, DisposeWork;
    Extend(run, steps, step);
    assert (steps + [step])[..n] == steps;
    run', steps' := CallsReturn(run + [t], steps + [step]);
  }

  lemma Extend(run: seq<Action>, steps: seq<Step>, step: Step)
    requires IsRun(run, steps) && Enabled(run[|steps|], step)
    ensures IsRun(run + [Apply(run[|steps|], step)], steps + [step])
  {
    hide Apply, Enabled, Init;
    var run', steps' := run + [Apply(run[|steps|], step)], steps + [step];
    forall k | 0 <= k < |steps'|
      ensures Enabled(run'[k], steps'[k]) && run'[k + 1] == Apply(run'[k], steps'[k])
    {
      assert run'[k] == run[k];
    }
  }
}
