/** The actor control block: strong and weak reference counts shared by any number of
    threads.  Every atomic operation is one step; a thread in the middle of an operation
    is a program counter in `ops` (or its expected value in `upgrading`). */
module RefCounts {

  /** Program points inside `intrusive_ptr_release` and `intrusive_ptr_release_weak`. */
  datatype Pc =
    | TestTerminated   // the strong count just dropped to 0
    | CloseMailbox     // not terminated: about to close the mailbox
    | Bump             // about to bump the strong count back to 1
    | Unreachable      // about to run `on_unreachable`
    | Unbump           // about to drop the bumped reference
    | Destroy          // about to run the actor's destructor
    | WeakLoad         // about to compare the weak count with 1
    | WeakSub          // about to decrement the weak count
    | FreeBlock        // about to destroy and free the control block

  /** `held*` are the references owned by handles; `destroyed` and `freed` count how often
      the destructor of the actor ran and the block was freed. */
  datatype Block = Block(
    strong: int, weak: int, terminated: bool, mailboxClosed: bool,
    destroyed: nat, freed: nat,
    heldStrong: nat, heldWeak: nat,
    upgrading: multiset<int>, ops: multiset<Pc>)

  datatype Step =
    | AddStrong | AddWeak | Terminate
    | LoadStrong                   // upgrade: initial load
    | CasSucceeds(expected: int)   // upgrade: CAS(expected, expected + 1)
    | CasFails(expected: int)      // upgrade: CAS fails and reloads
    | ReleaseStrong | ReleaseWeak
    | Advance(pc: Pc)

  predicate Init(s: Block) {
    s == Block(1, 1, false, false, 0, 0, 1, 0, multiset{}, multiset{})
  }

  /** One more thread at `pc`. */
  function Enter(ops: multiset<Pc>, pc: Pc): multiset<Pc> {
    ops[pc := ops[pc] + 1]
  }

  /** A thread may only use references it owns; the thread that runs the cleanup owns the
      bumped one. */
  predicate Enabled(s: Block, a: Step) {
    match a
    case AddStrong => s.heldStrong > 0 || Unreachable in s.ops
    case AddWeak => s.heldStrong > 0 || s.heldWeak > 0 || Unreachable in s.ops
    case Terminate => s.heldStrong > 0
    case LoadStrong => s.heldWeak > 0
    case CasSucceeds(e) => e in s.upgrading && s.strong == e
    case CasFails(e) => e in s.upgrading
    case ReleaseStrong => s.heldStrong > 0
    case ReleaseWeak => s.heldWeak > 0
    case Advance(pc) => pc in s.ops
  }

  function Apply(s: Block, a: Step): Block
    requires Enabled(s, a)
  {
    match a
    case AddStrong => s.(strong := s.strong + 1, heldStrong := s.heldStrong + 1)
    case AddWeak => s.(weak := s.weak + 1, heldWeak := s.heldWeak + 1)
    case Terminate => s.(terminated := true)
    case LoadStrong =>
      if s.strong == 0 then s
      else s.(heldWeak := s.heldWeak - 1, upgrading := s.upgrading + multiset{s.strong})
    case CasSucceeds(e) =>
      s.(strong := s.strong + 1, upgrading := s.upgrading - multiset{e},
      heldStrong := s.heldStrong + 1, heldWeak := s.heldWeak + 1)
    case CasFails(e) =>
      if s.strong == 0 then s.(upgrading := s.upgrading - multiset{e}, heldWeak := s.heldWeak + 1)
      else s.(upgrading := s.upgrading - multiset{e} + multiset{s.strong})
    case ReleaseStrong =>
      s.(strong := s.strong - 1, heldStrong := s.heldStrong - 1,
      ops := if s.strong == 1 then Enter(s.ops, TestTerminated) else s.ops)
    case ReleaseWeak =>
      s.(heldWeak := s.heldWeak - 1, ops := Enter(s.ops, WeakLoad))
    case Advance(pc) => Run(s.(ops := s.ops[pc := s.ops[pc] - 1]), pc)
  }

  /** What a thread at `pc` does; `s` no longer holds its old program counter. */
  function Run(s: Block, pc: Pc): Block {
    match pc
    case TestTerminated => s.(ops := Enter(s.ops, if s.terminated then Destroy else CloseMailbox))
    case CloseMailbox => s.(mailboxClosed := true, ops := Enter(s.ops, Bump))
    case Bump => s.(strong := s.strong + 1, ops := Enter(s.ops, Unreachable))
    case Unreachable => s.(terminated := true, ops := Enter(s.ops, Unbump))
    case Unbump =>
      s.(strong := s.strong - 1, ops := if s.strong != 1 then s.ops else Enter(s.ops, Destroy))
    case Destroy => s.(destroyed := s.destroyed + 1, ops := Enter(s.ops, WeakLoad))
    case WeakLoad => s.(ops := Enter(s.ops, if s.weak == 1 then FreeBlock else WeakSub))
    case WeakSub =>
      s.(weak := s.weak - 1, ops := if s.weak == 1 then Enter(s.ops, FreeBlock) else s.ops)
    case FreeBlock => s.(freed := s.freed + 1)
  }

  ghost predicate IsRun(run: seq<Block>, steps: seq<Step>) {
    && |run| == |steps| + 1
    && Init(run[0])
    && forall i :: 0 <= i < |steps| ==> Enabled(run[i], steps[i]) && run[i + 1] == Apply(run[i], steps[i])
  }

  // -- the invariant ------------------------------------------------------------------

  /** Threads in the tail of `intrusive_ptr_release`, before the destructor returned. */
  function Tail(s: Block): nat {
    s.ops[TestTerminated] + s.ops[CloseMailbox] + s.ops[Bump] + s.ops[Unreachable] + s.ops[Unbump] + s.ops[Destroy]
  }

  /** Owners of a weak reference; the actor itself owns one until it is destroyed. */
  function WeakOwners(s: Block): nat {
    s.heldWeak + |s.upgrading| + s.ops[WeakLoad] + s.ops[WeakSub] + if s.destroyed == 0 then 1 else 0
  }

  predicate StrongOk(s: Block) {
    && s.strong == s.heldStrong + s.ops[Unreachable] + s.ops[Unbump]
    && s.destroyed + Tail(s) <= 1
    && (s.heldStrong == 0 ==> s.destroyed + Tail(s) == 1)
    && (s.ops[TestTerminated] + s.ops[CloseMailbox] + s.ops[Bump] + s.ops[Destroy] + s.destroyed > 0 ==>
          s.heldStrong == 0)
    && (s.ops[Unbump] + s.ops[Destroy] + s.destroyed > 0 ==> s.terminated)
    && (s.ops[Bump] + s.ops[Unreachable] > 0 ==> s.mailboxClosed)
    && (forall e :: e in s.upgrading ==> e != 0)
  }

  predicate WeakOk(s: Block) {
    && s.freed + s.ops[FreeBlock] <= 1
    && (s.freed + s.ops[FreeBlock] == 1 ==> WeakOwners(s) == 0)
    && (s.freed + s.ops[FreeBlock] == 0 ==> s.weak == WeakOwners(s) >= 1)
  }

  predicate Inv(s: Block) {
    StrongOk(s) && WeakOk(s)
  }

  lemma HandleKeepsInv(s: Block, a: Step)
    requires Inv(s) && Enabled(s, a) && !a.Advance? && !a.CasSucceeds? && !a.CasFails? && !a.LoadStrong?
    ensures Inv(Apply(s, a))
  {
  }

  lemma UpgradeKeepsInv(s: Block, a: Step)
    requires Inv(s) && Enabled(s, a) && (a.CasSucceeds? || a.CasFails? || a.LoadStrong?)
    ensures Inv(Apply(s, a))
  {
  }

  lemma TestKeepsInv(s: Block)
    requires Inv(s) && TestTerminated in s.ops
    ensures Inv(Apply(s, Advance(TestTerminated)))
  {
  }

  lemma ReviveKeepsInv(s: Block, pc: Pc)
    requires Inv(s) && pc in s.ops && (pc.CloseMailbox? || pc.Bump?)
    ensures Inv(Apply(s, Advance(pc)))
  {
  }

  lemma FinishKeepsInv(s: Block, pc: Pc)
    requires Inv(s) && pc in s.ops && (pc.Unreachable? || pc.Unbump? || pc.Destroy?)
    ensures Inv(Apply(s, Advance(pc)))
  {
    hide Inv, Apply;
    match pc
    case Unreachable => UnreachableKeepsInv(s);
    case Unbump => UnbumpKeepsInv(s);
    case Destroy => DestroyKeepsInv(s);
  }

  lemma UnreachableKeepsInv(s: Block)
    requires Inv(s) && Unreachable in s.ops
    ensures Inv(Apply(s, Advance(Unreachable)))
  {
  }

  lemma UnbumpKeepsInv(s: Block)
    requires Inv(s) && Unbump in s.ops
    ensures Inv(Apply(s, Advance(Unbump)))
  {
  }

  lemma DestroyKeepsInv(s: Block)
    requires Inv(s) && Destroy in s.ops
    ensures Inv(Apply(s, Advance(Destroy)))
  {
  }

  lemma WeakLoadKeepsInv(s: Block)
    requires Inv(s) && WeakLoad in s.ops
    ensures Inv(Apply(s, Advance(WeakLoad)))
  {
  }

  lemma FreeKeepsInv(s: Block, pc: Pc)
    requires Inv(s) && pc in s.ops && (pc.WeakSub? || pc.FreeBlock?)
    ensures Inv(Apply(s, Advance(pc)))
  {
  }

  lemma ApplyKeepsInv(s: Block, a: Step)
    requires Inv(s) && Enabled(s, a)
    ensures Inv(Apply(s, a))
  {
    hide Inv, Apply;
    match a
    case Advance(pc) =>
      match pc {
        case TestTerminated => TestKeepsInv(s);
        case CloseMailbox => ReviveKeepsInv(s, pc);
        case Bump => ReviveKeepsInv(s, pc);
        case WeakLoad => WeakLoadKeepsInv(s);
        case WeakSub => FreeKeepsInv(s, pc);
        case FreeBlock => FreeKeepsInv(s, pc);
        case _ => FinishKeepsInv(s, pc);
      }
    case CasSucceeds(_) => UpgradeKeepsInv(s, a);
    case CasFails(_) => UpgradeKeepsInv(s, a);
    case LoadStrong => UpgradeKeepsInv(s, a);
    case _ => HandleKeepsInv(s, a);
  }

  lemma {:induction false} RunKeepsInv(run: seq<Block>, steps: seq<Step>, i: nat)
    requires IsRun(run, steps) && i < |run|
    ensures Inv(run[i])
  {
    if i > 0 {
      hide Inv, Apply;
      RunKeepsInv(run, steps, i - 1);
      ApplyKeepsInv(run[i - 1], steps[i - 1]);
    }
  }

  // -- main results ---------------------------------------------------------------------

  /** In every state of every run the actor is destroyed at most once, only after it
      terminated and while no strong reference exists; the block is freed at most once, only
      after the actor, and never while a handle or an operation in progress can touch it. */
  lemma DestroyedAndFreedOnce(run: seq<Block>, steps: seq<Step>, i: nat)
    requires IsRun(run, steps) && i < |run|
    ensures run[i].destroyed <= 1 && run[i].freed <= 1
    ensures run[i].freed == 1 ==> run[i].destroyed == 1
    ensures run[i].destroyed == 1 ==> run[i].terminated && run[i].strong == 0 && run[i].heldStrong == 0
    ensures run[i].heldStrong > 0 || Tail(run[i]) > 0 ==> run[i].destroyed == 0
    ensures (run[i].heldStrong > 0 || run[i].heldWeak > 0 || run[i].upgrading != multiset{}
             || run[i].ops != multiset{}) ==> run[i].freed == 0
  {
    RunKeepsInv(run, steps, i);
    var s := run[i];
    assert WeakOwners(s) == 0 ==> s.destroyed == 1 && s.upgrading == multiset{};
    forall pc | s.freed == 1
      ensures s.ops[pc] == 0
    {
      match pc
      case WeakLoad =>
      case _ =>
    }
  }

  /** Nothing leaks: once no handle is left and no operation is in progress, the actor has
      been destroyed and the block has been freed, exactly once each. */
  lemma NothingLeaks(run: seq<Block>, steps: seq<Step>, i: nat)
    requires IsRun(run, steps) && i < |run|
    requires run[i].heldStrong == 0 && run[i].heldWeak == 0
    requires run[i].upgrading == multiset{} && run[i].ops == multiset{}
    ensures run[i].destroyed == 1 && run[i].freed == 1
  {
    RunKeepsInv(run, steps, i);
  }

  /** No upgrade succeeds once the actor is destroyed or about to be; while a bumped
      reference exists an upgrade can succeed, and then the releasing thread backs off. */
  lemma UpgradesAreSafe(run: seq<Block>, steps: seq<Step>, i: nat)
    requires IsRun(run, steps) && i < |steps| && steps[i].CasSucceeds?
    ensures run[i].destroyed == 0 && run[i].ops[Destroy] == 0
    ensures Unbump in run[i + 1].ops ==>
              Apply(run[i + 1], Advance(Unbump)).ops[Destroy] == 0
  {
    RunKeepsInv(run, steps, i);
  }

  /** The debug checks against adding a reference to an expired actor never fire. */
  lemma CriticalChecksHold(run: seq<Block>, steps: seq<Step>, i: nat)
    requires IsRun(run, steps) && i < |steps|
    ensures steps[i].AddStrong? ==> run[i].strong > 0
    ensures steps[i].AddWeak? ==> run[i].weak > 0
    ensures steps[i] == Advance(Bump) ==> run[i].strong == 0 && run[i].mailboxClosed
    ensures steps[i] == Advance(Unbump) ==> run[i].terminated
  {
    RunKeepsInv(run, steps, i);
  }

  // -- what the steps so far amount to -----------------------------------------------------

  function Upgrades(steps: seq<Step>): nat {
    if steps == [] then 0
    else Upgrades(steps[..|steps| - 1]) + if steps[|steps| - 1].CasSucceeds? then 1 else 0
  }

  /** The state is what was done: handles are made by copies and successful upgrades and go away by
      releases, and each flag and counter stands for the steps that set it. */
  predicate Accounts(s: Block, done: multiset<Step>, upgrades: nat) {
    && s.heldStrong + done[ReleaseStrong] == 1 + done[AddStrong] + upgrades
    && s.heldWeak + |s.upgrading| + done[ReleaseWeak] == done[AddWeak]
    && (s.terminated <==> done[Terminate] + done[Advance(Unreachable)] > 0)
    && (s.mailboxClosed <==> done[Advance(CloseMailbox)] > 0)
    && s.destroyed == done[Advance(Destroy)] && s.freed == done[Advance(FreeBlock)]
  }

  lemma AccountsInStep(s: Block, a: Step, done: multiset<Step>, upgrades: nat)
    requires Enabled(s, a) && Accounts(s, done, upgrades)
    ensures Accounts(Apply(s, a), done[a := done[a] + 1], upgrades + if a.CasSucceeds? then 1 else 0)
  {
    if a.Advance? {
      AdvanceAccounts(s, a.pc, done, upgrades);
    } else if a.LoadStrong? || a.CasSucceeds? || a.CasFails? {
      UpgradeAccounts(s, a, done, upgrades);
    }
    hide Enter, Run;
  }

  lemma AdvanceAccounts(s: Block, pc: Pc, done: multiset<Step>, upgrades: nat)
    requires pc in s.ops && Accounts(s, done, upgrades)
    ensures Accounts(Apply(s, Advance(pc)), done[Advance(pc) := done[Advance(pc)] + 1], upgrades)
  {
    hide Enter;
    match pc
    case CloseMailbox =>
    case Unreachable =>
    case Destroy =>
    case FreeBlock =>
    case _ =>
  }

  lemma UpgradeAccounts(s: Block, a: Step, done: multiset<Step>, upgrades: nat)
    requires Enabled(s, a) && Accounts(s, done, upgrades) && (a.LoadStrong? || a.CasSucceeds? || a.CasFails?)
    ensures Accounts(Apply(s, a), done[a := done[a] + 1], upgrades + if a.CasSucceeds? then 1 else 0)
  {
    hide Enter;
  }

  predicate Explains(steps: seq<Step>, s: Block) {
    Accounts(s, multiset(steps), Upgrades(steps))
  }

  lemma InitExplains(s: Block)
    requires Init(s)
    ensures Explains([], s)
  {
  }

  lemma NextExplains(steps: seq<Step>, s: Block, a: Step)
    requires Explains(steps, s) && Enabled(s, a)
    ensures Explains(steps + [a], Apply(s, a))
  {
    var done := multiset(steps);
    AccountsInStep(s, a, done, Upgrades(steps));
    assert (steps + [a])[..|steps|] == steps;
    assert multiset(steps + [a]) == done[a := done[a] + 1];
    hide Accounts, Apply, Enabled;
  }

  lemma {:induction false} StepsExplainState(run: seq<Block>, steps: seq<Step>, i: nat)
    requires IsRun(run, steps) && i < |run|
    ensures Explains(steps[..i], run[i])
  {
    hide Explains, Apply, Enabled, Init;
    if i == 0 {
      InitExplains(run[0]);
      assert steps[..0] == [];
    } else {
      StepsExplainState(run, steps, i - 1);
      NextExplains(steps[..i - 1], run[i - 1], steps[i - 1]);
      assert steps[..i] == steps[..i - 1] + [steps[i - 1]];
    }
  }

  lemma BackAgain(m: multiset<int>, e: int)
    ensures e in m + multiset{e} && m + multiset{e} - multiset{e} == m
  {
  }

  /** An upgrade that no other thread disturbs gives a strong handle exactly if there still is a
      strong reference; otherwise it changes nothing. */
  lemma UndisturbedUpgrade(run: seq<Block>, steps: seq<Step>, i: nat)
    requires IsRun(run, steps) && i < |run| && Enabled(run[i], LoadStrong)
    ensures var s, t := run[i], Apply(run[i], LoadStrong);
      && (s.strong > 0 ==>
            && Enabled(t, CasSucceeds(s.strong))
            && Apply(t, CasSucceeds(s.strong)) == s.(strong := s.strong + 1, heldStrong := s.heldStrong + 1))
      && (s.strong <= 0 ==> t == s)
  {
    RunKeepsInv(run, steps, i);
    BackAgain(run[i].upgrading, run[i].strong);
  }

  /** So does an upgrade whose first attempt failed. */
  lemma UndisturbedRetry(run: seq<Block>, steps: seq<Step>, i: nat, e: int)
    requires IsRun(run, steps) && i < |run| && Enabled(run[i], CasFails(e))
    ensures var s, t := run[i], Apply(run[i], CasFails(e));
      var rest := s.(heldWeak := s.heldWeak + 1, upgrading := s.upgrading - multiset{e});
      && (s.strong > 0 ==>
            && Enabled(t, CasSucceeds(s.strong))
            && Apply(t, CasSucceeds(s.strong)) == rest.(strong := s.strong + 1, heldStrong := s.heldStrong + 1))
      && (s.strong <= 0 ==> t == rest)
  {
    RunKeepsInv(run, steps, i);
    BackAgain(run[i].upgrading - multiset{e}, run[i].strong);
    hide Run, Enter, IsRun, WeakOk, Tail, WeakOwners;
  }

  // -- the end -----------------------------------------------------------------------------

  /** Steps that only give references back or finish what was begun. */
  predicate Winds(a: Step) {
    a.CasSucceeds? || a.CasFails? || a.ReleaseStrong? || a.ReleaseWeak? || a.Advance?
  }

  ghost predicate WindsDown(run: seq<Block>, steps: seq<Step>, run': seq<Block>, steps': seq<Step>) {
    && IsRun(run, steps) && IsRun(run', steps') && run <= run' && steps <= steps'
    && forall i :: |steps| <= i < |steps'| ==> Winds(steps'[i])
  }

  lemma Wind(run: seq<Block>, steps: seq<Step>, run1: seq<Block>, steps1: seq<Step>, a: Step)
    requires WindsDown(run, steps, run1, steps1) && Enabled(run1[|steps1|], a) && Winds(a)
    ensures WindsDown(run, steps, run1 + [Apply(run1[|steps1|], a)], steps1 + [a])
  {
    hide Apply, Enabled, Init, Winds;
    var run2, steps2 := run1 + [Apply(run1[|steps1|], a)], steps1 + [a];
    forall k | 0 <= k < |steps2|
      ensures Enabled(run2[k], steps2[k]) && run2[k + 1] == Apply(run2[k], steps2[k])
      ensures |steps| <= k ==> Winds(steps2[k])
    {
      assert run2[k] == run1[k];
    }
  }

  /** What is left to do from a program point. */
  function Weight(pc: Pc): nat {
    match pc
    case TestTerminated => 9
    case CloseMailbox => 8
    case Bump => 7
    case Unreachable => 6
    case Unbump => 5
    case Destroy => 4
    case WeakLoad => 3
    case WeakSub => 2
    case FreeBlock => 1
  }

  function Work(ops: multiset<Pc>): nat {
    9 * ops[TestTerminated] + 8 * ops[CloseMailbox] + 7 * ops[Bump] + 6 * ops[Unreachable] + 5 * ops[Unbump]
    + 4 * ops[Destroy] + 3 * ops[WeakLoad] + 2 * ops[WeakSub] + ops[FreeBlock]
  }

  lemma WorkOfEntering(ops: multiset<Pc>, pc: Pc)
    ensures Work(Enter(ops, pc)) == Work(ops) + Weight(pc)
  {
    var more := Enter(ops, pc);
    assert forall q :: more[q] == ops[q] + if q == pc then 1 else 0;
    hide Enter;
  }

  lemma WorkOfLeaving(ops: multiset<Pc>, pc: Pc)
    requires pc in ops
    ensures Work(ops[pc := ops[pc] - 1]) == Work(ops) - Weight(pc) && Weight(pc) > 0
  {
    var less := ops[pc := ops[pc] - 1];
    WorkOfEntering(less, pc);
    assert Enter(less, pc) == ops;
    hide Work, Enter;
  }

  lemma NextPoint(s: Block, pc: Pc) returns (next: Pc)
    ensures Run(s, pc).ops == s.ops || (Run(s, pc).ops == Enter(s.ops, next) && Weight(next) < Weight(pc))
    ensures var t := Run(s, pc); t.heldStrong == s.heldStrong && t.heldWeak == s.heldWeak && t.upgrading == s.upgrading
  {
    hide Enter;
    match pc
    case TestTerminated => next := if s.terminated then Destroy else CloseMailbox;
    case CloseMailbox => next := Bump;
    case Bump => next := Unreachable;
    case Unreachable => next := Unbump;
    case Unbump => next := Destroy;
    case Destroy => next := WeakLoad;
    case WeakLoad => next := if s.weak == 1 then FreeBlock else WeakSub;
    case _ => next := FreeBlock;
  }

  lemma WorkDecreases(s: Block, pc: Pc)
    requires pc in s.ops
    ensures var t := Apply(s, Advance(pc));
      && Work(t.ops) < Work(s.ops)
      && t.heldStrong == s.heldStrong && t.heldWeak == s.heldWeak && t.upgrading == s.upgrading
  {
    hide Enter, Work, Run, Weight;
    var ops := s.ops[pc := s.ops[pc] - 1];
    WorkOfLeaving(s.ops, pc);
    var next := NextPoint(s.(ops := ops), pc);
    WorkOfEntering(ops, next);
  }

  predicate Closer(t: Block, s: Block) {
    if s.upgrading != multiset{} then
      || |t.upgrading| < |s.upgrading|
      || (|t.upgrading| == |s.upgrading| && s.strong !in s.upgrading && t.strong in t.upgrading)
    else
      && t.upgrading == s.upgrading
      && t.heldStrong <= s.heldStrong
      && (t.heldStrong == s.heldStrong ==> t.heldWeak <= s.heldWeak)
      && (t.heldStrong == s.heldStrong && t.heldWeak == s.heldWeak ==> Work(t.ops) < Work(s.ops))
  }

  lemma AnyOf(m: multiset<int>) returns (e: int)
    requires m != multiset{}
    ensures e in m
  {
    if forall x :: x !in m {
      assert false;
    }
    e :| e in m;
  }

  /** The next step towards the end: end upgrades first, then handles, then operations. */
  lemma WindingStep(s: Block) returns (a: Step)
    requires Inv(s) && !(s.heldStrong == 0 && s.heldWeak == 0 && s.upgrading == multiset{} && s.ops == multiset{})
    ensures Enabled(s, a) && Winds(a)
    ensures Closer(Apply(s, a), s)
  {
    if s.upgrading != multiset{} {
      var e := AnyOf(s.upgrading);
      a := if s.strong in s.upgrading then CasSucceeds(s.strong) else CasFails(e);
    } else if s.heldStrong > 0 {
      a := ReleaseStrong;
    } else if s.heldWeak > 0 {
      a := ReleaseWeak;
    } else {
      assert |s.ops| > 0;
      var pc :| pc in s.ops;
      a := Advance(pc);
      WorkDecreases(s, pc);
    }
  }

  lemma {:induction false} WindToEnd(run: seq<Block>, steps: seq<Step>, run1: seq<Block>, steps1: seq<Step>)
    returns (run': seq<Block>, steps': seq<Step>)
    requires WindsDown(run, steps, run1, steps1)
    ensures WindsDown(run, steps, run', steps') && run'[|steps'|].destroyed == 1 && run'[|steps'|].freed == 1
    decreases |run1[|steps1|].upgrading|, run1[|steps1|].strong !in run1[|steps1|].upgrading,
              run1[|steps1|].heldStrong, run1[|steps1|].heldWeak, Work(run1[|steps1|].ops)
  {
    var s := run1[|steps1|];
    if s.heldStrong == 0 && s.heldWeak == 0 && s.upgrading == multiset{} && s.ops == multiset{} {
      NothingLeaks(run1, steps1, |steps1|);
      run', steps' := run1, steps1;
    } else {
      RunKeepsInv(run1, steps1, |steps1|);
      hide Inv, Apply, Enabled, Winds, Work;
      var a := WindingStep(s);
      Wind(run, steps, run1, steps1, a);
      hide WindsDown;
      run', steps' := WindToEnd(run, steps, run1 + [Apply(s, a)], steps1 + [a]);
    }
  }

  /** From every state of every run the actor can be destroyed and its block freed by giving up the
      handles and finishing what threads have begun. */
  lemma EverythingCanBeFreed(run: seq<Block>, steps: seq<Step>) returns (run': seq<Block>, steps': seq<Step>)
    requires IsRun(run, steps)
    ensures WindsDown(run, steps, run', steps') && run'[|steps'|].destroyed == 1 && run'[|steps'|].freed == 1
  {
    run', steps' := WindToEnd(run, steps, run, steps);
  }
}
