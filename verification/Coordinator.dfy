/** The coordinator of the download example: it hands requests to idle workers and stashes them
    while all workers are busy.  All interleavings with the workers and with clients are covered. */
module Coordinator {

  type Addr = nat

  const MAX_CACHE := 10

  // -- the coordinator itself -----------------------------------------------------------------------

  datatype Local = Local(idle: seq<Addr>, busy: seq<Addr>, waiting: bool, cache: seq<nat>)

  /** The read handler of the initial behavior: the last idle worker gets the job. */
  function AfterRead(l: Local): Local
    requires l.idle != []
  {
    var n := |l.idle| - 1;
    Local(l.idle[..n], l.busy + [l.idle[n]], n == 0, l.cache)
  }

  function Without(ws: seq<Addr>, w: Addr): seq<Addr> {
    if ws == [] then [] else if ws[0] == w then ws[1..] else [ws[0]] + Without(ws[1..], w)
  }

  /** `finished`, which ignores senders that are not busy. */
  function Released(l: Local, w: Addr): Local {
    if w in l.busy then l.(idle := l.idle + [w], busy := Without(l.busy, w)) else l
  }

  /** The handler for finished messages; while waiting it also returns to the initial behavior and
      gives the stashed messages back to the mailbox. */
  function AfterFinished(l: Local, w: Addr): Local {
    var r := Released(l, w);
    if l.waiting then r.(waiting := false, cache := []) else r
  }

  class CoordinatorActor {
    var idle: seq<Addr>
    var busy: seq<Addr>
    var waiting: bool
    var cache: seq<nat>

    function Abs(): Local
      reads this
    {
      Local(idle, busy, waiting, cache)
    }

    constructor (workers: seq<Addr>)
      ensures Abs() == Local(workers, [], false, [])
    {
      idle, busy, waiting, cache := workers, [], false, [];
    }

    method Read() returns (worker: Addr)
      requires idle != []
      modifies this
      ensures worker == old(idle)[|old(idle)| - 1] && Abs() == AfterRead(old(Abs()))
    {
      worker := idle[|idle| - 1];
      idle := idle[..|idle| - 1];
      busy := busy + [worker];
      waiting := idle == [];
    }

    /** Fails, in the source with an exception, if the cache holds ten messages. */
    method Stash(id: nat) returns (ok: bool)
      modifies this`cache
      ensures ok <==> |old(cache)| != 10
      ensures cache == if ok then old(cache) + [id] else old(cache)
    {
      ok := |cache| != MAX_CACHE;
      if ok {
        cache := cache + [id];
      }
    }

    method Release(sender: Addr)
      modifies this`idle, this`busy
      ensures Abs() == Released(old(Abs()), sender)
    {
      var i := 0;
      while i < |busy| && busy[i] != sender
        invariant i <= |busy| && sender !in busy[..i]
      {
        i := i + 1;
      }
      if i == |busy| {
        assert busy[..i] == busy;
        return;
      }
      ErasedAt(busy, i, sender);
      idle := idle + [busy[i]];
      busy := busy[..i] + busy[i + 1..];
    }

    method Finished(sender: Addr) returns (unstashed: seq<nat>)
      modifies this
      ensures Abs() == AfterFinished(old(Abs()), sender)
      ensures unstashed == if old(waiting) then old(cache) else []
    {
      unstashed := [];
      Release(sender);
      if waiting {
        waiting := false;
        unstashed, cache := cache, [];
      }
    }
  }

  lemma {:induction false} ErasedAt(ws: seq<Addr>, i: nat, w: Addr)
    requires i < |ws| && ws[i] == w && w !in ws[..i]
    ensures Without(ws, w) == ws[..i] + ws[i + 1..]
  {
    if i > 0 {
      assert ws[0] == ws[..i][0];
      assert ws[1..][..i - 1] == ws[..i][1..];
      ErasedAt(ws[1..], i - 1, w);
      assert ws[1..][i..] == ws[i + 1..];
    }
  }

  // -- the whole system ---------------------------------------------------------------------------------

  /** `requests` and `fins` are in the mailbox of the coordinator, `jobs` in those of the workers. */
  datatype State = State(
    local: Local,
    requests: set<nat>,
    fins: multiset<Addr>,
    jobs: map<Addr, seq<nat>>,
    done: set<nat>,
    lost: set<nat>,
    issued: nat,
    failed: bool,
    undefined: bool)

  datatype Step =
    | Issue                   // a client sends a request
    | TakeRead(id: nat)       // the coordinator handles a request
    | TakeFinished(w: Addr)   // ... or a finished message
    | Work(w: Addr)           // a worker completes its next job
    | Foreign(a: Addr)        // somebody else sends a finished message

  ghost predicate Init(workers: seq<Addr>, s: State) {
    && Distinct(workers) && workers != []
    && s == State(Local(workers, [], false, []), {}, multiset{}, map w | w in workers :: [], {}, {}, 0, false, false)
  }

  predicate Enabled(s: State, step: Step) {
    match step
    case Issue => true
    case TakeRead(id) => !s.failed && !s.undefined && id in s.requests
    case TakeFinished(w) => !s.failed && !s.undefined && s.fins[w] > 0
    case Work(w) => w in s.jobs && s.jobs[w] != []
    case Foreign(a) => a !in s.jobs
  }

  function HandleRead(s: State, id: nat): State {
    var t, l := s.(requests := s.requests - {id}), s.local;
    if l.waiting then
      if |l.cache| == MAX_CACHE then t.(failed := true, lost := s.lost + {id})
      else t.(local := l.(cache := l.cache + [id]))
    else if l.idle == [] then t.(undefined := true)
    else
      var w := l.idle[|l.idle| - 1];
      t.(local := AfterRead(l), jobs := s.jobs[w := JobsOf(s, w) + [id]])
  }

  function JobsOf(s: State, w: Addr): seq<nat> {
    if w in s.jobs then s.jobs[w] else []
  }

  function Members(xs: seq<nat>): set<nat> {
    set id | id in xs
  }

  function HandleFinished(s: State, w: Addr): State
    requires s.fins[w] > 0
  {
    s.(fins := s.fins[w := s.fins[w] - 1],
       local := AfterFinished(s.local, w),
       requests := s.requests + if s.local.waiting then Members(s.local.cache) else {})
  }

  function Complete(s: State, w: Addr): State
    requires w in s.jobs && s.jobs[w] != []
  {
    s.(jobs := s.jobs[w := s.jobs[w][1..]], done := s.done + {s.jobs[w][0]}, fins := s.fins[w := s.fins[w] + 1])
  }

  function Apply(s: State, step: Step): State
    requires Enabled(s, step)
  {
    match step
    case Issue => s.(issued := s.issued + 1, requests := s.requests + {s.issued})
    case TakeRead(id) => HandleRead(s, id)
    case TakeFinished(w) => HandleFinished(s, w)
    case Work(w) => Complete(s, w)
    case Foreign(a) => s.(fins := s.fins[a := s.fins[a] + 1])
  }

  ghost predicate IsRun(workers: seq<Addr>, run: seq<State>, steps: seq<Step>) {
    && |run| == |steps| + 1 && Init(workers, run[0])
    && forall i :: 0 <= i < |steps| ==> Enabled(run[i], steps[i]) && run[i + 1] == Apply(run[i], steps[i])
  }

  // -- the invariant --------------------------------------------------------------------------------------

  predicate Distinct<T(==)>(xs: seq<T>) {
    forall i, j :: 0 <= i < j < |xs| ==> xs[i] != xs[j]
  }

  /** Idle and busy partition the workers. */
  ghost predicate Partition(workers: seq<Addr>, l: Local) {
    && Distinct(l.idle) && Distinct(l.busy)
    && forall w :: (w in workers <==> w in l.idle || w in l.busy) && !(w in l.idle && w in l.busy)
  }

  /** A worker is busy iff exactly one job or finished message of it is outstanding. */
  ghost predicate OneJobEach(workers: seq<Addr>, s: State) {
    forall w :: w in workers ==> |JobsOf(s, w)| + s.fins[w] == if w in s.local.busy then 1 else 0
  }

  /** The wait behavior is active only while nobody is idle; only then is anything stashed. */
  predicate WaitsRightly(l: Local) {
    (l.waiting ==> l.idle == []) && (!l.waiting ==> l.cache == []) && |l.cache| <= MAX_CACHE
  }

  /** Nobody is idle but the read handler is active: it would take from the empty list. */
  predicate Exposed(l: Local) {
    !l.waiting && l.idle == []
  }

  ghost predicate Inv(workers: seq<Addr>, s: State) {
    && workers != [] && !s.undefined && s.jobs.Keys == (set w | w in workers)
    && Partition(workers, s.local) && OneJobEach(workers, s) && WaitsRightly(s.local)
  }

  lemma {:induction false} WithoutMembers(ws: seq<Addr>, w: Addr)
    requires Distinct(ws) && w in ws
    ensures Distinct(Without(ws, w))
    ensures forall x :: x in Without(ws, w) <==> x in ws && x != w
  {
    if ws[0] != w {
      assert w in ws[1..];
      WithoutMembers(ws[1..], w);
      var rest := Without(ws[1..], w);
      assert ws[0] !in rest by {
        assert ws[0] !in ws[1..];
      }
      forall x
        ensures x in Without(ws, w) <==> x in ws && x != w
      {
        assert x in ws <==> x == ws[0] || x in ws[1..];
      }
    } else {
      assert w !in ws[1..];
    }
  }

  lemma ReadKeepsInv(workers: seq<Addr>, s: State, id: nat)
    requires Inv(workers, s) && Enabled(s, TakeRead(id)) && !Exposed(s.local)
    ensures Inv(workers, HandleRead(s, id)) && !Exposed(HandleRead(s, id).local)
  {
    var l := s.local;
    if !l.waiting {
      var n := |l.idle| - 1;
      var w, t := l.idle[n], HandleRead(s, id);
      LastMoves(l);
      forall x | x in workers
        ensures |JobsOf(t, x)| + t.fins[x] == if x in t.local.busy then 1 else 0
      {
        assert |JobsOf(s, x)| + s.fins[x] == if x in l.busy then 1 else 0;
      }
      assert w in s.jobs;
    }
  }

  lemma LastMoves(l: Local)
    requires l.idle != [] && Distinct(l.idle) && Distinct(l.busy)
    requires forall w :: !(w in l.idle && w in l.busy)
    ensures var r, last := AfterRead(l), l.idle[|l.idle| - 1];
      && Distinct(r.idle) && Distinct(r.busy)
      && (forall x :: x in r.idle <==> x in l.idle && x != last)
      && (forall x :: x in r.busy <==> x in l.busy || x == last)
  {
    var n := |l.idle| - 1;
    assert l.idle[n] in l.idle && l.idle[n] !in l.busy;
    forall x
      ensures x in l.idle[..n] <==> x in l.idle && x != l.idle[n]
    {
      assert l.idle == l.idle[..n] + [l.idle[n]];
    }
  }

  lemma FinishedKeepsInv(workers: seq<Addr>, s: State, w: Addr)
    requires Inv(workers, s) && Enabled(s, TakeFinished(w))
    ensures Inv(workers, HandleFinished(s, w))
    ensures Exposed(HandleFinished(s, w).local) <==> w !in workers && (s.local.waiting || Exposed(s.local))
  {
    var l, t := s.local, HandleFinished(s, w);
    if w in workers {
      assert |JobsOf(s, w)| + s.fins[w] == if w in l.busy then 1 else 0;
      WithoutMembers(l.busy, w);
      assert Distinct(l.idle + [w]);
    }
    forall x | x in workers
      ensures |JobsOf(t, x)| + t.fins[x] == if x in t.local.busy then 1 else 0
    {
      assert |JobsOf(s, x)| + s.fins[x] == if x in l.busy then 1 else 0;
    }
  }

  lemma WorkKeepsInv(workers: seq<Addr>, s: State, w: Addr)
    requires Inv(workers, s) && Enabled(s, Work(w))
    ensures Inv(workers, Complete(s, w))
  {
    var t := Complete(s, w);
    forall x | x in workers
      ensures |JobsOf(t, x)| + t.fins[x] == if x in t.local.busy then 1 else 0
    {
      assert |JobsOf(s, x)| + s.fins[x] == if x in s.local.busy then 1 else 0;
    }
  }

  /** The wait behavior takes a finished message from somebody who is no worker. */
  predicate Intrudes(workers: seq<Addr>, s: State, step: Step) {
    step.TakeFinished? && step.w !in workers && s.local.waiting
  }

  /** A worker's finished message is handled. */
  predicate Reports(workers: seq<Addr>, step: Step) {
    step.TakeFinished? && step.w in workers
  }

  /** Every step keeps the invariant, except for a request taken while exposed.  Only an intrusion
      exposes the read handler, and only the report of a worker covers it again. */
  lemma StepKeepsInv(workers: seq<Addr>, s: State, step: Step)
    requires Inv(workers, s) && Enabled(s, step)
    ensures Inv(workers, Apply(s, step)) <==> !(step.TakeRead? && Exposed(s.local))
    ensures Inv(workers, Apply(s, step)) <==> !Apply(s, step).undefined
    ensures Exposed(Apply(s, step).local) <==>
      Intrudes(workers, s, step) || (Exposed(s.local) && !Reports(workers, step))
  {
    match step
    case Issue => SameJobs(workers, s, Apply(s, step));
    case Foreign(_) => SameJobs(workers, s, Apply(s, step));
    case TakeRead(id) =>
      if !Exposed(s.local) {
        ReadKeepsInv(workers, s, id);
      }
    case TakeFinished(w) => FinishedKeepsInv(workers, s, w);
    case Work(w) => WorkKeepsInv(workers, s, w);
  }

  lemma SameJobs(workers: seq<Addr>, s: State, t: State)
    requires Inv(workers, s) && t.local == s.local && t.jobs == s.jobs && !t.undefined
    requires forall w :: w in workers ==> t.fins[w] == s.fins[w]
    ensures Inv(workers, t)
  {
    forall w | w in workers
      ensures |JobsOf(t, w)| + t.fins[w] == if w in t.local.busy then 1 else 0
    {
      assert |JobsOf(s, w)| + s.fins[w] == if w in s.local.busy then 1 else 0;
    }
  }

  /** An intrusion at step `k` exposed the read handler, and no worker reported since. */
  ghost predicate ExposedBy(workers: seq<Addr>, run: seq<State>, steps: seq<Step>, k: nat, i: nat)
    requires |run| == |steps| + 1 && i < |run|
  {
    k < i && Intrudes(workers, run[k], steps[k]) && forall m :: k < m < i ==> !Reports(workers, steps[m])
  }

  ghost predicate ExposedSince(workers: seq<Addr>, run: seq<State>, steps: seq<Step>, i: nat)
    requires |run| == |steps| + 1 && i < |run|
  {
    exists k: nat :: ExposedBy(workers, run, steps, k, i)
  }

  lemma ExposedNext(workers: seq<Addr>, run: seq<State>, steps: seq<Step>, i: nat)
    requires |run| == |steps| + 1 && i < |steps|
    ensures ExposedSince(workers, run, steps, i + 1) <==>
      Intrudes(workers, run[i], steps[i]) || (ExposedSince(workers, run, steps, i) && !Reports(workers, steps[i]))
  {
    hide Intrudes, Reports;
    var j := i + 1;
    if k: nat :| ExposedBy(workers, run, steps, k, j) {
      assert k < i ==> ExposedBy(workers, run, steps, k, i);
    }
    if k: nat :| ExposedBy(workers, run, steps, k, i) && !Reports(workers, steps[i]) {
      assert ExposedBy(workers, run, steps, k, i + 1);
    }
    if Intrudes(workers, run[i], steps[i]) {
      assert ExposedBy(workers, run, steps, i, i + 1);
    }
  }

  /** In every run, whoever sends finished messages, the invariant holds as long as the read handler
      never took from the empty list; and it is exposed to that exactly if the wait behavior took a
      finished message from somebody who is no worker and no worker reported since. */
  lemma {:induction false} RunKeepsInv(workers: seq<Addr>, run: seq<State>, steps: seq<Step>, i: nat)
    requires IsRun(workers, run, steps) && i < |run|
    ensures !run[i].undefined <==> Inv(workers, run[i])
    ensures !run[i].undefined ==> (Exposed(run[i].local) <==> ExposedSince(workers, run, steps, i))
  {
    if i > 0 {
      RunKeepsInv(workers, run, steps, i - 1);
      hide Exposed, ExposedSince, Intrudes, Reports, Partition, OneJobEach, WaitsRightly;
      UndefinedStays(run[i - 1], steps[i - 1]);
      if !run[i - 1].undefined {
        hide Inv, Apply, Enabled;
        StepKeepsInv(workers, run[i - 1], steps[i - 1]);
        ExposedNext(workers, run, steps, i - 1);
      }
    }
  }

  lemma UndefinedStays(s: State, step: Step)
    requires Enabled(s, step)
    ensures s.undefined ==> Apply(s, step).undefined && !step.TakeRead?
  {
  }

  /** Some request was taken while exposed. */
  ghost predicate TakenExposed(workers: seq<Addr>, run: seq<State>, steps: seq<Step>, i: nat)
    requires |run| == |steps| + 1 && i < |run|
  {
    exists m :: 0 <= m < i && steps[m].TakeRead? && ExposedSince(workers, run, steps, m)
  }

  /** The read handler takes from the empty list in a run exactly if a request is taken after such an
      intrusion and before the next report of a worker. */
  lemma {:induction false} ReadIsSafeIff(workers: seq<Addr>, run: seq<State>, steps: seq<Step>, i: nat)
    requires IsRun(workers, run, steps) && i < |run|
    ensures run[i].undefined <==> TakenExposed(workers, run, steps, i)
  {
    hide Inv, Apply, Enabled, Exposed, ExposedSince;
    if i > 0 {
      var n := i - 1;
      ReadIsSafeIff(workers, run, steps, n);
      RunKeepsInv(workers, run, steps, n);
      UndefinedStays(run[n], steps[n]);
      if !run[n].undefined {
        StepKeepsInv(workers, run[n], steps[n]);
      }
    }
  }

  /** While waiting, a report of a stranger makes the next request take from the empty list. */
  lemma StrangerReports(s: State, a: Addr, id: nat)
    requires s.local.waiting && s.local.idle == [] && !s.failed && !s.undefined
    requires a !in s.jobs && a !in s.local.busy && id in s.requests
    ensures Enabled(s, Foreign(a))
    ensures var t := Apply(s, Foreign(a));
      && Enabled(t, TakeFinished(a)) && Enabled(Apply(t, TakeFinished(a)), TakeRead(id))
      && Apply(Apply(t, TakeFinished(a)), TakeRead(id)).undefined
  {
    var t := Apply(s, Foreign(a));
    assert HandleFinished(t, a).local == AfterFinished(s.local, a);
  }

  lemma Start(workers: seq<Addr>) returns (s: State)
    requires Distinct(workers) && workers != []
    ensures Init(workers, s)
  {
    s := State(Local(workers, [], false, []), {}, multiset{}, map w | w in workers :: [], {}, {}, 0, false, false);
  }

  /** A coordinator that keeps its only worker busy while request 1 waits. */
  predicate OneBusy(s: State) {
    && s.local == Local([], [0], true, []) && s.jobs.Keys == {0} && s.requests == {1} && !s.failed && !s.undefined
  }

  lemma BothIssued(s: State)
    requires Init([0], s)
    ensures Enabled(s, Issue) && Enabled(Apply(s, Issue), Issue)
    ensures var t := Apply(Apply(s, Issue), Issue);
      Enabled(t, TakeRead(0)) && OneBusy(Apply(t, TakeRead(0)))
  {
    var t := Apply(Apply(s, Issue), Issue);
    assert t.requests == {0, 1} && t.local.idle == [0];
    assert t.requests - {0} == {1};
  }

  lemma OneBusyRun() returns (run: seq<State>, steps: seq<Step>)
    ensures IsRun([0], run, steps) && |run| == 4 && steps == [Issue, Issue, TakeRead(0)] && OneBusy(run[3])
  {
    hide Apply, Enabled, Init, OneBusy;
    var s := Start([0]);
    BothIssued(s);
    run, steps := [s], [];
    run, steps := Extend([0], run, steps, Issue);
    run, steps := Extend([0], run, steps, Issue);
    run, steps := Extend([0], run, steps, TakeRead(0));
  }

  /** Such a run: the only worker gets the first of two requests, a stranger reports, and the second
      request takes a worker from the empty list. */
  lemma ForeignFinishedIsUnsafe() returns (run: seq<State>, steps: seq<Step>)
    ensures IsRun([0], run, steps)
    ensures steps == [Issue, Issue, TakeRead(0), Foreign(1), TakeFinished(1), TakeRead(1)]
    ensures run[6].undefined
  {
    hide Apply, Enabled, Init, IsRun;
    run, steps := OneBusyRun();
    StrangerReports(run[3], 1, 1);
    hide OneBusy;
    run, steps := Extend([0], run, steps, Foreign(1));
    run, steps := Extend([0], run, steps, TakeFinished(1));
    run, steps := Extend([0], run, steps, TakeRead(1));
  }

  lemma Extend(workers: seq<Addr>, run: seq<State>, steps: seq<Step>, step: Step)
    returns (run': seq<State>, steps': seq<Step>)
    requires IsRun(workers, run, steps) && Enabled(run[|steps|], step)
    ensures IsRun(workers, run', steps') && |run'| == |run| + 1 && steps' == steps + [step]
    ensures run'[|steps'|] == Apply(run[|steps|], step)
  {
    hide Apply, Enabled, Init;
    run', steps' := run + [Apply(run[|steps|], step)], steps + [step];
    forall k | 0 <= k < |steps'|
      ensures Enabled(run'[k], steps'[k]) && run'[k + 1] == Apply(run'[k], steps'[k])
    {
      assert run'[k] == run[k];
    }
  }

  // -- no request is lost ------------------------------------------------------------------------------

  ghost predicate Pending(s: State, id: nat) {
    exists w :: w in s.jobs && id in s.jobs[w]
  }

  /** How many of the five places a request is in. */
  ghost function Places(s: State, id: nat): nat {
    (if id in s.requests then 1 else 0) + (if id in s.local.cache then 1 else 0) + (if Pending(s, id) then 1 else 0)
    + (if id in s.done then 1 else 0) + (if id in s.lost then 1 else 0)
  }

  ghost predicate Conserved(s: State) {
    && (forall id: nat :: Places(s, id) == if id < s.issued then 1 else 0)
    && (forall v, w, id: nat :: v in s.jobs && w in s.jobs && id in s.jobs[v] && id in s.jobs[w] ==> v == w)
    && Distinct(s.local.cache)
    && (s.failed <==> s.lost != {})
  }

  lemma IssueConserves(s: State)
    requires Conserved(s)
    ensures Conserved(Apply(s, Issue))
  {
    var t := Apply(s, Issue);
    forall id: nat
      ensures Places(t, id) == if id < t.issued then 1 else 0
    {
      assert Places(s, id) == if id < s.issued then 1 else 0;
      assert Pending(t, id) <==> Pending(s, id);
    }
  }

  lemma ReadConserves(workers: seq<Addr>, s: State, id: nat)
    requires Inv(workers, s) && Conserved(s) && Enabled(s, TakeRead(id)) && !Exposed(s.local)
    ensures Conserved(HandleRead(s, id))
  {
    var t := HandleRead(s, id);
    assert Places(s, id) == 1;
    if s.local.waiting && |s.local.cache| != MAX_CACHE {
      assert Distinct(s.local.cache + [id]);
    }
    forall x: nat
      ensures Places(t, x) == if x < t.issued then 1 else 0
    {
      assert Places(s, x) == if x < s.issued then 1 else 0;
      if s.local.waiting {
        assert Pending(t, x) <==> Pending(s, x);
      } else {
        JobAdded(s, t, s.local.idle[|s.local.idle| - 1], id, x);
      }
    }
  }

  lemma JobAdded(s: State, t: State, w: Addr, id: nat, x: nat)
    requires w in s.jobs && t.jobs == s.jobs[w := s.jobs[w] + [id]]
    ensures Pending(t, x) <==> x == id || Pending(s, x)
  {
    assert id in t.jobs[w];
    forall v | v in s.jobs
      ensures x in t.jobs[v] <==> x in s.jobs[v] || (v == w && x == id)
    {
    }
  }

  lemma FinishedConserves(workers: seq<Addr>, s: State, w: Addr)
    requires Inv(workers, s) && Conserved(s) && Enabled(s, TakeFinished(w))
    ensures Conserved(HandleFinished(s, w))
  {
    var t := HandleFinished(s, w);
    forall x: nat
      ensures Places(t, x) == if x < t.issued then 1 else 0
    {
      assert Places(s, x) == if x < s.issued then 1 else 0;
      assert Pending(t, x) <==> Pending(s, x);
    }
  }

  lemma WorkConserves(workers: seq<Addr>, s: State, w: Addr)
    requires Inv(workers, s) && Conserved(s) && Enabled(s, Work(w))
    ensures Conserved(Complete(s, w))
  {
    var t, id := Complete(s, w), s.jobs[w][0];
    assert |JobsOf(s, w)| + s.fins[w] == if w in s.local.busy then 1 else 0;
    assert s.jobs[w] == [id] && s.jobs[w][1..] == [];
    hide Inv, OneJobEach, Partition;
    assert Pending(s, id);
    assert Places(s, id) == 1;
    forall x: nat
      ensures Places(t, x) == if x < t.issued then 1 else 0
    {
      assert Places(s, x) == if x < s.issued then 1 else 0;
      JobTaken(s, t, w, id, x);
    }
  }

  lemma JobTaken(s: State, t: State, w: Addr, id: nat, x: nat)
    requires w in s.jobs && s.jobs[w] == [id] && t.jobs == s.jobs[w := []]
    ensures Pending(t, x) ==> Pending(s, x)
    ensures x != id && Pending(s, x) ==> Pending(t, x)
    ensures (forall v :: v in s.jobs && id in s.jobs[v] ==> v == w) ==> !Pending(t, id)
  {
    if x != id && Pending(s, x) {
      var v :| v in s.jobs && x in s.jobs[v];
      assert v in t.jobs && x in t.jobs[v];
    }
  }

  lemma ForeignConserves(s: State, t: State)
    requires Conserved(s) && t == s.(fins := t.fins)
    ensures Conserved(t)
  {
    forall x: nat
      ensures Places(t, x) == if x < t.issued then 1 else 0
    {
      assert Places(s, x) == if x < s.issued then 1 else 0;
      assert Pending(t, x) <==> Pending(s, x);
    }
  }

  lemma StepConserves(workers: seq<Addr>, s: State, step: Step)
    requires Inv(workers, s) && Conserved(s) && Enabled(s, step) && !Apply(s, step).undefined
    ensures Conserved(Apply(s, step))
  {
    match step
    case Issue => IssueConserves(s);
    case Foreign(_) => ForeignConserves(s, Apply(s, step));
    case TakeRead(id) => ReadConserves(workers, s, id);
    case TakeFinished(w) => FinishedConserves(workers, s, w);
    case Work(w) => WorkConserves(workers, s, w);
  }

  /** In every run that never took from the empty list, each request is in exactly one place: not yet
      handled, stashed, with a worker or done.  The only one that may get lost is the one that finds
      the cache full. */
  lemma {:induction false} NoRequestIsLost(workers: seq<Addr>, run: seq<State>, steps: seq<Step>, i: nat)
    requires IsRun(workers, run, steps) && i < |run| && !run[i].undefined
    ensures Conserved(run[i])
  {
    hide Inv, Apply, Enabled, Conserved;
    if i == 0 {
      InitConserved(workers, run[0]);
    } else {
      UndefinedStays(run[i - 1], steps[i - 1]);
      NoRequestIsLost(workers, run, steps, i - 1);
      RunKeepsInv(workers, run, steps, i - 1);
      StepConserves(workers, run[i - 1], steps[i - 1]);
    }
  }

  lemma InitConserved(workers: seq<Addr>, s: State)
    requires Init(workers, s)
    ensures Conserved(s)
  {
  }

  /** Stashed requests are never stuck: some worker has a job to do or has reported back. */
  lemma StashedRequestsMoveOn(workers: seq<Addr>, run: seq<State>, steps: seq<Step>, i: nat) returns (next: Step)
    requires IsRun(workers, run, steps) && i < |run| && !run[i].undefined
    requires !run[i].failed && run[i].local.cache != []
    ensures (next.Work? || next.TakeFinished?) && Enabled(run[i], next)
  {
    RunKeepsInv(workers, run, steps, i);
    var s, w := run[i], workers[0];
    assert w in s.local.busy;
    assert |JobsOf(s, w)| + s.fins[w] == 1;
    next := if s.fins[w] > 0 then TakeFinished(w) else Work(w);
  }

  /** Where a request goes that is handled: to the last idle worker, or to the end of the cache while the
      coordinator waits, unless ten are there already; it is nowhere else then. */
  lemma HandledRequestGoesOn(workers: seq<Addr>, run: seq<State>, steps: seq<Step>, i: nat, id: nat)
    requires IsRun(workers, run, steps) && i < |steps| && steps[i] == TakeRead(id) && !run[i + 1].undefined
    ensures var l, t := run[i].local, run[i + 1];
      && id !in t.requests
      && (l.waiting && |l.cache| < 10 ==> t.local == l.(cache := l.cache + [id]) && !t.failed)
      && (l.waiting && |l.cache| == 10 ==> id in t.lost && t.local == l)
      && (!l.waiting ==> l.idle != [] && JobsOf(t, l.idle[|l.idle| - 1]) == [id])
  {
    var s := run[i];
    RunKeepsInv(workers, run, steps, i);
    StepKeepsInv(workers, s, steps[i]);
    if !s.local.waiting {
      var w := s.local.idle[|s.local.idle| - 1];
      assert w in s.local.idle && w !in s.local.busy;
      assert |JobsOf(s, w)| + s.fins[w] == 0;
    }
  }

  ghost predicate Overflows(s: State, step: Step) {
    step.TakeRead? && s.local.waiting && |s.local.cache| == 10
  }

  /** A run fails exactly at a request that is handled while ten others are stashed. */
  lemma {:induction false} FailsIff(workers: seq<Addr>, run: seq<State>, steps: seq<Step>, i: nat)
    requires IsRun(workers, run, steps) && i < |run|
    ensures run[i].failed <==> exists m :: 0 <= m < i && Overflows(run[m], steps[m])
  {
    if i > 0 {
      FailsIff(workers, run, steps, i - 1);
      assert run[i].failed <==> run[i - 1].failed || Overflows(run[i - 1], steps[i - 1]);
    }
  }

  // -- every request can be done ---------------------------------------------------------------------

  /** The second run goes on from the first one without anything new from outside. */
  ghost predicate GoesOn(workers: seq<Addr>, run: seq<State>, steps: seq<Step>, run': seq<State>, steps': seq<Step>) {
    && IsRun(workers, run, steps) && IsRun(workers, run', steps') && steps <= steps'
    && (forall i :: 0 <= i < |run| ==> i < |run'| && run'[i] == run[i])
    && forall i :: |steps| <= i < |steps'| ==> !steps'[i].Issue? && !steps'[i].Foreign?
  }

  lemma GoOn(workers: seq<Addr>, run: seq<State>, steps: seq<Step>, run1: seq<State>, steps1: seq<Step>, step: Step)
    returns (run': seq<State>, steps': seq<Step>)
    requires GoesOn(workers, run, steps, run1, steps1) && Enabled(run1[|steps1|], step)
    requires !step.Issue? && !step.Foreign?
    ensures GoesOn(workers, run, steps, run', steps') && |run'| > 0 && |run'| == |steps'| + 1
    ensures run'[|steps'|] == Apply(run1[|steps1|], step)
  {
    hide Apply, Enabled, Init;
    run', steps' := run1 + [Apply(run1[|steps1|], step)], steps1 + [step];
    forall k | 0 <= k < |steps'|
      ensures Enabled(run'[k], steps'[k]) && run'[k + 1] == Apply(run'[k], steps'[k])
    {
      assert run'[k] == run1[k];
    }
  }

  lemma {:induction false} FewMembers(xs: seq<nat>)
    ensures |Members(xs)| <= |xs|
  {
    if xs != [] {
      var n := |xs| - 1;
      FewMembers(xs[..n]);
      assert Members(xs) == Members(xs[..n]) + {xs[n]};
    }
  }

  lemma {:induction false} WithoutIsShorter(ws: seq<Addr>, w: Addr)
    requires w in ws
    ensures |Without(ws, w)| == |ws| - 1
  {
    if ws[0] != w {
      WithoutIsShorter(ws[1..], w);
    }
  }

  /** A busy worker reports back: it does its job first, if it has not yet. */
  lemma WorkerReports(workers: seq<Addr>, run: seq<State>, steps: seq<Step>, run1: seq<State>, steps1: seq<Step>)
    returns (run': seq<State>, steps': seq<Step>)
    requires GoesOn(workers, run, steps, run1, steps1) && Going(run1[|steps1|]) && run1[|steps1|].local.busy != []
    ensures GoesOn(workers, run, steps, run', steps') && Going(run'[|steps'|])
    ensures Left(run'[|steps'|]) <= Left(run1[|steps1|])
    ensures |run'[|steps'|].local.busy| < |run1[|steps1|].local.busy|
  {
    var s := run1[|steps1|];
    RunKeepsInv(workers, run1, steps1, |steps1|);
    var w := s.local.busy[0];
    assert w in s.local.busy && w in workers;
    assert |JobsOf(s, w)| + s.fins[w] == 1;
    WithoutIsShorter(s.local.busy, w);
    FewMembers(s.local.cache);
    var stashed := Members(s.local.cache);
    assert |s.requests + stashed| <= |s.requests| + |stashed|;
    hide Inv, Partition, OneJobEach, ExposedSince, GoesOn;
    run', steps' := run1, steps1;
    if s.fins[w] == 0 {
      run', steps' := GoOn(workers, run, steps, run', steps', Work(w));
    }
    run', steps' := GoOn(workers, run, steps, run', steps', TakeFinished(w));
  }

  /** Neither the cache nor the list of idle workers was found full or empty when it should not be. */
  predicate Going(s: State) {
    !s.failed && !s.undefined
  }

  function Left(s: State): nat {
    |s.requests| + |s.local.cache|
  }

  /** If nobody is busy, the next request goes to a worker. */
  lemma RequestIsTaken(workers: seq<Addr>, run: seq<State>, steps: seq<Step>, run1: seq<State>, steps1: seq<Step>)
    returns (run': seq<State>, steps': seq<Step>)
    requires GoesOn(workers, run, steps, run1, steps1) && Going(run1[|steps1|])
    requires run1[|steps1|].local.busy == [] && run1[|steps1|].requests != {}
    ensures GoesOn(workers, run, steps, run', steps') && Going(run'[|steps'|])
    ensures Left(run'[|steps'|]) < Left(run1[|steps1|])
  {
    var s := run1[|steps1|];
    RunKeepsInv(workers, run1, steps1, |steps1|);
    assert workers[0] in s.local.idle;
    var id :| id in s.requests;
    hide Inv, Partition, OneJobEach, ExposedSince, GoesOn;
    run', steps' := GoOn(workers, run, steps, run1, steps1, TakeRead(id));
  }

  lemma {:induction false} WorkersFinish(workers: seq<Addr>, run: seq<State>, steps: seq<Step>, run1: seq<State>, steps1: seq<Step>)
    returns (run': seq<State>, steps': seq<Step>)
    requires GoesOn(workers, run, steps, run1, steps1) && Going(run1[|steps1|])
    ensures GoesOn(workers, run, steps, run', steps') && Going(run'[|steps'|])
    ensures run'[|steps'|].local.busy == [] && run'[|steps'|].requests == {}
    decreases Left(run1[|steps1|]), |run1[|steps1|].local.busy|
  {
    hide Left, Going;
    if run1[|steps1|].local.busy != [] {
      run', steps' := WorkerReports(workers, run, steps, run1, steps1);
      hide GoesOn;
      run', steps' := WorkersFinish(workers, run, steps, run', steps');
    } else if run1[|steps1|].requests != {} {
      run', steps' := RequestIsTaken(workers, run, steps, run1, steps1);
      hide GoesOn;
      run', steps' := WorkersFinish(workers, run, steps, run', steps');
    } else {
      run', steps' := run1, steps1;
    }
  }

  /** From every state of every run that did not fail, all requests so far can be done, even if a
      stranger has reported and the read handler is exposed at the moment. */
  lemma EverythingCanBeDone(workers: seq<Addr>, run: seq<State>, steps: seq<Step>)
    returns (run': seq<State>, steps': seq<Step>)
    requires IsRun(workers, run, steps) && !run[|steps|].failed && !run[|steps|].undefined
    ensures GoesOn(workers, run, steps, run', steps')
    ensures forall id: nat :: id < run'[|steps'|].issued ==> id in run'[|steps'|].done
  {
    run', steps' := WorkersFinish(workers, run, steps, run, steps);
    var s := run'[|steps'|];
    RunKeepsInv(workers, run', steps', |steps'|);
    NoRequestIsLost(workers, run', steps', |steps'|);
    assert workers[0] in s.local.idle;
    forall id: nat | id < s.issued
      ensures id in s.done
    {
      assert Places(s, id) == 1;
      forall w | w in s.jobs
        ensures s.jobs[w] == []
      {
        assert |JobsOf(s, w)| + s.fins[w] == 0;
      }
      assert !Pending(s, id);
    }
  }
}
