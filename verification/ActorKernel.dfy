/** All actors of a system: links between them, the exit messages these cause, and the
    registry, on top of the life of each actor's attachables. */
module ActorKernel {
  import opened Attachables
  import opened Lifecycle

  /** Whether a strong reference to the actor can be obtained. */
  datatype Refs = Held | Expired | Gone

  datatype Cell = Cell(refs: Refs, it: Actor)

  /** Why an exit message exists: a link entry fired, or a link attempt met a dead actor. */
  datatype Cause = Entry(id: nat) | Refused(id: nat)

  datatype Exit = Exit(from: nat, to: nat, reason: int, cause: Cause)

  /** `owed`: exit messages that `add_link` sends after its critical section.  `sent`: exit
      messages handed to an actor.  `lost`: exit messages for actors that had no strong
      reference left.  `refused` records all link attempts that met a dead actor. */
  datatype State = State(
    cells: seq<Cell>, nextId: nat,
    owed: multiset<Exit>, sent: multiset<Exit>, lost: multiset<Exit>, refused: set<Exit>,
    registry: map<nat, nat>)

  datatype Step =
    | AttachCall(a: nat, kind: Kind)
    | AttachSection(a: nat, x: Attachable)
    | LateFire(a: nat, x: Attachable)
    | DetachCall(a: nat, token: Kind)
    | Cleanup(a: nat, reason: int)
    | CleanupFire(a: nat)
    | LinkTo(a: nat, b: nat)
    | UnlinkFrom(a: nat, b: nat)
    | UnlinkAddr(a: nat, b: nat)
    | SendOwed(e: Exit)
    | Expire(a: nat) | Bump(a: nat) | Destroy(a: nat)
    | RegistryPut(key: nat, a: nat)
    | RegistryErase(key: nat)

  // -- steps ------------------------------------------------------------------------------

  function Set(s: State, a: nat, it: Actor): (t: State)
    requires a < |s.cells|
    ensures |t.cells| == |s.cells|
  {
    s.(cells := s.cells[a := s.cells[a].(it := it)])
  }

  /** What `actor_exited` of `x`, attached to `a`, does to the rest of the system. */
  function Effect(s: State, a: nat, x: Attachable): (t: State)
    requires a < |s.cells|
    ensures t.cells == s.cells && t.nextId == s.nextId && t.refused == s.refused
  {
    match x.kind
    case Link(b) =>
      var e := Exit(a, b, s.cells[a].it.fail, Entry(x.id));
      if Reachable(s, b) then s.(sent := s.sent + multiset{e}) else s.(lost := s.lost + multiset{e})
    case EraseEntry(k) => s.(registry := s.registry - {k})
    case _ => s
  }

  predicate Reachable(s: State, a: nat) {
    a < |s.cells| && s.cells[a].refs == Held
  }

  predicate Enabled(s: State, step: Step) {
    match step
    case AttachCall(a, kind) => a < |s.cells| && !kind.Link? && !kind.EraseEntry?
    case AttachSection(a, x) => a < |s.cells| && x in s.cells[a].it.arriving
    case LateFire(a, x) => a < |s.cells| && x in s.cells[a].it.late
    case DetachCall(a, token) => a < |s.cells|
    case Cleanup(a, _) => Reachable(s, a)
    case CleanupFire(a) => a < |s.cells| && s.cells[a].it.cleaning != []
    case LinkTo(a, b) => Reachable(s, a) && Reachable(s, b) && a != b
    case UnlinkFrom(a, b) => Reachable(s, a) && Reachable(s, b) && a != b
    case UnlinkAddr(a, b) => Reachable(s, a) && b < |s.cells| && !Reachable(s, b)
    case SendOwed(e) => e in s.owed
    case Expire(a) => Reachable(s, a)
    case Bump(a) => a < |s.cells| && s.cells[a].refs == Expired && !s.cells[a].it.terminated
    case Destroy(a) => a < |s.cells| && s.cells[a].refs == Expired && s.cells[a].it.terminated
    case RegistryPut(_, a) => a < |s.cells|
    case RegistryErase(_) => true
  }

  function Apply(s: State, step: Step): State
    requires Enabled(s, step)
  {
    match step
    case AttachCall(a, kind) => IssueAt(s, a, kind)
    case AttachSection(a, x) => Set(s, a, Section(s.cells[a].it, x))
    case LateFire(a, x) => Effect(Set(s, a, FireLate(s.cells[a].it, x)), a, x)
    case DetachCall(a, token) => RemoveAt(s, a, token, false)
    case Cleanup(a, reason) => Set(s, a, Terminate(s.cells[a].it, reason))
    case CleanupFire(a) => Effect(Set(s, a, FireNext(s.cells[a].it)), a, s.cells[a].it.cleaning[0])
    case LinkTo(a, b) => AddLink(s, a, b)
    case UnlinkFrom(a, b) => RemoveAt(RemoveAt(s, b, Link(a), true), a, Link(b), true)
    case UnlinkAddr(a, b) => RemoveAt(s, a, Link(b), true)
    case SendOwed(e) => s.(owed := s.owed - multiset{e}, sent := s.sent + multiset{e})
    case Expire(a) => s.(cells := s.cells[a := s.cells[a].(refs := Expired)])
    case Bump(a) => s.(cells := s.cells[a := s.cells[a].(refs := Held)])
    case Destroy(a) => s.(cells := s.cells[a := s.cells[a].(refs := Gone)])
    case RegistryPut(key, a) =>
      if key in s.registry then s else IssueAt(s.(registry := s.registry[key := a]), a, EraseEntry(key))
    case RegistryErase(key) => s.(registry := s.registry - {key})
  }

  function IssueAt(s: State, a: nat, kind: Kind): State
    requires a < |s.cells|
  {
    Set(s, a, Issue(s.cells[a].it, Attachable(s.nextId, kind))).(nextId := s.nextId + 1)
  }

  function InstallAt(s: State, a: nat, kind: Kind): (t: State)
    requires a < |s.cells|
    ensures |t.cells| == |s.cells|
  {
    Set(s, a, Install(s.cells[a].it, Attachable(s.nextId, kind))).(nextId := s.nextId + 1)
  }

  function RemoveAt(s: State, a: nat, token: Kind, stopOnHit: bool): (t: State)
    requires a < |s.cells|
    ensures |t.cells| == |s.cells|
  {
    Set(s, a, Remove(s.cells[a].it, token, stopOnHit))
  }

  /** `a->link_to(b)`: the joined critical section of `add_link` and `add_backlink`. */
  function AddLink(s: State, a: nat, b: nat): State
    requires a < |s.cells| && b < |s.cells|
  {
    if s.cells[a].it.terminated then
      var e := Exit(a, b, s.cells[a].it.fail, Refused(s.nextId));
      s.(nextId := s.nextId + 1, refused := s.refused + {e}, owed := s.owed + multiset{e})
    else if s.cells[b].it.terminated then
      var e := Exit(b, a, s.cells[b].it.fail, Refused(s.nextId));
      s.(nextId := s.nextId + 1, refused := s.refused + {e}, sent := s.sent + multiset{e})
    else if Detached(s.cells[b].it.list, Link(a), true, true).0 != 0 then s
    else InstallAt(InstallAt(s, b, Link(a)), a, Link(b))
  }

  ghost predicate Init(s: State) {
    && (forall a :: 0 <= a < |s.cells| ==> s.cells[a] == Cell(Held, Fresh))
    && s == State(s.cells, 0, multiset{}, multiset{}, multiset{}, {}, map[])
  }

  ghost predicate IsRun(run: seq<State>, steps: seq<Step>) {
    && |run| == |steps| + 1
    && Init(run[0])
    && forall i :: 0 <= i < |steps| ==> Enabled(run[i], steps[i]) && run[i + 1] == Apply(run[i], steps[i])
  }

  // -- every actor's attachables --------------------------------------------------------------

  ghost predicate CellOk(c: Cell, nextId: nat) {
    && Ok(c.it)
    && (forall x :: x in c.it.issued ==> x.id < nextId)
    && (forall x :: x in c.it.arriving || x in c.it.late ==> !x.kind.Link?)
  }

  ghost predicate CellsOk(s: State) {
    forall a :: 0 <= a < |s.cells| ==> CellOk(s.cells[a], s.nextId)
  }

  /** Replacing one cell by one that is in order keeps all cells in order. */
  lemma SetKeepsCells(s: State, t: State, a: nat, c: Cell)
    requires CellsOk(s) && a < |s.cells| && t.cells == s.cells[a := c] && s.nextId <= t.nextId
    requires CellOk(c, t.nextId)
    ensures CellsOk(t)
  {
    hide Ok;
    forall b | 0 <= b < |t.cells|
      ensures CellOk(t.cells[b], t.nextId)
    {
      assert b != a ==> CellOk(s.cells[b], s.nextId);
    }
  }

  lemma IssueKeepsCells(s: State, a: nat, kind: Kind)
    requires CellsOk(s) && a < |s.cells| && !kind.Link?
    ensures CellsOk(IssueAt(s, a, kind))
  {
    hide Ok;
    var t := IssueAt(s, a, kind);
    assert CellOk(s.cells[a], s.nextId);
    IssueKeepsOk(s.cells[a].it, Attachable(s.nextId, kind));
    SetKeepsCells(s, t, a, t.cells[a]);
  }

  lemma InstallKeepsCells(s: State, a: nat, kind: Kind)
    requires CellsOk(s) && a < |s.cells| && !s.cells[a].it.terminated
    ensures CellsOk(InstallAt(s, a, kind))
  {
    hide Ok;
    var t := InstallAt(s, a, kind);
    assert CellOk(s.cells[a], s.nextId);
    InstallKeepsOk(s.cells[a].it, Attachable(s.nextId, kind));
    SetKeepsCells(s, t, a, t.cells[a]);
  }

  lemma RemoveKeepsCells(s: State, a: nat, token: Kind, stopOnHit: bool)
    requires CellsOk(s) && a < |s.cells|
    ensures CellsOk(RemoveAt(s, a, token, stopOnHit))
  {
    hide Ok, Detached;
    var t := RemoveAt(s, a, token, stopOnHit);
    assert CellOk(s.cells[a], s.nextId);
    RemoveKeepsOk(s.cells[a].it, token, stopOnHit);
    SetKeepsCells(s, t, a, t.cells[a]);
  }

  lemma LinkKeepsCells(s: State, a: nat, b: nat)
    requires CellsOk(s) && a < |s.cells| && b < |s.cells| && a != b
    ensures CellsOk(AddLink(s, a, b))
  {
    hide CellOk;
    if s.cells[a].it.terminated || s.cells[b].it.terminated {
      var t := AddLink(s, a, b);
      assert CellOk(s.cells[a], s.nextId);
      LaterId(s.cells[a], s.nextId, t.nextId);
      SetKeepsCells(s, t, a, s.cells[a]);
    } else if Detached(s.cells[b].it.list, Link(a), true, true).0 == 0 {
      InstallKeepsCells(s, b, Link(a));
      InstallKeepsCells(InstallAt(s, b, Link(a)), a, Link(b));
    }
  }

  lemma LaterId(c: Cell, i: nat, j: nat)
    requires CellOk(c, i) && i <= j
    ensures CellOk(c, j)
  {
  }

  /** One actor takes a step of its own that issues nothing. */
  lemma LocalKeepsCells(s: State, t: State, a: nat, it: Actor)
    requires CellsOk(s) && a < |s.cells| && t.nextId == s.nextId
    requires t.cells == s.cells[a := s.cells[a].(it := it)] && Ok(it)
    requires it.issued == s.cells[a].it.issued
    requires forall x :: x in it.arriving || x in it.late ==> x in s.cells[a].it.arriving || x in s.cells[a].it.late
    requires s.cells[a].it.terminated ==> it.terminated
    ensures CellsOk(t)
  {
    hide Ok;
    assert CellOk(s.cells[a], s.nextId);
    SetKeepsCells(s, t, a, t.cells[a]);
  }

  lemma FireKeepsCells(s: State, step: Step)
    requires CellsOk(s) && Enabled(s, step) && (step.LateFire? || step.CleanupFire?)
    ensures CellsOk(Apply(s, step))
  {
    hide Ok;
    var t, it := Apply(s, step), s.cells[step.a].it;
    assert CellOk(s.cells[step.a], s.nextId);
    if step.LateFire? {
      FireLateKeepsOk(it, step.x);
      LocalKeepsCells(s, t, step.a, FireLate(it, step.x));
    } else {
      FireNextKeepsOk(it);
      LocalKeepsCells(s, t, step.a, FireNext(it));
    }
  }

  lemma SectionStepKeepsCells(s: State, step: Step)
    requires CellsOk(s) && Enabled(s, step) && (step.AttachSection? || step.Cleanup?)
    ensures CellsOk(Apply(s, step))
  {
    hide Ok;
    var t, it := Apply(s, step), s.cells[step.a].it;
    assert CellOk(s.cells[step.a], s.nextId);
    if step.AttachSection? {
      SectionKeepsOk(it, step.x);
      LocalKeepsCells(s, t, step.a, Section(it, step.x));
    } else {
      TerminateKeepsOk(it, step.reason);
      LocalKeepsCells(s, t, step.a, Terminate(it, step.reason));
    }
  }

  lemma RefStepKeepsCells(s: State, step: Step)
    requires CellsOk(s) && Enabled(s, step)
    requires step.Expire? || step.Bump? || step.Destroy?
    ensures CellsOk(Apply(s, step))
  {
    hide Ok;
    var t := Apply(s, step);
    assert CellOk(s.cells[step.a], s.nextId);
    SetKeepsCells(s, t, step.a, t.cells[step.a]);
  }

  lemma StepKeepsCells(s: State, step: Step)
    requires CellsOk(s) && Enabled(s, step)
    ensures CellsOk(Apply(s, step))
  {
    hide CellOk, AddLink, RemoveAt, IssueAt, Effect;
    match step
    case AttachCall(a, kind) => IssueKeepsCells(s, a, kind);
    case DetachCall(a, token) => RemoveKeepsCells(s, a, token, false);
    case LinkTo(a, b) => LinkKeepsCells(s, a, b);
    case UnlinkFrom(a, b) =>
      RemoveKeepsCells(s, b, Link(a), true);
      RemoveKeepsCells(RemoveAt(s, b, Link(a), true), a, Link(b), true);
    case UnlinkAddr(a, b) => RemoveKeepsCells(s, a, Link(b), true);
    case SendOwed(_) =>
    case Expire(_) => RefStepKeepsCells(s, step);
    case Bump(_) => RefStepKeepsCells(s, step);
    case Destroy(_) => RefStepKeepsCells(s, step);
    case RegistryPut(key, a) =>
      if key !in s.registry {
        IssueKeepsCells(s.(registry := s.registry[key := a]), a, EraseEntry(key));
      }
    case RegistryErase(_) =>
    case AttachSection(_, _) => SectionStepKeepsCells(s, step);
    case Cleanup(_, _) => SectionStepKeepsCells(s, step);
    case LateFire(_, _) => FireKeepsCells(s, step);
    case CleanupFire(_) => FireKeepsCells(s, step);
  }

  // -- exit messages ------------------------------------------------------------------------

  predicate DeadWith(s: State, a: nat, reason: int) {
    a < |s.cells| && s.cells[a].it.terminated && s.cells[a].it.fail == reason
  }

  /** The books on one exit message: a refused link attempt owes or has sent exactly one, and
      a link entry has sent or lost one exactly when it fired. */
  predicate Balanced(s: State, e: Exit) {
    match e.cause
    case Refused(_) => s.lost[e] == 0 && s.owed[e] + s.sent[e] == if e in s.refused then 1 else 0
    case Entry(id) =>
      && s.owed[e] == 0
      && (e.from < |s.cells| && e.reason == s.cells[e.from].it.fail ==>
            s.sent[e] + s.lost[e] == s.cells[e.from].it.fired[Fire(Attachable(id, Link(e.to)), e.reason)])
  }

  ghost predicate ExitsOk(s: State) {
    && (forall e :: e in s.sent || e in s.lost || e in s.owed ==> DeadWith(s, e.from, e.reason))
    && (forall e :: e in s.refused ==> e.cause.Refused? && e.cause.id < s.nextId)
    && (forall e :: Balanced(s, e))
  }

  /** The steps that neither fire anything nor change how an actor died. */
  predicate SameDeaths(s: State, t: State) {
    && |t.cells| == |s.cells| && s.nextId <= t.nextId
    && t.owed == s.owed && t.sent == s.sent && t.lost == s.lost && t.refused == s.refused
    && forall a :: 0 <= a < |s.cells| ==>
         && t.cells[a].it.terminated == s.cells[a].it.terminated
         && t.cells[a].it.fail == s.cells[a].it.fail
         && t.cells[a].it.fired == s.cells[a].it.fired
  }

  lemma SameDeathsKeepExits(s: State, t: State)
    requires ExitsOk(s) && SameDeaths(s, t)
    ensures ExitsOk(t)
  {
    forall e
      ensures Balanced(t, e)
    {
      assert Balanced(s, e);
    }
  }

  lemma RefusalKeepsExits(s: State, a: nat, b: nat)
    requires ExitsOk(s) && a < |s.cells| && b < |s.cells|
    requires s.cells[a].it.terminated || s.cells[b].it.terminated
    ensures ExitsOk(AddLink(s, a, b))
  {
    var t := AddLink(s, a, b);
    forall e
      ensures Balanced(t, e)
    {
      assert Balanced(s, e);
    }
  }

  lemma SendKeepsExits(s: State, e: Exit)
    requires ExitsOk(s) && e in s.owed
    ensures ExitsOk(Apply(s, SendOwed(e)))
  {
    var t := Apply(s, SendOwed(e));
    assert Balanced(s, e);
    forall f
      ensures Balanced(t, f)
    {
      assert Balanced(s, f);
    }
  }

  lemma TerminateKeepsExits(s: State, a: nat, reason: int)
    requires ExitsOk(s) && a < |s.cells|
    requires !s.cells[a].it.terminated ==> s.cells[a].it.fired == multiset{}
    ensures ExitsOk(Set(s, a, Terminate(s.cells[a].it, reason)))
  {
    var t := Set(s, a, Terminate(s.cells[a].it, reason));
    forall e
      ensures Balanced(t, e)
    {
      assert Balanced(s, e);
    }
  }

  lemma EffectBalances(s: State, a: nat, it: Actor, x: Attachable, e: Exit)
    requires Balanced(s, e) && a < |s.cells| && it.fail == s.cells[a].it.fail
    requires it.fired == s.cells[a].it.fired + multiset{Fire(x, it.fail)}
    ensures Balanced(Effect(Set(s, a, it), a, x), e)
  {
  }

  /** Firing `x` on the terminated actor `a`. */
  lemma EffectKeepsExits(s: State, a: nat, it: Actor, x: Attachable)
    requires ExitsOk(s) && a < |s.cells| && s.cells[a].it.terminated
    requires it.terminated && it.fail == s.cells[a].it.fail
    requires it.fired == s.cells[a].it.fired + multiset{Fire(x, it.fail)}
    ensures ExitsOk(Effect(Set(s, a, it), a, x))
  {
    hide Balanced, Effect, DeadWith;
    var t := Effect(Set(s, a, it), a, x);
    forall e
      ensures Balanced(t, e)
    {
      EffectBalances(s, a, it, x, e);
    }
    forall e | e in t.sent || e in t.lost || e in t.owed
      ensures DeadWith(t, e.from, e.reason)
    {
      EffectIsOfTheDead(s, a, it, x, e);
    }
  }

  lemma EffectIsOfTheDead(s: State, a: nat, it: Actor, x: Attachable, e: Exit)
    requires a < |s.cells| && s.cells[a].it.terminated && it.terminated && it.fail == s.cells[a].it.fail
    requires e in s.sent || e in s.lost || e in s.owed ==> DeadWith(s, e.from, e.reason)
    ensures var t := Effect(Set(s, a, it), a, x);
      e in t.sent || e in t.lost || e in t.owed ==> DeadWith(t, e.from, e.reason)
  {
  }

  lemma FireStepKeepsExits(s: State, step: Step)
    requires CellsOk(s) && ExitsOk(s) && Enabled(s, step) && (step.LateFire? || step.CleanupFire?)
    ensures ExitsOk(Apply(s, step))
  {
    hide ExitsOk, Places;
    var it := s.cells[step.a].it;
    assert CellOk(s.cells[step.a], s.nextId);
    if step.LateFire? {
      EffectKeepsExits(s, step.a, FireLate(it, step.x), step.x);
    } else {
      EffectKeepsExits(s, step.a, FireNext(it), it.cleaning[0]);
    }
  }

  lemma OtherStepKeepsExits(s: State, step: Step)
    requires ExitsOk(s) && Enabled(s, step)
    requires !step.LateFire? && !step.CleanupFire? && !step.Cleanup? && !step.SendOwed? && !step.LinkTo?
    ensures ExitsOk(Apply(s, step))
  {
    hide ExitsOk, Detached;
    SameDeathsKeepExits(s, Apply(s, step));
  }

  lemma StepKeepsExits(s: State, step: Step)
    requires CellsOk(s) && ExitsOk(s) && Enabled(s, step)
    ensures ExitsOk(Apply(s, step))
  {
    hide ExitsOk, CellsOk, Effect, RemoveAt, AddLink, IssueAt;
    match step
    case LateFire(a, x) => FireStepKeepsExits(s, step);
    case CleanupFire(a) => FireStepKeepsExits(s, step);
    case Cleanup(a, reason) => CleanupKeepsExits(s, a, reason);
    case SendOwed(e) => SendKeepsExits(s, e);
    case LinkTo(a, b) => LinkKeepsExits(s, a, b);
    case _ => OtherStepKeepsExits(s, step);
  }

  lemma CleanupKeepsExits(s: State, a: nat, reason: int)
    requires CellsOk(s) && ExitsOk(s) && a < |s.cells|
    ensures ExitsOk(Set(s, a, Terminate(s.cells[a].it, reason)))
  {
    hide ExitsOk, Places;
    assert CellOk(s.cells[a], s.nextId);
    TerminateKeepsExits(s, a, reason);
  }

  lemma LinkKeepsExits(s: State, a: nat, b: nat)
    requires ExitsOk(s) && a < |s.cells| && b < |s.cells|
    ensures ExitsOk(AddLink(s, a, b))
  {
    hide ExitsOk, Detached;
    if s.cells[a].it.terminated || s.cells[b].it.terminated {
      RefusalKeepsExits(s, a, b);
    } else {
      SameDeathsKeepExits(s, AddLink(s, a, b));
    }
  }

  // -- links ----------------------------------------------------------------------------------

  lemma DryRunFindsLink(xs: seq<Attachable>, b: nat)
    ensures Detached(xs, Link(b), true, true).0 != 0 <==> Count(xs, Link(b)) > 0
  {
    CountDetached(xs, Link(b), true, true, Link(b));
  }

  function Entries(s: State, a: nat): seq<Attachable>
    requires a < |s.cells|
  {
    s.cells[a].it.list
  }

  /** The link entries of `a` for `b`. */
  function Links(s: State, a: nat, b: nat): nat
    requires a < |s.cells|
  {
    Count(Entries(s, a), Link(b))
  }

  predicate Dead(s: State, a: nat)
    requires a < |s.cells|
  {
    s.cells[a].it.terminated
  }

  /** The link entries of `a` for `b` after a step, from those before it. */
  function LinksAfter(s: State, step: Step, a: nat, b: nat): nat
    requires Enabled(s, step) && a < |s.cells|
  {
    var n := Links(s, a, b);
    match step
    case LinkTo(c, d) =>
      if !Dead(s, c) && !Dead(s, d) && Links(s, d, c) == 0 && ((a == c && b == d) || (a == d && b == c)) then n + 1 else n
    case UnlinkFrom(c, d) =>
      if n > 0 && ((a == c && b == d) || (a == d && b == c)) then n - 1 else n
    case UnlinkAddr(c, d) => if n > 0 && a == c && b == d then n - 1 else n
    case DetachCall(c, token) => if a == c && token == Link(b) then 0 else n
    case Cleanup(c, _) => if a == c then 0 else n
    case _ => n
  }

  lemma SetLinks(s: State, c: nat, it: Actor, a: nat, b: nat)
    requires a < |s.cells| && c < |s.cells|
    ensures Links(Set(s, c, it), a, b) == if a == c then Count(it.list, Link(b)) else Links(s, a, b)
    ensures Dead(Set(s, c, it), a) == if a == c then it.terminated else Dead(s, a)
  {
  }

  lemma RemoveLinks(s: State, c: nat, token: Kind, stopOnHit: bool, a: nat, b: nat)
    requires a < |s.cells| && c < |s.cells|
    ensures var t := RemoveAt(s, c, token, stopOnHit);
      && Links(t, a, b) == (if a == c then Left(Links(s, a, b), Link(b), token, stopOnHit) else Links(s, a, b))
      && Dead(t, a) == Dead(s, a)
  {
    CountDetached(Entries(s, c), token, stopOnHit, false, Link(b));
    hide Detached, Count;
    SetLinks(s, c, Remove(s.cells[c].it, token, stopOnHit), a, b);
  }

  lemma InstallLinks(s: State, c: nat, d: nat, a: nat, b: nat)
    requires a < |s.cells| && c < |s.cells|
    ensures var t := InstallAt(s, c, Link(d));
      && Links(t, a, b) == Links(s, a, b) + (if a == c && b == d then 1 else 0)
      && Dead(t, a) == Dead(s, a)
  {
    CountPrepend(Entries(s, c), Attachable(s.nextId, Link(d)), Link(b));
    hide Count;
  }

  /** The three outcomes of `link_to`: refused, linked already, or an entry on both sides. */
  lemma AddLinkCases(s: State, c: nat, d: nat)
    requires c < |s.cells| && d < |s.cells|
    ensures var t := AddLink(s, c, d);
      if Dead(s, c) || Dead(s, d) then t.cells == s.cells
      else if Links(s, d, c) > 0 then t == s
      else t == InstallAt(InstallAt(s, d, Link(c)), c, Link(d))
  {
    DryRunFindsLink(Entries(s, d), c);
    hide Detached, Count, InstallAt;
  }

  lemma LinkToLinks(s: State, c: nat, d: nat, a: nat, b: nat)
    requires Enabled(s, LinkTo(c, d)) && a < |s.cells|
    ensures var t := AddLink(s, c, d);
      |t.cells| == |s.cells| && Links(t, a, b) == LinksAfter(s, LinkTo(c, d), a, b) && Dead(t, a) == Dead(s, a)
  {
    AddLinkCases(s, c, d);
    hide AddLink, InstallAt, Count;
    if !Dead(s, c) && !Dead(s, d) && Links(s, d, c) == 0 {
      InstallLinks(s, d, c, a, b);
      InstallLinks(InstallAt(s, d, Link(c)), c, d, a, b);
      hide Links, Dead;
    }
  }

  lemma SectionLinks(s: State, step: Step, a: nat, b: nat)
    requires CellsOk(s) && Enabled(s, step) && a < |s.cells| && (step.AttachSection? || step.Cleanup?)
    ensures var t := Apply(s, step);
      && |t.cells| == |s.cells| && Links(t, a, b) == LinksAfter(s, step, a, b)
      && Dead(t, a) == (Dead(s, a) || (step.Cleanup? && step.a == a))
  {
    hide Places;
    var it := s.cells[step.a].it;
    assert CellOk(s.cells[step.a], s.nextId);
    assert Count([], Link(b)) == 0;
    if step.Cleanup? {
      SetLinks(s, step.a, Terminate(it, step.reason), a, b);
    } else {
      CountPrepend(it.list, step.x, Link(b));
      SetLinks(s, step.a, Section(it, step.x), a, b);
    }
  }

  lemma UnlinkLinks(s: State, step: Step, a: nat, b: nat)
    requires Enabled(s, step) && a < |s.cells| && (step.UnlinkFrom? || step.UnlinkAddr? || step.DetachCall?)
    ensures var t := Apply(s, step);
      |t.cells| == |s.cells| && Links(t, a, b) == LinksAfter(s, step, a, b) && Dead(t, a) == Dead(s, a)
  {
    hide RemoveAt, AddLink, Effect, IssueAt;
    match step
    case UnlinkFrom(c, d) =>
      RemoveLinks(s, d, Link(c), true, a, b);
      RemoveLinks(RemoveAt(s, d, Link(c), true), c, Link(d), true, a, b);
    case UnlinkAddr(c, d) => RemoveLinks(s, c, Link(d), true, a, b);
    case DetachCall(c, token) => RemoveLinks(s, c, token, false, a, b);
  }

  /** The other steps do not change any list, nor whether an actor terminated. */
  lemma OtherLinks(s: State, step: Step, a: nat, b: nat)
    requires Enabled(s, step) && a < |s.cells|
    requires !step.AttachSection? && !step.Cleanup? && !step.LinkTo? && !step.UnlinkFrom? && !step.UnlinkAddr?
    requires !step.DetachCall?
    ensures var t := Apply(s, step);
      |t.cells| == |s.cells| && Links(t, a, b) == Links(s, a, b) && Dead(t, a) == Dead(s, a)
  {
    hide Effect, RemoveAt, AddLink;
  }

  /** The exact effect of every step on the links of every actor. */
  lemma StepLinks(s: State, step: Step, a: nat, b: nat)
    requires CellsOk(s) && Enabled(s, step) && a < |s.cells|
    ensures var t := Apply(s, step);
      && |t.cells| == |s.cells| && Links(t, a, b) == LinksAfter(s, step, a, b)
      && Dead(t, a) == (Dead(s, a) || (step.Cleanup? && step.a == a))
  {
    match step
    case AttachSection(_, _) => SectionLinks(s, step, a, b);
    case Cleanup(_, _) => SectionLinks(s, step, a, b);
    case LinkTo(c, d) => LinkToLinks(s, c, d, a, b);
    case UnlinkFrom(_, _) => UnlinkLinks(s, step, a, b);
    case UnlinkAddr(_, _) => UnlinkLinks(s, step, a, b);
    case DetachCall(_, _) => UnlinkLinks(s, step, a, b);
    case _ => OtherLinks(s, step, a, b);
  }

  /** Each of two actors has a link entry for the other or none has, unless one terminated. */
  predicate Symmetric(s: State, a: nat, b: nat)
    requires a < |s.cells| && b < |s.cells|
  {
    !Dead(s, a) && !Dead(s, b) ==> (Links(s, a, b) > 0 <==> Links(s, b, a) > 0)
  }

  /** Symmetric, and with at most one entry per side. */
  predicate Paired(s: State, a: nat, b: nat) {
    && a < |s.cells| && b < |s.cells|
    && Links(s, a, b) <= 1 && Links(s, b, a) <= 1 && Symmetric(s, a, b)
  }

  /** The step removes the link entry of `a` for `b` although `b` has not terminated, and leaves the
      entry of `b` alone: `unlink_from` finds no strong reference, or `detach` gets a link token. */
  predicate DropsOneSide(s: State, step: Step, a: nat, b: nat)
    requires a < |s.cells| && b < |s.cells|
  {
    (step == UnlinkAddr(a, b) || step == DetachCall(a, Link(b))) && Links(s, a, b) > 0 && !Dead(s, b)
  }

  predicate OneSided(s: State, step: Step, a: nat, b: nat)
    requires a < |s.cells| && b < |s.cells|
  {
    DropsOneSide(s, step, a, b) || DropsOneSide(s, step, b, a)
  }

  /** A step keeps a pair of actors paired exactly if it is not one-sided for them. */
  lemma StepKeepsPair(s: State, step: Step, a: nat, b: nat)
    requires CellsOk(s) && Enabled(s, step) && a != b && Paired(s, a, b)
    ensures |Apply(s, step).cells| == |s.cells|
    ensures Symmetric(Apply(s, step), a, b) <==> !OneSided(s, step, a, b)
    ensures !OneSided(s, step, a, b) ==> Paired(Apply(s, step), a, b)
  {
    hide Apply, Links, Dead, CellsOk;
    DeadHasNoLinks(s, a, b);
    DeadHasNoLinks(s, b, a);
    StepLinks(s, step, a, b);
    StepLinks(s, step, b, a);
  }

  lemma DeadHasNoLinks(s: State, a: nat, b: nat)
    requires CellsOk(s) && a < |s.cells|
    ensures Dead(s, a) ==> Links(s, a, b) == 0
  {
    assert CellOk(s.cells[a], s.nextId);
  }

  // -- registry -----------------------------------------------------------------------------

  /** `x` is attached to the actor, or is on its way there, or still has to be fired. */
  predicate Carries(it: Actor, x: Attachable) {
    x in it.arriving || x in it.list || x in it.cleaning || x in it.late
  }

  /** Somebody still has to erase the entry for `key`. */
  ghost predicate Obliged(s: State, key: nat)
    requires key in s.registry
  {
    && s.registry[key] < |s.cells|
    && exists id :: Carries(s.cells[s.registry[key]].it, Attachable(id, EraseEntry(key)))
  }

  ghost predicate RegistryOk(s: State) {
    forall key :: key in s.registry ==> Obliged(s, key)
  }

  /** What `it` carries for `key`, `it'` still carries. */
  ghost predicate Keeps(it: Actor, it': Actor, key: nat) {
    forall id :: Carries(it, Attachable(id, EraseEntry(key))) ==> Carries(it', Attachable(id, EraseEntry(key)))
  }

  lemma SetKeepsObligation(s: State, t: State, a: nat, it: Actor, key: nat)
    requires key in s.registry && key in t.registry && s.registry[key] == t.registry[key]
    requires Obliged(s, key) && a < |s.cells|
    requires |t.cells| == |s.cells| && forall b :: 0 <= b < |s.cells| && b != a ==> t.cells[b].it == s.cells[b].it
    requires t.cells[a].it == it && Keeps(s.cells[a].it, it, key)
    ensures Obliged(t, key)
  {
    hide Carries;
    var b := s.registry[key];
    var id :| Carries(s.cells[b].it, Attachable(id, EraseEntry(key)));
    assert Carries(t.cells[b].it, Attachable(id, EraseEntry(key)));
  }

  lemma {:induction false} DetachKeepsErasers(xs: seq<Attachable>, token: Kind, stopOnHit: bool, x: Attachable)
    requires x in xs && x.kind.EraseEntry?
    ensures x in Detached(xs, token, stopOnHit, false).1
  {
    if x != xs[0] {
      assert x in xs[1..];
      DetachKeepsErasers(xs[1..], token, stopOnHit, x);
    }
  }

  lemma RemoveKeeps(it: Actor, token: Kind, stopOnHit: bool, key: nat)
    ensures Keeps(it, Remove(it, token, stopOnHit), key)
  {
    hide Detached;
    forall id: nat | Attachable(id, EraseEntry(key)) in it.list
      ensures Attachable(id, EraseEntry(key)) in Remove(it, token, stopOnHit).list
    {
      DetachKeepsErasers(it.list, token, stopOnHit, Attachable(id, EraseEntry(key)));
    }
  }

  /** The actor's own steps keep what they do not fire. */
  lemma LocalStepsKeep(it: Actor, x: Attachable, reason: int, key: nat)
    ensures Keeps(it, Issue(it, x), key) && Keeps(it, Install(it, x), key)
    ensures Keeps(it, Section(it, x), key)
    ensures it.cleaning == [] ==> Keeps(it, Terminate(it, reason), key)
    ensures x.kind != EraseEntry(key) ==> Keeps(it, FireLate(it, x), key)
    ensures it.cleaning != [] && it.cleaning[0].kind != EraseEntry(key) ==> Keeps(it, FireNext(it), key)
  {
    assert it.cleaning != [] ==> it.cleaning == [it.cleaning[0]] + it.cleaning[1..];
  }

  /** A step in which one actor's attachables change and entries are at most erased. */
  lemma CellStepKeepsRegistry(s: State, t: State, a: nat)
    requires RegistryOk(s) && a < |s.cells| && |t.cells| == |s.cells|
    requires forall b :: 0 <= b < |s.cells| && b != a ==> t.cells[b].it == s.cells[b].it
    requires forall key :: key in t.registry ==> key in s.registry && t.registry[key] == s.registry[key]
    requires forall key :: key in t.registry ==> Keeps(s.cells[a].it, t.cells[a].it, key)
    ensures RegistryOk(t)
  {
    hide Keeps, Obliged;
    forall key | key in t.registry
      ensures Obliged(t, key)
    {
      SetKeepsObligation(s, t, a, t.cells[a].it, key);
    }
  }

  lemma RemoveKeepsRegistry(s: State, a: nat, token: Kind, stopOnHit: bool)
    requires RegistryOk(s) && a < |s.cells|
    ensures RegistryOk(RemoveAt(s, a, token, stopOnHit))
  {
    hide RegistryOk, Keeps, Detached;
    var t := RemoveAt(s, a, token, stopOnHit);
    forall key | key in t.registry
      ensures Keeps(s.cells[a].it, t.cells[a].it, key)
    {
      RemoveKeeps(s.cells[a].it, token, stopOnHit, key);
    }
    CellStepKeepsRegistry(s, t, a);
  }

  lemma IssueKeepsRegistry(s: State, a: nat, kind: Kind, install: bool)
    requires RegistryOk(s) && a < |s.cells|
    ensures RegistryOk(if install then InstallAt(s, a, kind) else IssueAt(s, a, kind))
  {
    hide RegistryOk, Keeps;
    var t := if install then InstallAt(s, a, kind) else IssueAt(s, a, kind);
    forall key | key in t.registry
      ensures Keeps(s.cells[a].it, t.cells[a].it, key)
    {
      LocalStepsKeep(s.cells[a].it, Attachable(s.nextId, kind), 0, key);
    }
    CellStepKeepsRegistry(s, t, a);
  }

  lemma SectionStepKeepsRegistry(s: State, step: Step)
    requires CellsOk(s) && RegistryOk(s) && Enabled(s, step) && (step.AttachSection? || step.Cleanup?)
    ensures RegistryOk(Apply(s, step))
  {
    hide RegistryOk, Keeps, Places;
    var t, it := Apply(s, step), s.cells[step.a].it;
    assert CellOk(s.cells[step.a], s.nextId);
    forall key | key in t.registry
      ensures Keeps(it, t.cells[step.a].it, key)
    {
      LocalStepsKeep(it, if step.AttachSection? then step.x else Attachable(0, Callback),
                     if step.Cleanup? then step.reason else 0, key);
      NoChangeKeeps(it, key);
    }
    CellStepKeepsRegistry(s, t, step.a);
  }

  lemma NoChangeKeeps(it: Actor, key: nat)
    ensures Keeps(it, it, key)
  {
  }

  lemma FireStepKeepsRegistry(s: State, step: Step)
    requires RegistryOk(s) && Enabled(s, step) && (step.LateFire? || step.CleanupFire?)
    ensures RegistryOk(Apply(s, step))
  {
    hide RegistryOk, Keeps;
    var t, it := Apply(s, step), s.cells[step.a].it;
    var x := if step.LateFire? then step.x else it.cleaning[0];
    forall key | key in t.registry
      ensures Keeps(it, t.cells[step.a].it, key)
    {
      assert x.kind != EraseEntry(key);
      LocalStepsKeep(it, x, 0, key);
    }
    CellStepKeepsRegistry(s, t, step.a);
  }

  lemma PutKeepsRegistry(s: State, key: nat, a: nat)
    requires RegistryOk(s) && a < |s.cells| && key !in s.registry
    ensures RegistryOk(IssueAt(s.(registry := s.registry[key := a]), a, EraseEntry(key)))
  {
    var t := IssueAt(s.(registry := s.registry[key := a]), a, EraseEntry(key));
    assert Carries(t.cells[a].it, Attachable(s.nextId, EraseEntry(key)));
    hide Keeps, Carries;
    forall k | k in t.registry && k != key
      ensures Obliged(t, k)
    {
      assert Obliged(s, k);
      LocalStepsKeep(s.cells[a].it, Attachable(s.nextId, EraseEntry(key)), 0, k);
      SetKeepsObligation(s, t, a, t.cells[a].it, k);
    }
  }

  lemma OtherStepKeepsRegistry(s: State, t: State)
    requires RegistryOk(s) && |t.cells| == |s.cells|
    requires forall a :: 0 <= a < |s.cells| ==> t.cells[a].it == s.cells[a].it
    requires forall key :: key in t.registry ==> key in s.registry && t.registry[key] == s.registry[key]
    ensures RegistryOk(t)
  {
    hide Carries;
    forall key | key in t.registry
      ensures Obliged(t, key)
    {
      assert Obliged(s, key);
    }
  }

  lemma LinkKeepsRegistry(s: State, a: nat, b: nat)
    requires RegistryOk(s) && a < |s.cells| && b < |s.cells|
    ensures RegistryOk(AddLink(s, a, b))
  {
    hide RegistryOk, Detached;
    var t := AddLink(s, a, b);
    if t.cells == s.cells {
      OtherStepKeepsRegistry(s, t);
    } else {
      IssueKeepsRegistry(s, b, Link(a), true);
      IssueKeepsRegistry(InstallAt(s, b, Link(a)), a, Link(b), true);
    }
  }

  lemma StepKeepsRegistry(s: State, step: Step)
    requires CellsOk(s) && RegistryOk(s) && Enabled(s, step)
    ensures RegistryOk(Apply(s, step))
  {
    hide RegistryOk, CellsOk, AddLink, RemoveAt, IssueAt, Effect;
    match step
    case AttachCall(a, kind) => IssueKeepsRegistry(s, a, kind, false);
    case AttachSection(_, _) => SectionStepKeepsRegistry(s, step);
    case Cleanup(_, _) => SectionStepKeepsRegistry(s, step);
    case LateFire(_, _) => FireStepKeepsRegistry(s, step);
    case CleanupFire(_) => FireStepKeepsRegistry(s, step);
    case DetachCall(a, token) => RemoveKeepsRegistry(s, a, token, false);
    case LinkTo(a, b) => LinkKeepsRegistry(s, a, b);
    case UnlinkFrom(a, b) =>
      RemoveKeepsRegistry(s, b, Link(a), true);
      RemoveKeepsRegistry(RemoveAt(s, b, Link(a), true), a, Link(b), true);
    case UnlinkAddr(a, b) => RemoveKeepsRegistry(s, a, Link(b), true);
    case RegistryPut(key, a) =>
      if key !in s.registry {
        PutKeepsRegistry(s, key, a);
      }
    case _ => OtherStepKeepsRegistry(s, Apply(s, step));
  }

  // -- main results ---------------------------------------------------------------------------

  ghost predicate Inv(s: State) {
    CellsOk(s) && ExitsOk(s) && RegistryOk(s)
  }

  lemma InitInv(s: State)
    requires Init(s)
    ensures Inv(s)
  {
    assert forall a :: 0 <= a < |s.cells| ==> CellOk(s.cells[a], 0);
    assert forall e :: Balanced(s, e);
  }

  lemma StepKeepsInv(s: State, step: Step)
    requires Inv(s) && Enabled(s, step)
    ensures Inv(Apply(s, step))
  {
    StepKeepsCells(s, step);
    StepKeepsExits(s, step);
    StepKeepsRegistry(s, step);
  }

  lemma {:induction false} RunKeepsInv(run: seq<State>, steps: seq<Step>, i: nat)
    requires IsRun(run, steps) && i < |run|
    ensures Inv(run[i])
  {
    hide Inv, Apply, Enabled, Init;
    if i == 0 {
      InitInv(run[0]);
    } else {
      RunKeepsInv(run, steps, i - 1);
      StepKeepsInv(run[i - 1], steps[i - 1]);
    }
  }

  /** Every attachable handed to an actor is, in every state of every run, in exactly one
      place: on its way in, in the list, with the cleaning thread, with a late thread,
      detached, or fired once, with the final fail state; and at most one call of `cleanup`
      succeeds, namely the one that terminated the actor. */
  lemma AttachablesAreConserved(run: seq<State>, steps: seq<Step>, i: nat, a: nat, x: Attachable)
    requires IsRun(run, steps) && i < |run| && a < |run[i].cells|
    ensures var it := run[i].cells[a].it;
            && Places(it, x) == (if x in it.issued then 1 else 0)
            && (forall f :: f in it.fired ==> f.reason == it.fail)
            && it.cleanups == (if it.terminated then 1 else 0)
            && (it.terminated ==> it.list == [])
            && (it.fired != multiset{} || it.cleaning != [] || it.late != multiset{} ==> it.terminated)
  {
    RunKeepsInv(run, steps, i);
    assert CellOk(run[i].cells[a], run[i].nextId);
  }

  /** Up to any point of any run, two actors are symmetric in every state exactly if no step so far
      was one-sided for them; and then neither ever had more than one entry for the other. */
  lemma {:induction false} LinksAreSymmetric(run: seq<State>, steps: seq<Step>, i: nat, a: nat, b: nat)
    requires IsRun(run, steps) && i < |run| && a < |run[0].cells| && b < |run[0].cells| && a != b
    ensures forall k :: 0 <= k <= i ==> |run[k].cells| == |run[0].cells|
    ensures (forall k :: 0 <= k <= i ==> Symmetric(run[k], a, b))
       <==> (forall k :: 0 <= k < i ==> !OneSided(run[k], steps[k], a, b))
    ensures (forall k :: 0 <= k < i ==> !OneSided(run[k], steps[k], a, b)) ==> Paired(run[i], a, b)
  {
    hide Symmetric, OneSided, Apply, Enabled, Paired, Inv;
    CellsStay(run, steps, i);
    if i == 0 {
      InitPaired(run[0], a, b);
    } else {
      LinksAreSymmetric(run, steps, i - 1, a, b);
      if forall k :: 0 <= k < i - 1 ==> !OneSided(run[k], steps[k], a, b) {
        RunKeepsInv(run, steps, i - 1);
        InvCells(run[i - 1]);
        StepKeepsPair(run[i - 1], steps[i - 1], a, b);
        assert run[i] == Apply(run[i - 1], steps[i - 1]);
        if OneSided(run[i - 1], steps[i - 1], a, b) {
          assert !Symmetric(run[i], a, b);
        } else {
          assert Symmetric(run[i], a, b);
        }
      }
    }
  }

  /** The step links `a` to a live `b` that lost its entry for `a`, although `a` still has one for `b`. */
  predicate Doubles(s: State, step: Step, a: nat, b: nat)
    requires a < |s.cells| && b < |s.cells|
  {
    step == LinkTo(a, b) && !Dead(s, a) && !Dead(s, b) && Links(s, b, a) == 0 && Links(s, a, b) > 0
  }

  lemma StepKeepsSingle(s: State, step: Step, a: nat, b: nat)
    requires CellsOk(s) && Enabled(s, step) && a < |s.cells| && b < |s.cells| && a != b && Links(s, a, b) <= 1
    ensures |Apply(s, step).cells| == |s.cells|
    ensures Links(Apply(s, step), a, b) <= 1 <==> !Doubles(s, step, a, b)
  {
    hide Apply, Links, Dead, CellsOk;
    StepLinks(s, step, a, b);
  }

  /** Up to any point of any run, an actor has at most one link entry for another one in every state
      exactly if no step so far doubled it. */
  lemma {:induction false} LinksAreSingle(run: seq<State>, steps: seq<Step>, i: nat, a: nat, b: nat)
    requires IsRun(run, steps) && i < |run| && a < |run[0].cells| && b < |run[0].cells| && a != b
    ensures forall k :: 0 <= k <= i ==> |run[k].cells| == |run[0].cells|
    ensures (forall k :: 0 <= k <= i ==> Links(run[k], a, b) <= 1)
       <==> (forall k :: 0 <= k < i ==> !Doubles(run[k], steps[k], a, b))
  {
    hide Links, Doubles, Apply, Enabled, Inv;
    CellsStay(run, steps, i);
    if i == 0 {
      InitPaired(run[0], a, b);
    } else {
      LinksAreSingle(run, steps, i - 1, a, b);
      if Links(run[i - 1], a, b) <= 1 {
        RunKeepsInv(run, steps, i - 1);
        InvCells(run[i - 1]);
        StepKeepsSingle(run[i - 1], steps[i - 1], a, b);
        assert run[i] == Apply(run[i - 1], steps[i - 1]);
        assert Links(run[i], a, b) <= 1 <==> !Doubles(run[i - 1], steps[i - 1], a, b);
      }
    }
  }

  /** No actor ever has a link to itself. */
  lemma {:induction false} NoSelfLinks(run: seq<State>, steps: seq<Step>, i: nat, a: nat)
    requires IsRun(run, steps) && i < |run| && a < |run[i].cells|
    ensures Links(run[i], a, a) == 0
  {
    hide Apply, Links, CellsOk, ExitsOk, RegistryOk;
    if i == 0 {
      InitPaired(run[0], a, a);
    } else {
      StepKeepsSize(run[i - 1], steps[i - 1]);
      NoSelfLinks(run, steps, i - 1, a);
      RunKeepsInv(run, steps, i - 1);
      StepLinks(run[i - 1], steps[i - 1], a, a);
    }
  }

  lemma InvCells(s: State)
    requires Inv(s)
    ensures CellsOk(s)
  {
  }

  lemma InitPaired(s: State, a: nat, b: nat)
    requires Init(s) && a < |s.cells| && b < |s.cells|
    ensures Paired(s, a, b) && Symmetric(s, a, b) && Links(s, a, b) == 0
  {
    assert Count([], Link(a)) == 0 && Count([], Link(b)) == 0;
  }

  lemma {:induction false} CellsStay(run: seq<State>, steps: seq<Step>, i: nat)
    requires IsRun(run, steps) && i < |run|
    ensures forall k :: 0 <= k <= i ==> |run[k].cells| == |run[0].cells|
  {
    hide Apply, Enabled;
    if i > 0 {
      CellsStay(run, steps, i - 1);
      StepKeepsSize(run[i - 1], steps[i - 1]);
    }
  }

  lemma StepKeepsSize(s: State, step: Step)
    requires Enabled(s, step)
    ensures |Apply(s, step).cells| == |s.cells|
  {
    hide Detached;
  }

  /** With no operation in progress, no terminated actor is registered. */
  lemma RegistryHasNoDeadActors(run: seq<State>, steps: seq<Step>, i: nat, key: nat)
    requires IsRun(run, steps) && i < |run| && key in run[i].registry
    requires forall a :: 0 <= a < |run[i].cells| ==>
               var it := run[i].cells[a].it;
               it.arriving == multiset{} && it.cleaning == [] && it.late == multiset{}
    ensures run[i].registry[key] < |run[i].cells|
    ensures !run[i].cells[run[i].registry[key]].it.terminated
  {
    RunKeepsInv(run, steps, i);
    assert Obliged(run[i], key);
    var a := run[i].registry[key];
    assert CellOk(run[i].cells[a], run[i].nextId);
  }

  /** `x` was in the list when `a` terminated with `reason`: it is still to be fired by the
      cleaning thread, or has been fired, once. */
  predicate Settled(it: Actor, x: Attachable, reason: int) {
    && it.terminated && it.fail == reason && x in it.issued
    && multiset(it.cleaning)[x] + it.fired[Fire(x, reason)] == 1
  }

  lemma FiringKeepsSettled(it: Actor, x: Attachable, reason: int, y: Attachable)
    requires Ok(it) && Settled(it, x, reason)
    ensures y in it.late ==> Settled(FireLate(it, y), x, reason)
    ensures it.cleaning != [] ==> Settled(FireNext(it), x, reason)
  {
    assert Places(it, x) == 1;
    assert it.cleaning != [] ==> it.cleaning == [it.cleaning[0]] + it.cleaning[1..];
  }

  /** What the death of an actor fixed does not change. */
  predicate SameEnd(it: Actor, it': Actor) {
    && it'.terminated == it.terminated && it'.fail == it.fail
    && it'.cleaning == it.cleaning && it'.fired == it.fired && it.issued <= it'.issued
  }

  lemma SectionsKeepEnd(s: State, step: Step, a: nat)
    requires Enabled(s, step) && a < |s.cells| && s.cells[a].it.terminated
    requires step.AttachCall? || step.AttachSection? || step.Cleanup? || step.DetachCall? || step.RegistryPut?
    ensures a < |Apply(s, step).cells| && SameEnd(s.cells[a].it, Apply(s, step).cells[a].it)
  {
    hide Detached, Effect, AddLink;
    match step
    case AttachCall(b, kind) => SetKeepsEnd(s, b, Issue(s.cells[b].it, Attachable(s.nextId, kind)), a);
    case AttachSection(b, x) => SetKeepsEnd(s, b, Section(s.cells[b].it, x), a);
    case Cleanup(b, reason) => SetKeepsEnd(s, b, Terminate(s.cells[b].it, reason), a);
    case DetachCall(b, token) => SetKeepsEnd(s, b, Remove(s.cells[b].it, token, false), a);
    case RegistryPut(key, b) =>
      SetKeepsEnd(s, b, Issue(s.cells[b].it, Attachable(s.nextId, EraseEntry(key))), a);
  }

  lemma SetKeepsEnd(s: State, b: nat, it: Actor, a: nat)
    requires a < |s.cells| && b < |s.cells| && (a == b ==> SameEnd(s.cells[a].it, it))
    ensures SameEnd(s.cells[a].it, Set(s, b, it).cells[a].it)
  {
  }

  lemma RemoveKeepsEnd(s: State, b: nat, token: Kind, stopOnHit: bool, a: nat)
    requires a < |s.cells| && b < |s.cells|
    ensures SameEnd(s.cells[a].it, RemoveAt(s, b, token, stopOnHit).cells[a].it)
  {
    hide Detached;
  }

  lemma AddLinkKeepsEnd(s: State, b: nat, c: nat, a: nat)
    requires a < |s.cells| && b < |s.cells| && c < |s.cells|
    ensures a < |AddLink(s, b, c).cells| && SameEnd(s.cells[a].it, AddLink(s, b, c).cells[a].it)
  {
    hide Detached, InstallAt;
    if AddLink(s, b, c).cells != s.cells {
      InstallKeepsEnd(s, c, Link(b), a);
      InstallKeepsEnd(InstallAt(s, c, Link(b)), b, Link(c), a);
    }
  }

  lemma InstallKeepsEnd(s: State, b: nat, kind: Kind, a: nat)
    requires a < |s.cells| && b < |s.cells|
    ensures SameEnd(s.cells[a].it, InstallAt(s, b, kind).cells[a].it)
  {
  }

  lemma LinksKeepEnd(s: State, step: Step, a: nat)
    requires Enabled(s, step) && a < |s.cells|
    requires step.LinkTo? || step.UnlinkFrom? || step.UnlinkAddr?
    ensures a < |Apply(s, step).cells| && SameEnd(s.cells[a].it, Apply(s, step).cells[a].it)
  {
    hide RemoveAt, AddLink, Effect, IssueAt;
    match step
    case LinkTo(b, c) => AddLinkKeepsEnd(s, b, c, a);
    case UnlinkFrom(b, c) =>
      RemoveKeepsEnd(s, c, Link(b), true, a);
      RemoveKeepsEnd(RemoveAt(s, c, Link(b), true), b, Link(c), true, a);
    case UnlinkAddr(b, c) => RemoveKeepsEnd(s, b, Link(c), true, a);
  }

  lemma OthersKeepEnd(s: State, step: Step, a: nat)
    requires Enabled(s, step) && a < |s.cells| && s.cells[a].it.terminated
    requires step.SendOwed? || step.Expire? || step.Bump? || step.Destroy? || step.RegistryErase?
    ensures a < |Apply(s, step).cells| && SameEnd(s.cells[a].it, Apply(s, step).cells[a].it)
  {
    hide Effect, RemoveAt, AddLink, IssueAt;
  }

  lemma OtherEnds(s: State, step: Step, a: nat)
    requires Enabled(s, step) && a < |s.cells| && Dead(s, a)
    requires !step.CleanupFire? && !step.LateFire?
    ensures a < |Apply(s, step).cells| && SameEnd(s.cells[a].it, Apply(s, step).cells[a].it)
  {
    hide Enabled, Apply;
    match step
    case AttachCall(_, _) => SectionsKeepEnd(s, step, a);
    case AttachSection(_, _) => SectionsKeepEnd(s, step, a);
    case Cleanup(_, _) => SectionsKeepEnd(s, step, a);
    case DetachCall(_, _) => SectionsKeepEnd(s, step, a);
    case RegistryPut(_, _) => SectionsKeepEnd(s, step, a);
    case LinkTo(_, _) => LinksKeepEnd(s, step, a);
    case UnlinkFrom(_, _) => LinksKeepEnd(s, step, a);
    case UnlinkAddr(_, _) => LinksKeepEnd(s, step, a);
    case _ => OthersKeepEnd(s, step, a);
  }

  lemma FireKeepsSettled(s: State, step: Step, a: nat, x: Attachable, reason: int)
    requires CellsOk(s) && Enabled(s, step) && a < |s.cells| && Settled(s.cells[a].it, x, reason)
    requires step.LateFire? || step.CleanupFire?
    ensures a < |Apply(s, step).cells| && Settled(Apply(s, step).cells[a].it, x, reason)
  {
    assert CellOk(s.cells[a], s.nextId);
    FiringKeepsSettled(s.cells[a].it, x, reason, if step.LateFire? then step.x else x);
    hide Ok, CellsOk, Effect, RemoveAt, AddLink, IssueAt, Settled;
  }

  lemma StepKeepsSettled(s: State, step: Step, a: nat, x: Attachable, reason: int)
    requires CellsOk(s) && Enabled(s, step) && a < |s.cells| && Settled(s.cells[a].it, x, reason)
    ensures a < |Apply(s, step).cells| && Settled(Apply(s, step).cells[a].it, x, reason)
  {
    hide CellsOk, Enabled, Apply;
    match step
    case LateFire(_, _) => FireKeepsSettled(s, step, a, x, reason);
    case CleanupFire(_) => FireKeepsSettled(s, step, a, x, reason);
    case _ => OtherEnds(s, step, a);
  }

  lemma {:induction false} RunKeepsSettled(
    run: seq<State>, steps: seq<Step>, i: nat, j: nat, a: nat, x: Attachable, reason: int)
    requires IsRun(run, steps) && i <= j < |run|
    requires a < |run[i].cells| && Settled(run[i].cells[a].it, x, reason)
    ensures a < |run[j].cells| && Settled(run[j].cells[a].it, x, reason)
    decreases j - i
  {
    hide Settled, Apply, Enabled, Init, CellsOk, ExitsOk, RegistryOk;
    if i < j {
      RunKeepsSettled(run, steps, i, j - 1, a, x, reason);
      RunKeepsInv(run, steps, j - 1);
      StepKeepsSettled(run[j - 1], steps[j - 1], a, x, reason);
    }
  }

  /** Terminating with an entry in the list settles that entry. */
  lemma CleanupSettles(s: State, a: nat, x: Attachable, reason: int)
    requires Inv(s) && a < |s.cells| && !s.cells[a].it.terminated && x in s.cells[a].it.list
    ensures Settled(Terminate(s.cells[a].it, reason), x, reason)
  {
    hide ExitsOk, RegistryOk;
    assert CellOk(s.cells[a], s.nextId);
    assert Places(s.cells[a].it, x) >= 1;
  }

  /** No exit message is lost in a step at whose start the receiver can be reached. */
  lemma StepLosesNothing(s: State, step: Step, e: Exit)
    requires Enabled(s, step) && s.lost[e] == 0 && Reachable(s, e.to)
    ensures Apply(s, step).lost[e] == 0
  {
    hide Detached;
  }

  lemma {:induction false} RunLosesNothing(run: seq<State>, steps: seq<Step>, i: nat, j: nat, e: Exit)
    requires IsRun(run, steps) && i <= j < |run| && run[i].lost[e] == 0
    requires forall k :: i <= k < j ==> Reachable(run[k], e.to)
    ensures run[j].lost[e] == 0
    decreases j - i
  {
    hide Apply, Enabled, Init, Reachable;
    if i < j {
      RunLosesNothing(run, steps, i, j - 1, e);
      StepLosesNothing(run[j - 1], steps[j - 1], e);
    }
  }

  /** Nor does a link entry send one in a step at whose start the receiver cannot be reached. */
  lemma StepSendsNothing(s: State, step: Step, e: Exit)
    requires Enabled(s, step) && e.cause.Entry? && s.sent[e] == 0 && s.owed[e] == 0 && !Reachable(s, e.to)
    ensures Apply(s, step).sent[e] == 0
  {
    hide Detached;
  }

  lemma {:induction false} RunSendsNothing(run: seq<State>, steps: seq<Step>, i: nat, j: nat, e: Exit)
    requires IsRun(run, steps) && i <= j < |run| && e.cause.Entry? && run[i].sent[e] == 0
    requires forall k :: i <= k < j ==> !Reachable(run[k], e.to)
    ensures run[j].sent[e] == 0
    decreases j - i
  {
    hide Apply, Enabled, Init, Reachable;
    if i < j {
      RunSendsNothing(run, steps, i, j - 1, e);
      RunKeepsInv(run, steps, j - 1);
      assert Balanced(run[j - 1], e);
      StepSendsNothing(run[j - 1], steps[j - 1], e);
    }
  }

  /** When an actor terminates, the cleaning thread owes exactly one exit message with the final
      fail state for each of its link entries; once that thread is done, exactly one was sent, or
      lost because the peer had no strong reference left at that moment. */
  lemma EachEntryIsTold(run: seq<State>, steps: seq<Step>, i: nat, j: nat, a: nat, b: nat, x: Attachable, reason: int)
    requires IsRun(run, steps) && i < |steps| && i < j < |run|
    requires a < |run[i].cells| && !run[i].cells[a].it.terminated && steps[i] == Cleanup(a, reason)
    requires x in run[i].cells[a].it.list && x.kind == Link(b)
    ensures a < |run[j].cells|
    ensures var it := run[j].cells[a].it;
            var e := Exit(a, b, reason, Entry(x.id));
            && it.terminated && it.fail == reason
            && multiset(it.cleaning)[x] + run[j].sent[e] + run[j].lost[e] == 1
            && (it.cleaning == [] ==> run[j].sent[e] + run[j].lost[e] == 1)
            && ((forall k :: i <= k < j ==> Reachable(run[k], b)) ==> run[j].lost[e] == 0)
            && ((forall k :: i <= k < j ==> !Reachable(run[k], b)) ==> run[j].sent[e] == 0)
  {
    RunKeepsInv(run, steps, i);
    CleanupSettles(run[i], a, x, reason);
    RunKeepsSettled(run, steps, i + 1, j, a, x, reason);
    RunKeepsInv(run, steps, j);
    var e := Exit(a, b, reason, Entry(x.id));
    assert Balanced(run[j], e);
    assert run[i].lost[e] == 0 && run[i].sent[e] == 0;
    hide Inv, Balanced, Apply, Enabled, Init;
    if forall k :: i <= k < j ==> Reachable(run[k], b) {
      RunLosesNothing(run, steps, i, j, e);
    }
    if forall k :: i <= k < j ==> !Reachable(run[k], b) {
      RunSendsNothing(run, steps, i, j, e);
    }
  }

  /** An exit message that a link entry of `a` for `b` caused. */
  predicate FromLink(e: Exit, a: nat, b: nat) {
    e.from == a && e.to == b && e.cause.Entry?
  }

  /** How many of the exit messages link entries of `a` for `b` caused. */
  ghost function Told(m: multiset<Exit>, a: nat, b: nat): nat
    decreases |m|
  {
    if m == multiset{} then 0
    else
      var e :| e in m;
      (if FromLink(e, a, b) then 1 else 0) + Told(m - multiset{e}, a, b)
  }

  lemma {:induction false} ToldRemove(m: multiset<Exit>, e: Exit, a: nat, b: nat)
    requires e in m
    ensures Told(m, a, b) == (if FromLink(e, a, b) then 1 else 0) + Told(m - multiset{e}, a, b)
    decreases |m|
  {
    var f :| f in m && Told(m, a, b) == (if FromLink(f, a, b) then 1 else 0) + Told(m - multiset{f}, a, b);
    hide Told, FromLink;
    if f != e {
      ToldRemove(m - multiset{f}, e, a, b);
      ToldRemove(m - multiset{e}, f, a, b);
      assert m - multiset{f} - multiset{e} == m - multiset{e} - multiset{f};
    }
  }

  lemma ToldAdd(m: multiset<Exit>, e: Exit, a: nat, b: nat)
    ensures Told(m + multiset{e}, a, b) == Told(m, a, b) + if FromLink(e, a, b) then 1 else 0
  {
    ToldRemove(m + multiset{e}, e, a, b);
    assert m + multiset{e} - multiset{e} == m;
  }

  lemma {:induction false} ToldNone(m: multiset<Exit>, a: nat, b: nat)
    requires forall e :: e in m ==> !FromLink(e, a, b)
    ensures Told(m, a, b) == 0
    decreases |m|
  {
    if m != multiset{} {
      var e :| e in m;
      ToldRemove(m, e, a, b);
      ToldNone(m - multiset{e}, a, b);
    }
  }

  /** The exit messages that links of `a` for `b` caused or are still to cause. */
  ghost function Promised(s: State, a: nat, b: nat): nat
    requires a < |s.cells|
  {
    Told(s.sent, a, b) + Told(s.lost, a, b) + Count(s.cells[a].it.cleaning, Link(b))
  }

  lemma FireKeepsPromise(s: State, c: nat, a: nat, b: nat)
    requires Enabled(s, CleanupFire(c)) && a < |s.cells|
    ensures a < |Apply(s, CleanupFire(c)).cells| && Promised(Apply(s, CleanupFire(c)), a, b) == Promised(s, a, b)
  {
    hide Told;
    var it := s.cells[c].it;
    var x := it.cleaning[0];
    assert it.cleaning == [x] + it.cleaning[1..];
    CountPrepend(it.cleaning[1..], x, Link(b));
    if x.kind.Link? {
      var e := Exit(c, x.kind.observer, it.fail, Entry(x.id));
      ToldAdd(s.sent, e, a, b);
      ToldAdd(s.lost, e, a, b);
    }
  }

  lemma SendKeepsPromise(s: State, e: Exit, a: nat, b: nat)
    requires ExitsOk(s) && Enabled(s, SendOwed(e)) && a < |s.cells|
    ensures a < |Apply(s, SendOwed(e)).cells| && Promised(Apply(s, SendOwed(e)), a, b) == Promised(s, a, b)
  {
    hide Told;
    assert Balanced(s, e);
    ToldAdd(s.sent, e, a, b);
  }

  lemma LateKeepsPromise(s: State, c: nat, x: Attachable, a: nat, b: nat)
    requires CellsOk(s) && Enabled(s, LateFire(c, x)) && a < |s.cells|
    ensures a < |Apply(s, LateFire(c, x)).cells| && Promised(Apply(s, LateFire(c, x)), a, b) == Promised(s, a, b)
  {
    hide Told, Ok;
    assert CellOk(s.cells[c], s.nextId);
  }

  lemma LinkKeepsPromise(s: State, c: nat, d: nat, a: nat, b: nat)
    requires Enabled(s, LinkTo(c, d)) && a < |s.cells|
    ensures a < |AddLink(s, c, d).cells| && Promised(AddLink(s, c, d), a, b) == Promised(s, a, b)
  {
    hide Told, Detached;
    AddLinkKeepsEnd(s, c, d, a);
    if !s.cells[c].it.terminated && s.cells[d].it.terminated {
      ToldAdd(s.sent, Exit(d, c, s.cells[d].it.fail, Refused(s.nextId)), a, b);
    }
  }

  lemma OthersSendNothing(s: State, step: Step)
    requires Enabled(s, step)
    requires !step.CleanupFire? && !step.LateFire? && !step.SendOwed? && !step.LinkTo?
    ensures Apply(s, step).sent == s.sent && Apply(s, step).lost == s.lost
  {
    hide Detached;
  }

  /** After the death of an actor no step changes what its links cause in all. */
  lemma StepKeepsPromise(s: State, step: Step, a: nat, b: nat)
    requires CellsOk(s) && ExitsOk(s) && Enabled(s, step) && a < |s.cells| && Dead(s, a)
    ensures a < |Apply(s, step).cells| && Promised(Apply(s, step), a, b) == Promised(s, a, b)
  {
    match step
    case CleanupFire(c) => FireKeepsPromise(s, c, a, b);
    case LateFire(c, x) => LateKeepsPromise(s, c, x, a, b);
    case SendOwed(e) => SendKeepsPromise(s, e, a, b);
    case LinkTo(c, d) => LinkKeepsPromise(s, c, d, a, b);
    case _ =>
      OthersSendNothing(s, step);
      OtherEnds(s, step, a);
      hide Apply, Enabled, CellsOk, ExitsOk, Told;
  }

  lemma {:induction false} RunKeepsPromise(run: seq<State>, steps: seq<Step>, i: nat, j: nat, a: nat, b: nat)
    requires IsRun(run, steps) && i <= j < |run| && a < |run[i].cells| && Dead(run[i], a)
    ensures a < |run[j].cells| && Dead(run[j], a) && run[j].cells[a].it.fail == run[i].cells[a].it.fail
    ensures Promised(run[j], a, b) == Promised(run[i], a, b)
    decreases j - i
  {
    hide Apply, Enabled, Init, CellsOk, ExitsOk, RegistryOk, Promised;
    if i < j {
      RunKeepsPromise(run, steps, i, j - 1, a, b);
      RunKeepsInv(run, steps, j - 1);
      StepKeepsPromise(run[j - 1], steps[j - 1], a, b);
      StepKeepsDeath(run[j - 1], steps[j - 1], a);
    }
  }

  lemma StepKeepsDeath(s: State, step: Step, a: nat)
    requires Enabled(s, step) && a < |s.cells| && Dead(s, a)
    ensures a < |Apply(s, step).cells| && Dead(Apply(s, step), a)
    ensures Apply(s, step).cells[a].it.fail == s.cells[a].it.fail
  {
    if !step.CleanupFire? && !step.LateFire? {
      OtherEnds(s, step, a);
      hide Apply, Enabled;
    }
  }

  lemma CleanupPromises(s: State, a: nat, b: nat, reason: int)
    requires ExitsOk(s) && Enabled(s, Cleanup(a, reason)) && !Dead(s, a)
    ensures var t := Apply(s, Cleanup(a, reason));
      && a < |t.cells| && Dead(t, a) && t.cells[a].it.fail == reason
      && Promised(t, a, b) == Links(s, a, b)
  {
    ToldNone(s.sent, a, b);
    ToldNone(s.lost, a, b);
    hide Told, Count;
  }

  /** When an actor `a` terminates, `b` is told exactly as often as `a` has link entries for it at
      that moment, each time with the final fail state: so many messages are sent, or lost because
      `b` had no strong reference left, once the cleaning thread is done.  As long as `b` can be
      reached none is lost.  If no step doubled the link, and so if none was one-sided for the two, `b`
      is told at most once. */
  lemma LinkedPeerIsTold(run: seq<State>, steps: seq<Step>, i: nat, j: nat, a: nat, b: nat, reason: int)
    requires IsRun(run, steps) && i < |steps| && i < j < |run|
    requires a < |run[0].cells| && b < |run[0].cells| && a != b
    requires steps[i] == Cleanup(a, reason) && a < |run[i].cells| && !Dead(run[i], a)
    ensures forall k :: 0 <= k <= j ==> |run[k].cells| == |run[0].cells|
    ensures var told := Told(run[j].sent, a, b) + Told(run[j].lost, a, b);
      && told + Count(run[j].cells[a].it.cleaning, Link(b)) == Links(run[i], a, b)
      && (run[j].cells[a].it.cleaning == [] ==> told == Links(run[i], a, b))
    ensures forall e :: (e in run[j].sent || e in run[j].lost) && FromLink(e, a, b) ==> e.reason == reason
    ensures (forall k :: i <= k < j ==> Reachable(run[k], b)) ==> Told(run[j].lost, a, b) == 0
    ensures (forall k :: 0 <= k < i ==> !Doubles(run[k], steps[k], a, b)) ==> Links(run[i], a, b) <= 1
    ensures (forall k :: 0 <= k < i ==> !OneSided(run[k], steps[k], a, b)) ==> Links(run[i], a, b) <= 1
  {
    hide Told, OneSided, Doubles, Apply, Enabled, Init, CellsOk, RegistryOk, Balanced, Reachable;
    CellsStay(run, steps, j);
    RunKeepsInv(run, steps, i);
    CleanupPromises(run[i], a, b, reason);
    RunKeepsPromise(run, steps, i + 1, j, a, b);
    RunKeepsInv(run, steps, j);
    LinksAreSymmetric(run, steps, i, a, b);
    LinksAreSingle(run, steps, i, a, b);
    if forall k :: i <= k < j ==> Reachable(run[k], b) {
      forall e | e in run[j].lost
        ensures !FromLink(e, a, b)
      {
        if FromLink(e, a, b) {
          RunLosesNothing(run, steps, i, j, e);
        }
      }
      ToldNone(run[j].lost, a, b);
    }
  }

  /** A link attempt that meets a dead actor hands exactly one exit message with that actor's
      fail state to the other one: after the critical section if it is the caller that is dead, and
      at once otherwise. */
  lemma RefusedPeerIsTold(run: seq<State>, steps: seq<Step>, i: nat, j: nat, a: nat, b: nat)
    requires IsRun(run, steps) && i < |steps| && i < j < |run| && steps[i] == LinkTo(a, b)
    requires a < |run[i].cells| && b < |run[i].cells|
    requires run[i].cells[a].it.terminated || run[i].cells[b].it.terminated
    ensures var (dead, other) := if run[i].cells[a].it.terminated then (a, b) else (b, a);
            var e := Exit(dead, other, run[i].cells[dead].it.fail, Refused(run[i].nextId));
            && run[i].owed[e] + run[i].sent[e] == 0
            && run[i + 1].owed[e] == (if dead == a then 1 else 0)
            && run[j].owed[e] + run[j].sent[e] == 1
  {
    var (dead, other) := if run[i].cells[a].it.terminated then (a, b) else (b, a);
    var e := Exit(dead, other, run[i].cells[dead].it.fail, Refused(run[i].nextId));
    RunKeepsInv(run, steps, i);
    assert Balanced(run[i], e);
    assert e in run[i + 1].refused;
    RefusalsStay(run, steps, i + 1, j, e);
    RunKeepsInv(run, steps, j);
    assert Balanced(run[j], e);
  }

  lemma StepKeepsRefusals(s: State, step: Step, e: Exit)
    requires Enabled(s, step) && e in s.refused
    ensures e in Apply(s, step).refused
  {
    hide Detached;
  }

  lemma {:induction false} RefusalsStay(run: seq<State>, steps: seq<Step>, i: nat, j: nat, e: Exit)
    requires IsRun(run, steps) && i <= j < |run| && e in run[i].refused
    ensures e in run[j].refused
    decreases j - i
  {
    hide Apply, Enabled, Init;
    if i < j {
      RefusalsStay(run, steps, i, j - 1, e);
      StepKeepsRefusals(run[j - 1], steps[j - 1], e);
    }
  }

  // -- runs in which the code does not do what one might expect ----------------------------------------

  lemma Extend(run: seq<State>, steps: seq<Step>, step: Step)
    requires IsRun(run, steps) && Enabled(run[|steps|], step)
    ensures IsRun(run + [Apply(run[|steps|], step)], steps + [step])
  {
    hide Apply, Enabled, Init;
    var run', steps' := run + [Apply(run[|steps|], step)], steps + [step];
    forall k | 0 <= k < |steps'|
      ensures Enabled(run'[k], steps'[k]) && run'[k + 1] == Apply(run'[k], steps'[k])
    {
      assert run'[k] == run[k];
    }
  }

  /** Two live actors: the first can be reached, and so many link entries are for each other. */
  predicate Looks(s: State, refs: Refs, there: nat, back: nat) {
    && |s.cells| == 2 && s.cells[0].refs == Held && s.cells[1].refs == refs && !Dead(s, 0) && !Dead(s, 1)
    && Links(s, 0, 1) == there && Links(s, 1, 0) == back
  }

  lemma StepRefs(s: State, step: Step, a: nat)
    requires Enabled(s, step) && a < |s.cells|
    ensures a < |Apply(s, step).cells|
    ensures Apply(s, step).cells[a].refs ==
      if step == Expire(a) then Expired else if step == Bump(a) then Held
      else if step == Destroy(a) then Gone else s.cells[a].refs
  {
    hide RemoveAt, AddLink, IssueAt, Effect;
    match step
    case AttachCall(b, kind) => IssueRefs(s, b, kind, a);
    case DetachCall(b, token) => RemoveRefs(s, b, token, false, a);
    case LinkTo(b, c) => AddLinkRefs(s, b, c, a);
    case UnlinkFrom(b, c) =>
      RemoveRefs(s, c, Link(b), true, a);
      RemoveRefs(RemoveAt(s, c, Link(b), true), b, Link(c), true, a);
    case UnlinkAddr(b, c) => RemoveRefs(s, b, Link(c), true, a);
    case RegistryPut(key, b) => IssueRefs(s.(registry := s.registry[key := b]), b, EraseEntry(key), a);
    case _ =>
  }

  lemma IssueRefs(s: State, b: nat, kind: Kind, a: nat)
    requires a < |s.cells| && b < |s.cells|
    ensures a < |IssueAt(s, b, kind).cells| && IssueAt(s, b, kind).cells[a].refs == s.cells[a].refs
  {
  }

  lemma RemoveRefs(s: State, b: nat, token: Kind, stopOnHit: bool, a: nat)
    requires a < |s.cells| && b < |s.cells|
    ensures RemoveAt(s, b, token, stopOnHit).cells[a].refs == s.cells[a].refs
  {
    hide Detached;
  }

  lemma AddLinkRefs(s: State, b: nat, c: nat, a: nat)
    requires a < |s.cells| && b < |s.cells| && c < |s.cells|
    ensures a < |AddLink(s, b, c).cells| && AddLink(s, b, c).cells[a].refs == s.cells[a].refs
  {
    hide Detached;
  }

  /** One more step of a run of two live actors, seen through their links. */
  lemma LooksAfter(run: seq<State>, steps: seq<Step>, step: Step, refs: Refs, there: nat, back: nat)
    requires IsRun(run, steps) && Looks(run[|steps|], refs, there, back) && Enabled(run[|steps|], step)
    requires !step.Cleanup? && step != Expire(0) && step != Destroy(0)
    ensures var s := run[|steps|];
      Looks(Apply(s, step),
            if step == Expire(1) then Expired else if step == Bump(1) then Held else if step == Destroy(1) then Gone else refs,
            LinksAfter(s, step, 0, 1), LinksAfter(s, step, 1, 0))
  {
    hide Apply, Links, Dead, Enabled, LinksAfter, CellsOk, ExitsOk, RegistryOk;
    var s := run[|steps|];
    RunKeepsInv(run, steps, |steps|);
    StepLinks(s, step, 0, 1);
    StepLinks(s, step, 1, 0);
    StepRefs(s, step, 0);
    StepRefs(s, step, 1);
  }

  /** Two fresh actors. */
  lemma StartRun() returns (run: seq<State>, steps: seq<Step>)
    ensures IsRun(run, steps) && steps == [] && Looks(run[0], Held, 0, 0) && Entries(run[0], 0) == []
  {
    var s := State([Cell(Held, Fresh), Cell(Held, Fresh)], 0, multiset{}, multiset{}, multiset{}, {}, map[]);
    run, steps := [s], [];
    assert Count([], Link(0)) == 0 && Count([], Link(1)) == 0;
  }

  lemma Continue(run: seq<State>, steps: seq<Step>, step: Step, refs: Refs, there: nat, back: nat)
    returns (run': seq<State>, steps': seq<Step>)
    requires IsRun(run, steps) && Looks(run[|steps|], refs, there, back) && Enabled(run[|steps|], step)
    requires !step.Cleanup? && step != Expire(0) && step != Destroy(0)
    ensures IsRun(run', steps') && steps' == steps + [step] && run <= run'
    ensures var s := run[|steps|];
      Looks(run'[|steps'|],
            if step == Expire(1) then Expired else if step == Bump(1) then Held else if step == Destroy(1) then Gone else refs,
            LinksAfter(s, step, 0, 1), LinksAfter(s, step, 1, 0))
  {
    hide Apply, Enabled, LinksAfter, Looks;
    LooksAfter(run, steps, step, refs, there, back);
    Extend(run, steps, step);
    run', steps' := run + [Apply(run[|steps|], step)], steps + [step];
  }

  /** A link can stay one-sided: two linked actors, the last reference to one of them expires, the
      other one unlinks from its address, and the first comes back for its cleanup. */
  lemma ExpiryLeavesOneSidedLink() returns (run: seq<State>, steps: seq<Step>)
    ensures IsRun(run, steps) && steps == [LinkTo(0, 1), Expire(1), UnlinkAddr(0, 1), Bump(1)]
    ensures Looks(run[4], Held, 0, 1) && !Symmetric(run[4], 0, 1)
  {
    hide Apply, Links, IsRun;
    run, steps := StartRun();
    run, steps := Continue(run, steps, LinkTo(0, 1), Held, 0, 0);
    run, steps := Continue(run, steps, Expire(1), Held, 1, 1);
    run, steps := Continue(run, steps, UnlinkAddr(0, 1), Expired, 1, 1);
    run, steps := Continue(run, steps, Bump(1), Expired, 0, 1);
  }

  /** Every cleanup can be finished, without any other step. */
  lemma {:induction false} CleanupFinishes(run: seq<State>, steps: seq<Step>, a: nat)
    returns (run': seq<State>, steps': seq<Step>)
    requires IsRun(run, steps) && a < |run[|steps|].cells|
    ensures IsRun(run', steps') && run <= run' && steps <= steps'
    ensures a < |run'[|steps'|].cells| && run'[|steps'|].cells[a].it.cleaning == []
    ensures forall k :: |steps| <= k < |run'| && Reachable(run[|steps|], 0) ==> Reachable(run'[k], 0)
    decreases |run[|steps|].cells[a].it.cleaning|
  {
    var s := run[|steps|];
    if s.cells[a].it.cleaning == [] {
      run', steps' := run, steps;
    } else {
      var step := CleanupFire(a);
      var t := Apply(s, step);
      assert |t.cells| == |s.cells| && |t.cells[a].it.cleaning| < |s.cells[a].it.cleaning|;
      if Reachable(s, 0) {
        StepRefs(s, step, 0);
      }
      Extend(run, steps, step);
      hide Apply, Enabled, Init;
      run', steps' := CleanupFinishes(run + [t], steps + [step], a);
    }
  }

  /** And then a peer can be told twice: the one-sided link is made again from the other side. */
  lemma PeerIsToldTwice(reason: int) returns (run: seq<State>, steps: seq<Step>)
    ensures IsRun(run, steps) && |run[0].cells| == 2
    ensures |steps| >= 6
    ensures steps[..6] == [LinkTo(0, 1), Expire(1), UnlinkAddr(0, 1), Bump(1), LinkTo(1, 0), Cleanup(1, reason)]
    ensures Told(run[|steps|].sent, 1, 0) == 2
  {
    hide Apply, Told, Links, Count;
    run, steps := ExpiryLeavesOneSidedLink();
    run, steps := Continue(run, steps, LinkTo(1, 0), Held, 0, 1);
    assert Links(run[5], 1, 0) == 2;
    var cleanup := Cleanup(1, reason);
    Extend(run, steps, cleanup);
    StepRefs(run[5], cleanup, 0);
    StepKeepsSize(run[5], cleanup);
    run, steps := run + [Apply(run[5], cleanup)], steps + [cleanup];
    var five := run[5];
    assert Reachable(run[5], 0) && Reachable(run[6], 0);
    ghost var before, short := steps, run;
    run, steps := CleanupFinishes(run, steps, 1);
    assert run[5] == five && steps[5] == cleanup && steps[..6] == before;
    CellsStay(run, steps, |steps|);
    assert |run[0].cells| == 2;
    hide Enabled, Init;
    if |steps| > 6 {
      LinkedPeerIsTold(run, steps, 5, |steps|, 1, 0, reason);
    } else {
      LinkedPeerIsTold(run, steps, 5, 6, 1, 0, reason);
    }
  }

  lemma AttachMonitor(run: seq<State>, steps: seq<Step>) returns (run': seq<State>, steps': seq<Step>, x: Attachable)
    requires IsRun(run, steps) && |run[|steps|].cells| > 0 && !Dead(run[|steps|], 0)
    ensures IsRun(run', steps') && |run'[|steps'|].cells| > 0 && !Dead(run'[|steps'|], 0)
    ensures x.kind == Monitor(1) && Entries(run'[|steps'|], 0) == [x] + Entries(run[|steps|], 0)
  {
    var s := run[|steps|];
    x := Attachable(s.nextId, Monitor(1));
    var call, section := AttachCall(0, Monitor(1)), AttachSection(0, x);
    Extend(run, steps, call);
    var t := Apply(s, call);
    assert x in t.cells[0].it.arriving;
    Extend(run + [t], steps + [call], section);
    run', steps' := run + [t] + [Apply(t, section)], steps + [call] + [section];
  }

  /** Two monitors of the same observer are both removed by one `detach`, although it is documented
      to remove the first match. */
  lemma DetachRemovesTwo() returns (run: seq<State>, steps: seq<Step>)
    ensures IsRun(run, steps) && steps != [] && steps[|steps| - 1] == DetachCall(0, Monitor(1))
    ensures var n := |steps| - 1;
      && |Hits(Entries(run[n], 0), Monitor(1))| == 2 && |Entries(run[n], 0)| == 2
      && Entries(run[n + 1], 0) == []
  {
    run, steps := StartRun();
    var x, y;
    run, steps, y := AttachMonitor(run, steps);
    run, steps, x := AttachMonitor(run, steps);
    var n := |steps|;
    var s, step := run[n], DetachCall(0, Monitor(1));
    TwoMonitors(x, y);
    assert Entries(s, 0) == [x, y];
    assert Entries(Apply(s, step), 0) == [] by {
      hide Detached, Hits;
    }
    Extend(run, steps, step);
    hide Apply, Enabled, Init, IsRun, Detached, Hits;
    run, steps := run + [Apply(s, step)], steps + [step];
  }

  lemma TwoMonitors(x: Attachable, y: Attachable)
    requires x.kind == y.kind == Monitor(1)
    ensures Hits([x, y], Monitor(1)) == [x, y] && Detached([x, y], Monitor(1), false, false).1 == []
  {
    assert [x, y][1..] == [y] && [y][1..] == [];
    assert Hits([], Monitor(1)) == [] && Hits([y], Monitor(1)) == [y];
    assert Survivors([], Monitor(1)) == [] && Survivors([y], Monitor(1)) == [];
    DetachMeaning([x, y], Monitor(1), false, false);
  }

  /** A new link is first in the lists of both actors. */
  lemma NewLinkIsFirst(s: State, a: nat, b: nat)
    requires Enabled(s, LinkTo(a, b)) && !Dead(s, a) && !Dead(s, b) && Links(s, b, a) == 0
    ensures var t := Apply(s, LinkTo(a, b));
      && Entries(t, a) == [Attachable(s.nextId + 1, Link(b))] + Entries(s, a)
      && Entries(t, b) == [Attachable(s.nextId, Link(a))] + Entries(s, b)
  {
    CountDetached(s.cells[b].it.list, Link(a), true, true, Link(a));
    hide Detached, Count;
  }

  // -- who is registered ------------------------------------------------------------------------------

  /** The step takes the key out of the registry: by hand, or because an attachable that does so fires. */
  predicate Unregisters(s: State, step: Step, key: nat)
    requires Enabled(s, step)
  {
    match step
    case RegistryErase(k) => k == key
    case LateFire(_, x) => x.kind == EraseEntry(key)
    case CleanupFire(a) => s.cells[a].it.cleaning[0].kind == EraseEntry(key)
    case _ => false
  }

  lemma StepRegistry(s: State, step: Step, key: nat, a: nat)
    requires Enabled(s, step)
    ensures key in Apply(s, step).registry && Apply(s, step).registry[key] == a <==>
      || (key in s.registry && s.registry[key] == a && !Unregisters(s, step, key))
      || (key !in s.registry && step == RegistryPut(key, a))
  {
    hide Section, FireLate, FireNext, Remove, Terminate, Detached;
  }

  ghost predicate RegisteredAt(run: seq<State>, steps: seq<Step>, i: nat, j: nat, key: nat, a: nat)
    requires IsRun(run, steps) && i < j < |run|
  {
    && key !in run[i].registry && steps[i] == RegistryPut(key, a)
    && forall k :: i < k < j ==> !Unregisters(run[k], steps[k], key)
  }

  /** A key stands for an actor exactly from a put on a free key until the key is erased. */
  lemma {:induction false} RegistryIsHistory(run: seq<State>, steps: seq<Step>, j: nat, key: nat, a: nat)
    requires IsRun(run, steps) && j < |run|
    ensures key in run[j].registry && run[j].registry[key] == a <==>
      exists i :: 0 <= i < j && RegisteredAt(run, steps, i, j, key, a)
  {
    if j > 0 {
      hide Apply, Enabled, Unregisters;
      var m := j - 1;
      RegistryIsHistory(run, steps, m, key, a);
      StepRegistry(run[m], steps[m], key, a);
      if key in run[j].registry && run[j].registry[key] == a {
        if key in run[m].registry && run[m].registry[key] == a && !Unregisters(run[m], steps[m], key) {
          var i :| 0 <= i < m && RegisteredAt(run, steps, i, m, key, a);
          assert RegisteredAt(run, steps, i, j, key, a);
        } else {
          assert RegisteredAt(run, steps, m, j, key, a);
        }
      }
      if i :| 0 <= i < j && RegisteredAt(run, steps, i, j, key, a) {
        if i < m {
          assert RegisteredAt(run, steps, i, m, key, a);
        }
      }
    }
  }

  // -- threads can finish what they have begun ---------------------------------------------------------

  predicate Finishes(step: Step) {
    step.AttachSection? || step.LateFire? || step.CleanupFire? || step.SendOwed?
  }

  /** The second run goes on from the first one without new calls. */
  ghost predicate GoesOn(run: seq<State>, steps: seq<Step>, run': seq<State>, steps': seq<Step>) {
    && IsRun(run, steps) && IsRun(run', steps') && run <= run' && steps <= steps'
    && forall i :: |steps| <= i < |steps'| ==> Finishes(steps'[i])
  }

  lemma GoOn(run: seq<State>, steps: seq<Step>, run1: seq<State>, steps1: seq<Step>, step: Step)
    requires GoesOn(run, steps, run1, steps1) && Enabled(run1[|steps1|], step) && Finishes(step)
    ensures GoesOn(run, steps, run1 + [Apply(run1[|steps1|], step)], steps1 + [step])
  {
    hide Apply, Enabled, Init, Finishes;
    Extend(run1, steps1, step);
    var steps2 := steps1 + [step];
    forall k | |steps| <= k < |steps2|
      ensures Finishes(steps2[k])
    {
      assert k < |steps1| ==> steps2[k] == steps1[k];
    }
  }

  predicate Quiet(it: Actor) {
    it.arriving == multiset{} && it.late == multiset{} && it.cleaning == []
  }

  function Load(it: Actor): nat {
    2 * |it.arriving| + |it.late| + |it.cleaning|
  }

  lemma FinishingStep(s: State, a: nat) returns (step: Step)
    requires a < |s.cells| && !Quiet(s.cells[a].it)
    ensures Enabled(s, step) && Finishes(step)
    ensures var t := Apply(s, step);
      && |t.cells| == |s.cells| && Load(t.cells[a].it) < Load(s.cells[a].it)
      && forall b :: 0 <= b < |s.cells| && b != a ==> t.cells[b] == s.cells[b]
  {
    var it := s.cells[a].it;
    if it.arriving != multiset{} {
      assert |it.arriving| > 0;
      var x :| x in it.arriving;
      step := AttachSection(a, x);
    } else if it.late != multiset{} {
      assert |it.late| > 0;
      var x :| x in it.late;
      step := LateFire(a, x);
    } else {
      step := CleanupFire(a);
    }
  }

  lemma {:induction false} ActorFinishes(run: seq<State>, steps: seq<Step>, run1: seq<State>, steps1: seq<Step>, a: nat)
    returns (run': seq<State>, steps': seq<Step>)
    requires GoesOn(run, steps, run1, steps1) && a < |run1[|steps1|].cells|
    ensures GoesOn(run, steps, run', steps')
    ensures var s, t := run1[|steps1|], run'[|steps'|];
      && |t.cells| == |s.cells| && Quiet(t.cells[a].it)
      && forall b :: 0 <= b < |s.cells| && b != a ==> t.cells[b] == s.cells[b]
    decreases Load(run1[|steps1|].cells[a].it)
  {
    hide Apply, Enabled, Quiet, Load, Finishes;
    var s := run1[|steps1|];
    if Quiet(s.cells[a].it) {
      run', steps' := run1, steps1;
    } else {
      var step := FinishingStep(s, a);
      GoOn(run, steps, run1, steps1, step);
      hide GoesOn;
      run', steps' := ActorFinishes(run, steps, run1 + [Apply(s, step)], steps1 + [step], a);
    }
  }

  lemma {:induction false} ActorsFinish(run: seq<State>, steps: seq<Step>, n: nat)
    returns (run': seq<State>, steps': seq<Step>)
    requires IsRun(run, steps) && n <= |run[|steps|].cells|
    ensures GoesOn(run, steps, run', steps') && |run'[|steps'|].cells| == |run[|steps|].cells|
    ensures forall b :: 0 <= b < n ==> Quiet(run'[|steps'|].cells[b].it)
  {
    if n == 0 {
      run', steps' := run, steps;
    } else {
      run', steps' := ActorsFinish(run, steps, n - 1);
      hide GoesOn, Quiet, Apply, Enabled;
      run', steps' := ActorFinishes(run, steps, run', steps', n - 1);
    }
  }

  lemma {:induction false} OwedAreSent(run: seq<State>, steps: seq<Step>, run1: seq<State>, steps1: seq<Step>)
    returns (run': seq<State>, steps': seq<Step>)
    requires GoesOn(run, steps, run1, steps1)
    ensures GoesOn(run, steps, run', steps') && run'[|steps'|].cells == run1[|steps1|].cells
    ensures run'[|steps'|].owed == multiset{}
    decreases |run1[|steps1|].owed|
  {
    var s := run1[|steps1|];
    if s.owed == multiset{} {
      run', steps' := run1, steps1;
    } else {
      assert |s.owed| > 0;
      var e :| e in s.owed;
      var t := Apply(s, SendOwed(e));
      assert |t.owed| < |s.owed| && t.cells == s.cells;
      GoOn(run, steps, run1, steps1, SendOwed(e));
      hide GoesOn, Apply, Enabled;
      run', steps' := OwedAreSent(run, steps, run1 + [t], steps1 + [SendOwed(e)]);
    }
  }

  /** From every state of every run the threads can finish without a new call: nothing is on its way
      into a list, nothing is left to fire, and no exit message is owed. */
  lemma ThreadsCanFinish(run: seq<State>, steps: seq<Step>) returns (run': seq<State>, steps': seq<Step>)
    requires IsRun(run, steps)
    ensures GoesOn(run, steps, run', steps')
    ensures var t := run'[|steps'|];
      t.owed == multiset{} && forall a :: 0 <= a < |t.cells| ==> Quiet(t.cells[a].it)
  {
    run', steps' := ActorsFinish(run, steps, |run[|steps|].cells|);
    hide GoesOn, Quiet;
    run', steps' := OwedAreSent(run, steps, run', steps');
  }
}
