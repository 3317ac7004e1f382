/** The life of the attachables of one actor while any number of threads attach, detach and
    clean up.  Critical sections are single steps; what a thread still has to do after it
    left one is part of the state. */
module Lifecycle {
  import opened Attachables

  datatype Fire = Fire(what: Attachable, reason: int)

  /** `arriving`: calls of `attach` before their critical section.  `list`: the actor's list.
      `cleaning`: what the winner of `cleanup` still has to fire, in order.  `late`: what
      arrived after termination, for its own thread to fire.  `fired`, `detached`, `issued`
      and `cleanups` (calls of `cleanup` that returned true) record history. */
  datatype Actor = Actor(
    terminated: bool, fail: int, cleanups: nat,
    arriving: multiset<Attachable>, list: seq<Attachable>, cleaning: seq<Attachable>,
    late: multiset<Attachable>, fired: multiset<Fire>, detached: multiset<Attachable>,
    issued: set<Attachable>)

  const Fresh := Actor(false, 0, 0, multiset{}, [], [], multiset{}, multiset{}, multiset{}, {})

  // -- steps ------------------------------------------------------------------------------

  /** A call of `attach` starts. */
  function Issue(it: Actor, x: Attachable): Actor {
    it.(issued := it.issued + {x}, arriving := it.arriving + multiset{x})
  }

  /** A link entry is made and put at the head of the list within one critical section. */
  function Install(it: Actor, x: Attachable): Actor {
    it.(issued := it.issued + {x}, list := [x] + it.list)
  }

  /** The critical section of `attach`. */
  function Section(it: Actor, x: Attachable): Actor {
    if it.terminated then it.(arriving := it.arriving - multiset{x}, late := it.late + multiset{x})
    else it.(arriving := it.arriving - multiset{x}, list := [x] + it.list)
  }

  /** `detach_impl`. */
  function Remove(it: Actor, token: Kind, stopOnHit: bool): Actor {
    var ys := Detached(it.list, token, stopOnHit, false).1;
    it.(list := ys, detached := it.detached + (multiset(it.list) - multiset(ys)))
  }

  /** The critical section of `cleanup`; only its first caller wins. */
  function Terminate(it: Actor, reason: int): Actor {
    if it.terminated then it
    else it.(terminated := true, fail := reason, cleanups := it.cleanups + 1, list := [], cleaning := it.list)
  }

  /** The winner of `cleanup` fires the next attachable. */
  function FireNext(it: Actor): Actor
    requires it.cleaning != []
  {
    it.(cleaning := it.cleaning[1..], fired := it.fired + multiset{Fire(it.cleaning[0], it.fail)})
  }

  /** A thread that came too late fires its attachable. */
  function FireLate(it: Actor, x: Attachable): Actor {
    it.(late := it.late - multiset{x}, fired := it.fired + multiset{Fire(x, it.fail)})
  }

  // -- conservation -------------------------------------------------------------------------

  /** In how many places `x` is. */
  function Places(it: Actor, x: Attachable): nat {
    it.arriving[x] + multiset(it.list)[x] + multiset(it.cleaning)[x] + it.late[x]
    + it.fired[Fire(x, it.fail)] + it.detached[x]
  }

  ghost predicate Ok(it: Actor) {
    && (it.terminated ==> it.list == [])
    && (!it.terminated ==> it.cleaning == [] && it.late == multiset{} && it.fired == multiset{})
    && it.cleanups == (if it.terminated then 1 else 0)
    && (forall f :: f in it.fired ==> f.reason == it.fail)
    && (forall x :: Places(it, x) == if x in it.issued then 1 else 0)
  }

  lemma IssueKeepsOk(it: Actor, x: Attachable)
    requires Ok(it) && x !in it.issued
    ensures Ok(Issue(it, x))
  {
    assert forall y :: Places(Issue(it, x), y) == Places(it, y) + if x == y then 1 else 0;
  }

  lemma InstallKeepsOk(it: Actor, x: Attachable)
    requires Ok(it) && x !in it.issued && !it.terminated
    ensures Ok(Install(it, x))
  {
    assert forall y :: Places(Install(it, x), y) == Places(it, y) + if x == y then 1 else 0;
  }

  lemma SectionKeepsOk(it: Actor, x: Attachable)
    requires Ok(it) && x in it.arriving
    ensures Ok(Section(it, x))
  {
    assert forall y :: Places(Section(it, x), y) == Places(it, y);
  }

  lemma {:induction false} DetachSubset(xs: seq<Attachable>, token: Kind, stopOnHit: bool)
    ensures multiset(Detached(xs, token, stopOnHit, false).1) <= multiset(xs)
  {
    if xs != [] {
      DetachSubset(xs[1..], token, stopOnHit);
      assert xs == [xs[0]] + xs[1..];
    }
  }

  lemma RemoveKeepsOk(it: Actor, token: Kind, stopOnHit: bool)
    requires Ok(it)
    ensures Ok(Remove(it, token, stopOnHit))
  {
    DetachSubset(it.list, token, stopOnHit);
    assert forall y :: Places(Remove(it, token, stopOnHit), y) == Places(it, y);
  }

  lemma TerminateKeepsOk(it: Actor, reason: int)
    requires Ok(it)
    ensures Ok(Terminate(it, reason))
  {
    assert forall y :: Places(Terminate(it, reason), y) == Places(it, y);
  }

  lemma FireNextKeepsOk(it: Actor)
    requires Ok(it) && it.cleaning != []
    ensures Ok(FireNext(it))
  {
    assert it.cleaning == [it.cleaning[0]] + it.cleaning[1..];
    assert forall y :: Places(FireNext(it), y) == Places(it, y);
  }

  lemma FireLateKeepsOk(it: Actor, x: Attachable)
    requires Ok(it) && x in it.late
    ensures Ok(FireLate(it, x))
  {
    assert forall y :: Places(FireLate(it, x), y) == Places(it, y);
  }
}
