/** The part of an actor that its mutex guards, with its attachables in a linked list.  The pointer
    operations are proved against the functions on sequences that the rest of the model uses. */
module AbstractActors {
  import opened Attachables
  import opened Lifecycle

  /** An attachable owns the one after it. */
  class Node {
    const x: Attachable
    var next: Node?

    constructor (x: Attachable)
      ensures this.x == x && next == null
    {
      this.x := x;
      next := null;
    }
  }

  function Contents(ns: seq<Node>): (xs: seq<Attachable>)
    ensures |xs| == |ns|
    ensures forall i :: 0 <= i < |ns| ==> xs[i] == ns[i].x
  {
    if ns == [] then [] else [ns[0].x] + Contents(ns[1..])
  }

  function At(ns: seq<Node>, i: nat): Node? {
    if i < |ns| then ns[i] else null
  }

  /** `head` leads through exactly these nodes. */
  ghost predicate Chain(head: Node?, ns: seq<Node>)
    reads ns
  {
    && head == At(ns, 0)
    && (forall i :: 0 <= i < |ns| ==> ns[i].next == At(ns, i + 1))
    && forall i, j :: 0 <= i < j < |ns| ==> ns[i] != ns[j]
  }

  class AbstractActor {
    var terminated: bool
    var failState: int
    var head: Node?
    ghost var nodes: seq<Node>

    ghost predicate Valid()
      reads this, nodes
    {
      Chain(head, nodes)
    }

    ghost function List(): seq<Attachable>
      reads this
    {
      Contents(nodes)
    }

    /** The life of the actor's attachables has this state. */
    ghost predicate Shows(it: Actor)
      reads this
    {
      terminated == it.terminated && failState == it.fail && List() == it.list
    }

    constructor ()
      ensures Valid() && List() == [] && !terminated && Shows(Fresh)
    {
      terminated, failState, head, nodes := false, 0, null, [];
    }

    /** Swaps the new node in at the head. */
    method AttachImpl(n: Node)
      requires Valid() && n !in nodes
      modifies this`head, this`nodes, n
      ensures Valid() && nodes == [n] + old(nodes) && List() == [n.x] + old(List())
    {
      n.next := head;
      head := n;
      ghost var ns := nodes;
      nodes := [n] + nodes;
      assert nodes[1..] == ns;
      forall i | 0 <= i < |nodes|
        ensures nodes[i].next == At(nodes, i + 1)
      {
        assert i + 1 < |nodes| ==> nodes[i + 1] == ns[i];
        if i > 0 {
          assert nodes[i] == ns[i - 1] && ns[i - 1].next == old(ns[i - 1].next);
        }
      }
    }

    /** Takes the node that the slot after `prev`, or the head, owns out of the chain. */
    method Relink(prev: Node?, cur: Node, ghost k: nat) returns (next: Node?)
      requires Valid() && k < |nodes| && cur == nodes[k] && prev == if k == 0 then null else nodes[k - 1]
      modifies this`head, this`nodes, prev, cur
      ensures Valid() && nodes == old(nodes)[..k] + old(nodes)[k + 1..] && next == At(nodes, k)
    {
      next := cur.next;
      cur.next := null;
      if prev == null {
        head := next;
      } else {
        prev.next := next;
      }
      ghost var ns := nodes;
      nodes := nodes[..k] + nodes[k + 1..];
      forall i | 0 <= i < |nodes|
        ensures nodes[i].next == At(nodes, i + 1)
      {
        NeighboursWithout(ns, nodes, k, i);
        var j := if i < k then i else i + 1;
        assert i + 1 == k ==> ns[j] == prev;
        assert old(ns[j].next) == At(ns, j + 1);
        assert i + 1 != k ==> ns[j].next == old(ns[j].next);
      }
    }

    method Unchain(prev: Node?, cur: Node, ghost k: nat) returns (next: Node?, ghost xs: seq<Attachable>)
      requires Valid() && k < |nodes| && cur == nodes[k] && prev == if k == 0 then null else nodes[k - 1]
      modifies this`head, this`nodes, prev, cur
      ensures Valid() && |nodes| == |old(nodes)| - 1 && next == At(nodes, k) && (k > 0 ==> nodes[k - 1] == prev)
      ensures xs == List() && xs[..k] == old(List())[..k] && xs[k..] == old(List())[k + 1..]
      ensures forall n :: n in nodes ==> n in old(nodes)
    {
      hide Chain, Contents;
      next := Relink(prev, cur, k);
      ContentsWithout(old(nodes), k);
      xs := List();
    }

    /** The loop that walks the list from slot to slot; `k` nodes are behind it. */
    method DetachImpl(token: Kind, stopOnHit: bool, dryRun: bool) returns (count: nat)
      requires Valid()
      modifies this`head, this`nodes, nodes
      ensures Valid() && forall n :: n in nodes ==> n in old(nodes)
      ensures count == Detached(old(List()), token, stopOnHit, dryRun).0
      ensures List() == Detached(old(List()), token, stopOnHit, dryRun).1
    {
      hide Detached, Contents, Matches, Progress, Chain;
      count := 0;
      var prev: Node?, cur := null, head;
      ghost var k, xs, all := 0, List(), List();
      Start(all, token, stopOnHit, dryRun);
      HeadOfChain(head, nodes);
      while cur != null
        invariant Valid() && k <= |nodes| && forall n :: n in nodes ==> n in old(nodes)
        invariant prev == (if k == 0 then null else nodes[k - 1]) && cur == At(nodes, k)
        invariant xs == List() && Progress(all, count, xs, k, token, stopOnHit, dryRun)
        decreases |nodes| - k
      {
        if Matches(cur.x, token) {
          if !dryRun {
            ghost var ys := xs;
            assert cur in nodes && (prev != null ==> prev in nodes);
            cur, xs := Unchain(prev, cur, k);
            Drop(all, count, ys, xs, k, token, stopOnHit);
          } else {
            PassHit(all, count, xs, k, token, stopOnHit);
            NextInChain(head, nodes, k);
            prev, cur, k := cur, cur.next, k + 1;
          }
          count := count + 1;
          if stopOnHit {
            return;
          }
        } else {
          Pass(all, count, xs, k, token, stopOnHit, dryRun);
          NextInChain(head, nodes, k);
          prev, cur, k := cur, cur.next, k + 1;
        }
      }
      End(all, count, xs, token, stopOnHit, dryRun);
    }

    method Detach(token: Kind) returns (count: nat)
      requires Valid()
      modifies this`head, this`nodes, nodes
      ensures Valid() && count == (if token.EraseEntry? || token.Callback? then 0 else Count(old(List()), token))
      ensures forall kind :: Count(List(), kind) == Left(Count(old(List()), kind), kind, token, false)
      ensures forall it: Actor :: old(Shows(it)) ==> Shows(Remove(it, token, false))
    {
      hide Detached, Contents, Chain, Count;
      ghost var all := List();
      forall kind
        ensures Count(Detached(all, token, false, false).1, kind) == Left(Count(all, kind), kind, token, false)
      {
        CountDetached(all, token, false, false, kind);
      }
      CountDetached(all, token, false, false, token);
      count := DetachImpl(token, false, false);
    }

    /** `attach`: the caller must fire the attachable itself when the actor has terminated. */
    method Attach(n: Node) returns (attached: bool, fail: int)
      requires Valid() && n !in nodes
      modifies this`head, this`nodes, n
      ensures Valid() && attached == !terminated && fail == failState
      ensures forall it: Actor :: old(Shows(it)) ==> Shows(Section(it, n.x))
    {
      fail := failState;
      if terminated {
        attached := false;
      } else {
        AttachImpl(n);
        attached := true;
      }
    }

    /** The critical section of `cleanup`: the winner takes the whole chain and must fire it. */
    method CleanupSection(reason: int) returns (won: bool, first: Node?, ghost taken: seq<Node>)
      requires Valid()
      modifies this
      ensures Valid() && won == !old(terminated) && Chain(first, taken)
      ensures Contents(taken) == if won then old(List()) else []
      ensures forall it: Actor :: old(Shows(it)) ==>
        Shows(Terminate(it, reason)) && (won ==> Terminate(it, reason).cleaning == Contents(taken))
    {
      won := !terminated;
      first, taken := null, [];
      if won {
        failState := reason;
        first, head := head, first;
        taken, nodes := nodes, taken;
        terminated := true;
      }
    }
  }

  /** The loop of `cleanup` that fires what it took, from the head to the end. */
  method FireAll(first: Node?, ghost taken: seq<Node>) returns (fired: seq<Attachable>)
    requires Chain(first, taken)
    ensures fired == Contents(taken)
  {
    fired := [];
    var i := first;
    ghost var k := 0;
    while i != null
      invariant k <= |taken| && i == At(taken, k)
      invariant fired == Contents(taken)[..k]
      decreases |taken| - k
    {
      fired := fired + [i.x];
      i, k := i.next, k + 1;
    }
  }

  /** Which nodes are next to each other after one was taken out. */
  lemma NeighboursWithout(ns: seq<Node>, ms: seq<Node>, k: nat, i: nat)
    requires k < |ns| && ms == ns[..k] + ns[k + 1..] && i < |ms|
    ensures ms[i] == ns[if i < k then i else i + 1]
    ensures At(ms, i + 1) == At(ns, if i + 1 < k then i + 1 else i + 2)
    ensures At(ms, k) == At(ns, k + 1)
  {
  }

  lemma HeadOfChain(head: Node?, ns: seq<Node>)
    requires Chain(head, ns)
    ensures head == At(ns, 0)
  {
  }

  lemma NextInChain(head: Node?, ns: seq<Node>, k: nat)
    requires Chain(head, ns) && k < |ns|
    ensures ns[k].next == At(ns, k + 1)
  {
  }

  lemma ContentsWithout(ns: seq<Node>, k: nat)
    requires k < |ns|
    ensures var xs, ys := Contents(ns), Contents(ns[..k] + ns[k + 1..]);
      ys[..k] == xs[..k] && ys[k..] == xs[k + 1..]
  {
  }

  /** `count` hits were found before position `k` of the list as it is now, and the rest of the
      search completes the result for the whole list. */
  ghost predicate Progress(all: seq<Attachable>, count: nat, xs: seq<Attachable>, k: nat,
                           token: Kind, stopOnHit: bool, dryRun: bool) {
    && k <= |xs|
    && Detached(all, token, stopOnHit, dryRun).0 == count + Detached(xs[k..], token, stopOnHit, dryRun).0
    && Detached(all, token, stopOnHit, dryRun).1 == xs[..k] + Detached(xs[k..], token, stopOnHit, dryRun).1
  }

  lemma Start(all: seq<Attachable>, token: Kind, stopOnHit: bool, dryRun: bool)
    ensures Progress(all, 0, all, 0, token, stopOnHit, dryRun)
  {
    assert all[0..] == all && all[..0] == [];
  }

  lemma End(all: seq<Attachable>, count: nat, xs: seq<Attachable>, token: Kind, stopOnHit: bool, dryRun: bool)
    requires Progress(all, count, xs, |xs|, token, stopOnHit, dryRun)
    ensures Detached(all, token, stopOnHit, dryRun).0 == count && Detached(all, token, stopOnHit, dryRun).1 == xs
  {
    assert xs[|xs|..] == [] && xs[..|xs|] == xs;
  }

  /** The search passes an entry that is no hit. */
  lemma Pass(all: seq<Attachable>, count: nat, xs: seq<Attachable>, k: nat, token: Kind, stopOnHit: bool, dryRun: bool)
    requires Progress(all, count, xs, k, token, stopOnHit, dryRun) && k < |xs| && !Matches(xs[k], token)
    ensures Progress(all, count, xs, k + 1, token, stopOnHit, dryRun)
  {
    DetachedUnfold(xs[k..], token, stopOnHit, dryRun);
    hide Detached, Matches;
    assert xs[k..][1..] == xs[k + 1..] && xs[..k + 1] == xs[..k] + [xs[k]];
  }

  /** A dry run passes a hit. */
  lemma PassHit(all: seq<Attachable>, count: nat, xs: seq<Attachable>, k: nat, token: Kind, stopOnHit: bool)
    requires Progress(all, count, xs, k, token, stopOnHit, true) && k < |xs| && Matches(xs[k], token)
    ensures !stopOnHit ==> Progress(all, count + 1, xs, k + 1, token, stopOnHit, true)
    ensures stopOnHit ==>
      Detached(all, token, stopOnHit, true).0 == count + 1 && Detached(all, token, stopOnHit, true).1 == xs
  {
    DetachedUnfold(xs[k..], token, stopOnHit, true);
    hide Detached, Matches;
    assert xs[k..][1..] == xs[k + 1..] && xs[..k + 1] == xs[..k] + [xs[k]];
    assert xs == xs[..k] + ([xs[k]] + xs[k + 1..]);
  }

  /** The search takes out a hit. */
  lemma Drop(all: seq<Attachable>, count: nat, xs: seq<Attachable>, ys: seq<Attachable>, k: nat, token: Kind, stopOnHit: bool)
    requires Progress(all, count, xs, k, token, stopOnHit, false) && k < |xs| && Matches(xs[k], token)
    requires |ys| == |xs| - 1 && ys[..k] == xs[..k] && ys[k..] == xs[k + 1..]
    ensures !stopOnHit ==> Progress(all, count + 1, ys, k, token, stopOnHit, false)
    ensures stopOnHit ==>
      Detached(all, token, stopOnHit, false).0 == count + 1 && Detached(all, token, stopOnHit, false).1 == ys
  {
    DetachedUnfold(xs[k..], token, stopOnHit, false);
    hide Detached, Matches;
    assert xs[k..][1..] == ys[k..] && ys == ys[..k] + ys[k..];
  }
}
