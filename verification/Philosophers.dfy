/** The dining philosophers example: chopstick and philosopher actors that exchange
    asynchronous messages.  The state of the whole table is the behavior of every actor
    plus the multiset of messages in flight; delivery order is arbitrary.  */
module Philosophers {

  /** The five behaviors of a philosopher. */
  datatype Behavior = Thinking | Hungry | Granted | Denied | Eating

  /** All messages; `Taken` is the chopstick's response to `Take`. */
  datatype Msg =
    | Take(who: nat, stick: nat)
    | Put(who: nat, stick: nat)
    | Taken(who: nat, stick: nat, ok: bool)
    | Eat(who: nat)
    | Think(who: nat)

  /** A philosopher: its two chopsticks, its behavior and the messages it has stashed. */
  datatype Phil = Phil(left: nat, right: nat, beh: Behavior, cache: seq<Msg>)

  /** The table.  A chopstick is its stack of `taken(user)` behaviors, top last; the
      bottom of the stack, the available chopstick, is the empty sequence. */
  datatype Table = Table(sticks: seq<seq<nat>>, phils: seq<Phil>, flight: multiset<Msg>)

  // -- handlers ---------------------------------------------------------------

  /** A chopstick receives `take`: the first user gets it, anybody else is refused. */
  function OnTake(users: seq<nat>, from: nat): (seq<nat>, bool) {
    if users == [] then ([from], true) else (users, false)
  }

  /** A chopstick receives `put`: only the current user releases it. */
  function OnPut(users: seq<nat>, from: nat): seq<nat> {
    if users != [] && users[|users| - 1] == from then users[..|users| - 1] else users
  }

  /** A philosopher receives `m`: its next behavior and the messages it sends, unless its
      behavior has no handler for `m`. */
  datatype Reaction = Unmatched | Become(beh: Behavior, out: multiset<Msg>)

  function React(p: nat, ph: Phil, m: Msg): Reaction {
    match (ph.beh, m)
    case (Thinking, Eat(_)) => Become(Hungry, multiset{Take(p, ph.left), Take(p, ph.right)})
    case (Hungry, Taken(_, _, ok)) => Become(if ok then Granted else Denied, multiset{})
    case (Granted, Taken(_, c, ok)) =>
      if ok then Become(Eating, multiset{Think(p)})
      else Become(Thinking, multiset{Put(p, if c == ph.left then ph.right else ph.left), Eat(p)})
    case (Denied, Taken(_, c, ok)) =>
      if ok then Become(Thinking, multiset{Put(p, if c == ph.left then ph.left else ph.right), Eat(p)})
      else Become(Thinking, multiset{Eat(p)})
    case (Eating, Think(_)) => Become(Thinking, multiset{Put(p, ph.left), Put(p, ph.right), Eat(p)})
    case _ => Unmatched
  }

  /** `sent` grew by what `ph` puts into mailboxes when it receives `m` and becomes `ph'`. */
  ghost predicate Received(p: nat, ph: Phil, m: Msg, ph': Phil, sent: multiset<Msg>, sent': multiset<Msg>) {
    match React(p, ph, m)
    case Unmatched => ph' == ph.(cache := ph.cache + [m]) && sent' == sent
    case Become(beh, out) => ph' == ph.(beh := beh, cache := []) && sent' == sent + multiset(ph.cache) + out
  }

  lemma Regroup(sent: multiset<Msg>, x: Msg, y: Msg, more: multiset<Msg>)
    ensures sent + multiset{x} + more == sent + more + multiset{x}
    ensures sent + multiset{x} + multiset{y} + more == sent + more + multiset{x, y}
  {
  }

  // -- the actors -----------------------------------------------------------------

  class ChopstickActor {
    var users: seq<nat>

    constructor ()
      ensures users == []
    {
      users := [];
    }

    /** Pushes `taken(sender)` unless the chopstick is taken already. */
    method ReceiveTake(sender: nat) returns (ok: bool)
      modifies this
      ensures users == OnTake(old(users), sender).0
      ensures ok == OnTake(old(users), sender).1
    {
      if users == [] {
        users := users + [sender];
        ok := true;
      } else {
        ok := false;
      }
    }

    method ReceivePut(sender: nat)
      modifies this
      ensures users == OnPut(old(users), sender)
    {
      if users == [] {
        return;
      }
      var user := users[|users| - 1];
      if sender == user {
        users := users[..|users| - 1];
      }
    }
  }

  class PhilosopherActor {
    const self: nat
    const left: nat
    const right: nat
    var beh: Behavior
    var cache: seq<Msg>
    var sent: multiset<Msg>

    function State(): Phil
      reads this
    {
      Phil(left, right, beh, cache)
    }

    /** `make_behavior`: a philosopher starts to think and reminds itself to eat. */
    constructor (p: nat, l: nat, r: nat)
      ensures self == p && State() == Phil(l, r, Thinking, []) && sent == multiset{Eat(p)}
    {
      self, left, right := p, l, r;
      beh := Thinking;
      cache := [];
      sent := multiset{Eat(p)};
    }

    method Send(m: Msg)
      modifies this`sent
      ensures sent == old(sent) + multiset{m}
    {
      sent := sent + multiset{m};
    }

    method Stash(m: Msg)
      modifies this`cache
      ensures cache == old(cache) + [m]
    {
      cache := cache + [m];
    }

    method Unstash()
      modifies this`cache, this`sent
      ensures cache == [] && sent == old(sent) + multiset(old(cache))
    {
      sent := sent + multiset(cache);
      cache := [];
    }

    method ReceiveThinking(m: Msg)
      requires beh == Thinking
      modifies this
      ensures Received(self, old(State()), m, State(), old(sent), sent)
    {
      if m.Eat? {
        beh := Hungry;
        Unstash();
        Send(Take(self, left));
        Send(Take(self, right));
      } else {
        Stash(m);
      }
    }

    method ReceiveHungry(m: Msg)
      requires beh == Hungry
      modifies this
      ensures Received(self, old(State()), m, State(), old(sent), sent)
    {
      if m.Taken? {
        beh := if m.ok then Granted else Denied;
        Unstash();
      } else {
        Stash(m);
      }
    }

    method ReceiveGranted(m: Msg)
      requires beh == Granted
      modifies this
      ensures Received(self, old(State()), m, State(), old(sent), sent)
    {
      if m.Taken? {
        if m.ok {
          Send(Think(self));
          beh := Eating;
        } else {
          Send(Put(self, if m.stick == left then right else left));
          Send(Eat(self));
          beh := Thinking;
        }
        ghost var stashed := cache;
        Unstash();
        Regroup(old(sent), Put(self, if m.stick == left then right else left), Eat(self), multiset(stashed));
        Regroup(old(sent), Think(self), Think(self), multiset(stashed));
      } else {
        Stash(m);
      }
    }

    method ReceiveDenied(m: Msg)
      requires beh == Denied
      modifies this
      ensures Received(self, old(State()), m, State(), old(sent), sent)
    {
      if m.Taken? {
        if m.ok {
          Send(Put(self, if m.stick == left then left else right));
        }
        Send(Eat(self));
        beh := Thinking;
        ghost var stashed := cache;
        Unstash();
        Regroup(old(sent), Put(self, if m.stick == left then left else right), Eat(self), multiset(stashed));
        Regroup(old(sent), Eat(self), Eat(self), multiset(stashed));
      } else {
        Stash(m);
      }
    }

    method ReceiveEating(m: Msg)
      requires beh == Eating
      modifies this
      ensures Received(self, old(State()), m, State(), old(sent), sent)
    {
      if m.Think? {
        Send(Put(self, left));
        Send(Put(self, right));
        Send(Eat(self));
        beh := Thinking;
        Unstash();
      } else {
        Stash(m);
      }
    }
  }

  // -- the transition system ----------------------------------------------------

  /** `caf_main`: available chopsticks, and a ring of philosophers that all think and have
      an `eat` coming. */
  ghost predicate Init(s: Table) {
    && |s.sticks| == |s.phils| >= 2
    && (forall c :: 0 <= c < |s.sticks| ==> s.sticks[c] == [])
    && (forall p :: 0 <= p < |s.phils| ==> s.phils[p] == Phil(p, (p + 1) % |s.phils|, Thinking, []))
    && (forall m :: s.flight[m] == if m.Eat? && m.who < |s.phils| then 1 else 0)
  }

  predicate Addressed(s: Table, m: Msg) {
    && m.who < |s.phils|
    && (m.Take? || m.Put? || m.Taken? ==> m.stick < |s.sticks|)
  }

  /** One actor takes one message out of its mailbox. */
  function Deliver(s: Table, m: Msg): Table
    requires Addressed(s, m)
  {
    var rest := s.flight - multiset{m};
    match m
    case Take(p, c) =>
      var (users, ok) := OnTake(s.sticks[c], p);
      s.(sticks := s.sticks[c := users], flight := rest + multiset{Taken(p, c, ok)})
    case Put(p, c) =>
      s.(sticks := s.sticks[c := OnPut(s.sticks[c], p)], flight := rest)
    case _ => ToPhil(s, m)
  }

  /** A matched message runs its handler and unstashes; an unmatched one is stashed. */
  function ToPhil(s: Table, m: Msg): Table
    requires Addressed(s, m)
  {
    var rest := s.flight - multiset{m};
    var ph := s.phils[m.who];
    match React(m.who, ph, m)
    case Unmatched =>
      s.(phils := s.phils[m.who := ph.(cache := ph.cache + [m])], flight := rest)
    case Become(beh, out) =>
      s.(phils := s.phils[m.who := ph.(beh := beh, cache := [])], flight := rest + multiset(ph.cache) + out)
  }

  ghost predicate Next(s: Table, t: Table) {
    exists m :: m in s.flight && Addressed(s, m) && t == Deliver(s, m)
  }

  ghost predicate IsPath(run: seq<Table>) {
    && run != []
    && forall i :: 0 <= i < |run| - 1 ==> Next(run[i], run[i + 1])
  }

  ghost predicate IsRun(run: seq<Table>) {
    IsPath(run) && Init(run[0])
  }

  // -- the ownership invariant ----------------------------------------------------

  /** Unanswered requests of `p` for `c`: the request or its response is in flight. */
  function Pending(s: Table, p: nat, c: nat): nat {
    s.flight[Take(p, c)] + s.flight[Taken(p, c, true)] + s.flight[Taken(p, c, false)]
  }

  /** A philosopher in `granted` does not store which chopstick it got: it is the one that
      it no longer waits for. */
  predicate Knows(s: Table, p: nat, c: nat)
    requires p < |s.phils|
  {
    s.phils[p].beh == Eating || (s.phils[p].beh == Granted && Pending(s, p, c) == 0)
  }

  /** Ownership tokens of `p` for `c`: a positive response, the philosopher's own knowledge,
      or a `put` on its way back. */
  function Tokens(s: Table, p: nat, c: nat): nat
    requires p < |s.phils|
  {
    s.flight[Taken(p, c, true)] + s.flight[Put(p, c)] + if Knows(s, p, c) then 1 else 0
  }

  /** What is in flight to a philosopher is exactly what its behavior waits for. */
  predicate MailMatches(s: Table, p: nat)
    requires p < |s.phils|
  {
    var l, r := Pending(s, p, s.phils[p].left), Pending(s, p, s.phils[p].right);
    var eat, think := s.flight[Eat(p)], s.flight[Think(p)];
    && s.phils[p].cache == []
    && match s.phils[p].beh
       case Thinking => eat == 1 && think == 0 && l == 0 && r == 0
       case Hungry => eat == 0 && think == 0 && l == 1 && r == 1
       case Granted => eat == 0 && think == 0 && l + r == 1
       case Denied => eat == 0 && think == 0 && l + r == 1
       case Eating => eat == 0 && think == 1 && l == 0 && r == 0
  }

  predicate Uses(s: Table, p: nat, c: nat) {
    p < |s.phils| && (c == s.phils[p].left || c == s.phils[p].right)
  }

  /** The chopstick is in `taken(p)` exactly when there is a token, and then there is one. */
  predicate StickMatches(s: Table, p: nat, c: nat) {
    && p < |s.phils|
    && c < |s.sticks|
    && Tokens(s, p, c) == if s.sticks[c] == [p] then 1 else 0
  }

  predicate PhilOk(s: Table, p: nat)
    requires p < |s.phils|
  {
    && s.phils[p].left != s.phils[p].right
    && MailMatches(s, p)
    && StickMatches(s, p, s.phils[p].left)
    && StickMatches(s, p, s.phils[p].right)
  }

  predicate MsgOk(s: Table, m: Msg) {
    && Addressed(s, m)
    && (m.Take? || m.Put? || m.Taken? ==> Uses(s, m.who, m.stick))
  }

  predicate StickOk(s: Table, c: nat)
    requires c < |s.sticks|
  {
    s.sticks[c] == [] || (|s.sticks[c]| == 1 && Uses(s, s.sticks[c][0], c))
  }

  ghost predicate Inv(s: Table) {
    && (forall m :: m in s.flight ==> MsgOk(s, m))
    && (forall c :: 0 <= c < |s.sticks| ==> StickOk(s, c))
    && (forall p :: 0 <= p < |s.phils| ==> PhilOk(s, p))
  }

  lemma InitInv(s: Table)
    requires Init(s)
    ensures Inv(s)
  {
  }

  lemma TakeKeepsPhil(s: Table, p: nat, c: nat, q: nat)
    requires Take(p, c) in s.flight && MsgOk(s, Take(p, c)) && StickOk(s, c)
    requires q < |s.phils| && PhilOk(s, q)
    ensures PhilOk(Deliver(s, Take(p, c)), q)
  {
    if q == p {
      TakeKeepsOwn(s, p, c);
    } else {
      TakeKeepsOther(s, p, c, q);
    }
  }

  lemma TakeKeepsOwn(s: Table, p: nat, c: nat)
    requires Take(p, c) in s.flight && MsgOk(s, Take(p, c)) && StickOk(s, c) && PhilOk(s, p)
    ensures PhilOk(Deliver(s, Take(p, c)), p)
  {
    var t := Deliver(s, Take(p, c));
    assert Pending(t, p, s.phils[p].left) == Pending(s, p, s.phils[p].left);
    assert Pending(t, p, s.phils[p].right) == Pending(s, p, s.phils[p].right);
  }

  lemma TakeKeepsOther(s: Table, p: nat, c: nat, q: nat)
    requires Take(p, c) in s.flight && MsgOk(s, Take(p, c)) && StickOk(s, c)
    requires q != p && q < |s.phils| && PhilOk(s, q)
    ensures PhilOk(Deliver(s, Take(p, c)), q)
  {
    var t := Deliver(s, Take(p, c));
    assert forall x: Msg :: x.who == q ==> t.flight[x] == s.flight[x];
  }

  lemma TakeKeepsInv(s: Table, p: nat, c: nat)
    requires Inv(s) && Take(p, c) in s.flight
    ensures Addressed(s, Take(p, c)) && Inv(Deliver(s, Take(p, c)))
  {
    assert MsgOk(s, Take(p, c)) && StickOk(s, c);
    var t := Deliver(s, Take(p, c));
    assert forall d :: 0 <= d < |s.sticks| && d != c ==> t.sticks[d] == s.sticks[d] && StickOk(s, d);
    forall q | 0 <= q < |s.phils|
      ensures PhilOk(t, q)
    {
      TakeKeepsPhil(s, p, c, q);
    }
  }

  /** Every `put` in flight comes from the current user of the chopstick. */
  lemma PutIsExpected(s: Table, p: nat, c: nat)
    requires Inv(s) && Put(p, c) in s.flight
    ensures c < |s.sticks| && s.sticks[c] == [p]
  {
    assert MsgOk(s, Put(p, c)) && PhilOk(s, p);
  }

  lemma PutKeepsPhil(s: Table, p: nat, c: nat, q: nat)
    requires Put(p, c) in s.flight && MsgOk(s, Put(p, c)) && s.sticks[c] == [p]
    requires q < |s.phils| && PhilOk(s, q)
    ensures PhilOk(Deliver(s, Put(p, c)), q)
  {
    var t := Deliver(s, Put(p, c));
    assert t.sticks == s.sticks[c := []];
    assert forall d :: Pending(t, q, d) == Pending(s, q, d);
  }

  lemma PutKeepsInv(s: Table, p: nat, c: nat)
    requires Inv(s) && Put(p, c) in s.flight
    ensures Addressed(s, Put(p, c)) && Inv(Deliver(s, Put(p, c)))
  {
    PutIsExpected(s, p, c);
    assert MsgOk(s, Put(p, c));
    var t := Deliver(s, Put(p, c));
    assert t.sticks == s.sticks[c := []];
    assert forall d :: 0 <= d < |s.sticks| && d != c ==> t.sticks[d] == s.sticks[d] && StickOk(s, d);
    forall q | 0 <= q < |s.phils|
      ensures PhilOk(t, q)
    {
      PutKeepsPhil(s, p, c, q);
    }
  }

  predicate ForPhil(m: Msg) {
    m.Taken? || m.Eat? || m.Think?
  }

  /** A philosopher never receives a message that it has no handler for. */
  lemma NeverUnmatched(s: Table, m: Msg)
    requires Inv(s) && m in s.flight && ForPhil(m)
    ensures Addressed(s, m) && React(m.who, s.phils[m.who], m).Become?
    ensures s.phils[m.who].cache == []
  {
    assert MsgOk(s, m);
    assert PhilOk(s, m.who);
  }

  // The step of one philosopher keeps what concerns that philosopher, behavior by behavior.

  lemma ThinkingKeepsOwn(s: Table, m: Msg)
    requires m in s.flight && ForPhil(m) && MsgOk(s, m) && PhilOk(s, m.who)
    requires s.phils[m.who].beh == Thinking
    ensures PhilOk(ToPhil(s, m), m.who)
  {
  }

  lemma HungryKeepsOwn(s: Table, m: Msg)
    requires m in s.flight && ForPhil(m) && MsgOk(s, m) && PhilOk(s, m.who)
    requires s.phils[m.who].beh == Hungry
    ensures PhilOk(ToPhil(s, m), m.who)
  {
    var t, ph := ToPhil(s, m), s.phils[m.who];
    assert t.flight == s.flight - multiset{m};
    var other := if m.stick == ph.left then ph.right else ph.left;
    assert Pending(t, m.who, m.stick) == 0 && Pending(t, m.who, other) == 1;
    assert Tokens(t, m.who, m.stick) == Tokens(s, m.who, m.stick);
    assert Tokens(t, m.who, other) == Tokens(s, m.who, other);
  }

  lemma GrantedKeepsOwn(s: Table, m: Msg)
    requires m in s.flight && ForPhil(m) && MsgOk(s, m) && PhilOk(s, m.who)
    requires s.phils[m.who].beh == Granted
    ensures PhilOk(ToPhil(s, m), m.who)
  {
  }

  lemma DeniedKeepsOwn(s: Table, m: Msg)
    requires m in s.flight && ForPhil(m) && MsgOk(s, m) && PhilOk(s, m.who)
    requires s.phils[m.who].beh == Denied
    ensures PhilOk(ToPhil(s, m), m.who)
  {
  }

  lemma EatingKeepsOwn(s: Table, m: Msg)
    requires m in s.flight && ForPhil(m) && MsgOk(s, m) && PhilOk(s, m.who)
    requires s.phils[m.who].beh == Eating
    ensures PhilOk(ToPhil(s, m), m.who)
  {
    var t, ph := ToPhil(s, m), s.phils[m.who];
    assert m.Think? && t.flight == s.flight - multiset{m} + React(m.who, ph, m).out;
  }

  lemma PhilKeepsOwn(s: Table, m: Msg)
    requires Inv(s) && m in s.flight && ForPhil(m)
    ensures Addressed(s, m) && PhilOk(ToPhil(s, m), m.who)
  {
    assert MsgOk(s, m) && PhilOk(s, m.who);
    match s.phils[m.who].beh
    case Thinking => ThinkingKeepsOwn(s, m);
    case Hungry => HungryKeepsOwn(s, m);
    case Granted => GrantedKeepsOwn(s, m);
    case Denied => DeniedKeepsOwn(s, m);
    case Eating => EatingKeepsOwn(s, m);
  }

  /** A philosopher only sends messages of its own, about its own chopsticks. */
  lemma ReactionIsOwn(p: nat, ph: Phil, m: Msg, x: Msg)
    requires React(p, ph, m).Become? && x in React(p, ph, m).out
    ensures x.who == p
    ensures x.Take? || x.Put? ==> x.stick == ph.left || x.stick == ph.right
    ensures !x.Taken?
  {
  }

  lemma PhilFrame(s: Table, m: Msg, x: Msg)
    requires Inv(s) && m in s.flight && ForPhil(m)
    ensures Addressed(s, m)
    ensures x.who != m.who ==> ToPhil(s, m).flight[x] == s.flight[x]
    ensures x in ToPhil(s, m).flight ==> MsgOk(s, x)
  {
    NeverUnmatched(s, m);
    var ph := s.phils[m.who];
    var out := React(m.who, ph, m).out;
    assert ToPhil(s, m).flight[x] == (s.flight - multiset{m})[x] + out[x];
    if x in out {
      assert PhilOk(s, m.who);
      ReactionIsOwn(m.who, ph, m, x);
    }
  }

  lemma PhilKeepsInv(s: Table, m: Msg)
    requires Inv(s) && m in s.flight && ForPhil(m)
    ensures Addressed(s, m) && Inv(ToPhil(s, m))
  {
    PhilKeepsOwn(s, m);
    NeverUnmatched(s, m);
    var t := ToPhil(s, m);
    forall x: Msg
      ensures x.who != m.who ==> t.flight[x] == s.flight[x]
      ensures x in t.flight ==> MsgOk(t, x)
    {
      PhilFrame(s, m, x);
    }
    forall q | 0 <= q < |s.phils| && q != m.who
      ensures PhilOk(t, q)
    {
      assert PhilOk(s, q);
    }
    forall d | 0 <= d < |s.sticks|
      ensures StickOk(t, d)
    {
      assert StickOk(s, d);
    }
  }

  lemma DeliverKeepsInv(s: Table, m: Msg)
    requires Inv(s) && m in s.flight
    ensures Addressed(s, m) && Inv(Deliver(s, m))
  {
    match m
    case Take(p, c) => TakeKeepsInv(s, p, c);
    case Put(p, c) => PutKeepsInv(s, p, c);
    case _ => PhilKeepsInv(s, m);
  }

  // -- main results -----------------------------------------------------------------

  lemma NextKeepsInv(s: Table, t: Table)
    requires Inv(s) && Next(s, t)
    ensures Inv(t)
  {
    var m :| m in s.flight && Addressed(s, m) && t == Deliver(s, m);
    DeliverKeepsInv(s, m);
  }

  lemma {:induction false} RunKeepsInv(run: seq<Table>, i: nat)
    requires IsRun(run) && i < |run|
    ensures Inv(run[i])
  {
    hide Inv, Next;
    if i == 0 {
      InitInv(run[0]);
    } else {
      RunKeepsInv(run, i - 1);
      NextKeepsInv(run[i - 1], run[i]);
    }
  }

  /** In every state of every run: a chopstick is taken by `p` iff exactly one token exists,
      an eating philosopher holds both chopsticks, and of two philosophers that share a
      chopstick at most one eats. */
  lemma MutualExclusion(run: seq<Table>, i: nat, p: nat, q: nat, c: nat)
    requires IsRun(run) && i < |run|
    requires Uses(run[i], p, c) && Uses(run[i], q, c) && p != q
    ensures c < |run[i].sticks|
    ensures run[i].sticks[c] == [p] <==> Tokens(run[i], p, c) == 1
    ensures run[i].sticks[c] != [p] <==> Tokens(run[i], p, c) == 0
    ensures run[i].phils[p].beh == Eating ==> run[i].sticks[c] == [p]
    ensures !(run[i].phils[p].beh == Eating && run[i].phils[q].beh == Eating)
  {
    RunKeepsInv(run, i);
    assert PhilOk(run[i], p) && PhilOk(run[i], q);
  }

  lemma {:induction false} RunKeepsSeats(run: seq<Table>, i: nat)
    requires IsRun(run) && i < |run|
    ensures SameSeats(run[0], run[i])
  {
    hide Init;
    if i > 0 {
      RunKeepsSeats(run, i - 1);
      assert Next(run[i - 1], run[i]);
      hide Deliver;
      var m :| m in run[i - 1].flight && Addressed(run[i - 1], m) && run[i] == Deliver(run[i - 1], m);
      DeliverKeepsSeats(run[i - 1], m);
    }
  }

  /** Neighbours in the ring never eat at the same time. */
  lemma NeighboursNeverEatTogether(run: seq<Table>, i: nat, p: nat)
    requires IsRun(run) && i < |run| && p < |run[i].phils|
    ensures 0 <= (p + 1) % |run[i].phils| < |run[i].phils|
    ensures !(run[i].phils[p].beh == Eating && run[i].phils[(p + 1) % |run[i].phils|].beh == Eating)
  {
    RunKeepsSeats(run, i);
    var q := (p + 1) % |run[i].phils|;
    hide IsPath;
    assert run[0].phils[p].right == q && run[0].phils[q].left == q;
    assert run[i].phils[p].right == q && run[i].phils[q].left == q;
    assert p != q;
    MutualExclusion(run, i, p, q, q);
  }

  /** Some message that `p` waits for, or the request it waits on, can be delivered next. */
  ghost predicate HasTurn(s: Table, p: nat) {
    exists m :: m in s.flight && m.who == p && !m.Put?
  }

  /** In every state of every run: no message is ever stashed, nobody receives a message
      its behavior does not handle, the chopstick's branch for an unexpected `put` is dead,
      and every philosopher has a message of its own that can be delivered next. */
  lemma NothingUnexpected(run: seq<Table>, i: nat)
    requires IsRun(run) && i < |run|
    ensures forall p :: 0 <= p < |run[i].phils| ==> MailMatches(run[i], p)
    ensures forall m :: m in run[i].flight && ForPhil(m) ==>
              Addressed(run[i], m) && React(m.who, run[i].phils[m.who], m).Become?
    ensures forall p: nat, c: nat :: Put(p, c) in run[i].flight ==> c < |run[i].sticks| && run[i].sticks[c] == [p]
    ensures forall p :: 0 <= p < |run[i].phils| ==> HasTurn(run[i], p)
  {
    var s := run[i];
    RunKeepsInv(run, i);
    forall m | m in s.flight && ForPhil(m)
      ensures Addressed(s, m) && React(m.who, s.phils[m.who], m).Become?
    {
      NeverUnmatched(s, m);
    }
    forall p: nat, c: nat | Put(p, c) in s.flight
      ensures c < |s.sticks| && s.sticks[c] == [p]
    {
      PutIsExpected(s, p, c);
    }
    forall p | 0 <= p < |s.phils|
      ensures MailMatches(s, p)
      ensures HasTurn(s, p)
    {
      assert PhilOk(s, p);
      WaitsForSomething(s, p);
    }
  }

  lemma WaitsForSomething(s: Table, p: nat)
    requires p < |s.phils| && MailMatches(s, p)
    ensures HasTurn(s, p)
  {
    var l, r := s.phils[p].left, s.phils[p].right;
    if s.phils[p].beh == Thinking {
      assert Eat(p) in s.flight;
    } else if s.phils[p].beh == Eating {
      assert Think(p) in s.flight;
    } else {
      var c := if Pending(s, p, l) > 0 then l else r;
      assert Pending(s, p, c) > 0;
      assert Take(p, c) in s.flight || Taken(p, c, true) in s.flight || Taken(p, c, false) in s.flight;
    }
  }

  // -- no philosopher is ever locked out ----------------------------------------------

  function Weight(m: Msg): nat {
    match m
    case Eat(_) => 0
    case Put(_, _) => 1
    case Think(_) => 3
    case Taken(_, _, _) => 4
    case Take(_, _) => 5
  }

  /** Upper bound on the deliveries left before only `eat` messages remain. */
  ghost function Work(ms: multiset<Msg>): nat
    decreases |ms|
  {
    if ms == multiset{} then 0
    else
      var m :| m in ms;
      Weight(m) + Work(ms - multiset{m})
  }

  lemma {:induction false} WorkRemove(ms: multiset<Msg>, x: Msg)
    requires x in ms
    ensures Work(ms) == Weight(x) + Work(ms - multiset{x})
    decreases |ms|
  {
    var m :| m in ms && Work(ms) == Weight(m) + Work(ms - multiset{m});
    hide Work, Weight;
    if m != x {
      WorkRemove(ms - multiset{m}, x);
      WorkRemove(ms - multiset{x}, m);
      assert ms - multiset{m} - multiset{x} == ms - multiset{x} - multiset{m};
    }
  }

  lemma WorkAdd(ms: multiset<Msg>, x: Msg)
    ensures Work(ms + multiset{x}) == Work(ms) + Weight(x)
  {
    WorkRemove(ms + multiset{x}, x);
    assert ms + multiset{x} - multiset{x} == ms;
  }

  lemma {:induction false} WorkUnion(a: multiset<Msg>, b: multiset<Msg>)
    ensures Work(a + b) == Work(a) + Work(b)
    decreases |b|
  {
    if b == multiset{} {
      assert a + b == a;
    } else {
      var x :| x in b;
      WorkRemove(b, x);
      WorkUnion(a, b - multiset{x});
      assert a + b == a + (b - multiset{x}) + multiset{x};
      WorkAdd(a + (b - multiset{x}), x);
    }
  }

  lemma WorkOfTwo(x: Msg, y: Msg)
    ensures Work(multiset{x}) == Weight(x)
    ensures Work(multiset{x, y}) == Weight(x) + Weight(y)
  {
    WorkAdd(multiset{}, x);
    assert multiset{} + multiset{x} == multiset{x};
    WorkAdd(multiset{x}, y);
    assert multiset{x} + multiset{y} == multiset{x, y};
  }

  /** A philosopher's reaction to a message other than `eat` costs less than the message. */
  lemma ReactionIsCheap(p: nat, ph: Phil, m: Msg)
    requires React(p, ph, m).Become? && Weight(m) > 0
    ensures Work(React(p, ph, m).out) < Weight(m)
  {
    var out := React(p, ph, m).out;
    assert Work(multiset{}) == 0;
    hide Work;
    match (ph.beh, m)
    case (Hungry, Taken(_, _, _)) =>
    case (Granted, Taken(_, c, ok)) =>
      if ok {
        assert out == multiset{Think(p)};
        WorkOfTwo(Think(p), Think(p));
      } else {
        WorkOfTwo(Put(p, if c == ph.left then ph.right else ph.left), Eat(p));
      }
    case (Denied, Taken(_, c, ok)) =>
      if ok {
        WorkOfTwo(Put(p, if c == ph.left then ph.left else ph.right), Eat(p));
      } else {
        assert out == multiset{Eat(p)};
        WorkOfTwo(Eat(p), Eat(p));
      }
    case (Eating, Think(_)) =>
      WorkOfTwo(Put(p, ph.left), Put(p, ph.right));
      WorkAdd(multiset{Put(p, ph.left), Put(p, ph.right)}, Eat(p));
      assert out == multiset{Put(p, ph.left), Put(p, ph.right)} + multiset{Eat(p)};
  }

  lemma PhilDecreases(s: Table, m: Msg)
    requires Inv(s) && m in s.flight && ForPhil(m) && Weight(m) > 0
    ensures Addressed(s, m) && Work(ToPhil(s, m).flight) < Work(s.flight)
  {
    NeverUnmatched(s, m);
    WorkRemove(s.flight, m);
    var rest := s.flight - multiset{m};
    var r := React(m.who, s.phils[m.who], m);
    ReactionIsCheap(m.who, s.phils[m.who], m);
    WorkUnion(rest, r.out);
    assert rest + multiset(s.phils[m.who].cache) == rest;
  }

  lemma DeliverDecreases(s: Table, m: Msg)
    requires Inv(s) && m in s.flight && Weight(m) > 0
    ensures Addressed(s, m) && Work(Deliver(s, m).flight) < Work(s.flight)
  {
    assert MsgOk(s, m);
    hide Inv, Work, ToPhil, MsgOk;
    match m
    case Take(p, c) => StickDecreases(s, m);
    case Put(p, c) => StickDecreases(s, m);
    case _ => PhilDecreases(s, m);
  }

  lemma StickDecreases(s: Table, m: Msg)
    requires m in s.flight && Addressed(s, m) && (m.Take? || m.Put?)
    ensures Work(Deliver(s, m).flight) < Work(s.flight)
  {
    hide Work;
    WorkRemove(s.flight, m);
    var rest := s.flight - multiset{m};
    if m.Take? {
      WorkAdd(rest, Taken(m.who, m.stick, OnTake(s.sticks[m.stick], m.who).1));
    }
  }

  predicate SameSeats(s: Table, t: Table) {
    && |s.phils| == |t.phils|
    && forall p :: 0 <= p < |s.phils| ==>
         s.phils[p].left == t.phils[p].left && s.phils[p].right == t.phils[p].right
  }

  /** Only `eat` messages are in flight. */
  ghost predicate Quiet(s: Table) {
    forall m :: m in s.flight ==> m.Eat?
  }

  lemma DeliverKeepsSeats(s: Table, m: Msg)
    requires Addressed(s, m)
    ensures SameSeats(s, Deliver(s, m))
  {
  }

  /** Delivering everything but `eat` messages ends in a quiet table. */
  lemma {:induction false} Drain(s: Table) returns (path: seq<Table>)
    requires Inv(s)
    ensures IsPath(path) && path[0] == s
    ensures Inv(path[|path| - 1]) && Quiet(path[|path| - 1]) && SameSeats(s, path[|path| - 1])
    decreases Work(s.flight)
  {
    hide Inv, Deliver, Work;
    if Quiet(s) {
      return [s];
    }
    var m :| m in s.flight && !m.Eat?;
    DeliverDecreases(s, m);
    DeliverKeepsInv(s, m);
    var t := Deliver(s, m);
    assert Next(s, t);
    var tail := Drain(t);
    path := [s] + tail;
    DeliverKeepsSeats(s, m);
  }

  lemma QuietTable(s: Table)
    requires Inv(s) && Quiet(s)
    ensures forall p :: 0 <= p < |s.phils| ==> s.phils[p].beh == Thinking && Eat(p) in s.flight
    ensures forall c :: 0 <= c < |s.sticks| ==> s.sticks[c] == []
  {
    hide React, Deliver;
    forall p | 0 <= p < |s.phils|
      ensures s.phils[p].beh == Thinking && Eat(p) in s.flight
    {
      assert PhilOk(s, p);
    }
    forall c | 0 <= c < |s.sticks|
      ensures s.sticks[c] == []
    {
      assert StickOk(s, c);
      forall q | 0 <= q < |s.phils| && Uses(s, q, c)
        ensures s.sticks[c] != [q]
      {
        assert PhilOk(s, q);
      }
    }
  }

  /** `p` can reach `hungry` with both requests in flight, if it thinks. */
  lemma AskBoth(s: Table, p: nat) returns (t: Table)
    requires p < |s.phils| && s.phils[p].beh == Thinking && Eat(p) in s.flight
    ensures Next(s, t) && t.sticks == s.sticks && |t.phils| == |s.phils|
    ensures t.phils[p] == s.phils[p].(beh := Hungry, cache := [])
    ensures Take(p, s.phils[p].left) in t.flight && Take(p, s.phils[p].right) in t.flight
  {
    t := Deliver(s, Eat(p));
    assert multiset{Take(p, s.phils[p].left), Take(p, s.phils[p].right)} <= t.flight;
  }

  /** An available chopstick answers a request positively. */
  lemma Grant(s: Table, p: nat, c: nat) returns (t: Table)
    requires Take(p, c) in s.flight && p < |s.phils| && c < |s.sticks| && s.sticks[c] == []
    ensures Next(s, t) && t.phils == s.phils && t.sticks == s.sticks[c := [p]]
    ensures Taken(p, c, true) in t.flight
    ensures forall m :: m in s.flight && m != Take(p, c) ==> m in t.flight
  {
    t := Deliver(s, Take(p, c));
  }

  /** Two positive responses make a hungry philosopher eat. */
  lemma TakeBoth(s: Table, p: nat, l: nat, r: nat) returns (t: Table, u: Table)
    requires p < |s.phils| && s.phils[p].beh == Hungry && l != r && l < |s.sticks| && r < |s.sticks|
    requires Taken(p, l, true) in s.flight && Taken(p, r, true) in s.flight
    ensures Next(s, t) && Next(t, u) && p < |u.phils| && u.phils[p].beh == Eating
  {
    t := Deliver(s, Taken(p, l, true));
    assert Taken(p, r, true) in t.flight;
    u := Deliver(t, Taken(p, r, true));
  }

  /** A table at which `p` thinks, is due to eat, and finds both chopsticks available. */
  predicate Served(s: Table, p: nat) {
    && p < |s.phils| && s.phils[p].beh == Thinking && Eat(p) in s.flight
    && s.phils[p].left != s.phils[p].right
    && s.phils[p].left < |s.sticks| && s.sticks[s.phils[p].left] == []
    && s.phils[p].right < |s.sticks| && s.sticks[s.phils[p].right] == []
  }

  /** Then `p` can pick up both chopsticks and eat. */
  lemma Feast(s: Table, p: nat) returns (path: seq<Table>)
    requires Served(s, p)
    ensures IsPath(path) && path[0] == s
    ensures p < |path[|path| - 1].phils| && path[|path| - 1].phils[p].beh == Eating
  {
    hide Next;
    var l, r := s.phils[p].left, s.phils[p].right;
    var s1 := AskBoth(s, p);
    var s2 := Grant(s1, p, l);
    var s3 := Grant(s2, p, r);
    var s4, s5 := TakeBoth(s3, p, l, r);
    path := [s, s1, s2, s3, s4, s5];
  }

  /** From every state of every run, every philosopher can still get to eat. */
  lemma NobodyIsLockedOut(run: seq<Table>, i: nat, p: nat) returns (path: seq<Table>)
    requires IsRun(run) && i < |run| && p < |run[i].phils|
    ensures IsPath(path) && path[0] == run[i]
    ensures p < |path[|path| - 1].phils| && path[|path| - 1].phils[p].beh == Eating
  {
    RunKeepsInv(run, i);
    var quiet := Drain(run[i]);
    var s := quiet[|quiet| - 1];
    QuietTable(s);
    assert PhilOk(s, p);
    hide Inv, Next, Quiet;
    var feast := Feast(s, p);
    path := quiet + feast[1..];
  }
}
