/** The config server: values by key, and subscriptions kept in two indexes, by key and by
    subscriber. */
module ConfigServer {

  type Addr = nat

  type Msg = seq<int>

  const WILDCARD := "*"

  datatype Slot = Slot(value: Msg, subs: set<Addr>)

  datatype Mail = Update(to: Addr, key: string, value: Msg)

  /** What `get` returns: all pairs for the wildcard, one pair otherwise. */
  datatype Reply = All(pairs: set<(string, Msg)>) | One(key: string, value: Msg)

  datatype State = State(data: map<string, Slot>, subscribers: map<Addr, set<string>>)

  const EMPTY := State(map[], map[])

  // -- the two indexes, a missing entry counting as empty -------------------------------------------

  function SlotOf(s: State, key: string): Slot {
    if key in s.data then s.data[key] else Slot([], {})
  }

  function Subs(s: State, key: string): set<Addr> {
    SlotOf(s, key).subs
  }

  function Topics(s: State, who: Addr): set<string> {
    if who in s.subscribers then s.subscribers[who] else {}
  }

  ghost predicate Agree(s: State) {
    forall who, key :: who in Subs(s, key) <==> key in Topics(s, who)
  }

  // -- what the handlers do to the state --------------------------------------------------------------

  function WithSubs(s: State, key: string, subs: set<Addr>): State {
    s.(data := s.data[key := Slot(SlotOf(s, key).value, subs)])
  }

  /** Also makes sure that the wildcard has an entry, which the second loop of the handler does. */
  function AfterPut(s: State, key: string, msg: Msg): State {
    if key == WILDCARD then s
    else
      var t := s.(data := s.data[key := Slot(msg, Subs(s, key))]);
      WithSubs(t, WILDCARD, Subs(t, WILDCARD))
  }

  function AfterSubscribe(s: State, who: Addr, key: string): State {
    var t := WithSubs(s, key, Subs(s, key) + {who});
    t.(subscribers := t.subscribers[who := Topics(s, who) + {key}])
  }

  /** Leaves an entry for the sender even if it never subscribed to anything. */
  function AfterUnsubscribe(s: State, who: Addr, key: string): State {
    if key == WILDCARD then AfterUnsubscribeAll(s, who)
    else
      var t := WithSubs(s, key, Subs(s, key) - {who});
      t.(subscribers := t.subscribers[who := Topics(s, who) - {key}])
  }

  function AfterUnsubscribeAll(s: State, who: Addr): State {
    State(Erased(s.data, Topics(s, who), who), s.subscribers - {who})
  }

  /** `who` erased from the entries of the keys; an entry that is missing is made. */
  function Erased(data: map<string, Slot>, keys: set<string>, who: Addr): map<string, Slot> {
    map k | k in data.Keys + keys ::
      if k !in data then Slot([], {}) else if k in keys then Slot(data[k].value, data[k].subs - {who}) else data[k]
  }

  // -- the actor ----------------------------------------------------------------------------------------

  datatype Option<T> = Some(value: T) | None

  function SetOf(who: Option<Addr>): set<Addr> {
    if who.Some? then {who.value} else {}
  }

  function Fan(to: set<Addr>, key: string, msg: Msg): multiset<Mail> {
    multiset(set a | a in to :: Update(a, key, msg))
  }

  class Server {
    const self: Addr
    var data: map<string, Slot>
    var subscribers: map<Addr, set<string>>
    var monitored: seq<Addr>

    function Abs(): State
      reads this
    {
      State(data, subscribers)
    }

    constructor (self: Addr)
      ensures Abs() == EMPTY && this.self == self && monitored == []
    {
      this.self := self;
      data, subscribers, monitored := map[], map[], [];
    }

    method Put(sender: Option<Addr>, key: string, msg: Msg) returns (out: seq<Mail>)
      modifies this`data
      ensures Abs() == AfterPut(old(Abs()), key, msg)
      ensures multiset(out) ==
        if key == WILDCARD then multiset{}
        else Fan(Subs(old(Abs()), key) - SetOf(sender), key, msg) + Fan(Subs(old(Abs()), WILDCARD) - SetOf(sender), key, msg)
    {
      out := [];
      if key == WILDCARD {
        return;
      }
      var subs := Subs(Abs(), key);
      data := data[key := Slot(msg, subs)];
      out := Send(subs, sender, key, msg);
      var wild := Subs(Abs(), WILDCARD);
      data := data[WILDCARD := Slot(SlotOf(Abs(), WILDCARD).value, wild)];
      var more := Send(wild, sender, key, msg);
      out := out + more;
    }

    /** The loop over a set of subscribers: each gets one message, except the sender. */
    method Send(subs: set<Addr>, sender: Option<Addr>, key: string, msg: Msg) returns (out: seq<Mail>)
      ensures multiset(out) == Fan(subs - SetOf(sender), key, msg)
    {
      out := [];
      var left, done: set<Addr> := subs, {};
      FanStart(sender, key, msg);
      hide Fan, SetOf;
      while left != {}
        invariant left <= subs && done == subs - left
        invariant multiset(out) == Fan(done - SetOf(sender), key, msg)
        decreases |left|
      {
        var a :| a in left;
        FanStep(done, a, sender, key, msg);
        if sender != Some(a) {
          out := out + [Update(a, key, msg)];
        }
        left, done := left - {a}, done + {a};
      }
      assert done == subs;
    }

    method Get(key: string) returns (r: Reply)
      ensures key == WILDCARD ==>
        r.All? && forall k, m :: (k, m) in r.pairs <==> k in data && k != WILDCARD && data[k].value == m
      ensures key != WILDCARD ==> r == One(key, SlotOf(Abs(), key).value)
    {
      if key == WILDCARD {
        r := All(set k | k in data && k != WILDCARD :: (k, data[k].value));
      } else {
        r := One(key, SlotOf(Abs(), key).value);
      }
    }

    /** Monitors the subscriber only if there is no entry for it yet. */
    method Subscribe(sender: Option<Addr>, key: string)
      modifies this
      ensures Abs() == if sender.Some? then AfterSubscribe(old(Abs()), sender.value, key) else old(Abs())
      ensures monitored == old(monitored)
        + if sender.Some? && sender.value !in old(subscribers) then [sender.value] else []
    {
      if sender.None? {
        return;
      }
      var who := sender.value;
      data := data[key := Slot(SlotOf(Abs(), key).value, Subs(Abs(), key) + {who})];
      if who in subscribers {
        subscribers := subscribers[who := subscribers[who] + {key}];
      } else {
        monitored := monitored + [who];
        assert {} + {key} == {key};
        subscribers := subscribers[who := {key}];
      }
    }

    method Unsubscribe(sender: Option<Addr>, key: string)
      modifies this
      ensures Abs() == if sender.Some? then AfterUnsubscribe(old(Abs()), sender.value, key) else old(Abs())
      ensures monitored == old(monitored)
    {
      if sender.None? {
        return;
      }
      var who := sender.value;
      if key == WILDCARD {
        UnsubscribeAll(who);
        return;
      }
      subscribers := subscribers[who := Topics(Abs(), who) - {key}];
      data := data[key := Slot(SlotOf(Abs(), key).value, Subs(Abs(), key) - {who})];
    }

    method UnsubscribeAll(who: Addr)
      modifies this
      ensures Abs() == AfterUnsubscribeAll(old(Abs()), who)
      ensures monitored == old(monitored)
    {
      hide Erased;
      ErasedNone(data, who);
      if who !in subscribers {
        assert subscribers - {who} == subscribers;
        return;
      }
      var topics := subscribers[who];
      var left, done := topics, {};
      ghost var start := data;
      while left != {}
        invariant left <= topics && done == topics - left
        invariant subscribers == old(subscribers) && monitored == old(monitored)
        invariant data == Erased(start, done, who)
        decreases |left|
      {
        var key :| key in left;
        ErasedStep(start, done, key, who);
        data := data[key := Slot(SlotOf(Abs(), key).value, Subs(Abs(), key) - {who})];
        left, done := left - {key}, done + {key};
      }
      assert done == topics;
      subscribers := subscribers - {who};
    }

    /** The callback that runs when a monitored subscriber terminates: it passes on the address of
        the server and not that of the subscriber. */
    method Down(subscriber: Addr)
      modifies this
      ensures Abs() == AfterUnsubscribeAll(old(Abs()), self)
      ensures monitored == old(monitored)
    {
      UnsubscribeAll(self);
    }
  }

  lemma ErasedNone(data: map<string, Slot>, who: Addr)
    ensures Erased(data, {}, who) == data
  {
  }

  lemma ErasedStep(data: map<string, Slot>, keys: set<string>, key: string, who: Addr)
    ensures var d := Erased(data, keys, who);
      var slot := if key in d then d[key] else Slot([], {});
      Erased(data, keys + {key}, who) == d[key := Slot(slot.value, slot.subs - {who})]
  {
    var d := Erased(data, keys, who);
    var slot := if key in d then d[key] else Slot([], {});
    var e := d[key := Slot(slot.value, slot.subs - {who})];
    assert Erased(data, keys + {key}, who).Keys == e.Keys;
    assert {} - {who} == {};
    if key in data && key in keys {
      assert data[key].subs - {who} - {who} == data[key].subs - {who};
    }
  }

  lemma FanStart(sender: Option<Addr>, key: string, msg: Msg)
    ensures Fan({} - SetOf(sender), key, msg) == multiset{}
  {
    assert {} - SetOf(sender) == {};
  }

  lemma FanStep(done: set<Addr>, a: Addr, sender: Option<Addr>, key: string, msg: Msg)
    requires a !in done
    ensures Fan(done + {a} - SetOf(sender), key, msg) ==
      Fan(done - SetOf(sender), key, msg) + if sender == Some(a) then multiset{} else multiset{Update(a, key, msg)}
  {
    if sender == Some(a) {
      assert done + {a} - SetOf(sender) == done - SetOf(sender);
    } else {
      assert done + {a} - SetOf(sender) == done - SetOf(sender) + {a};
      FanAdd(done - SetOf(sender), a, key, msg);
    }
    hide Fan;
  }

  lemma FanAdd(to: set<Addr>, a: Addr, key: string, msg: Msg)
    requires a !in to
    ensures Fan(to + {a}, key, msg) == Fan(to, key, msg) + multiset{Update(a, key, msg)}
  {
    var s, t := (set b | b in to :: Update(b, key, msg)), (set b | b in to + {a} :: Update(b, key, msg));
    assert Update(a, key, msg) !in s;
    assert t == s + {Update(a, key, msg)};
    assert multiset(t) == multiset(s) + multiset{Update(a, key, msg)};
  }

  // -- whole runs -------------------------------------------------------------------------------------

  datatype Op =
    | DoPut(key: string, msg: Msg)
    | DoSubscribe(who: Addr, key: string)
    | DoUnsubscribe(who: Addr, key: string)
    | IsDown(who: Addr)

  function Apply(server: Addr, s: State, op: Op): State {
    match op
    case DoPut(key, msg) => AfterPut(s, key, msg)
    case DoSubscribe(who, key) => AfterSubscribe(s, who, key)
    case DoUnsubscribe(who, key) => AfterUnsubscribe(s, who, key)
    case IsDown(_) => AfterUnsubscribeAll(s, server)
  }

  function Run(server: Addr, ops: seq<Op>): State {
    if ops == [] then EMPTY else Apply(server, Run(server, ops[..|ops| - 1]), ops[|ops| - 1])
  }

  /** Read off the history alone: was the latest operation that concerns the pair a subscription? */
  predicate Subscribed(server: Addr, ops: seq<Op>, who: Addr, key: string) {
    ops != [] &&
    match ops[|ops| - 1]
    case DoSubscribe(w, k) => (w == who && k == key) || Subscribed(server, ops[..|ops| - 1], who, key)
    case DoUnsubscribe(w, k) => !(w == who && (k == key || k == WILDCARD)) && Subscribed(server, ops[..|ops| - 1], who, key)
    case IsDown(_) => who != server && Subscribed(server, ops[..|ops| - 1], who, key)
    case DoPut(_, _) => Subscribed(server, ops[..|ops| - 1], who, key)
  }

  ghost predicate Tracks(server: Addr, ops: seq<Op>, s: State) {
    forall who, key :: (who in Subs(s, key) <==> Subscribed(server, ops, who, key))
                    && (key in Topics(s, who) <==> Subscribed(server, ops, who, key))
  }

  /** In every reachable state both indexes hold exactly the subscriptions of the history; in
      particular they agree. */
  lemma {:induction false} RunTracks(server: Addr, ops: seq<Op>)
    ensures Tracks(server, ops, Run(server, ops)) && Agree(Run(server, ops))
  {
    if ops != [] {
      var n := |ops| - 1;
      RunTracks(server, ops[..n]);
      var s, t := Run(server, ops[..n]), Run(server, ops);
      forall who, key
        ensures who in Subs(t, key) <==> Subscribed(server, ops, who, key)
        ensures key in Topics(t, who) <==> Subscribed(server, ops, who, key)
      {
        StepTracks(server, s, ops[n], who, key);
      }
    }
  }

  /** One pair before and after one operation. */
  lemma StepTracks(server: Addr, s: State, op: Op, who: Addr, key: string)
    requires Agree(s)
    ensures var t := Apply(server, s, op);
      var after :=
        match op
        case DoSubscribe(w, k) => (w == who && k == key) || who in Subs(s, key)
        case DoUnsubscribe(w, k) => !(w == who && (k == key || k == WILDCARD)) && who in Subs(s, key)
        case IsDown(_) => who != server && who in Subs(s, key)
        case DoPut(_, _) => who in Subs(s, key);
      (who in Subs(t, key) <==> after) && (key in Topics(t, who) <==> after)
  {
    assert who in Subs(s, key) <==> key in Topics(s, who);
    match op
    case DoPut(k, msg) =>
    case DoSubscribe(w, k) =>
    case DoUnsubscribe(w, k) => if k == WILDCARD { AllTracks(s, w, who, key); }
    case IsDown(_) => AllTracks(s, server, who, key);
  }

  lemma AllTracks(s: State, w: Addr, who: Addr, key: string)
    requires Agree(s)
    ensures var t := AfterUnsubscribeAll(s, w);
      && (who in Subs(t, key) <==> who != w && who in Subs(s, key))
      && (key in Topics(t, who) <==> who != w && key in Topics(s, who))
  {
    assert w in Subs(s, key) <==> key in Topics(s, w);
  }

  /** The value of the latest put to the key, whatever was subscribed or unsubscribed since. */
  function Latest(ops: seq<Op>, key: string): Msg {
    if ops == [] then []
    else if ops[|ops| - 1].DoPut? && ops[|ops| - 1].key == key != WILDCARD then ops[|ops| - 1].msg
    else Latest(ops[..|ops| - 1], key)
  }

  /** An operation that makes an entry for the key. */
  predicate Mentions(op: Op, key: string) {
    match op
    case DoPut(k, _) => k != WILDCARD && (k == key || key == WILDCARD)
    case DoSubscribe(_, k) => k == key
    case DoUnsubscribe(_, k) => k == key != WILDCARD
    case IsDown(_) => false
  }

  /** In every reachable state a key has the value of the latest put to it, or none, and has an entry
      exactly if an operation made one. */
  lemma {:induction false} RunKeepsValues(server: Addr, ops: seq<Op>, key: string)
    ensures SlotOf(Run(server, ops), key).value == Latest(ops, key)
    ensures key in Run(server, ops).data <==> exists i :: 0 <= i < |ops| && Mentions(ops[i], key)
  {
    if ops != [] {
      var n := |ops| - 1;
      RunKeepsValues(server, ops[..n], key);
      RunTracks(server, ops[..n]);
      StepKeepsValue(server, Run(server, ops[..n]), ops[n], key);
      hide Apply, Mentions, Agree, Tracks;
    }
  }

  lemma StepKeepsValue(server: Addr, s: State, op: Op, key: string)
    requires Agree(s)
    ensures SlotOf(Apply(server, s, op), key).value ==
      if op.DoPut? && op.key == key != WILDCARD then op.msg else SlotOf(s, key).value
    ensures key in Apply(server, s, op).data <==> key in s.data || Mentions(op, key)
  {
    var who := if op.DoUnsubscribe? then op.who else server;
    assert key in Topics(s, who) <==> who in Subs(s, key);
  }

  /** Does the server keep an entry for the subscriber?  Then it does not monitor it again. */
  predicate Registered(server: Addr, ops: seq<Op>, who: Addr) {
    ops != [] &&
    match ops[|ops| - 1]
    case DoSubscribe(w, _) => w == who || Registered(server, ops[..|ops| - 1], who)
    case DoUnsubscribe(w, k) => if w == who then k != WILDCARD else Registered(server, ops[..|ops| - 1], who)
    case IsDown(_) => who != server && Registered(server, ops[..|ops| - 1], who)
    case DoPut(_, _) => Registered(server, ops[..|ops| - 1], who)
  }

  lemma {:induction false} RunRegisters(server: Addr, ops: seq<Op>, who: Addr)
    ensures who in Run(server, ops).subscribers <==> Registered(server, ops, who)
  {
    if ops != [] {
      RunRegisters(server, ops[..|ops| - 1], who);
    }
  }

  ghost predicate Forgotten(s: State, who: Addr) {
    forall key :: who !in Subs(s, key)
  }

  /** A subscriber that went down is forgotten exactly if it was the server itself or had no
      subscriptions to begin with. */
  lemma DownForgets(server: Addr, ops: seq<Op>, who: Addr)
    ensures Forgotten(Run(server, ops + [IsDown(who)]), who)
       <==> (who == server || Topics(Run(server, ops), who) == {})
  {
    var s, t := Run(server, ops), Run(server, ops + [IsDown(who)]);
    assert (ops + [IsDown(who)])[..|ops|] == ops;
    assert t == AfterUnsubscribeAll(s, server);
    RunTracks(server, ops);
    forall key
      ensures who in Subs(t, key) <==> who != server && key in Topics(s, who)
    {
      AllTracks(s, server, who, key);
    }
    if who == server || Topics(s, who) == {} {
      assert Forgotten(t, who);
    } else {
      var key :| key in Topics(s, who);
      assert who in Subs(t, key);
    }
  }

  /** For instance, the first subscriber ever keeps getting updates after it went down. */
  lemma DeadSubscriberIsUpdated(server: Addr, who: Addr, key: string)
    requires who != server
    ensures who in Subs(Run(server, [DoSubscribe(who, key), IsDown(who)]), key)
  {
    var ops := [DoSubscribe(who, key), IsDown(who)];
    assert ops[..1] == [DoSubscribe(who, key)] && ops[..1][..0] == [];
    RunTracks(server, ops);
    assert Subscribed(server, ops[..1], who, key);
  }
}
