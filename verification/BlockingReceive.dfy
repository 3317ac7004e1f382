/** Selective receive of a blocking actor: a mailbox plus a stash of skipped messages behave
    like one queue from which the first accepted message is taken. */
module BlockingReceive {

  datatype MessageId = Plain | Request(id: nat) | Response(id: nat)

  datatype Element = Element(mid: MessageId, content: nat)

  /** What other threads and the clock do; a wait can time out only while the mailbox is empty. */
  datatype Event = Arrive(batch: seq<Element>) | TimedOut

  /** How a receive ends: its condition did not hold to begin with, its condition asked to
      stop, or it waits and nothing more happens. */
  datatype Outcome = NotStarted | Finished | Blocked

  /** A message is consumed if it is the awaited response, or, for an ordinary receive, no
      response and handled by the behavior or its fallback.  An awaited response is consumed
      even if the behavior does not match: it is turned into an error. */
  predicate Accepts(mid: MessageId, handles: nat -> bool, e: Element) {
    if mid.Response? then e.mid == mid else !e.mid.Response? && handles(e.content)
  }

  // -- specification: one queue ----------------------------------------------------------------

  /** The first `n` accepted elements. */
  function Picks(q: seq<Element>, mid: MessageId, handles: nat -> bool, n: nat): seq<Element> {
    if q == [] || n == 0 then []
    else if Accepts(mid, handles, q[0]) then [q[0]] + Picks(q[1..], mid, handles, n - 1)
    else Picks(q[1..], mid, handles, n)
  }

  /** The queue without its first `n` accepted elements. */
  function Rest(q: seq<Element>, mid: MessageId, handles: nat -> bool, n: nat): seq<Element> {
    if q == [] || n == 0 then q
    else if Accepts(mid, handles, q[0]) then Rest(q[1..], mid, handles, n - 1)
    else [q[0]] + Rest(q[1..], mid, handles, n)
  }

  function Arrivals(events: seq<Event>): seq<Element> {
    if events == [] then []
    else (if events[0].Arrive? then events[0].batch else []) + Arrivals(events[1..])
  }

  /** How often the wait timed out. */
  function Timeouts(events: seq<Event>): nat {
    if events == [] then 0
    else Timeouts(events[..|events| - 1]) + if events[|events| - 1].TimedOut? then 1 else 0
  }

  predicate NoneAccepted(q: seq<Element>, mid: MessageId, handles: nat -> bool) {
    forall i :: 0 <= i < |q| ==> !Accepts(mid, handles, q[i])
  }

  lemma {:induction false} PickFirst(mid: MessageId, handles: nat -> bool,
                                     before: seq<Element>, e: Element, after: seq<Element>)
    requires NoneAccepted(before, mid, handles) && Accepts(mid, handles, e)
    ensures Picks(before + [e] + after, mid, handles, 1) == [e]
    ensures Rest(before + [e] + after, mid, handles, 1) == before + after
  {
    if before == [] {
      assert (before + [e] + after)[1..] == after;
    } else {
      assert (before + [e] + after)[1..] == before[1..] + [e] + after;
      PickFirst(mid, handles, before[1..], e, after);
    }
  }

  /** Taking the first accepted element of what is left is taking one element more. */
  lemma {:induction false} PickOneMore(q: seq<Element>, mid: MessageId, handles: nat -> bool, n: nat,
                                       before: seq<Element>, e: Element, after: seq<Element>)
    requires |Picks(q, mid, handles, n)| == n && Rest(q, mid, handles, n) == before + [e] + after
    requires NoneAccepted(before, mid, handles) && Accepts(mid, handles, e)
    ensures Picks(q, mid, handles, n + 1) == Picks(q, mid, handles, n) + [e]
    ensures Rest(q, mid, handles, n + 1) == before + after
  {
    PickFirst(mid, handles, before, e, after);
    PicksCompose(q, mid, handles, n);
  }

  lemma {:induction false} PicksCompose(q: seq<Element>, mid: MessageId, handles: nat -> bool, n: nat)
    requires |Picks(q, mid, handles, n)| == n
    ensures Picks(q, mid, handles, n + 1) == Picks(q, mid, handles, n) + Picks(Rest(q, mid, handles, n), mid, handles, 1)
    ensures Rest(q, mid, handles, n + 1) == Rest(Rest(q, mid, handles, n), mid, handles, 1)
  {
    if q != [] && n > 0 {
      PicksCompose(q[1..], mid, handles, if Accepts(mid, handles, q[0]) then n - 1 else n);
    }
  }

  lemma {:induction false} ArrivalsGoToTheEnd(q: seq<Element>, b: seq<Element>, mid: MessageId, handles: nat -> bool, n: nat)
    requires |Picks(q, mid, handles, n)| == n
    ensures Picks(q + b, mid, handles, n) == Picks(q, mid, handles, n)
    ensures Rest(q + b, mid, handles, n) == Rest(q, mid, handles, n) + b
  {
    if q == [] || n == 0 {
      assert q == [] ==> q + b == b;
    } else {
      assert (q + b)[1..] == q[1..] + b;
      ArrivalsGoToTheEnd(q[1..], b, mid, handles, if Accepts(mid, handles, q[0]) then n - 1 else n);
    }
  }

  lemma {:induction false} ArrivalsAppend(events: seq<Event>, ev: Event)
    ensures Arrivals(events + [ev]) == Arrivals(events) + if ev.Arrive? then ev.batch else []
  {
    if events == [] {
      assert events + [ev] == [ev];
    } else {
      var all, batch := events + [ev], if ev.Arrive? then ev.batch else [];
      assert all[0] == events[0] && all[1..] == events[1..] + [ev];
      ArrivalsAppend(events[1..], ev);
      var first, tail := if events[0].Arrive? then events[0].batch else [], Arrivals(events[1..]);
      assert Arrivals(all) == first + Arrivals(all[1..]) && Arrivals(events) == first + tail;
      hide Arrivals;
      assert first + (tail + batch) == first + tail + batch;
    }
  }

  // -- the actor -------------------------------------------------------------------------------

  /** `stash` is a stack with its top at the end. */
  class BlockingActor {
    var mailbox: seq<Element>
    var stash: seq<Element>
    var closed: bool

    constructor ()
      ensures Queue() == [] && !closed
    {
      mailbox, stash, closed := [], [], false;
    }

    /** The logical queue: what was skipped, in the order it was skipped, then the mailbox. */
    function Queue(): seq<Element>
      reads this
    {
      stash + mailbox
    }

    /** A request that is rejected is bounced, so that its sender gets an error response. */
    method Enqueue(e: Element) returns (ok: bool, bounced: bool)
      modifies this`mailbox
      ensures ok == !closed && bounced == (closed && e.mid.Request?)
      ensures Queue() == if ok then old(Queue()) + [e] else old(Queue())
    {
      ok, bounced := !closed, false;
      if ok {
        mailbox := mailbox + [e];
      } else if e.mid.Request? {
        bounced := true;
      }
    }

    method Unstash()
      modifies this`mailbox, this`stash
      ensures Queue() == old(Queue()) && stash == []
    {
      while stash != []
        invariant Queue() == old(Queue())
        decreases |stash|
      {
        var top := stash[|stash| - 1];
        stash := stash[..|stash| - 1];
        mailbox := [top] + mailbox;
      }
    }

    /** `close_mailbox`: the number of dropped messages counts the stash as well. */
    method CloseMailbox() returns (dropped: nat)
      modifies this
      ensures closed
      ensures old(closed) ==> dropped == 0 && Queue() == old(Queue())
      ensures !old(closed) ==> dropped == |old(Queue())| && Queue() == []
    {
      dropped := 0;
      if !closed {
        Unstash();
        dropped := |mailbox|;
        mailbox := [];
        closed := true;
      }
    }

    /** Takes the front of the mailbox and consumes or stashes it. */
    method Dispatch(mid: MessageId, handles: nat -> bool) returns (e: Element, took: bool)
      requires mailbox != [] && NoneAccepted(stash, mid, handles)
      modifies this`mailbox, this`stash
      ensures e == old(mailbox)[0] && took == Accepts(mid, handles, e)
      ensures NoneAccepted(stash, mid, handles)
      ensures took ==> stash == [] && mailbox == old(stash) + old(mailbox)[1..]
      ensures !took ==> stash == old(stash) + [e] && mailbox == old(mailbox)[1..]
    {
      e := mailbox[0];
      mailbox := mailbox[1..];
      took := false;
      if mid.Response? && mid != e.mid {
        stash := stash + [e];
      } else if !mid.Response? && e.mid.Response? {
        stash := stash + [e];
      } else if mid.Response? || handles(e.content) {
        took := true;
        Unstash();
      } else {
        stash := stash + [e];
      }
    }

    /** `receive_impl`.  `pre` is the first check of the receive condition, `more[k]` the
        result of its check after the k-th consumed message or timeout.  `events` is what
        other threads and the clock do: batches of messages arrive at any time, whatever is
        still in the mailbox or in the stash, and whenever the actor has to wait. */
    method ReceiveImpl(mid: MessageId, handles: nat -> bool, hasTimeout: bool,
                       pre: bool, more: seq<bool>, events: seq<Event>)
      returns (outcome: Outcome, consumed: seq<Element>, timeouts: nat, used: nat)
      modifies this`mailbox, this`stash
      ensures used <= |events|
      ensures consumed == Picks(old(Queue()) + Arrivals(events[..used]), mid, handles, |consumed|)
      ensures Queue() == Rest(old(Queue()) + Arrivals(events[..used]), mid, handles, |consumed|)
      ensures !pre <==> outcome == NotStarted
      ensures outcome == NotStarted ==> used == 0 && consumed == []
      ensures timeouts == if hasTimeout then Timeouts(events[..used]) else 0
      ensures outcome == Finished ==> Stops(more, |consumed| + timeouts)
      ensures outcome == Blocked ==> GoesOn(more, |consumed| + timeouts)
      ensures outcome == Blocked ==> used == |events| && NoneAccepted(Queue(), mid, handles)
    {
      hide Serves, GoesOn, Stops, Accepts, NoneAccepted, Picks, Rest, Arrivals, Timeouts;
      consumed, timeouts, used := [], 0, 0;
      Unstash();
      assert mailbox == old(Queue());
      ServesStart(old(Queue()), events, mid, handles, hasTimeout);
      if !pre {
        ServesEnd(old(Queue()), events, used, mid, handles, hasTimeout, consumed, timeouts, stash, mailbox);
        outcome := NotStarted;
        return;
      }
      var done := false;
      outcome := Finished;
      FirstCheck(more);
      while !done
        invariant Serves(old(Queue()), events, used, mid, handles, hasTimeout, consumed, timeouts, stash, mailbox)
        invariant used <= |events| && NoneAccepted(stash, mid, handles)
        invariant outcome != NotStarted && (!done ==> outcome == Finished)
        invariant !done || outcome == Blocked ==> GoesOn(more, |consumed| + timeouts)
        invariant done && outcome == Finished ==> Stops(more, |consumed| + timeouts)
        invariant done && outcome == Blocked ==> used == |events| && mailbox == []
        decreases !done, |events| - used, |stash| + |mailbox|, |mailbox|
      {
        var arrivesNow: bool := *;
        if mailbox == [] && used == |events| {
          done, outcome := true, Blocked;
        } else if mailbox == [] || (used < |events| && events[used].Arrive? && arrivesNow) {
          var ev := events[used];
          ServesEvent(old(Queue()), events, used, mid, handles, hasTimeout, consumed, timeouts, stash, mailbox);
          used, mailbox := used + 1, mailbox + if ev.Arrive? then ev.batch else [];
          if ev.TimedOut? && hasTimeout {
            timeouts := timeouts + 1;
            NextCheck(more, |consumed| + timeouts);
            done := |more| < |consumed| + timeouts || !more[|consumed| + timeouts - 1];
          }
        } else {
          ServesNext(old(Queue()), events, used, mid, handles, hasTimeout, consumed, timeouts, stash, mailbox);
          var e, took := Dispatch(mid, handles);
          if took {
            consumed := consumed + [e];
            NextCheck(more, |consumed| + timeouts);
            done := |more| < |consumed| + timeouts || !more[|consumed| + timeouts - 1];
          }
        }
      }
      ServesEnd(old(Queue()), events, used, mid, handles, hasTimeout, consumed, timeouts, stash, mailbox);
      assert outcome == Blocked ==> Queue() == stash;
    }
  }

  /** What the loop of a receive has achieved after `used` events: `q` is the queue it started with. */
  ghost predicate Serves(q: seq<Element>, events: seq<Event>, used: nat, mid: MessageId, handles: nat -> bool,
                         hasTimeout: bool, consumed: seq<Element>, timeouts: nat, stash: seq<Element>, mailbox: seq<Element>)
  {
    && used <= |events| && NoneAccepted(stash, mid, handles)
    && timeouts == (if hasTimeout then Timeouts(events[..used]) else 0)
    && consumed == Picks(q + Arrivals(events[..used]), mid, handles, |consumed|)
    && stash + mailbox == Rest(q + Arrivals(events[..used]), mid, handles, |consumed|)
  }

  lemma ServesStart(q: seq<Element>, events: seq<Event>, mid: MessageId, handles: nat -> bool, hasTimeout: bool)
    ensures Serves(q, events, 0, mid, handles, hasTimeout, [], 0, [], q) && NoneAccepted([], mid, handles)
  {
    assert q + Arrivals(events[..0]) == q && [] + q == q;
  }

  lemma ServesEnd(q: seq<Element>, events: seq<Event>, used: nat, mid: MessageId, handles: nat -> bool,
                  hasTimeout: bool, consumed: seq<Element>, timeouts: nat, stash: seq<Element>, mailbox: seq<Element>)
    requires Serves(q, events, used, mid, handles, hasTimeout, consumed, timeouts, stash, mailbox)
    ensures used <= |events|
    ensures consumed == Picks(q + Arrivals(events[..used]), mid, handles, |consumed|)
    ensures stash + mailbox == Rest(q + Arrivals(events[..used]), mid, handles, |consumed|)
    ensures timeouts == if hasTimeout then Timeouts(events[..used]) else 0
  {
  }

  lemma ServesEvent(q: seq<Element>, events: seq<Event>, used: nat, mid: MessageId, handles: nat -> bool,
                    hasTimeout: bool, consumed: seq<Element>, timeouts: nat, stash: seq<Element>, mailbox: seq<Element>)
    requires Serves(q, events, used, mid, handles, hasTimeout, consumed, timeouts, stash, mailbox) && used < |events|
    ensures var ev := events[used];
      Serves(q, events, used + 1, mid, handles, hasTimeout, consumed,
             if ev.TimedOut? && hasTimeout then timeouts + 1 else timeouts,
             stash, mailbox + if ev.Arrive? then ev.batch else [])
  {
    hide Picks, Rest, Arrivals, Timeouts, NoneAccepted;
    var batch := if events[used].Arrive? then events[used].batch else [];
    NextEvent(q, q + Arrivals(events[..used]), mid, handles, |consumed|, events, used);
    TimeoutsAppend(events, used);
    assert stash + (mailbox + batch) == stash + mailbox + batch;
  }

  lemma ServesNext(q: seq<Element>, events: seq<Event>, used: nat, mid: MessageId, handles: nat -> bool,
                   hasTimeout: bool, consumed: seq<Element>, timeouts: nat, stash: seq<Element>, mailbox: seq<Element>)
    requires Serves(q, events, used, mid, handles, hasTimeout, consumed, timeouts, stash, mailbox) && mailbox != []
    ensures var e, after := mailbox[0], mailbox[1..];
      if Accepts(mid, handles, e)
      then Serves(q, events, used, mid, handles, hasTimeout, consumed + [e], timeouts, [], stash + after)
      else Serves(q, events, used, mid, handles, hasTimeout, consumed, timeouts, stash + [e], after)
  {
    hide Picks, Rest, Arrivals, Timeouts;
    var e, after := mailbox[0], mailbox[1..];
    assert stash + mailbox == stash + [e] + after;
    if Accepts(mid, handles, e) {
      PickOneMore(q + Arrivals(events[..used]), mid, handles, |consumed|, stash, e, after);
      assert [] + (stash + after) == stash + after;
    }
  }

  /** All of the first `n` checks said to go on. */
  predicate GoesOn(more: seq<bool>, n: nat) {
    n <= |more| && forall k :: 0 <= k < n ==> more[k]
  }

  /** Check number `n` was the first that did not say to go on. */
  predicate Stops(more: seq<bool>, n: nat) {
    n > 0 && GoesOn(more, n - 1) && !GoesOn(more, n)
  }

  lemma FirstCheck(more: seq<bool>)
    ensures GoesOn(more, 0)
  {
  }

  lemma NextCheck(more: seq<bool>, n: nat)
    requires n > 0 && GoesOn(more, n - 1)
    ensures if |more| < n || !more[n - 1] then Stops(more, n) else GoesOn(more, n)
  {
  }

  lemma TimeoutsAppend(events: seq<Event>, n: nat)
    requires n < |events|
    ensures Timeouts(events[..n + 1]) == Timeouts(events[..n]) + if events[n].TimedOut? then 1 else 0
  {
    assert events[..n + 1][..n] == events[..n];
  }

  lemma NextEvent(q: seq<Element>, all: seq<Element>, mid: MessageId, handles: nat -> bool, n: nat,
                  events: seq<Event>, used: nat)
    requires used < |events| && all == q + Arrivals(events[..used]) && |Picks(all, mid, handles, n)| == n
    ensures var batch := if events[used].Arrive? then events[used].batch else [];
            && all + batch == q + Arrivals(events[..used + 1])
            && Picks(all + batch, mid, handles, n) == Picks(all, mid, handles, n)
            && Rest(all + batch, mid, handles, n) == Rest(all, mid, handles, n) + batch
  {
    hide Picks, Rest, Arrivals;
    var batch := if events[used].Arrive? then events[used].batch else [];
    assert events[..used + 1] == events[..used] + [events[used]];
    ArrivalsAppend(events[..used], events[used]);
    ArrivalsGoToTheEnd(all, batch, mid, handles, n);
  }

  // -- what the one queue means ------------------------------------------------------------------

  /** Receiving loses and duplicates nothing: what is picked and what is left make up the
      queue, both in their old order, and only accepted elements are picked. */
  lemma {:induction false} ReceiveSplitsTheQueue(q: seq<Element>, mid: MessageId, handles: nat -> bool, n: nat)
    ensures multiset(Picks(q, mid, handles, n)) + multiset(Rest(q, mid, handles, n)) == multiset(q)
    ensures forall e :: e in Picks(q, mid, handles, n) ==> Accepts(mid, handles, e)
    ensures |Picks(q, mid, handles, n)| <= n
    ensures |Picks(q, mid, handles, n)| < n ==> NoneAccepted(Rest(q, mid, handles, n), mid, handles)
  {
    PicksAreAccepted(q, mid, handles, n);
    hide NoneAccepted, Accepts;
    if q != [] && n > 0 {
      assert q == [q[0]] + q[1..];
      ReceiveSplitsTheQueue(q[1..], mid, handles, if Accepts(mid, handles, q[0]) then n - 1 else n);
    }
  }

  lemma {:induction false} PicksAreAccepted(q: seq<Element>, mid: MessageId, handles: nat -> bool, n: nat)
    ensures forall e :: e in Picks(q, mid, handles, n) ==> Accepts(mid, handles, e)
    ensures |Picks(q, mid, handles, n)| <= n
    ensures |Picks(q, mid, handles, n)| < n ==> NoneAccepted(Rest(q, mid, handles, n), mid, handles)
  {
    hide Accepts;
    if q != [] && n > 0 {
      PicksAreAccepted(q[1..], mid, handles, if Accepts(mid, handles, q[0]) then n - 1 else n);
    }
  }

  /** A receive for one message takes the first accepted element and nothing else. */
  lemma ReceiveTakesTheFirst(q: seq<Element>, mid: MessageId, handles: nat -> bool, i: nat)
    requires i < |q| && Accepts(mid, handles, q[i]) && NoneAccepted(q[..i], mid, handles)
    ensures Picks(q, mid, handles, 1) == [q[i]]
    ensures Rest(q, mid, handles, 1) == q[..i] + q[i + 1..]
  {
    assert q == q[..i] + [q[i]] + q[i + 1..];
    PickFirst(mid, handles, q[..i], q[i], q[i + 1..]);
  }
}
