/** What searching the list of attachables of one actor returns and leaves. */
module Attachables {

  /** What an attachable does on exit: send an exit message to a linked actor, send a down
      message to a monitoring actor, erase a registry entry, or call some other functor. */
  datatype Kind = Link(observer: nat) | Monitor(observer: nat) | EraseEntry(key: nat) | Callback

  /** An attachable with the identity of the call that created it. */
  datatype Attachable = Attachable(id: nat, kind: Kind)

  /** `default_attachable::matches`: only links and monitors can be selected by a token. */
  predicate Matches(x: Attachable, token: Kind) {
    (token.Link? || token.Monitor?) && x.kind == token
  }

  /** What the search of `detach_impl` returns and leaves, link by link. */
  function Detached(xs: seq<Attachable>, token: Kind, stopOnHit: bool, dryRun: bool): (nat, seq<Attachable>) {
    if xs == [] then (0, [])
    else if !Matches(xs[0], token) then Plus(0, [xs[0]], Detached(xs[1..], token, stopOnHit, dryRun))
    else
      var kept := if dryRun then [xs[0]] else [];
      if stopOnHit then (1, kept + xs[1..])
      else Plus(1, kept, Detached(xs[1..], token, stopOnHit, dryRun))
  }

  function Plus(n: nat, xs: seq<Attachable>, r: (nat, seq<Attachable>)): (nat, seq<Attachable>) {
    (n + r.0, xs + r.1)
  }

  lemma DetachedUnfold(xs: seq<Attachable>, token: Kind, stopOnHit: bool, dryRun: bool)
    ensures xs == [] ==> Detached(xs, token, stopOnHit, dryRun) == (0, [])
    ensures xs != [] && !Matches(xs[0], token) ==>
              Detached(xs, token, stopOnHit, dryRun) ==
              Plus(0, [xs[0]], Detached(xs[1..], token, stopOnHit, dryRun))
    ensures xs != [] && Matches(xs[0], token) && stopOnHit ==>
              Detached(xs, token, stopOnHit, dryRun) == (1, (if dryRun then [xs[0]] else []) + xs[1..])
    ensures xs != [] && Matches(xs[0], token) && !stopOnHit ==>
              Detached(xs, token, stopOnHit, dryRun) ==
              Plus(1, if dryRun then [xs[0]] else [], Detached(xs[1..], token, stopOnHit, dryRun))
  {
  }

  // -- what it means --------------------------------------------------------------------

  function Survivors(xs: seq<Attachable>, token: Kind): seq<Attachable> {
    if xs == [] then []
    else if Matches(xs[0], token) then Survivors(xs[1..], token)
    else [xs[0]] + Survivors(xs[1..], token)
  }

  function Hits(xs: seq<Attachable>, token: Kind): seq<Attachable> {
    if xs == [] then []
    else if Matches(xs[0], token) then [xs[0]] + Hits(xs[1..], token)
    else Hits(xs[1..], token)
  }

  /** The list without its first match. */
  function WithoutFirst(xs: seq<Attachable>, token: Kind): seq<Attachable> {
    if xs == [] then []
    else if Matches(xs[0], token) then xs[1..]
    else [xs[0]] + WithoutFirst(xs[1..], token)
  }

  predicate IsSubsequence(ys: seq<Attachable>, xs: seq<Attachable>) {
    || ys == []
    || (xs != [] && ys[0] == xs[0] && IsSubsequence(ys[1..], xs[1..]))
    || (xs != [] && IsSubsequence(ys, xs[1..]))
  }

  /** How many entries of the kind are in the list. */
  function Count(xs: seq<Attachable>, kind: Kind): nat {
    if xs == [] then 0 else (if xs[0].kind == kind then 1 else 0) + Count(xs[1..], kind)
  }

  lemma CountPrepend(xs: seq<Attachable>, x: Attachable, kind: Kind)
    ensures Count([x] + xs, kind) == Count(xs, kind) + if x.kind == kind then 1 else 0
  {
    assert ([x] + xs)[1..] == xs;
  }

  /** What is left of `n` entries of a kind: all of them if the token is of another kind or no link
      and no monitor, and otherwise none, or one less if the search stops at the first hit. */
  function Left(n: nat, kind: Kind, token: Kind, stopOnHit: bool): nat {
    if kind != token || token.EraseEntry? || token.Callback? || n == 0 then n else if stopOnHit then n - 1 else 0
  }

  /** Whatever the search, it finds and removes only links to the same actor or monitors of the same
      observer, as the token says; it counts all of them, or one if it stops there. */
  lemma {:induction false} CountDetached(xs: seq<Attachable>, token: Kind, stopOnHit: bool, dryRun: bool, kind: Kind)
    ensures Count(Detached(xs, token, stopOnHit, dryRun).1, kind) ==
      if dryRun then Count(xs, kind) else Left(Count(xs, kind), kind, token, stopOnHit)
    ensures Detached(xs, token, stopOnHit, dryRun).0 ==
      if token.EraseEntry? || token.Callback? then 0
      else if stopOnHit && Count(xs, token) > 0 then 1 else Count(xs, token)
  {
    if xs != [] {
      CountDetached(xs[1..], token, stopOnHit, dryRun, kind);
      var ys := Detached(xs[1..], token, stopOnHit, dryRun).1;
      CountPrepend(ys, xs[0], kind);
      assert [xs[0]] + xs[1..] == xs;
      assert [] + xs[1..] == xs[1..] && [] + ys == ys;
    }
  }

  /** `detach` splits the list: the hits are exactly the links or monitors that the token names, the
      survivors all others; nothing is lost or duplicated. */
  lemma {:induction false} DetachSplits(xs: seq<Attachable>, token: Kind)
    ensures forall x :: x in Survivors(xs, token) ==> x in xs && !Matches(x, token)
    ensures forall x :: x in Hits(xs, token) ==> x in xs && Matches(x, token)
    ensures forall x :: x in Hits(xs, token) <==> x in xs && x.kind == token && (token.Link? || token.Monitor?)
    ensures forall x :: x in Survivors(xs, token) <==> x in xs && (x.kind != token || token.EraseEntry? || token.Callback?)
    ensures multiset(Survivors(xs, token)) + multiset(Hits(xs, token)) == multiset(xs)
    ensures |Survivors(xs, token)| + |Hits(xs, token)| == |xs|
  {
    if xs != [] {
      DetachSplits(xs[1..], token);
      assert xs == [xs[0]] + xs[1..];
    }
  }

  /** Stopping at the first hit removes exactly one match, if there is one. */
  lemma {:induction false} StopOnHitSplits(xs: seq<Attachable>, token: Kind)
    ensures Hits(xs, token) == [] ==> WithoutFirst(xs, token) == xs
    ensures Hits(xs, token) != [] ==>
              multiset(WithoutFirst(xs, token)) + multiset{Hits(xs, token)[0]} == multiset(xs)
  {
    if xs != [] {
      assert multiset(xs) == multiset{xs[0]} + multiset(xs[1..]) by {
        assert xs == [xs[0]] + xs[1..];
      }
      if !Matches(xs[0], token) {
        StopOnHitSplits(xs[1..], token);
        assert multiset(WithoutFirst(xs, token)) == multiset{xs[0]} + multiset(WithoutFirst(xs[1..], token));
      }
    }
  }

  /** A search removes all matches, or only the first one, or nothing in a dry run; it
      returns how many it found. */
  lemma {:induction false} DetachMeaning(xs: seq<Attachable>, token: Kind, stopOnHit: bool, dryRun: bool)
    ensures var (count, ys) := Detached(xs, token, stopOnHit, dryRun);
            && count == (if stopOnHit && Hits(xs, token) != [] then 1 else |Hits(xs, token)|)
            && ys == if dryRun then xs else if stopOnHit then WithoutFirst(xs, token) else Survivors(xs, token)
  {
    if xs != [] {
      DetachMeaning(xs[1..], token, stopOnHit, dryRun);
    }
  }

  /** `detach` is documented to remove the first match but removes them all: the two agree
      exactly on lists with at most one match. */
  lemma {:induction false} DetachesFirstOnlyIff(xs: seq<Attachable>, token: Kind)
    ensures Survivors(xs, token) == WithoutFirst(xs, token) <==> |Hits(xs, token)| <= 1
    ensures |WithoutFirst(xs, token)| == |xs| - (if Hits(xs, token) == [] then 0 else 1)
  {
    if xs != [] {
      DetachesFirstOnlyIff(xs[1..], token);
      DetachSplits(xs[1..], token);
      if Matches(xs[0], token) && Hits(xs[1..], token) == [] {
        assert WithoutFirst(xs[1..], token) == xs[1..] by {
          StopOnHitSplits(xs[1..], token);
        }
      }
    }
  }

  /** Whatever is removed, the survivors keep their order. */
  lemma {:induction false} SurvivorsKeepOrder(xs: seq<Attachable>, token: Kind)
    ensures IsSubsequence(Survivors(xs, token), xs)
    ensures IsSubsequence(WithoutFirst(xs, token), xs)
  {
    if xs != [] {
      SurvivorsKeepOrder(xs[1..], token);
      SubsequenceRefl(xs[1..]);
    }
  }

  lemma {:induction false} SubsequenceRefl(xs: seq<Attachable>)
    ensures IsSubsequence(xs, xs)
  {
    if xs != [] {
      SubsequenceRefl(xs[1..]);
    }
  }
}
