/** One `tokio::sync::Notify`: at most one stored permit and a FIFO queue of
    parked waiters. `woken` holds the waiters that were handed a notification
    and have not run since. The three counters record history; no operation
    reads them. */
module Notifies {

  type WaiterId = nat

  datatype Notify = Notify(
    permit: bool,
    parked: seq<WaiterId>,
    woken: set<WaiterId>,
    issued: nat,   // calls of notify_one
    granted: nat,  // waits completed by this Notify
    merged: nat    // notifications absorbed by a permit that was already stored
  )

  const FRESH := Notify(false, [], {}, 0, 0, 0)

  predicate Distinct(q: seq<WaiterId>) {
    forall i, j :: 0 <= i < j < |q| ==> q[i] != q[j]
  }

  /** Every notification ever issued is accounted for, exactly once. */
  predicate Balanced(n: Notify) {
    n.issued == n.granted + n.merged + |n.woken| + (if n.permit then 1 else 0)
  }

  predicate Wf(n: Notify) {
    && (n.permit ==> n.parked == [])
    && Distinct(n.parked)
    && (forall w :: w in n.parked ==> w !in n.woken)
    && Balanced(n)
  }

  predicate Queued(n: Notify, w: WaiterId) {
    w in n.parked || w in n.woken
  }

  /** Hand one notification to the head of the queue, or store it. */
  function Deliver(n: Notify): Notify {
    if n.parked != [] then
      n.(parked := n.parked[1..], woken := n.woken + {n.parked[0]})
    else if n.permit then
      n.(merged := n.merged + 1)
    else
      n.(permit := true)
  }

  function NotifyOne(n: Notify): Notify {
    Deliver(n.(issued := n.issued + 1))
  }

  function TakePermit(n: Notify): Notify {
    n.(permit := false, granted := n.granted + 1)
  }

  function Park(n: Notify, w: WaiterId): Notify {
    n.(parked := n.parked + [w])
  }

  function Accept(n: Notify, w: WaiterId): Notify {
    n.(woken := n.woken - {w}, granted := n.granted + 1)
  }

  function Without(q: seq<WaiterId>, w: WaiterId): (r: seq<WaiterId>)
    ensures |r| <= |q|
    ensures forall x :: x in r ==> x in q
  {
    if q == [] then []
    else if q[0] == w then q[1..]
    else [q[0]] + Without(q[1..], w)
  }

  /** Drop the `Notified` future of `w`: a notification it holds moves on. */
  function Leave(n: Notify, w: WaiterId): Notify {
    if w in n.woken then Deliver(n.(woken := n.woken - {w}))
    else n.(parked := Without(n.parked, w))
  }

  function Index(q: seq<WaiterId>, w: WaiterId): (i: nat)
    requires w in q
    ensures i < |q| && q[i] == w
    ensures w !in q[..i]
  {
    if q[0] == w then 0 else 1 + Index(q[1..], w)
  }

  // ---- Queue facts ----

  lemma DistinctTail(q: seq<WaiterId>)
    requires Distinct(q) && q != []
    ensures Distinct(q[1..]) && q[0] !in q[1..]
  {
  }

  lemma {:induction false} WithoutMembers(q: seq<WaiterId>, w: WaiterId)
    requires Distinct(q)
    ensures Distinct(Without(q, w))
    ensures forall x :: x in Without(q, w) <==> x in q && x != w
  {
    if q != [] && q[0] != w {
      WithoutMembers(q[1..], w);
      assert q == [q[0]] + q[1..];
      assert q[0] !in Without(q[1..], w);
    } else if q != [] {
      assert q == [q[0]] + q[1..];
    }
  }

  /** Removing somebody else never moves a waiter back. */
  lemma {:induction false} WithoutIndex(q: seq<WaiterId>, w: WaiterId, x: WaiterId)
    requires Distinct(q) && x in q && x != w
    ensures x in Without(q, w)
    ensures Index(Without(q, w), x) <= Index(q, x)
  {
    WithoutMembers(q, w);
    if q[0] == w {
      assert q == [q[0]] + q[1..];
      assert Index(q, x) == 1 + Index(q[1..], x);
    } else if q[0] != x {
      WithoutIndex(q[1..], w, x);
      var r := Without(q, w);
      assert r[1..] == Without(q[1..], w);
    }
  }

  lemma {:induction false} AppendIndex(q: seq<WaiterId>, y: WaiterId, x: WaiterId)
    requires x in q
    ensures Index(q + [y], x) == Index(q, x)
  {
    if q[0] != x {
      AppendIndex(q[1..], y, x);
      assert (q + [y])[1..] == q[1..] + [y];
    }
  }

  // ---- What every operation keeps ----

  lemma DeliverWf(n: Notify)
    requires n.permit ==> n.parked == []
    requires Distinct(n.parked)
    requires forall w :: w in n.parked ==> w !in n.woken
    requires n.issued == n.granted + n.merged + |n.woken| + (if n.permit then 1 else 0) + 1
    ensures Wf(Deliver(n))
    ensures forall w :: Queued(Deliver(n), w) <==> Queued(n, w)
  {
    if n.parked != [] {
      DistinctTail(n.parked);
      assert n.parked == [n.parked[0]] + n.parked[1..];
      assert |n.woken + {n.parked[0]}| == |n.woken| + 1;
    }
  }

  lemma NotifyOneWf(n: Notify)
    requires Wf(n)
    ensures Wf(NotifyOne(n))
    ensures forall w :: Queued(NotifyOne(n), w) <==> Queued(n, w)
  {
    DeliverWf(n.(issued := n.issued + 1));
  }

  lemma LeaveWf(n: Notify, w: WaiterId)
    requires Wf(n)
    ensures Wf(Leave(n, w))
    ensures forall x :: Queued(Leave(n, w), x) <==> Queued(n, x) && x != w
  {
    if w in n.woken {
      assert |n.woken - {w}| == |n.woken| - 1;
      DeliverWf(n.(woken := n.woken - {w}));
      var m := n.(woken := n.woken - {w});
      assert forall x :: Queued(m, x) <==> Queued(n, x) && x != w;
    } else {
      WithoutMembers(n.parked, w);
      if n.permit { assert Without(n.parked, w) == []; }
    }
  }

  lemma ParkWf(n: Notify, w: WaiterId)
    requires Wf(n) && !n.permit && !Queued(n, w)
    ensures Wf(Park(n, w))
    ensures forall x :: Queued(Park(n, w), x) <==> Queued(n, x) || x == w
  {
  }

  lemma AcceptWf(n: Notify, w: WaiterId)
    requires Wf(n) && w in n.woken
    ensures Wf(Accept(n, w))
    ensures forall x :: Queued(Accept(n, w), x) <==> Queued(n, x) && x != w
  {
    assert |n.woken - {w}| == |n.woken| - 1;
  }

  // ---- How far a waiter is from being woken ----

  /** Notifications still needed before `w` is handed one. */
  function Rank(n: Notify, w: WaiterId): nat
    requires Queued(n, w)
  {
    if w in n.woken then 0 else Index(n.parked, w) + 1
  }

  function Minus(a: nat, b: nat): nat {
    if a <= b then 0 else a - b
  }

  function Times(n: Notify, k: nat): Notify
    decreases k
  {
    if k == 0 then n else Times(NotifyOne(n), k - 1)
  }

  lemma DeliverRank(n: Notify, w: WaiterId)
    requires Queued(n, w) && Distinct(n.parked)
    requires forall x :: x in n.parked ==> x !in n.woken
    ensures Queued(Deliver(n), w)
    ensures Rank(Deliver(n), w) == Minus(Rank(n, w), 1)
  {
    if w !in n.woken {
      assert n.parked == [n.parked[0]] + n.parked[1..];
      if n.parked[0] != w {
        assert Deliver(n).parked == n.parked[1..];
        assert w !in Deliver(n).woken;
      }
    }
  }

  lemma NotifyOneRank(n: Notify, w: WaiterId)
    requires Wf(n) && Queued(n, w)
    ensures Wf(NotifyOne(n)) && Queued(NotifyOne(n), w)
    ensures Rank(NotifyOne(n), w) == Minus(Rank(n, w), 1)
  {
    NotifyOneWf(n);
    assert Rank(n.(issued := n.issued + 1), w) == Rank(n, w);
    DeliverRank(n.(issued := n.issued + 1), w);
  }

  lemma LeaveRank(n: Notify, x: WaiterId, w: WaiterId)
    requires Wf(n) && Queued(n, w) && x != w
    ensures Queued(Leave(n, x), w) && Rank(Leave(n, x), w) <= Rank(n, w)
  {
    if x in n.woken {
      DeliverRank(n.(woken := n.woken - {x}), w);
    } else {
      WithoutMembers(n.parked, x);
      if w !in n.woken { WithoutIndex(n.parked, x, w); }
    }
  }

  lemma ParkRank(n: Notify, x: WaiterId, w: WaiterId)
    requires Queued(n, w)
    ensures Queued(Park(n, x), w) && Rank(Park(n, x), w) == Rank(n, w)
  {
    if w !in n.woken { AppendIndex(n.parked, x, w); }
  }

  lemma {:induction false} TimesRank(n: Notify, k: nat, w: WaiterId)
    requires Wf(n) && Queued(n, w)
    ensures Wf(Times(n, k)) && Queued(Times(n, k), w)
    ensures Rank(Times(n, k), w) == Minus(Rank(n, w), k)
    decreases k
  {
    if k > 0 {
      NotifyOneRank(n, w);
      TimesRank(NotifyOne(n), k - 1, w);
    }
  }

  /** With nobody parked, notifications collapse into one permit. */
  lemma {:induction false} TimesPermit(n: Notify, k: nat)
    requires n.parked == [] && (k > 0 || n.permit)
    ensures Times(n, k).permit && Times(n, k).parked == [] && Times(n, k).woken == n.woken
    decreases k
  {
    if k > 0 { TimesPermit(NotifyOne(n), k - 1); }
  }

  lemma {:induction false} TimesCounters(n: Notify, k: nat)
    ensures Times(n, k).granted == n.granted && Times(n, k).issued == n.issued + k
    decreases k
  {
    if k > 0 { TimesCounters(NotifyOne(n), k - 1); }
  }
}
