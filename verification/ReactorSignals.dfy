/** What drains and ticks do to one Notify, whatever else they touch. */
module ReactorSignals {
  import opened Notifies
  import opened ReactorModel
  import opened ReactorInvariants

  /** How many of the sessions in `ss` are mapped to the Notify `id`. */
  function Hits(waiters: map<Session, nat>, ss: seq<Session>, id: nat): nat {
    if ss == [] then 0
    else (if ss[0] in waiters && waiters[ss[0]] == id then 1 else 0) + Hits(waiters, ss[1..], id)
  }

  /** The whole pass is, at each Notify, that many plain `notify_one` calls. */
  lemma {:induction false} SignalAllAt(st: State, ss: seq<Session>, id: nat)
    requires id < |st.notifies|
    ensures |SignalAll(st, ss).notifies| == |st.notifies|
    ensures SignalAll(st, ss).notifies[id] == Times(st.notifies[id], Hits(st.waiters, ss, id))
    decreases |ss|
  {
    if ss != [] {
      SignalAllAt(Signal(st, ss[0]), ss[1..], id);
    }
  }

  lemma SignalOne(st: State, s: Session)
    ensures SignalAll(st, [s]) == Signal(st, s)
  {
    assert [s][1..] == [];
    assert SignalAll(Signal(st, s), []) == Signal(st, s);
  }

  /** Events of sessions mapped elsewhere, or nowhere, do not reach a Notify. */
  lemma {:induction false} NoHits(st: State, ss: seq<Session>, s: Session)
    requires MapWf(st) && s in st.waiters && s !in ss
    ensures Hits(st.waiters, ss, st.waiters[s]) == 0
    decreases |ss|
  {
    if ss != [] { NoHits(st, ss[1..], s); }
  }

  lemma {:induction false} SomeHits(st: State, ss: seq<Session>, s: Session)
    requires s in st.waiters && s in ss
    ensures Hits(st.waiters, ss, st.waiters[s]) > 0
    decreases |ss|
  {
    if ss[0] != s { SomeHits(st, ss[1..], s); }
  }

  /** In any iteration order of the HashMap, notify-all reaches a mapped Notify once. */
  lemma {:induction false} OneHit(st: State, order: seq<Session>, s: Session)
    requires MapWf(st) && s in st.waiters && s in order
    requires forall i, j :: 0 <= i < j < |order| ==> order[i] != order[j]
    ensures Hits(st.waiters, order, st.waiters[s]) == 1
    decreases |order|
  {
    if order[0] == s {
      NoHits(st, order[1..], s);
    } else {
      OneHit(st, order[1..], s);
    }
  }

  lemma {:induction false} StaleHits(waiters: map<Session, nat>, ss: seq<Session>, id: nat)
    requires forall s :: s in waiters ==> waiters[s] != id
    ensures Hits(waiters, ss, id) == 0
    decreases |ss|
  {
    if ss != [] { StaleHits(waiters, ss[1..], id); }
  }

  lemma NotifyAllAt(st: State, order: seq<Session>, id: nat)
    requires MapWf(st) && Enumerates(order, st.waiters.Keys) && id < |st.notifies|
    ensures Hits(st.waiters, order, id) == if id in st.waiters.Values then 1 else 0
  {
    if id in st.waiters.Values {
      var s :| s in st.waiters && st.waiters[s] == id;
      assert s in (set t | t in order);
      OneHit(st, order, s);
    } else {
      StaleHits(st.waiters, order, id);
    }
  }

  /** The order in which the tick walks the HashMap is invisible. */
  lemma NotifyAllOrderIrrelevant(st: State, a: seq<Session>, b: seq<Session>)
    requires MapWf(st) && Enumerates(a, st.waiters.Keys) && Enumerates(b, st.waiters.Keys)
    ensures SignalAll(st, a) == SignalAll(st, b)
  {
    SignalAllFrame(st, a);
    SignalAllFrame(st, b);
    forall id | 0 <= id < |st.notifies|
      ensures SignalAll(st, a).notifies[id] == SignalAll(st, b).notifies[id]
    {
      SignalAllAt(st, a, id);
      SignalAllAt(st, b, id);
      NotifyAllAt(st, a, id);
      NotifyAllAt(st, b, id);
    }
  }

  /** Draining the first k events, seen from one Notify. */
  lemma DrainAt(st: State, k: nat, id: nat)
    requires k <= |st.events| && id < |st.notifies|
    ensures |DrainFirst(st, k).notifies| == |st.notifies|
    ensures DrainFirst(st, k).notifies[id] == Times(st.notifies[id], Hits(st.waiters, st.events[..k], id))
  {
    SignalAllAt(st.(events := st.events[k..]), st.events[..k], id);
  }
}
