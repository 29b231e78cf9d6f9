/** Waiters that share a Notify, taken together: a notification may go to another
    one of them than it was meant for, but it is never lost on all. */
module ReactorGroup {
  import opened Notifies
  import opened ReactorModel
  import opened ReactorInvariants
  import opened ReactorSignals
  import opened ReactorFairness
  import opened ReactorLedger
  import opened ReactorOwners

  /** A notification is stored or on its way to a waiter. */
  predicate Travelling(n: Notify) {
    n.permit || n.woken != {}
  }

  lemma DeliverTravels(n: Notify)
    ensures Travelling(Deliver(n))
  {
    if n.parked != [] { assert n.parked[0] in Deliver(n).woken; }
  }

  lemma TimesTravels(n: Notify, k: nat)
    requires k > 0 || Travelling(n)
    ensures Travelling(Times(n, k))
    decreases k
  {
    if k > 0 {
      DeliverTravels(n.(issued := n.issued + 1));
      TimesTravels(NotifyOne(n), k - 1);
    }
  }

  /** A waiter that goes away hands on the notification it holds. */
  lemma LeaveTravels(n: Notify, w: WaiterId)
    requires Travelling(n)
    ensures Travelling(Leave(n, w))
  {
    if w in n.woken { DeliverTravels(n.(woken := n.woken - {w})); }
  }

  lemma LeavingTravels(st: State, x: WaiterId, p: Phase, id: nat)
    requires x in st.waits && Travelling(NotifyAt(st, id))
    ensures Travelling(NotifyAt(Leaving(st, x, p), id))
  {
    LeaveTravels(NotifyAt(st, id), x);
  }

  lemma DrainTravels(st: State, k: nat, id: nat)
    requires k <= |st.events| && id < |st.notifies|
    requires Travelling(st.notifies[id]) || Hits(st.waiters, st.events[..k], id) > 0
    ensures |DrainFirst(st, k).notifies| == |st.notifies| && Travelling(DrainFirst(st, k).notifies[id])
  {
    DrainAt(st, k, id);
    TimesTravels(st.notifies[id], Hits(st.waiters, st.events[..k], id));
  }

  lemma WaitTravels(st: State, x: WaiterId, act: WaitStep, id: nat)
    requires Core(st) && WaitEnabled(st, x, act) && id < |st.notifies|
    requires Travelling(st.notifies[id]) || CallsIn(st, OfWait(x, act), id) > 0
    ensures OkIn(st, OfWait(x, act), id) > 0 || Travelling(NotifyAt(WaitNext(st, x, act), id))
  {
    if act.Begin? { return; }
    OwnQueue(st, x);
    match act
    case MqDrain(k) =>
      var left := Leaving(st, x, Clearing);
      if Travelling(st.notifies[id]) { LeavingTravels(st, x, Clearing, id); }
      DrainTravels(left, k, id);
    case ClearReady => LeavingTravels(st, x, Selecting(true), id);
    case GraceExpire => LeavingTravels(st, x, Selecting(false), id);
    case TimeOut => LeavingTravels(st, x, Finished(TimedOut), id);
    case MqError => LeavingTravels(st, x, Finished(IoFailed), id);
    case Cancel => LeavingTravels(st, x, Dropped, id);
    case _ =>
  }

  lemma StepTravels(st: State, step: Step, id: nat)
    requires Core(st) && Enabled(st, step) && id < |st.notifies|
    requires Travelling(st.notifies[id]) || CallsIn(st, step, id) > 0
    ensures OkIn(st, step, id) > 0 || Travelling(NotifyAt(Next(st, step), id))
  {
    match step
    case Net(_) =>
    case Tick(Drain(k)) => DrainTravels(st, k, id);
    case Tick(NotifyAll(order)) =>
      SignalAllAt(st, order, id);
      TimesTravels(st.notifies[id], Hits(st.waiters, order, id));
    case OfWait(x, act) => WaitTravels(st, x, act, id);
    case Life(_) =>
  }

  lemma NotifiesGrow(st: State, step: Step)
    requires Enabled(st, step)
    ensures |Next(st, step).notifies| >= |st.notifies|
  {
    match step
    case Net(_) =>
    case Tick(x) => TickFrame(st, x);
    case OfWait(w, act) => if act.MqDrain? { DrainFrame(Leaving(st, w, Clearing), act.k); }
    case Life(_) =>
  }

  /** From every consistent state and over every run that calls notify_one on a
      Notify, however its waiters come, go, restart, give up or are detached: one of
      them completes, or at the end a notification is stored or on its way to one. */
  lemma {:induction false} GroupServed(st: State, steps: seq<Step>, id: nat)
    requires Core(st) && Valid(st, steps) && id < |st.notifies|
    requires Travelling(st.notifies[id]) || Calls(st, steps, id) > 0
    ensures Oks(st, steps, id) > 0 || Travelling(NotifyAt(Exec(st, steps), id))
    decreases |steps|
  {
    if steps != [] {
      var st' := Next(st, steps[0]);
      StepCore(st, steps[0]);
      NotifiesGrow(st, steps[0]);
      if Travelling(st.notifies[id]) || CallsIn(st, steps[0], id) > 0 { StepTravels(st, steps[0], id); }
      if Travelling(st'.notifies[id]) || Calls(st', steps[1..], id) > 0 { GroupServed(st', steps[1..], id); }
    }
  }

  /** Every tick calls notify_one on the Notify of a session that stays in the map. */
  lemma {:induction false} TicksCall(st: State, steps: seq<Step>, s: Session)
    requires Core(st) && Valid(st, steps) && s in st.waiters
    requires Life(Deregister(s)) !in steps && Life(Drop(s)) !in steps
    ensures Calls(st, steps, st.waiters[s]) >= Ticks(steps)
    decreases |steps|
  {
    if steps != [] {
      assert steps[0] in steps;
      StepCore(st, steps[0]);
      EntryStep(st, steps[0], s);
      if steps[0].Tick? && steps[0].tick.NotifyAll? { NotifyAllAt(st, steps[0].tick.order, st.waiters[s]); }
      TicksCall(Next(st, steps[0]), steps[1..], s);
    }
  }

  /** While a notification travels, somebody it was handed to can complete, or
      nobody on that Notify can park and each one polled next can complete. */
  lemma TravellingCompletes(st: State, id: nat)
    requires Core(st) && id < |st.notifies| && Travelling(st.notifies[id])
    ensures || (exists x :: OnNotify(st, x, id) && WaitEnabled(st, x, WaitStep.Accept))
            || (forall x :: Active(st, x) && st.waits[x].notify == id ==>
                  && !WaitEnabled(st, x, WaitStep.Park)
                  && (WaitEnabled(st, x, WaitStep.TakePermit) || st.waits[x].phase.Clearing?))
  {
    var n := st.notifies[id];
    assert QueueWf(st, id);
    if n.woken != {} {
      var x :| x in n.woken;
      assert Queued(n, x);
      assert OnNotify(st, x, id) && WaitEnabled(st, x, WaitStep.Accept);
    } else {
      forall x | Active(st, x) && st.waits[x].notify == id ensures !st.waits[x].phase.Parked? {
        assert Queued(n, x) <==> OnNotify(st, x, id);
      }
    }
  }

  /** The waiters of one session, from every reachable state and over every run with
      a tick: one of them returns Ok, or at the end a notification is stored or on its
      way to one (and then `TravellingCompletes` applies). */
  lemma TickServesGroup(st: State, steps: seq<Step>, s: Session)
    requires Reachable(st) && Valid(st, steps) && s in st.waiters && Ticks(steps) > 0
    requires Life(Deregister(s)) !in steps && Life(Drop(s)) !in steps
    ensures var id := st.waiters[s];
            Oks(st, steps, id) > 0 || Travelling(NotifyAt(Exec(st, steps), id))
  {
    ReachableInv(st);
    TicksCall(st, steps, s);
    GroupServed(st, steps, st.waiters[s]);
  }

  /** A running wait can be dropped at any point. It leaves its queue for good, and a
      notification it held, or that was stored, is still there for the others. */
  lemma DroppedWait(st: State, w: WaiterId)
    requires Core(st) && Active(st, w)
    ensures WaitEnabled(st, w, Cancel)
    ensures var id, end := st.waits[w].notify, WaitNext(st, w, Cancel);
            && !Active(end, w) && id < |end.notifies| && !Queued(end.notifies[id], w)
            && (Travelling(NotifyAt(st, id)) ==> Travelling(end.notifies[id]))
            && forall x :: x != w ==> (Queued(end.notifies[id], x) <==> Queued(NotifyAt(st, id), x))
  {
    var id := st.waits[w].notify;
    OwnQueue(st, w);
    if st.waits[w].phase.Parked? { LeaveWf(st.notifies[id], w); }
    if Travelling(st.notifies[id]) { LeavingTravels(st, w, Dropped, id); }
  }
}
