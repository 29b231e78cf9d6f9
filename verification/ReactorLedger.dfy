/** Notification accounting over whole runs. */
module ReactorLedger {
  import opened Notifies
  import opened ReactorModel
  import opened ReactorInvariants
  import opened ReactorSignals

  /** Waits on the Notify `id` that this step completes with Ok. */
  function OkIn(st: State, step: Step, id: nat): nat {
    if step.OfWait? && (step.act.TakePermit? || step.act.Accept?)
       && step.w in st.waits && st.waits[step.w].notify == id then 1 else 0
  }

  /** `notify_one` calls this step makes on the Notify `id`. */
  function CallsIn(st: State, step: Step, id: nat): nat
    requires Enabled(st, step)
  {
    match step
    case Tick(Drain(k)) => Hits(st.waiters, st.events[..k], id)
    case Tick(NotifyAll(order)) => Hits(st.waiters, order, id)
    case OfWait(_, MqDrain(k)) => Hits(st.waiters, st.events[..k], id)
    case _ => 0
  }

  function Oks(st: State, steps: seq<Step>, id: nat): nat
    requires Valid(st, steps)
    decreases |steps|
  {
    if steps == [] then 0 else OkIn(st, steps[0], id) + Oks(Next(st, steps[0]), steps[1..], id)
  }

  function Calls(st: State, steps: seq<Step>, id: nat): nat
    requires Valid(st, steps)
    decreases |steps|
  {
    if steps == [] then 0 else CallsIn(st, steps[0], id) + Calls(Next(st, steps[0]), steps[1..], id)
  }

  /** Dropping a `notified()` future completes no wait and issues nothing. */
  lemma LeavingLedger(st: State, x: WaiterId, p: Phase, id: nat)
    requires x in st.waits
    ensures NotifyAt(Leaving(st, x, p), id).granted == NotifyAt(st, id).granted
    ensures NotifyAt(Leaving(st, x, p), id).issued == NotifyAt(st, id).issued
    ensures |Leaving(st, x, p).notifies| == |st.notifies|
  {
  }

  lemma SignalLedger(st: State, ss: seq<Session>, id: nat)
    requires MapWf(st)
    ensures NotifyAt(SignalAll(st, ss), id).granted == NotifyAt(st, id).granted
    ensures NotifyAt(SignalAll(st, ss), id).issued == NotifyAt(st, id).issued + Hits(st.waiters, ss, id)
  {
    if id < |st.notifies| {
      SignalAllAt(st, ss, id);
      TimesCounters(st.notifies[id], Hits(st.waiters, ss, id));
    } else {
      SignalAllFrame(st, ss);
      StaleHits(st.waiters, ss, id);
    }
  }

  lemma WaitLedger(st: State, w: WaiterId, act: WaitStep, id: nat)
    requires Core(st) && WaitEnabled(st, w, act)
    ensures NotifyAt(WaitNext(st, w, act), id).granted == NotifyAt(st, id).granted + OkIn(st, OfWait(w, act), id)
    ensures NotifyAt(WaitNext(st, w, act), id).issued == NotifyAt(st, id).issued + CallsIn(st, OfWait(w, act), id)
  {
    if act.Begin? { return; }
    OwnQueue(st, w);
    match act
    case MqDrain(k) =>
      LeavingLedger(st, w, Clearing, id);
      var st1 := Leaving(st, w, Clearing);
      SignalLedger(st1.(events := st1.events[k..]), st.events[..k], id);
    case ClearReady => LeavingLedger(st, w, Selecting(true), id);
    case GraceExpire => LeavingLedger(st, w, Selecting(false), id);
    case TimeOut => LeavingLedger(st, w, Finished(TimedOut), id);
    case MqError => LeavingLedger(st, w, Finished(IoFailed), id);
    case Cancel => LeavingLedger(st, w, Dropped, id);
    case _ =>
  }

  lemma StepLedger(st: State, step: Step, id: nat)
    requires Core(st) && Enabled(st, step)
    ensures NotifyAt(Next(st, step), id).granted == NotifyAt(st, id).granted + OkIn(st, step, id)
    ensures NotifyAt(Next(st, step), id).issued == NotifyAt(st, id).issued + CallsIn(st, step, id)
  {
    match step
    case Net(_) =>
    case Tick(Drain(k)) => SignalLedger(st.(events := st.events[k..]), st.events[..k], id);
    case Tick(NotifyAll(order)) => SignalLedger(st, order, id);
    case OfWait(w, act) => WaitLedger(st, w, act, id);
    case Life(_) =>
  }

  lemma {:induction false} RunLedger(st: State, steps: seq<Step>, id: nat)
    requires Core(st) && Valid(st, steps)
    ensures NotifyAt(Exec(st, steps), id).granted == NotifyAt(st, id).granted + Oks(st, steps, id)
    ensures NotifyAt(Exec(st, steps), id).issued == NotifyAt(st, id).issued + Calls(st, steps, id)
    decreases |steps|
  {
    if steps != [] {
      StepCore(st, steps[0]);
      StepLedger(st, steps[0], id);
      RunLedger(Next(st, steps[0]), steps[1..], id);
    }
  }

  /** Over every run, the waits a Notify completed with Ok, plus the notifications
      it merged, stored or has on their way, are exactly the notify_one calls made
      on it; cancelled select! branches lose none. */
  lemma NotificationsConserved(steps: seq<Step>, id: nat)
    requires Valid(INIT, steps)
    ensures var n := NotifyAt(Exec(INIT, steps), id);
            Calls(INIT, steps, id) ==
            Oks(INIT, steps, id) + n.merged + |n.woken| + (if n.permit then 1 else 0)
    ensures Oks(INIT, steps, id) <= Calls(INIT, steps, id)
  {
    RunLedger(INIT, steps, id);
    RunInv(INIT, steps);
    var end := Exec(INIT, steps);
    if id < |end.notifies| { assert QueueWf(end, id); }
  }

  // ---- Events ----

  /** Events VPP posts for `s` in this step: for a transmit event, and for data
      that finds the session watched and its flag clear. */
  function PostedIn(st: State, step: Step, s: Session): nat {
    if step == Net(WriteEvent(s, true)) || step == Net(WriteEvent(s, false)) then 1
    else if step.Net? && step.net.Arrive? && step.net.s == s && s in st.epoll && s !in st.rx.hasEvent then 1
    else 0
  }

  /** Events of `s` a drain takes off the queue in this step. */
  function DrainedIn(st: State, step: Step, s: Session): nat
    requires Enabled(st, step)
  {
    match step
    case Tick(Drain(k)) => multiset(st.events[..k])[s]
    case OfWait(_, MqDrain(k)) => multiset(st.events[..k])[s]
    case _ => 0
  }

  function Posted(st: State, steps: seq<Step>, s: Session): nat
    requires Valid(st, steps)
    decreases |steps|
  {
    if steps == [] then 0 else PostedIn(st, steps[0], s) + Posted(Next(st, steps[0]), steps[1..], s)
  }

  function Drained(st: State, steps: seq<Step>, s: Session): nat
    requires Valid(st, steps)
    decreases |steps|
  {
    if steps == [] then 0 else DrainedIn(st, steps[0], s) + Drained(Next(st, steps[0]), steps[1..], s)
  }

  lemma SplitCount(es: seq<Session>, k: nat, s: Session)
    requires k <= |es|
    ensures multiset(es)[s] == multiset(es[..k])[s] + multiset(es[k..])[s]
  {
    assert es == es[..k] + es[k..];
  }

  lemma NetEvent(st: State, x: NetStep, s: Session)
    requires NetEnabled(st, x)
    ensures multiset(NetNext(st, x).events)[s] == multiset(st.events)[s] + PostedIn(st, Net(x), s)
    ensures PostedIn(st, Net(x), s) > 0 && x.edge ==> NetNext(st, x).mqReady
  {
  }

  lemma EventStep(st: State, step: Step, s: Session)
    requires Enabled(st, step)
    ensures multiset(Next(st, step).events)[s] + DrainedIn(st, step, s) ==
            multiset(st.events)[s] + PostedIn(st, step, s)
    ensures PostedIn(st, step, s) > 0 && step.net.edge ==> Next(st, step).mqReady
  {
    match step
    case Net(x) => NetEvent(st, x, s);
    case Tick(x) =>
      TickFrame(st, x);
      if x.Drain? {
        DrainFrame(st, x.k);
        SplitCount(st.events, x.k, s);
      } else {
        SignalAllFrame(st, x.order);
      }
    case OfWait(w, act) =>
      WaitFrame(st, w, act);
      if act.MqDrain? { SplitCount(st.events, act.k, s); }
    case Life(_) =>
  }

  /** Over every run, the events posted for a session are those drained, by whomever,
      and those still queued: none is dropped before it is drained, none made up. */
  lemma {:induction false} EventsConserved(st: State, steps: seq<Step>, s: Session)
    requires Valid(st, steps)
    ensures multiset(Exec(st, steps).events)[s] + Drained(st, steps, s) ==
            multiset(st.events)[s] + Posted(st, steps, s)
    decreases |steps|
  {
    if steps != [] {
      EventStep(st, steps[0], s);
      EventsConserved(Next(st, steps[0]), steps[1..], s);
    }
  }

  // ---- Timeouts ----

  lemma DeadlineStep(st: State, step: Step, w: WaiterId)
    requires Enabled(st, step) && w in st.waits && !(step.OfWait? && step.w == w && step.act.Begin?)
    ensures w in Next(st, step).waits && Next(st, step).waits[w].deadline == st.waits[w].deadline
  {
    match step
    case Net(_) =>
    case Tick(x) => TickFrame(st, x);
    case OfWait(x, act) => WaitFrame(st, x, act);
    case Life(_) =>
  }

  lemma {:induction false} DeadlineRun(st: State, steps: seq<Step>, w: WaiterId)
    requires Valid(st, steps) && w in st.waits
    requires forall i :: 0 <= i < |steps| ==> !(steps[i].OfWait? && steps[i].w == w && steps[i].act.Begin?)
    ensures w in Exec(st, steps).waits && Exec(st, steps).waits[w].deadline == st.waits[w].deadline
    decreases |steps|
  {
    if steps != [] {
      DeadlineStep(st, steps[0], w);
      DeadlineRun(Next(st, steps[0]), steps[1..], w);
    }
  }

  /** A wait that returns Timeout has lasted at least the timeout it was given,
      whatever happened in between. */
  lemma TimeoutNeverEarly(st: State, w: WaiterId, s: Session, timeout: nat, steps: seq<Step>)
    requires Reachable(st) && Valid(st, [OfWait(w, Begin(s, timeout))] + steps)
    requires forall i :: 0 <= i < |steps| ==> !(steps[i].OfWait? && steps[i].w == w && steps[i].act.Begin?)
    ensures var end := Exec(st, [OfWait(w, Begin(s, timeout))] + steps);
            w in end.waits && (end.waits[w].phase == Finished(TimedOut) ==> end.now >= st.now + timeout)
  {
    var all := [OfWait(w, Begin(s, timeout))] + steps;
    assert all[0] == OfWait(w, Begin(s, timeout)) && all[1..] == steps;
    ReachableInv(st);
    RunInv(st, all);
    DeadlineRun(Next(st, all[0]), steps, w);
  }
}
