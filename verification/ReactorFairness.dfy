/** Waiters that share one Notify: who is woken when. */
module ReactorFairness {
  import opened Notifies
  import opened ReactorModel
  import opened ReactorInvariants
  import opened ReactorSignals

  ghost predicate IsParked(st: State, w: WaiterId) {
    w in st.waits && st.waits[w].phase.Parked?
  }

  ghost function Place(st: State, w: WaiterId): nat
    requires Core(st) && IsParked(st, w)
  {
    OwnQueue(st, w);
    Rank(NotifyAt(st, st.waits[w].notify), w)
  }

  /** Steps of others that leave the session of `w` in the map. */
  predicate Bystander(step: Step, w: WaiterId, s: Session) {
    && !(step.OfWait? && step.w == w)
    && step != Life(Deregister(s)) && step != Life(Drop(s))
  }

  function Ticks(steps: seq<Step>): nat {
    if steps == [] then 0
    else (if steps[0].Tick? && steps[0].tick.NotifyAll? then 1 else 0) + Ticks(steps[1..])
  }

  /** Another wait leaving its queue never moves `w` back. */
  lemma OtherLeavingPlace(st: State, x: WaiterId, p: Phase, w: WaiterId)
    requires Core(st) && IsParked(st, w) && x in st.waits && x != w && !p.Parked?
    ensures Core(Leaving(st, x, p)) && IsParked(Leaving(st, x, p), w)
    ensures Place(Leaving(st, x, p), w) <= Place(st, w)
  {
    LeavingCore(st, x, p);
    OwnQueue(st, x);
    OwnQueue(st, w);
    if st.waits[x].notify == st.waits[w].notify && st.waits[x].phase.Parked? {
      LeaveRank(NotifyAt(st, st.waits[w].notify), x, w);
    }
  }

  lemma DrainPlace(st: State, k: nat, w: WaiterId)
    requires Core(st) && IsParked(st, w) && k <= |st.events|
    ensures Core(DrainFirst(st, k)) && IsParked(DrainFirst(st, k), w)
    ensures Place(DrainFirst(st, k), w) <= Place(st, w)
  {
    DrainCore(st, k);
    DrainFrame(st, k);
    OwnQueue(st, w);
    var id := st.waits[w].notify;
    DrainAt(st, k, id);
    TimesRank(st.notifies[id], Hits(st.waiters, st.events[..k], id), w);
  }

  lemma NotifyAllPlace(st: State, order: seq<Session>, w: WaiterId)
    requires Core(st) && IsParked(st, w) && Enumerates(order, st.waiters.Keys)
    ensures Core(SignalAll(st, order)) && IsParked(SignalAll(st, order), w)
    ensures Place(SignalAll(st, order), w) == if Current(st, w) then Minus(Place(st, w), 1) else Place(st, w)
  {
    SignalAllCore(st, order);
    SignalAllFrame(st, order);
    OwnQueue(st, w);
    var id := st.waits[w].notify;
    SignalAllAt(st, order, id);
    NotifyAllAt(st, order, id);
    assert EpochWf(st, w);
    TimesRank(st.notifies[id], Hits(st.waiters, order, id), w);
  }

  lemma OtherWaitPlace(st: State, x: WaiterId, act: WaitStep, w: WaiterId)
    requires Core(st) && IsParked(st, w) && WaitEnabled(st, x, act) && x != w
    ensures Core(WaitNext(st, x, act)) && IsParked(WaitNext(st, x, act), w)
    ensures Place(WaitNext(st, x, act), w) <= Place(st, w)
  {
    WaitStepCore(st, x, act);
    OwnQueue(st, w);
    match act
    case Begin(_, _) =>
    case Park =>
      OwnQueue(st, x);
      ParkRank(NotifyAt(st, st.waits[w].notify), x, w);
    case TakePermit => OwnQueue(st, x);
    case Accept => OwnQueue(st, x);
    case MqDrain(k) =>
      OtherLeavingPlace(st, x, Clearing, w);
      DrainPlace(Leaving(st, x, Clearing), k, w);
    case ClearReady => OtherLeavingPlace(st, x, Selecting(true), w);
    case GraceExpire => OtherLeavingPlace(st, x, Selecting(false), w);
    case TimeOut => OtherLeavingPlace(st, x, Finished(TimedOut), w);
    case MqError => OtherLeavingPlace(st, x, Finished(IoFailed), w);
    case Cancel => OtherLeavingPlace(st, x, Dropped, w);
  }

  lemma EnsureKeeps(st: State, s: Session)
    ensures forall t :: t in st.waiters ==> t in Ensure(st, s).waiters && Ensure(st, s).waiters[t] == st.waiters[t]
  {
  }

  lemma LifeKeeps(st: State, x: LifeStep, s: Session)
    requires LifeEnabled(st, x) && x != Deregister(s) && x != Drop(s) && s in st.waiters
    ensures var st' := LifeNext(st, x); s in st'.waiters && st'.waiters[s] == st.waiters[s] && st'.waits == st.waits
  {
  }

  /** A wait keeps the map's Notify under every step but a deregistration. */
  lemma StaysCurrent(st: State, step: Step, w: WaiterId)
    requires Core(st) && w in st.waits && Current(st, w) && Enabled(st, step)
    requires Bystander(step, w, st.waits[w].session)
    ensures var st' := Next(st, step); w in st'.waits && st'.waits[w] == st.waits[w] && Current(st', w)
  {
    match step
    case Net(_) =>
    case Tick(x) => TickFrame(st, x);
    case OfWait(x, act) =>
      WaitFrame(st, x, act);
      if act.Begin? { EnsureKeeps(st, act.s); }
    case Life(x) => LifeKeeps(st, x, st.waits[w].session);
  }

  lemma PlaceStep(st: State, step: Step, w: WaiterId)
    requires Core(st) && IsParked(st, w) && Current(st, w) && Enabled(st, step)
    requires Bystander(step, w, st.waits[w].session)
    ensures var st' := Next(st, step);
            && Core(st') && IsParked(st', w) && Current(st', w) && st'.waits[w] == st.waits[w]
            && Place(st', w) <= Minus(Place(st, w), Ticks([step]))
  {
    StepCore(st, step);
    StaysCurrent(st, step, w);
    OwnQueue(st, w);
    match step
    case Net(_) =>
    case Tick(Drain(k)) => DrainPlace(st, k, w);
    case Tick(NotifyAll(order)) => NotifyAllPlace(st, order, w);
    case OfWait(x, act) => OtherWaitPlace(st, x, act, w);
    case Life(_) =>
  }

  /** In every run without a step of `w` itself, each tick moves `w` at least one
      place forward, however often the waiters ahead of it queue up again. */
  lemma {:induction false} PlaceRun(st: State, steps: seq<Step>, w: WaiterId)
    requires Core(st) && IsParked(st, w) && Current(st, w) && Valid(st, steps)
    requires forall i :: 0 <= i < |steps| ==> Bystander(steps[i], w, st.waits[w].session)
    ensures var end := Exec(st, steps);
            && Core(end) && IsParked(end, w) && Current(end, w) && end.waits[w] == st.waits[w]
            && Place(end, w) <= Minus(Place(st, w), Ticks(steps))
    decreases |steps|
  {
    if steps != [] {
      PlaceStep(st, steps[0], w);
      assert [steps[0]][1..] == [];
      PlaceRun(Next(st, steps[0]), steps[1..], w);
    }
  }

  /** A waiter with p others ahead of it that stays parked is handed a notification
      within p + 1 ticks. */
  lemma WokenWithinTicks(st: State, steps: seq<Step>, w: WaiterId)
    requires Reachable(st) && Valid(st, steps)
    requires IsParked(st, w) && Current(st, w)
    requires w in NotifyAt(st, st.waits[w].notify).parked
    requires forall i :: 0 <= i < |steps| ==> Bystander(steps[i], w, st.waits[w].session)
    requires Ticks(steps) >= Index(NotifyAt(st, st.waits[w].notify).parked, w) + 1
    ensures WaitEnabled(Exec(st, steps), w, WaitStep.Accept)
  {
    ReachableInv(st);
    OwnQueue(st, w);
    PlaceRun(st, steps, w);
    OwnQueue(Exec(st, steps), w);
  }
}
