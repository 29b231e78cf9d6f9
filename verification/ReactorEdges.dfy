/** No lost edge: an event drained while nobody is parked is kept for the next wait. */
module ReactorEdges {
  import opened Notifies
  import opened ReactorModel
  import opened ReactorInvariants
  import opened ReactorSignals
  import opened ReactorFairness
  import opened ReactorStall
  import opened ReactorOwners

  /** A permit is stored for session `s`, and nobody but `w` can take it. */
  ghost predicate Kept(st: State, w: WaiterId, s: Session) {
    && s in st.waiters
    && NotifyAt(st, st.waiters[s]).permit
    && Alone(st, w, st.waiters[s])
    && (Active(st, w) ==> st.waits[w].notify == st.waiters[s])
  }

  /** `w` is the only task waiting on `s`, it waits on nothing else, and the
      session is not deregistered. */
  predicate Spares(step: Step, w: WaiterId, s: Session) {
    && step != Life(Deregister(s)) && step != Life(Drop(s))
    && (step.OfWait? && step.act.Begin? ==> (step.w == w <==> step.act.s == s))
  }

  /** Another wait reaches the Notify `id` only through the events it drains. */
  lemma OtherWaitAt(st: State, x: WaiterId, act: WaitStep, id: nat)
    requires Core(st) && WaitEnabled(st, x, act) && id < |st.notifies|
    requires act.Begin? || st.waits[x].notify != id
    ensures var st' := WaitNext(st, x, act);
            && |st'.notifies| >= |st.notifies|
            && st'.notifies[id] ==
               Times(st.notifies[id], if act.MqDrain? then Hits(st.waiters, st.events[..act.k], id) else 0)
  {
    match act
    case MqDrain(k) => DrainAt(Leaving(st, x, Clearing), k, id);
    case _ =>
  }

  lemma OwnStepKeeps(st: State, act: WaitStep, w: WaiterId, s: Session)
    requires Core(st) && Kept(st, w, s) && WaitEnabled(st, w, act)
    requires !act.TakePermit? && (act.Begin? ==> act.s == s)
    ensures Kept(WaitNext(st, w, act), w, s)
  {
    var id := st.waiters[s];
    WaitFrame(st, w, act);
    assert QueueWf(st, id);
    if !act.Begin? {
      OwnQueue(st, w);
      var n := NotifyAt(st, st.waits[w].notify);
      if act.MqDrain? {
        var st1 := Leaving(st, w, Clearing);
        DrainAt(st1, act.k, id);
        TimesPermit(st1.notifies[id], Hits(st1.waiters, st1.events[..act.k], id));
      }
    }
  }

  lemma OtherStepKeeps(st: State, x: WaiterId, act: WaitStep, w: WaiterId, s: Session)
    requires Core(st) && Kept(st, w, s) && WaitEnabled(st, x, act)
    requires x != w && (act.Begin? ==> act.s != s)
    ensures Kept(WaitNext(st, x, act), w, s)
  {
    var id := st.waiters[s];
    var st' := WaitNext(st, x, act);
    WaitFrame(st, x, act);
    if act.Begin? { EnsureKeeps(st, act.s); } else { OwnQueue(st, x); }
    assert QueueWf(st, id);
    OtherWaitAt(st, x, act, id);
    TimesPermit(st.notifies[id], if act.MqDrain? then Hits(st.waiters, st.events[..act.k], id) else 0);
    forall y | y in st'.waits && y != w && Active(st', y) ensures st'.waits[y].notify != id {
      if y != x || !act.Begin? { assert Active(st, y); } else { WaitStepCore(st, x, act); }
    }
  }

  lemma TickKeeps(st: State, x: TickStep, w: WaiterId, s: Session)
    requires Core(st) && Kept(st, w, s) && TickEnabled(st, x)
    ensures Kept(TickNext(st, x), w, s)
  {
    var id := st.waiters[s];
    TickFrame(st, x);
    assert QueueWf(st, id);
    match x
    case Drain(k) =>
      DrainAt(st, k, id);
      TimesPermit(st.notifies[id], Hits(st.waiters, st.events[..k], id));
    case NotifyAll(order) =>
      SignalAllAt(st, order, id);
      TimesPermit(st.notifies[id], Hits(st.waiters, order, id));
  }

  lemma NetStepKeeps(st: State, x: NetStep, w: WaiterId, s: Session)
    requires Kept(st, w, s) && NetEnabled(st, x)
    ensures Kept(NetNext(st, x), w, s)
  {
    assert NetNext(st, x).waits == st.waits;
  }

  lemma LifeStepKeeps(st: State, x: LifeStep, w: WaiterId, s: Session)
    requires Kept(st, w, s) && LifeEnabled(st, x) && x != Deregister(s) && x != Drop(s)
    ensures Kept(LifeNext(st, x), w, s)
  {
    LifeKeeps(st, x, s);
  }

  lemma KeptStep(st: State, step: Step, w: WaiterId, s: Session)
    requires Core(st) && Kept(st, w, s) && Enabled(st, step) && Spares(step, w, s)
    requires step != OfWait(w, WaitStep.TakePermit)
    ensures Kept(Next(st, step), w, s)
  {
    match step
    case Net(x) => NetStepKeeps(st, x, w, s);
    case Tick(x) => TickKeeps(st, x, w, s);
    case OfWait(x, act) => if x == w { OwnStepKeeps(st, act, w, s); } else { OtherStepKeeps(st, x, act, w, s); }
    case Life(x) => LifeStepKeeps(st, x, w, s);
  }

  /** Over every run the permit stays until `w` itself takes it. */
  lemma {:induction false} KeptRun(st: State, steps: seq<Step>, w: WaiterId, s: Session)
    requires Core(st) && Kept(st, w, s) && Valid(st, steps)
    requires forall i :: 0 <= i < |steps| ==> Spares(steps[i], w, s)
    requires OfWait(w, WaitStep.TakePermit) !in steps
    ensures Core(Exec(st, steps)) && Kept(Exec(st, steps), w, s)
    decreases |steps|
  {
    if steps != [] {
      assert steps[0] in steps;
      StepCore(st, steps[0]);
      KeptStep(st, steps[0], w, s);
      KeptRun(Next(st, steps[0]), steps[1..], w, s);
    }
  }

  /** While the permit is stored, `w` can complete and cannot park. */
  lemma KeptCompletes(st: State, w: WaiterId, s: Session, timeout: nat)
    requires Core(st) && Kept(st, w, s)
    ensures !WaitEnabled(st, w, WaitStep.Park)
    ensures Active(st, w) ==>
              || WaitEnabled(st, w, WaitStep.TakePermit)
              || WaitEnabled(st, w, WaitStep.Accept)
              || st.waits[w].phase.Clearing?
    ensures WaitEnabled(st, w, Begin(s, timeout)) ==>
              WaitEnabled(WaitNext(st, w, Begin(s, timeout)), w, WaitStep.TakePermit)
  {
    if Active(st, w) { OwnQueue(st, w); }
  }

  /** A drain that carries an event of `s` while nobody is parked on it stores the permit. */
  lemma DrainStoresPermit(st: State, k: nat, w: WaiterId, s: Session)
    requires Core(st) && s in st.waiters && k <= |st.events| && s in st.events[..k]
    requires !Active(st, w) && Alone(st, w, st.waiters[s])
    ensures Kept(DrainFirst(st, k), w, s)
  {
    var id := st.waiters[s];
    assert QueueWf(st, id);
    var n := st.notifies[id];
    assert |n.parked| > 0 ==> Queued(n, n.parked[0]);
    assert |n.parked| > 0 ==> OnNotify(st, n.parked[0], id);
    DrainFrame(st, k);
    DrainAt(st, k, id);
    SomeHits(st, st.events[..k], s);
    TimesPermit(n, Hits(st.waiters, st.events[..k], id));
  }

  /** A drain of the first k events, by the tick or by the eventfd branch of a
      wait other than `w`. */
  predicate Drains(step: Step, w: WaiterId, k: nat) {
    step == Tick(Drain(k)) || (step.OfWait? && step.w != w && step.act == MqDrain(k))
  }

  lemma FirstDrainKeeps(st: State, first: Step, k: nat, w: WaiterId, s: Session)
    requires Core(st) && Enabled(st, first) && Drains(first, w, k) && s in st.waiters
    requires k <= |st.events| && s in st.events[..k]
    requires !Active(st, w) && Alone(st, w, st.waiters[s])
    ensures Kept(Next(st, first), w, s)
  {
    if first.Tick? {
      DrainStoresPermit(st, k, w, s);
    } else {
      LeavingCore(st, first.w, Clearing);
      DrainStoresPermit(Leaving(st, first.w, Clearing), k, w, s);
    }
  }

  /** An event drained between a failed read and the next wait, by whomever, is
      not lost: in every run after it, `w` has taken the permit or its next wait
      can take it at once. */
  lemma NoLostEdge(st: State, first: Step, k: nat, steps: seq<Step>, w: WaiterId, s: Session, timeout: nat)
    requires Reachable(st) && Valid(st, [first] + steps) && Drains(first, w, k)
    requires s in st.waiters && k <= |st.events| && s in st.events[..k]
    requires !Active(st, w) && Alone(st, w, st.waiters[s])
    requires forall i :: 0 <= i < |steps| ==> Spares(steps[i], w, s)
    requires OfWait(w, WaitStep.TakePermit) !in steps
    ensures var end := Exec(st, [first] + steps);
            && Kept(end, w, s)
            && (WaitEnabled(end, w, Begin(s, timeout)) ==>
                  WaitEnabled(WaitNext(end, w, Begin(s, timeout)), w, WaitStep.TakePermit))
  {
    ReachableInv(st);
    assert ([first] + steps)[1..] == steps;
    FirstDrainKeeps(st, first, k, w, s);
    StepCore(st, first);
    KeptRun(Next(st, first), steps, w, s);
    KeptCompletes(Exec(Next(st, first), steps), w, s, timeout);
  }

  /** What becomes of an event of `s` drained before the first wait on it: in every
      run up to that wait, the wait can complete at once if and only if the map had
      an entry for `s` when the event was drained. Being in the epoll set is not enough. */
  lemma DrainedBeforeWait(st: State, first: Step, k: nat, steps: seq<Step>, w: WaiterId, s: Session, timeout: nat)
    requires Core(st) && Valid(st, [first] + steps) && Drains(first, w, k)
    requires k <= |st.events| && s in st.events[..k]
    requires !Active(st, w) && (s in st.waiters ==> Alone(st, w, st.waiters[s]))
    requires forall i :: 0 <= i < |steps| ==> Spares(steps[i], w, s) && !Starts(steps[i], s)
    requires WaitEnabled(Exec(st, [first] + steps), w, Begin(s, timeout))
    ensures var begun := WaitNext(Exec(st, [first] + steps), w, Begin(s, timeout));
            && (WaitEnabled(begun, w, WaitStep.TakePermit) <==> s in st.waiters)
            && (WaitEnabled(begun, w, WaitStep.Park) <==> s !in st.waiters)
  {
    DrainedKept(st, first, k, steps, w, s);
    BeginPermit(Exec(st, [first] + steps), w, s, timeout);
  }

  lemma DrainedKept(st: State, first: Step, k: nat, steps: seq<Step>, w: WaiterId, s: Session)
    requires Core(st) && Valid(st, [first] + steps) && Drains(first, w, k)
    requires k <= |st.events| && s in st.events[..k]
    requires !Active(st, w) && (s in st.waiters ==> Alone(st, w, st.waiters[s]))
    requires forall i :: 0 <= i < |steps| ==> Spares(steps[i], w, s) && !Starts(steps[i], s)
    ensures if s in st.waiters then Kept(Exec(st, [first] + steps), w, s) else s !in Exec(st, [first] + steps).waiters
  {
    var all := [first] + steps;
    assert all[1..] == steps;
    if s in st.waiters {
      FirstDrainKeeps(st, first, k, w, s);
      StepCore(st, first);
      IdleStep(st, first, w, s);
      NeverTakes(Next(st, first), steps, w, s);
      KeptRun(Next(st, first), steps, w, s);
    } else {
      KeyIff(st, all, s);
      assert forall i: nat :: !Began(all, s, i);
    }
  }

  lemma BeginPermit(st: State, w: WaiterId, s: Session, timeout: nat)
    requires WaitEnabled(st, w, Begin(s, timeout))
    ensures var begun := WaitNext(st, w, Begin(s, timeout));
            && (WaitEnabled(begun, w, WaitStep.TakePermit) <==> s in st.waiters && NotifyAt(st, st.waiters[s]).permit)
            && (WaitEnabled(begun, w, WaitStep.Park) <==> !WaitEnabled(begun, w, WaitStep.TakePermit))
  {
  }

  /** A task that is not waiting and does not begin takes no permit. */
  lemma {:induction false} NeverTakes(st: State, steps: seq<Step>, w: WaiterId, s: Session)
    requires Valid(st, steps) && !Active(st, w)
    requires forall i :: 0 <= i < |steps| ==> Spares(steps[i], w, s) && !Starts(steps[i], s)
    ensures OfWait(w, WaitStep.TakePermit) !in steps
    decreases |steps|
  {
    if steps != [] {
      IdleStep(st, steps[0], w, s);
      NeverTakes(Next(st, steps[0]), steps[1..], w, s);
    }
  }

  lemma IdleStep(st: State, step: Step, w: WaiterId, s: Session)
    requires Enabled(st, step) && !Active(st, w) && Spares(step, w, s) && !Starts(step, s)
    ensures step != OfWait(w, WaitStep.TakePermit) && !Active(Next(st, step), w)
  {
    match step
    case Net(_) =>
    case Tick(x) => TickFrame(st, x);
    case OfWait(x, act) => WaitFrame(st, x, act);
    case Life(_) =>
  }
}
