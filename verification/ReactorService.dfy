/** A wait that shares its Notify with nobody is served by any tick, however often
    its eventfd branch makes it start over. */
module ReactorService {
  import opened Notifies
  import opened ReactorModel
  import opened ReactorInvariants
  import opened ReactorSignals
  import opened ReactorFairness
  import opened ReactorStall
  import opened ReactorEdges
  import opened ReactorPolls
  import opened Errors

  /** `w` waits for `s` on the live Notify, and nobody else holds that Notify. */
  ghost predicate Sole(st: State, w: WaiterId, s: Session) {
    Active(st, w) && st.waits[w].session == s && Current(st, w) && Alone(st, w, st.waits[w].notify)
  }

  /** A notification is stored for `w` or was already handed to it. */
  ghost predicate Owed(st: State, w: WaiterId, s: Session) {
    && Sole(st, w, s)
    && var n := NotifyAt(st, st.waits[w].notify); n.permit || w in n.woken
  }

  /** Everything but: taking the session down, another wait on it, and `w`
      starting over as a new wait or being dropped. */
  predicate Undisturbed(step: Step, w: WaiterId, s: Session) {
    match step
    case Net(_) => true
    case Tick(_) => true
    case OfWait(x, act) => if x == w then !act.Begin? && !act.Cancel? else !(act.Begin? && act.s == s)
    case Life(x) => x != Deregister(s) && x != Drop(s)
  }

  /** `w` returned Ok, or gave up by a step that is in `steps`. */
  ghost predicate Returned(st: State, w: WaiterId, steps: seq<Step>) {
    && w in st.waits
    && (|| st.waits[w].phase == Finished(Woken)
        || (st.waits[w].phase == Finished(TimedOut) && OfWait(w, TimeOut) in steps)
        || (st.waits[w].phase == Finished(IoFailed) && OfWait(w, MqError) in steps))
  }

  // ---- The Notify of a sole waiter ----

  lemma SoleQueue(st: State, w: WaiterId, s: Session)
    requires Core(st) && Sole(st, w, s)
    ensures forall x :: Queued(NotifyAt(st, st.waits[w].notify), x) ==> x == w
  {
    OwnQueue(st, w);
    forall x | Queued(NotifyAt(st, st.waits[w].notify), x) ensures x == w {
      assert OnNotify(st, x, st.waits[w].notify);
      assert Active(st, x);
    }
  }

  lemma {:induction false} TimesOwed(n: Notify, k: nat, w: WaiterId)
    requires Wf(n) && (n.permit || w in n.woken)
    ensures Times(n, k).permit || w in Times(n, k).woken
    decreases k
  {
    if k > 0 {
      NotifyOneWf(n);
      TimesOwed(NotifyOne(n), k - 1, w);
    }
  }

  /** Any number of notifications reaches a Notify that only `w` can be queued on. */
  lemma TimesHit(n: Notify, k: nat, w: WaiterId)
    requires Wf(n) && k > 0 && forall x :: Queued(n, x) ==> x == w
    ensures Times(n, k).permit || w in Times(n, k).woken
  {
    assert n.parked != [] ==> Queued(n, n.parked[0]);
    NotifyOneWf(n);
    TimesOwed(NotifyOne(n), k - 1, w);
  }

  /** Dropping a `notified()` future that holds the notification stores it. */
  lemma LeavingOwed(st: State, w: WaiterId, s: Session, p: Phase)
    requires Core(st) && Owed(st, w, s) && !p.Parked?
    ensures var n := NotifyAt(Leaving(st, w, p), st.waits[w].notify); n.permit && n.parked == []
  {
    OwnQueue(st, w);
    SoleQueue(st, w, s);
    var n := NotifyAt(st, st.waits[w].notify);
    assert n.parked != [] ==> Queued(n, n.parked[0]);
  }

  // ---- Staying the sole waiter ----

  lemma SoleOwn(st: State, act: WaitStep, w: WaiterId, s: Session)
    requires Core(st) && Sole(st, w, s) && WaitEnabled(st, w, act) && !act.Begin? && !act.Cancel?
    ensures Sole(WaitNext(st, w, act), w, s) || Returned(WaitNext(st, w, act), w, [OfWait(w, act)])
  {
    var st' := WaitNext(st, w, act);
    WaitFrame(st, w, act);
    if act.MqDrain? { DrainFrame(Leaving(st, w, Clearing), act.k); }
    assert forall y :: y != w && Active(st', y) ==> Active(st, y) && st'.waits[y] == st.waits[y];
  }

  lemma SoleOther(st: State, x: WaiterId, act: WaitStep, w: WaiterId, s: Session)
    requires Core(st) && Sole(st, w, s) && WaitEnabled(st, x, act) && x != w && !(act.Begin? && act.s == s)
    ensures Sole(WaitNext(st, x, act), w, s) && WaitNext(st, x, act).waits[w] == st.waits[w]
  {
    var st' := WaitNext(st, x, act);
    StaysCurrent(st, OfWait(x, act), w);
    WaitFrame(st, x, act);
    WaitStepCore(st, x, act);
    forall y | y in st'.waits && y != w && Active(st', y) ensures st'.waits[y].notify != st.waits[w].notify {
      if y != x || !act.Begin? {
        assert Active(st, y);
      }
    }
  }

  lemma SoleStep(st: State, step: Step, w: WaiterId, s: Session)
    requires Core(st) && Sole(st, w, s) && Enabled(st, step) && Undisturbed(step, w, s)
    ensures Sole(Next(st, step), w, s) || Returned(Next(st, step), w, [step])
  {
    match step
    case Net(x) => assert NetNext(st, x).waits == st.waits;
    case Tick(x) => TickFrame(st, x);
    case OfWait(x, act) => if x == w { SoleOwn(st, act, w, s); } else { SoleOther(st, x, act, w, s); }
    case Life(x) => LifeKeeps(st, x, s);
  }

  // ---- Staying owed ----

  lemma OwedOwn(st: State, act: WaitStep, w: WaiterId, s: Session)
    requires Core(st) && Owed(st, w, s) && WaitEnabled(st, w, act) && !act.Begin? && !act.Cancel?
    ensures Owed(WaitNext(st, w, act), w, s) || Returned(WaitNext(st, w, act), w, [OfWait(w, act)])
  {
    SoleOwn(st, act, w, s);
    OwnQueue(st, w);
    var id := st.waits[w].notify;
    match act
    case MqDrain(k) =>
      var left := Leaving(st, w, Clearing);
      LeavingOwed(st, w, s, Clearing);
      WaitFrame(st, w, act);
      DrainAt(left, k, id);
      TimesPermit(left.notifies[id], Hits(left.waiters, left.events[..k], id));
    case ClearReady => LeavingOwed(st, w, s, Selecting(true));
    case GraceExpire => LeavingOwed(st, w, s, Selecting(false));
    case _ =>
  }

  lemma OwedOther(st: State, x: WaiterId, act: WaitStep, w: WaiterId, s: Session)
    requires Core(st) && Owed(st, w, s) && WaitEnabled(st, x, act) && x != w && !(act.Begin? && act.s == s)
    ensures Owed(WaitNext(st, x, act), w, s)
  {
    SoleOther(st, x, act, w, s);
    OwnQueue(st, w);
    var id := st.waits[w].notify;
    if !act.Begin? && st.waits[x].notify == id { return; }
    OtherWaitAt(st, x, act, id);
    TimesOwed(st.notifies[id], if act.MqDrain? then Hits(st.waiters, st.events[..act.k], id) else 0, w);
  }

  lemma OwedTick(st: State, x: TickStep, w: WaiterId, s: Session)
    requires Core(st) && Owed(st, w, s) && TickEnabled(st, x)
    ensures Owed(TickNext(st, x), w, s)
  {
    var id := st.waits[w].notify;
    TickFrame(st, x);
    OwnQueue(st, w);
    match x
    case Drain(k) =>
      DrainAt(st, k, id);
      TimesOwed(st.notifies[id], Hits(st.waiters, st.events[..k], id), w);
    case NotifyAll(order) =>
      SignalAllAt(st, order, id);
      TimesOwed(st.notifies[id], Hits(st.waiters, order, id), w);
  }

  lemma OwedStep(st: State, step: Step, w: WaiterId, s: Session)
    requires Core(st) && Owed(st, w, s) && Enabled(st, step) && Undisturbed(step, w, s)
    ensures Owed(Next(st, step), w, s) || Returned(Next(st, step), w, [step])
  {
    match step
    case Net(x) => assert NetNext(st, x).waits == st.waits;
    case Tick(x) => OwedTick(st, x, w, s);
    case OfWait(x, act) => if x == w { OwedOwn(st, act, w, s); } else { OwedOther(st, x, act, w, s); }
    case Life(x) => LifeKeeps(st, x, s);
  }

  /** One notify-all reaches a sole waiter wherever it stands in its loop. */
  lemma TickOwes(st: State, order: seq<Session>, w: WaiterId, s: Session)
    requires Core(st) && Sole(st, w, s) && TickEnabled(st, NotifyAll(order))
    ensures Owed(TickNext(st, NotifyAll(order)), w, s)
  {
    var id := st.waits[w].notify;
    TickFrame(st, NotifyAll(order));
    OwnQueue(st, w);
    SoleQueue(st, w, s);
    SignalAllAt(st, order, id);
    NotifyAllAt(st, order, id);
    TimesHit(st.notifies[id], 1, w);
  }

  /** So does a drain that carries an event of its session ... */
  lemma DrainOwes(st: State, k: nat, w: WaiterId, s: Session)
    requires Core(st) && Sole(st, w, s) && k <= |st.events| && s in st.events[..k]
    ensures Owed(DrainFirst(st, k), w, s)
  {
    var id := st.waits[w].notify;
    DrainFrame(st, k);
    OwnQueue(st, w);
    SoleQueue(st, w, s);
    DrainAt(st, k, id);
    SomeHits(st, st.events[..k], s);
    TimesHit(st.notifies[id], Hits(st.waiters, st.events[..k], id), w);
  }

  /** ... whoever drains: the tick, another wait, or `w` itself. */
  predicate DrainsEvents(step: Step, k: nat) {
    step == Tick(Drain(k)) || (step.OfWait? && step.act == MqDrain(k))
  }

  lemma EventOwes(st: State, step: Step, k: nat, w: WaiterId, s: Session)
    requires Core(st) && Sole(st, w, s) && Enabled(st, step) && DrainsEvents(step, k)
    requires k <= |st.events| && s in st.events[..k]
    ensures Owed(Next(st, step), w, s)
  {
    if step.Tick? {
      DrainOwes(st, k, w, s);
    } else {
      var left := Leaving(st, step.w, Clearing);
      LeavingCore(st, step.w, Clearing);
      assert forall y :: Active(left, y) ==> Active(st, y) && left.waits[y].notify == st.waits[y].notify;
      DrainOwes(left, k, w, s);
    }
  }

  // ---- Whole runs ----

  lemma ReturnedStep(st: State, step: Step, w: WaiterId, s: Session)
    requires Enabled(st, step) && Undisturbed(step, w, s) && w in st.waits && st.waits[w].phase.Finished?
    ensures w in Next(st, step).waits && Next(st, step).waits[w] == st.waits[w]
  {
    match step
    case Net(_) =>
    case Tick(x) => TickFrame(st, x);
    case OfWait(x, act) => WaitFrame(st, x, act);
    case Life(_) =>
  }

  lemma {:induction false} ReturnedRun(st: State, steps: seq<Step>, w: WaiterId, s: Session)
    requires Valid(st, steps) && w in st.waits && st.waits[w].phase.Finished?
    requires forall i :: 0 <= i < |steps| ==> Undisturbed(steps[i], w, s)
    ensures w in Exec(st, steps).waits && Exec(st, steps).waits[w] == st.waits[w]
    decreases |steps|
  {
    if steps != [] {
      ReturnedStep(st, steps[0], w, s);
      ReturnedRun(Next(st, steps[0]), steps[1..], w, s);
    }
  }

  /** A notification owed to a sole waiter stays owed until the waiter returns. */
  lemma {:induction false} OwedRun(st: State, steps: seq<Step>, w: WaiterId, s: Session)
    requires Core(st) && Owed(st, w, s) && Valid(st, steps)
    requires forall i :: 0 <= i < |steps| ==> Undisturbed(steps[i], w, s)
    ensures Owed(Exec(st, steps), w, s) || Returned(Exec(st, steps), w, steps)
    decreases |steps|
  {
    if steps != [] {
      StepCore(st, steps[0]);
      var st' := Next(st, steps[0]);
      OwedStep(st, steps[0], w, s);
      if Owed(st', w, s) {
        OwedRun(st', steps[1..], w, s);
      } else {
        ReturnedRun(st', steps[1..], w, s);
      }
    }
  }

  lemma TickRun(st: State, steps: seq<Step>, w: WaiterId, s: Session)
    requires Core(st) && Sole(st, w, s) && Valid(st, steps)
    requires steps != [] && steps[0].Tick? && steps[0].tick.NotifyAll?
    requires forall i :: 0 <= i < |steps| ==> Undisturbed(steps[i], w, s)
    ensures Owed(Exec(st, steps), w, s) || Returned(Exec(st, steps), w, steps)
  {
    StepCore(st, steps[0]);
    TickOwes(st, steps[0].tick.order, w, s);
    OwedRun(Next(st, steps[0]), steps[1..], w, s);
  }

  lemma {:induction false} SoleRun(st: State, steps: seq<Step>, w: WaiterId, s: Session)
    requires Core(st) && Sole(st, w, s) && Valid(st, steps) && Ticks(steps) > 0
    requires forall i :: 0 <= i < |steps| ==> Undisturbed(steps[i], w, s)
    ensures Owed(Exec(st, steps), w, s) || Returned(Exec(st, steps), w, steps)
    decreases |steps|
  {
    var st' := Next(st, steps[0]);
    StepCore(st, steps[0]);
    if steps[0].Tick? && steps[0].tick.NotifyAll? {
      TickRun(st, steps, w, s);
    } else {
      SoleStep(st, steps[0], w, s);
      if Sole(st', w, s) {
        SoleRun(st', steps[1..], w, s);
      } else {
        ReturnedRun(st', steps[1..], w, s);
      }
    }
  }

  /** From every reachable state and in every run with at least one tick, a sole
      waiter that does not itself time out or lose the eventfd has returned Ok, or
      holds a notification, cannot park, and can complete at its next poll. */
  lemma SoleServed(st: State, steps: seq<Step>, w: WaiterId, s: Session)
    requires Reachable(st) && Sole(st, w, s) && Valid(st, steps) && Ticks(steps) > 0
    requires forall i :: 0 <= i < |steps| ==> Undisturbed(steps[i], w, s)
    requires OfWait(w, TimeOut) !in steps && OfWait(w, MqError) !in steps
    ensures var end := Exec(st, steps);
            || (w in end.waits && end.waits[w].phase == Finished(Woken))
            || (&& Owed(end, w, s) && !WaitEnabled(end, w, WaitStep.Park)
                && (|| WaitEnabled(end, w, WaitStep.TakePermit) || WaitEnabled(end, w, WaitStep.Accept)
                    || end.waits[w].phase.Clearing?))
  {
    ReachableInv(st);
    SoleRun(st, steps, w, s);
    RunInv(st, steps);
    var end := Exec(st, steps);
    if Owed(end, w, s) { OwnQueue(end, w); }
  }

  /** No event is lost on a sole waiter: in every run after a drain that carries one
      of its session, the waiter has returned or holds a notification. */
  lemma EventServed(st: State, first: Step, k: nat, steps: seq<Step>, w: WaiterId, s: Session)
    requires Reachable(st) && Sole(st, w, s) && Valid(st, [first] + steps) && DrainsEvents(first, k)
    requires k <= |st.events| && s in st.events[..k]
    requires forall i :: 0 <= i < |steps| ==> Undisturbed(steps[i], w, s)
    ensures var end := Exec(st, [first] + steps); Owed(end, w, s) || Returned(end, w, steps)
  {
    ReachableInv(st);
    assert ([first] + steps)[1..] == steps;
    EventOwes(st, first, k, w, s);
    StepCore(st, first);
    OwedRun(Next(st, first), steps, w, s);
  }

  /** The stall ends with the first tick: over every run in which nobody takes the
      bytes away, the waiter is served as above, the bytes it stalled on are still
      there to be read, and reading them all makes the next arrival raise an event. */
  lemma TickEndsStall(st: State, steps: seq<Step>, w: WaiterId, s: Session, bytes: nat, edge: bool)
    requires Reachable(st) && Stalled(st, w, s) && Valid(st, steps) && Ticks(steps) > 0 && bytes > 0
    requires forall i :: 0 <= i < |steps| ==> Undisturbed(steps[i], w, s) && KeepsBytes(steps[i], s)
    ensures var end := Exec(st, steps);
            && (Owed(end, w, s) || Returned(end, w, steps))
            && Bytes(end, s) >= Bytes(st, s) > 0
            && NetEnabled(end, Read(s, Bytes(end, s)))
            && var empty := NetNext(end, Read(s, Bytes(end, s)));
            (s in empty.epoll ==> NetNext(empty, Arrive(s, bytes, edge)).events == empty.events + [s])
  {
    ReachableInv(st);
    SoleRun(st, steps, w, s);
    BytesRun(st, steps, s);
  }

  // ---- Polls ----

  /** A poll of a sole waiter that holds a notification is never Pending, through
      however many rounds of the eventfd branch it goes. */
  lemma OwedPollReady(st: State, trace: seq<Step>, end: State, w: WaiterId, s: Session, r: Poll<Result<()>>)
    requires Inv(st) && Ran(st, trace, end, w) && Polled(st, end, w, s, r)
    ensures Owed(st, w, s) ==> r.Ready?
  {
    if Owed(st, w, s) {
      OwedRun(st, trace, w, s);
      OwnQueue(end, w);
    }
  }

  /** A wait begun on a stored permit holds a notification from the start. */
  lemma KeptBegins(st: State, w: WaiterId, s: Session, timeout: nat)
    requires Core(st) && Kept(st, w, s) && WaitEnabled(st, w, Begin(s, timeout))
    ensures Owed(WaitNext(st, w, Begin(s, timeout)), w, s)
  {
    var st' := WaitNext(st, w, Begin(s, timeout));
    assert forall y :: y != w && Active(st', y) ==> Active(st, y);
  }
}
