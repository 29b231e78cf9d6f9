/** What every step of the wake-up protocol keeps, and so every run. */
module ReactorInvariants {
  import opened Notifies
  import opened ReactorModel

  ghost predicate MapWf(st: State) {
    && (forall s :: s in st.waiters ==> st.waiters[s] < |st.notifies|)
    && (forall s, t :: s in st.waiters && t in st.waiters && s != t ==> st.waiters[s] != st.waiters[t])
  }

  ghost predicate OnNotify(st: State, w: WaiterId, id: nat) {
    w in st.waits && st.waits[w].phase.Parked? && st.waits[w].notify == id
  }

  /** A Notify's queue holds exactly the futures parked on it. */
  ghost predicate QueueWf(st: State, id: nat)
    requires id < |st.notifies|
  {
    && Wf(st.notifies[id])
    && forall w :: Queued(st.notifies[id], w) <==> OnNotify(st, w, id)
  }

  ghost predicate Current(st: State, w: WaiterId)
    requires w in st.waits
  {
    st.waits[w].session in st.waiters && st.waiters[st.waits[w].session] == st.waits[w].notify
  }

  /** A wait holds the map's current Notify for its session if and only if the
      session was not deregistered since the wait began; a Notify that left the
      map never comes back. */
  ghost predicate EpochWf(st: State, w: WaiterId)
    requires w in st.waits
  {
    var x := st.waits[w];
    && x.notify < |st.notifies|
    && x.epoch <= Deregs(st, x.session)
    && (x.epoch == Deregs(st, x.session) <==> Current(st, w))
    && (!Current(st, w) ==> forall s :: s in st.waiters ==> st.waiters[s] != x.notify)
  }

  ghost predicate Core(st: State) {
    && MapWf(st)
    && (forall id :: 0 <= id < |st.notifies| ==> QueueWf(st, id))
    && (forall w :: w in st.waits ==> EpochWf(st, w))
  }

  /** VPP's flag is set exactly while the FIFO holds bytes. */
  ghost predicate FlagWf(rx: Rx) {
    forall s :: s in rx.hasEvent <==> Held(rx, s) > 0
  }

  /** Every map entry and every epoll member has an owner; the only keys without a
      living one are those a failed connect left behind. */
  ghost predicate OwnerWf(own: Owners, keys: set<Session>, epoll: set<Session>) {
    && epoll <= own.live + own.connecting
    && keys <= own.live + own.connecting + own.leaked
    && own.leaked <= keys
    && own.closing !! keys
    && own.live !! own.connecting
    && own.closing !! own.live + own.connecting
  }

  ghost predicate Punctual(st: State) {
    forall w :: w in st.waits && st.waits[w].phase == Finished(TimedOut) ==> st.now >= st.waits[w].deadline
  }

  ghost predicate Inv(st: State) {
    Core(st) && FlagWf(st.rx) && OwnerWf(st.own, st.waiters.Keys, st.epoll) && Punctual(st)
  }

  // ---- Frames of Signal ----

  /** Signals touch nothing but the Notify table, and that only in place. */
  ghost predicate SameButNotifies(a: State, b: State) {
    b == a.(notifies := b.notifies) && |b.notifies| == |a.notifies|
  }

  lemma {:induction false} SignalAllFrame(st: State, ss: seq<Session>)
    ensures SameButNotifies(st, SignalAll(st, ss))
    decreases |ss|
  {
    if ss != [] {
      SignalAllFrame(Signal(st, ss[0]), ss[1..]);
    }
  }

  lemma SignalCore(st: State, s: Session)
    requires Core(st)
    ensures Core(Signal(st, s))
  {
    if s in st.waiters {
      var id := st.waiters[s];
      assert QueueWf(st, id);
      NotifyOneWf(st.notifies[id]);
      var st' := Signal(st, s);
      assert forall w, i :: OnNotify(st', w, i) <==> OnNotify(st, w, i);
      forall i | 0 <= i < |st'.notifies| ensures QueueWf(st', i) {
        assert QueueWf(st, i);
      }
      forall w | w in st'.waits ensures EpochWf(st', w) {
        assert EpochWf(st, w);
        assert Current(st', w) <==> Current(st, w);
      }
    }
  }

  lemma {:induction false} SignalAllCore(st: State, ss: seq<Session>)
    requires Core(st)
    ensures Core(SignalAll(st, ss))
    decreases |ss|
  {
    if ss != [] {
      SignalCore(st, ss[0]);
      SignalAllCore(Signal(st, ss[0]), ss[1..]);
    }
  }

  // ---- The wait's own moves ----

  lemma MoveCore(st: State, w: WaiterId, n: Notify, p: Phase)
    requires Core(st) && w in st.waits
    requires Wf(n)
    requires forall x :: Queued(n, x) <==>
                           if x == w then p.Parked? else Queued(NotifyAt(st, st.waits[w].notify), x)
    ensures Core(Move(st, w, n, p))
  {
    var st' := Move(st, w, n, p);
    var id := st.waits[w].notify;
    assert EpochWf(st, w);
    forall i | 0 <= i < |st'.notifies| ensures QueueWf(st', i) {
      assert QueueWf(st, i);
      forall x ensures Queued(st'.notifies[i], x) <==> OnNotify(st', x, i) {
        assert Queued(st.notifies[i], x) <==> OnNotify(st, x, i);
      }
    }
    forall x | x in st'.waits ensures EpochWf(st', x) {
      assert EpochWf(st, x);
      assert Current(st', x) <==> Current(st, x);
    }
  }

  /** The wait's own Notify, and whether the wait is in its queue. */
  lemma OwnQueue(st: State, w: WaiterId)
    requires Core(st) && w in st.waits
    ensures st.waits[w].notify < |st.notifies|
    ensures QueueWf(st, st.waits[w].notify)
    ensures Queued(NotifyAt(st, st.waits[w].notify), w) <==> st.waits[w].phase.Parked?
  {
    assert EpochWf(st, w);
    assert QueueWf(st, st.waits[w].notify);
    assert OnNotify(st, w, st.waits[w].notify) <==> st.waits[w].phase.Parked?;
  }

  lemma LeavingCore(st: State, w: WaiterId, p: Phase)
    requires Core(st) && w in st.waits && !p.Parked?
    ensures Core(Leaving(st, w, p))
  {
    OwnQueue(st, w);
    var n := NotifyAt(st, st.waits[w].notify);
    if st.waits[w].phase.Parked? {
      LeaveWf(n, w);
      MoveCore(st, w, Notifies.Leave(n, w), p);
    } else {
      MoveCore(st, w, n, p);
    }
  }

  /** Allocating a Notify nobody waits on yet. */
  lemma EnsureCore(st: State, s: Session)
    requires Core(st)
    ensures Core(Ensure(st, s))
  {
    if s in st.waiters { return; }
    var st' := Ensure(st, s);
    assert forall x, i :: OnNotify(st', x, i) <==> OnNotify(st, x, i);
    forall i | 0 <= i < |st'.notifies| ensures QueueWf(st', i) {
      if i < |st.notifies| {
        assert QueueWf(st, i);
      } else {
        forall x ensures !OnNotify(st, x, i) {
          if x in st.waits { assert EpochWf(st, x); }
        }
      }
    }
    forall x | x in st'.waits ensures EpochWf(st', x) {
      assert EpochWf(st, x);
    }
  }

  lemma JoinCore(st: State, w: WaiterId, s: Session, timeout: nat)
    requires Core(st) && !Active(st, w) && s in st.waiters
    ensures Core(BeginWait(st, w, s, timeout))
  {
    var st' := BeginWait(st, w, s, timeout);
    assert forall x, i :: OnNotify(st', x, i) <==> OnNotify(st, x, i);
    forall i | 0 <= i < |st'.notifies| ensures QueueWf(st', i) {
      assert QueueWf(st, i);
    }
    forall x | x in st'.waits ensures EpochWf(st', x) {
      if x != w {
        assert EpochWf(st, x);
        assert Current(st', x) <==> Current(st, x);
      }
    }
  }

  lemma BeginCore(st: State, w: WaiterId, s: Session, timeout: nat)
    requires Core(st) && !Active(st, w)
    ensures Core(BeginWait(st, w, s, timeout))
  {
    EnsureCore(st, s);
    JoinCore(Ensure(st, s), w, s, timeout);
  }

  lemma UnmapCore(st: State, s: Session)
    requires Core(st)
    ensures Core(Unmap(st, s))
  {
    var st' := Unmap(st, s);
    forall i | 0 <= i < |st'.notifies| ensures QueueWf(st', i) {
      assert QueueWf(st, i);
      forall x ensures OnNotify(st', x, i) <==> OnNotify(st, x, i) {}
    }
    forall x | x in st'.waits ensures EpochWf(st', x) {
      assert EpochWf(st, x);
    }
  }

  /** Core reads the map, the Notify table, the waits and the epochs, no more. */
  lemma CoreFrame(a: State, b: State)
    requires Core(a)
    requires a.waiters == b.waiters && a.notifies == b.notifies && a.waits == b.waits && a.deregs == b.deregs
    ensures Core(b)
  {
    forall i | 0 <= i < |b.notifies| ensures QueueWf(b, i) {
      assert QueueWf(a, i);
      forall x ensures OnNotify(b, x, i) <==> OnNotify(a, x, i) {}
    }
    forall x | x in b.waits ensures EpochWf(b, x) {
      assert EpochWf(a, x);
    }
  }

  lemma DrainCore(st: State, k: nat)
    requires Core(st) && k <= |st.events|
    ensures Core(DrainFirst(st, k))
  {
    CoreFrame(st, st.(events := st.events[k..]));
    SignalAllCore(st.(events := st.events[k..]), st.events[..k]);
  }

  lemma WaitStepCore(st: State, w: WaiterId, act: WaitStep)
    requires Core(st) && WaitEnabled(st, w, act)
    ensures Core(WaitNext(st, w, act))
  {
    if act.Begin? {
      BeginCore(st, w, act.s, act.timeout);
      return;
    }
    OwnQueue(st, w);
    var n := NotifyAt(st, st.waits[w].notify);
    match act
    case Park =>
      ParkWf(n, w);
      MoveCore(st, w, Notifies.Park(n, w), Parked(st.waits[w].phase.grace));
    case TakePermit =>
      MoveCore(st, w, Notifies.TakePermit(n), Finished(Woken));
    case Accept =>
      AcceptWf(n, w);
      MoveCore(st, w, Notifies.Accept(n, w), Finished(Woken));
    case MqDrain(k) =>
      LeavingCore(st, w, Clearing);
      DrainCore(Leaving(st, w, Clearing), k);
    case ClearReady =>
      LeavingCore(st, w, Selecting(true));
      CoreFrame(Leaving(st, w, Selecting(true)), WaitNext(st, w, act));
    case GraceExpire => LeavingCore(st, w, Selecting(false));
    case TimeOut => LeavingCore(st, w, Finished(TimedOut));
    case MqError => LeavingCore(st, w, Finished(IoFailed));
    case Cancel => LeavingCore(st, w, Dropped);
  }

  lemma LifeStepCore(st: State, step: LifeStep)
    requires Core(st) && LifeEnabled(st, step)
    ensures Core(LifeNext(st, step))
  {
    if step.Deregister? || step.Drop? {
      UnmapCore(st, step.s);
      CoreFrame(Unmap(st, step.s), LifeNext(st, step));
    } else {
      CoreFrame(st, LifeNext(st, step));
    }
  }

  lemma StepCore(st: State, step: Step)
    requires Core(st) && Enabled(st, step)
    ensures Core(Next(st, step))
  {
    match step
    case Net(x) => CoreFrame(st, NetNext(st, x));
    case Tick(Drain(k)) => DrainCore(st, k);
    case Tick(NotifyAll(order)) => SignalAllCore(st, order);
    case OfWait(w, act) => WaitStepCore(st, w, act);
    case Life(x) => LifeStepCore(st, x);
  }

  // ---- Frames ----

  /** Outside the Notify table, a drain only shortens the event queue. */
  lemma DrainFrame(st: State, k: nat)
    requires k <= |st.events|
    ensures SameButNotifies(st.(events := st.events[k..]), DrainFirst(st, k))
  {
    SignalAllFrame(st.(events := st.events[k..]), st.events[..k]);
  }

  lemma TickFrame(st: State, step: TickStep)
    requires TickEnabled(st, step)
    ensures SameButNotifies(st.(events := TickNext(st, step).events), TickNext(st, step))
  {
    match step
    case Drain(k) => DrainFrame(st, k);
    case NotifyAll(order) => SignalAllFrame(st, order);
  }

  /** A wait's step leaves other waits, the FIFOs, the clock and the owners alone;
      the map only grows, and only when a wait begins. */
  lemma WaitFrame(st: State, w: WaiterId, act: WaitStep)
    requires WaitEnabled(st, w, act)
    ensures var st' := WaitNext(st, w, act);
            && w in st'.waits && st'.waits == st.waits[w := st'.waits[w]]
            && st' == st.(events := st'.events, mqReady := st'.mqReady, notifies := st'.notifies,
                          waiters := st'.waiters, waits := st'.waits)
            && st'.events == (if act.MqDrain? then st.events[act.k..] else st.events)
            && (!act.Begin? ==> w in st.waits && st'.waiters == st.waiters
                                && st'.waits[w] == st.waits[w].(phase := st'.waits[w].phase))
            && (act.Begin? ==> st'.waiters.Keys == st.waiters.Keys + {act.s})
  {
    match act
    case MqDrain(k) => DrainFrame(Leaving(st, w, Clearing), k);
    case _ =>
  }

  lemma NetFlag(st: State, x: NetStep)
    requires FlagWf(st.rx) && NetEnabled(st, x)
    ensures FlagWf(NetNext(st, x).rx)
  {
    if x.Arrive? || x.Read? {
      assert forall t :: t != x.s ==> Held(NetNext(st, x).rx, t) == Held(st.rx, t);
    }
  }

  lemma LifeFlag(st: State, x: LifeStep)
    requires FlagWf(st.rx) && LifeEnabled(st, x)
    ensures FlagWf(LifeNext(st, x).rx)
  {
    assert forall t :: t != x.s ==> Held(LifeNext(st, x).rx, t) == Held(st.rx, t);
  }

  lemma StepFlag(st: State, step: Step)
    requires FlagWf(st.rx) && Enabled(st, step)
    ensures FlagWf(Next(st, step).rx)
  {
    match step
    case Net(x) => NetFlag(st, x);
    case Tick(x) => TickFrame(st, x);
    case OfWait(w, act) => WaitFrame(st, w, act);
    case Life(x) => LifeFlag(st, x);
  }

  lemma LifeOwner(st: State, x: LifeStep)
    requires OwnerWf(st.own, st.waiters.Keys, st.epoll) && LifeEnabled(st, x)
    ensures OwnerWf(LifeNext(st, x).own, LifeNext(st, x).waiters.Keys, LifeNext(st, x).epoll)
  {
    match x
    case Deregister(s) => assert LifeNext(st, x).waiters.Keys == st.waiters.Keys - {s};
    case Drop(s) => assert LifeNext(st, x).waiters.Keys == st.waiters.Keys - {s};
    case _ =>
  }

  lemma StepOwner(st: State, step: Step)
    requires OwnerWf(st.own, st.waiters.Keys, st.epoll) && Enabled(st, step)
    ensures OwnerWf(Next(st, step).own, Next(st, step).waiters.Keys, Next(st, step).epoll)
  {
    match step
    case Net(_) =>
    case Tick(x) => TickFrame(st, x);
    case OfWait(w, act) => WaitFrame(st, w, act);
    case Life(x) => LifeOwner(st, x);
  }

  lemma WaitPunctual(st: State, w: WaiterId, act: WaitStep)
    requires Punctual(st) && WaitEnabled(st, w, act)
    ensures Punctual(WaitNext(st, w, act))
  {
    WaitFrame(st, w, act);
    if act.MqDrain? { DrainFrame(Leaving(st, w, Clearing), act.k); }
  }

  lemma NetPunctual(st: State, x: NetStep)
    requires Punctual(st) && NetEnabled(st, x)
    ensures Punctual(NetNext(st, x))
  {
  }

  lemma LifePunctual(st: State, x: LifeStep)
    requires Punctual(st) && LifeEnabled(st, x)
    ensures Punctual(LifeNext(st, x))
  {
  }

  lemma StepPunctual(st: State, step: Step)
    requires Punctual(st) && Enabled(st, step)
    ensures Punctual(Next(st, step))
  {
    match step
    case Net(x) => NetPunctual(st, x);
    case Tick(x) => TickFrame(st, x);
    case OfWait(w, act) => WaitPunctual(st, w, act);
    case Life(x) => LifePunctual(st, x);
  }

  lemma StepInv(st: State, step: Step)
    requires Inv(st) && Enabled(st, step)
    ensures Inv(Next(st, step))
  {
    StepCore(st, step);
    StepFlag(st, step);
    StepOwner(st, step);
    StepPunctual(st, step);
  }

  lemma {:induction false} RunInv(st: State, steps: seq<Step>)
    requires Inv(st) && Valid(st, steps)
    ensures Inv(Exec(st, steps))
    decreases |steps|
  {
    if steps != [] {
      StepInv(st, steps[0]);
      RunInv(Next(st, steps[0]), steps[1..]);
    }
  }

  lemma ReachableInv(st: State)
    requires Reachable(st)
    ensures Inv(st)
  {
    var steps :| Valid(INIT, steps) && Exec(INIT, steps) == st;
    RunInv(INIT, steps);
  }
}
