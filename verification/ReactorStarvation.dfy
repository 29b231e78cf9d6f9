/** Sharing a Notify is what defeats the ticks: a waiter that shares one, and whose
    eventfd branch keeps restarting its wait, can be passed by tick after tick. */
module ReactorStarvation {
  import opened Notifies
  import opened ReactorModel
  import opened ReactorSignals
  import opened ReactorFairness
  import opened ReactorStall

  /** `a` and `w` share the only Notify; `w` is parked last and not woken. */
  ghost predicate Behind(st: State, a: WaiterId, w: WaiterId, s: Session, deadline: nat, now: nat) {
    && st.waiters == map[s := 0] && |st.notifies| == 1
    && st.notifies[0].parked == [a, w] && st.notifies[0].woken == {} && !st.notifies[0].permit
    && a in st.waits && w in st.waits
    && st.waits[a].notify == 0 && st.waits[a].phase == Parked(false)
    && st.waits[w].notify == 0 && st.waits[w].phase == Parked(false)
    && st.waits[w].deadline == deadline && st.waits[w].session == s && st.now == now
    && s in st.own.live && st.events == []
  }

  /** The tick wakes `a`, which waits again and so queues up behind `w` ... */
  function Overtaken(a: WaiterId, s: Session, t: nat): seq<Step> {
    [Tick(Drain(0)), Tick(NotifyAll([s])),
     OfWait(a, WaitStep.Accept), OfWait(a, Begin(s, t)), OfWait(a, WaitStep.Park)]
  }

  /** ... until the eventfd fires and `w` gives its place up again. */
  function Restart(w: WaiterId): seq<Step> {
    [Net(Spurious), OfWait(w, MqDrain(0)), OfWait(w, ClearReady),
     OfWait(w, WaitStep.Park), OfWait(w, GraceExpire), OfWait(w, WaitStep.Park)]
  }

  ghost predicate Ahead(st: State, a: WaiterId, w: WaiterId, s: Session, deadline: nat, now: nat) {
    && |st.notifies| == 1 && st.notifies[0].parked == [w, a]
    && Behind(st.(notifies := [st.notifies[0].(parked := [a, w])]), a, w, s, deadline, now)
  }

  lemma OvertakenRun(st: State, a: WaiterId, w: WaiterId, s: Session, t: nat, deadline: nat, now: nat)
    requires Behind(st, a, w, s, deadline, now) && a != w
    ensures Valid(st, Overtaken(a, s, t)) && Ahead(Exec(st, Overtaken(a, s, t)), a, w, s, deadline, now)
  {
    var st1 := Next(st, Tick(NotifyAll([s])));
    SignalOne(st, s);
    assert st1.notifies[0].parked == [w] && st1.notifies[0].woken == {a};
    Run3(st1, OfWait(a, WaitStep.Accept), OfWait(a, Begin(s, t)), OfWait(a, WaitStep.Park));
    var rest := [OfWait(a, WaitStep.Accept), OfWait(a, Begin(s, t)), OfWait(a, WaitStep.Park)];
    RunCons(st, Tick(NotifyAll([s])), rest);
    DrainNone(st);
    RunCons(st, Tick(Drain(0)), [Tick(NotifyAll([s]))] + rest);
    assert Overtaken(a, s, t) == [Tick(Drain(0))] + ([Tick(NotifyAll([s]))] + rest);
  }

  /** Draining nothing changes nothing. */
  lemma DrainNone(st: State)
    ensures DrainFirst(st, 0) == st
  {
    assert st.events[0..] == st.events && st.events[..0] == [];
    assert st.(events := st.events) == st;
  }

  lemma RestartRun(st: State, a: WaiterId, w: WaiterId, s: Session, deadline: nat, now: nat)
    requires Ahead(st, a, w, s, deadline, now) && a != w
    ensures Valid(st, Restart(w)) && Behind(Exec(st, Restart(w)), a, w, s, deadline, now)
  {
    var st1 := Next(st, Net(Spurious));
    var left := Leaving(st1, w, Clearing);
    DrainNone(left);
    assert left.notifies[0].parked == [a];
    assert Restart(w)[..3] == [Net(Spurious), OfWait(w, MqDrain(0)), OfWait(w, ClearReady)];
    Run3(st, Net(Spurious), OfWait(w, MqDrain(0)), OfWait(w, ClearReady));
    var st3 := Leaving(left, w, Selecting(true)).(mqReady := false);
    RejoinRun(st3, a, w, s, deadline, now);
    RunConcat(st, Restart(w)[..3], Restart(w)[3..]);
    assert Restart(w) == Restart(w)[..3] + Restart(w)[3..];
  }

  /** From the start of its grace period `w` parks, expires and parks again, last. */
  lemma RejoinRun(st: State, a: WaiterId, w: WaiterId, s: Session, deadline: nat, now: nat)
    requires a != w && w in st.waits && st.waits[w].phase == Selecting(true) && |st.notifies| == 1
    requires st.notifies[0].parked == [a]
    requires Behind(st.(notifies := [st.notifies[0].(parked := [a, w])],
                        waits := st.waits[w := st.waits[w].(phase := Parked(false))]), a, w, s, deadline, now)
    ensures Valid(st, Restart(w)[3..]) && Behind(Exec(st, Restart(w)[3..]), a, w, s, deadline, now)
  {
    var st1 := Next(st, OfWait(w, WaitStep.Park));
    assert st1.notifies[0].parked == [a, w];
    assert [a, w][1..] == [w] && Without([w], w) == [];
    var st2 := Next(st1, OfWait(w, GraceExpire));
    assert st2.notifies[0].parked == [a];
    Run3(st, OfWait(w, WaitStep.Park), OfWait(w, GraceExpire), OfWait(w, WaitStep.Park));
  }

  /** One round, and the time until the next tick. */
  function Round(a: WaiterId, w: WaiterId, s: Session, t: nat, dt: nat): seq<Step> {
    Overtaken(a, s, t) + Restart(w) + [Net(Elapse(dt))]
  }

  function Rounds(a: WaiterId, w: WaiterId, s: Session, t: nat, dt: nat, k: nat): seq<Step> {
    if k == 0 then [] else Round(a, w, s, t, dt) + Rounds(a, w, s, t, dt, k - 1)
  }

  /** `w` is not given a notification by this step, and its wait goes on. */
  predicate PassesBy(step: Step, w: WaiterId) {
    step.OfWait? && step.w == w ==>
      step.act.MqDrain? || step.act.ClearReady? || step.act.GraceExpire? || step.act.Park?
  }

  lemma {:induction false} RoundsPassBy(a: WaiterId, w: WaiterId, s: Session, t: nat, dt: nat, k: nat)
    requires a != w
    ensures forall step :: step in Rounds(a, w, s, t, dt, k) ==> PassesBy(step, w)
    decreases k
  {
    if k > 0 { RoundsPassBy(a, w, s, t, dt, k - 1); }
  }

  lemma {:induction false} TicksConcat(x: seq<Step>, y: seq<Step>)
    ensures Ticks(x + y) == Ticks(x) + Ticks(y)
    decreases |x|
  {
    if x == [] {
      assert x + y == y;
    } else {
      assert (x + y)[1..] == x[1..] + y;
      TicksConcat(x[1..], y);
    }
  }

  lemma {:induction false} RoundsTicks(a: WaiterId, w: WaiterId, s: Session, t: nat, dt: nat, k: nat)
    ensures Ticks(Rounds(a, w, s, t, dt, k)) == k
    decreases k
  {
    if k > 0 {
      RoundsTicks(a, w, s, t, dt, k - 1);
      TicksConcat(Round(a, w, s, t, dt), Rounds(a, w, s, t, dt, k - 1));
      NoTicks(Round(a, w, s, t, dt)[2..]);
      assert Round(a, w, s, t, dt)[1..][1..] == Round(a, w, s, t, dt)[2..];
    }
  }

  lemma RoundRun(st: State, a: WaiterId, w: WaiterId, s: Session, t: nat, dt: nat, deadline: nat, now: nat)
    requires Behind(st, a, w, s, deadline, now) && a != w
    ensures Valid(st, Round(a, w, s, t, dt))
    ensures Behind(Exec(st, Round(a, w, s, t, dt)), a, w, s, deadline, now + dt)
  {
    OvertakenRun(st, a, w, s, t, deadline, now);
    var st1 := Exec(st, Overtaken(a, s, t));
    RestartRun(st1, a, w, s, deadline, now);
    RunConcat(st, Overtaken(a, s, t), Restart(w));
    RunSnoc(st, Overtaken(a, s, t) + Restart(w), Net(Elapse(dt)));
  }

  /** For every k and every time between ticks there is a run of k rounds through
      which the wait of `w`, always on the live Notify, stays parked last. */
  lemma {:induction false} Starves(st: State, a: WaiterId, w: WaiterId, s: Session, t: nat, dt: nat, deadline: nat,
                                   now: nat, k: nat)
    requires Behind(st, a, w, s, deadline, now) && a != w
    ensures Valid(st, Rounds(a, w, s, t, dt, k))
    ensures Behind(Exec(st, Rounds(a, w, s, t, dt, k)), a, w, s, deadline, now + k * dt)
    decreases k
  {
    if k > 0 {
      RoundRun(st, a, w, s, t, dt, deadline, now);
      Starves(Exec(st, Round(a, w, s, t, dt)), a, w, s, t, dt, deadline, now + dt, k - 1);
      RunConcat(st, Round(a, w, s, t, dt), Rounds(a, w, s, t, dt, k - 1));
      assert now + dt + (k - 1) * dt == now + k * dt;
    }
  }

  function Queue2(a: WaiterId, w: WaiterId, s: Session, t: nat): seq<Step> {
    OpenAndPark(a, s, t) + [OfWait(w, Begin(s, t)), OfWait(w, WaitStep.Park)]
  }

  lemma QueuesUp(a: WaiterId, w: WaiterId, s: Session, t: nat)
    requires a != w
    ensures Valid(INIT, Queue2(a, w, s, t)) && Ticks(Queue2(a, w, s, t)) == 0
    ensures Behind(Exec(INIT, Queue2(a, w, s, t)), a, w, s, t, 0)
  {
    OpensAndParks(a, s, t);
    var st := Exec(INIT, OpenAndPark(a, s, t));
    RunSnoc(INIT, OpenAndPark(a, s, t), OfWait(w, Begin(s, t)));
    RunSnoc(INIT, OpenAndPark(a, s, t) + [OfWait(w, Begin(s, t))], OfWait(w, WaitStep.Park));
    assert Queue2(a, w, s, t) == OpenAndPark(a, s, t) + [OfWait(w, Begin(s, t))] + [OfWait(w, WaitStep.Park)];
    NoTicks(Queue2(a, w, s, t));
  }

  /** For any number of ticks, spread over the time up to its deadline, there is a
      run in which `w`, which shares its Notify with `a`, waits from its one start to
      the end: no step hands it a notification and it never stops waiting. */
  lemma RestartsDefeatTicks(a: WaiterId, w: WaiterId, s: Session, t: nat, dt: nat, k: nat)
    requires a != w && k * dt < t
    ensures var steps := Queue2(a, w, s, t) + Rounds(a, w, s, t, dt, k);
            && Valid(INIT, steps) && Ticks(steps) == k
            && (forall step :: step in steps && step != OfWait(w, Begin(s, t)) ==> PassesBy(step, w))
            && OfWait(w, Begin(s, t)) !in Rounds(a, w, s, t, dt, k)
            && var end := Exec(INIT, steps);
            Behind(end, a, w, s, t, k * dt) && end.now < end.waits[w].deadline
  {
    QueuesUp(a, w, s, t);
    var st := Exec(INIT, Queue2(a, w, s, t));
    Starves(st, a, w, s, t, dt, t, 0, k);
    RunConcat(INIT, Queue2(a, w, s, t), Rounds(a, w, s, t, dt, k));
    TicksConcat(Queue2(a, w, s, t), Rounds(a, w, s, t, dt, k));
    RoundsTicks(a, w, s, t, dt, k);
    RoundsPassBy(a, w, s, t, dt, k);
  }
}
