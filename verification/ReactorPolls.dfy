/** A measure for polling without outside steps: what is left that could make
    `wait_event` go round once more. */
module ReactorPolls {
  import opened Notifies
  import opened ReactorModel
  import opened ReactorInvariants
  import opened ReactorSignals
  import opened Errors

  /** Stored permit, notification already handed to `w`, queued events, MQ bit. */
  function Fuel(st: State, w: WaiterId, s: Session): nat {
    var n := if s in st.waiters then NotifyAt(st, st.waiters[s]) else FRESH;
    (if n.permit then 1 else 0) + (if w in n.woken then 1 else 0) + |st.events| + (if st.mqReady then 1 else 0)
  }

  /** `w` is in the middle of waiting for session `s`, on the live Notify, and
      stands at one of its two await points. */
  ghost predicate Mine(st: State, w: WaiterId, s: Session) {
    && Inv(st)
    && w in st.waits && (st.waits[w].phase.Selecting? || st.waits[w].phase.Parked?)
    && st.waits[w].session == s && Current(st, w)
  }

  /** The steps of one poll: `w`'s own, and never a restart or a cancellation. */
  predicate PollStep(step: Step, w: WaiterId) {
    step.OfWait? && step.w == w && !step.act.Begin? && !step.act.Cancel?
  }

  predicate PollSteps(steps: seq<Step>, w: WaiterId) {
    forall i :: 0 <= i < |steps| ==> PollStep(steps[i], w)
  }

  /** `trace` is a run of polling steps of `w` from one state to the other. */
  ghost predicate Ran(st: State, trace: seq<Step>, end: State, w: WaiterId) {
    Valid(st, trace) && Exec(st, trace) == end && PollSteps(trace, w)
  }

  lemma RanConcat(st: State, a: seq<Step>, mid: State, b: seq<Step>, end: State, w: WaiterId)
    requires Ran(st, a, mid, w) && Ran(mid, b, end, w)
    ensures Ran(st, a + b, end, w)
  {
    RunConcat(st, a, b);
  }

  lemma RanNone(st: State, w: WaiterId)
    ensures Ran(st, [], st, w)
  {
  }

  lemma RanOne(st: State, act: WaitStep, w: WaiterId)
    requires WaitEnabled(st, w, act) && !act.Begin? && !act.Cancel?
    ensures Ran(st, [OfWait(w, act)], WaitNext(st, w, act), w)
  {
    assert [OfWait(w, act)][1..] == [];
    assert Exec(Next(st, OfWait(w, act)), []) == Next(st, OfWait(w, act));
  }

  /** Waits started in a run. */
  function Begins(steps: seq<Step>): nat {
    if steps == [] then 0 else (if steps[0].OfWait? && steps[0].act.Begin? then 1 else 0) + Begins(steps[1..])
  }

  lemma {:induction false} BeginsConcat(a: seq<Step>, b: seq<Step>)
    ensures Begins(a + b) == Begins(a) + Begins(b)
    decreases |a|
  {
    if a == [] {
      assert a + b == b;
    } else {
      assert (a + b)[1..] == a[1..] + b;
      BeginsConcat(a[1..], b);
    }
  }

  lemma {:induction false} PollBegins(steps: seq<Step>, w: WaiterId)
    requires PollSteps(steps, w)
    ensures Begins(steps) == 0
    decreases |steps|
  {
    if steps != [] { PollBegins(steps[1..], w); }
  }

  /** Every wait started in a run is one of five minutes on session `s`. */
  predicate LongWaits(steps: seq<Step>, s: Session) {
    forall i :: 0 <= i < |steps| && steps[i].OfWait? && steps[i].act.Begin? ==> steps[i].act == Begin(s, 300_000)
  }

  /** `w` still waits, as in the earlier state `st`, and no fuel was added. */
  ghost predicate StillMine(st: State, end: State, w: WaiterId, s: Session) {
    && Mine(st, w, s) && Mine(end, w, s)
    && end.waits[w] == st.waits[w].(phase := end.waits[w].phase)
    && Fuel(end, w, s) <= Fuel(st, w, s) && end.now == st.now
  }

  lemma StillMineTrans(st: State, mid: State, end: State, w: WaiterId, s: Session)
    requires StillMine(st, mid, w, s) && StillMine(mid, end, w, s)
    ensures StillMine(st, end, w, s)
  {
  }

  datatype Poll<+T> = Pending | Ready(value: T)

  /** What one poll of a `wait_event` future promises. Pending means parked in the
      queue of the live Notify; Ok used up a notification; Timeout is never early. */
  ghost predicate Polled(st: State, end: State, w: WaiterId, s: Session, r: Poll<Result<()>>) {
    && Inv(end) && w in st.waits && w in end.waits
    && end.waits[w] == st.waits[w].(phase := end.waits[w].phase)
    && Fuel(end, w, s) <= Fuel(st, w, s) && end.now == st.now
    && match r
       case Pending => Mine(end, w, s) && w in NotifyAt(end, end.waits[w].notify).parked
       case Ready(Ok(_)) => end.waits[w].phase == Finished(Woken) && Fuel(end, w, s) < Fuel(st, w, s)
       case Ready(Err(Timeout)) => end.waits[w].phase == Finished(TimedOut) && end.now >= end.waits[w].deadline
       case Ready(Err(e)) => end.waits[w].phase == Finished(IoFailed) && e == Io
  }

  lemma PolledTrans(st: State, mid: State, end: State, w: WaiterId, s: Session, r: Poll<Result<()>>)
    requires StillMine(st, mid, w, s) && Polled(mid, end, w, s, r)
    ensures Polled(st, end, w, s, r)
  {
  }

  datatype Stored = Nothing | Unpolled | Started

  /** Steps of one wait, starts included. */
  predicate OwnSteps(steps: seq<Step>, w: WaiterId) {
    forall i :: 0 <= i < |steps| ==> steps[i].OfWait? && steps[i].w == w
  }

  ghost predicate RanBy(st: State, steps: seq<Step>, end: State, w: WaiterId) {
    Valid(st, steps) && Exec(st, steps) == end && OwnSteps(steps, w)
  }

  lemma RanByConcat(st: State, a: seq<Step>, mid: State, b: seq<Step>, end: State, w: WaiterId)
    requires RanBy(st, a, mid, w) && RanBy(mid, b, end, w)
    ensures RanBy(st, a + b, end, w)
  {
    RunConcat(st, a, b);
  }

  /** A stored wait is where the stream says it is. */
  ghost predicate Holds(st: State, w: WaiterId, s: Session, stored: Stored) {
    if stored == Started then Mine(st, w, s) else !Active(st, w)
  }

  /** What polling a stored wait promises, whether or not it was started before. */
  ghost predicate PolledStored(st: State, end: State, w: WaiterId, s: Session, r: Poll<Result<()>>) {
    && Inv(end) && Fuel(end, w, s) <= Fuel(st, w, s)
    && match r
       case Pending => Mine(end, w, s) && w in NotifyAt(end, end.waits[w].notify).parked
       case Ready(Ok(_)) => !Active(end, w) && Fuel(end, w, s) < Fuel(st, w, s)
       case Ready(Err(Timeout)) =>
         w in end.waits && end.waits[w].phase == Finished(TimedOut) && end.now >= end.waits[w].deadline
       case Ready(Err(e)) => w in end.waits && end.waits[w].phase == Finished(IoFailed) && e == Io
  }

  /** The last wait of `w` ended without a notification. */
  ghost predicate WaitFailed(st: State, w: WaiterId) {
    w in st.waits && (st.waits[w].phase == Finished(TimedOut) || st.waits[w].phase == Finished(IoFailed))
  }

  lemma PolledGivesStored(st: State, more: seq<Step>, end: State, w: WaiterId, s: Session, r: Poll<Result<()>>)
    requires Ran(st, more, end, w) && Polled(st, end, w, s, r)
    ensures RanBy(st, more, end, w) && PolledStored(st, end, w, s, r)
  {
  }

  /** A wait that is started by its first poll. */
  lemma FirstPoll(st: State, timeout: nat, more: seq<Step>, end: State, w: WaiterId, s: Session, r: Poll<Result<()>>)
    requires Inv(st) && WaitEnabled(st, w, Begin(s, timeout))
    requires var mid := WaitNext(st, w, Begin(s, timeout)); Ran(mid, more, end, w) && Polled(mid, end, w, s, r)
    ensures RanBy(st, [OfWait(w, Begin(s, timeout))] + more, end, w) && PolledStored(st, end, w, s, r)
  {
    var first := OfWait(w, Begin(s, timeout));
    var mid := WaitNext(st, w, Begin(s, timeout));
    BeginFuel(st, w, s, timeout);
    PolledGivesStored(mid, more, end, w, s, r);
    assert ([first] + more)[1..] == more;
  }

  lemma BeginFuel(st: State, w: WaiterId, s: Session, timeout: nat)
    requires Inv(st) && WaitEnabled(st, w, Begin(s, timeout))
    ensures Mine(WaitNext(st, w, Begin(s, timeout)), w, s)
    ensures Fuel(WaitNext(st, w, Begin(s, timeout)), w, s) == Fuel(st, w, s)
  {
    StepInv(st, OfWait(w, Begin(s, timeout)));
  }

  /** Completing a wait uses up one unit. */
  lemma GrantFuel(st: State, w: WaiterId, s: Session, act: WaitStep)
    requires Mine(st, w, s) && (act.TakePermit? || act.Accept?) && WaitEnabled(st, w, act)
    ensures Inv(WaitNext(st, w, act)) && Fuel(WaitNext(st, w, act), w, s) < Fuel(st, w, s)
  {
    StepInv(st, OfWait(w, act));
    OwnQueue(st, w);
  }

  lemma ParkFuel(st: State, w: WaiterId, s: Session)
    requires Mine(st, w, s) && WaitEnabled(st, w, WaitStep.Park)
    ensures Mine(WaitNext(st, w, WaitStep.Park), w, s)
    ensures Fuel(WaitNext(st, w, WaitStep.Park), w, s) == Fuel(st, w, s)
    ensures w in NotifyAt(WaitNext(st, w, WaitStep.Park), st.waits[w].notify).parked
  {
    StepInv(st, OfWait(w, WaitStep.Park));
    OwnQueue(st, w);
  }

  lemma LeavingFuel(st: State, w: WaiterId, s: Session, p: Phase)
    requires Mine(st, w, s) && !p.Parked?
    ensures Fuel(Leaving(st, w, p), w, s) <= Fuel(st, w, s)
    ensures w !in NotifyAt(Leaving(st, w, p), st.waits[w].notify).woken
  {
    OwnQueue(st, w);
    var n := NotifyAt(st, st.waits[w].notify);
    if st.waits[w].phase.Parked? { LeaveWf(n, w); }
  }

  lemma ExpireFuel(st: State, w: WaiterId, s: Session)
    requires Mine(st, w, s) && WaitEnabled(st, w, GraceExpire)
    ensures Mine(WaitNext(st, w, GraceExpire), w, s)
    ensures Fuel(WaitNext(st, w, GraceExpire), w, s) <= Fuel(st, w, s)
  {
    StepInv(st, OfWait(w, GraceExpire));
    LeavingFuel(st, w, s, Selecting(false));
  }

  /** A Notify that `w` is not queued on gains at most one permit per event. */
  lemma TimesFuel(n: Notify, h: nat, k: nat, w: WaiterId)
    requires Wf(n) && !Queued(n, w) && h <= k
    ensures var m := Times(n, h);
            && w !in m.woken
            && (if m.permit then 1 else 0) <= (if n.permit then 1 else 0) + k
  {
    TimesQueued(n, h, w);
    if h == 0 { assert Times(n, h) == n; }
  }

  lemma {:induction false} TimesQueued(n: Notify, h: nat, w: WaiterId)
    requires Wf(n)
    ensures Queued(Times(n, h), w) <==> Queued(n, w)
    decreases h
  {
    if h > 0 {
      NotifyOneWf(n);
      TimesQueued(NotifyOne(n), h - 1, w);
    }
  }

  lemma {:induction false} HitsBounded(waiters: map<Session, nat>, ss: seq<Session>, id: nat)
    ensures Hits(waiters, ss, id) <= |ss|
    decreases |ss|
  {
    if ss != [] { HitsBounded(waiters, ss[1..], id); }
  }

  lemma DrainFuel(st: State, k: nat, w: WaiterId, s: Session)
    requires Core(st) && k <= |st.events| && s in st.waiters
    requires !Queued(NotifyAt(st, st.waiters[s]), w)
    ensures Fuel(DrainFirst(st, k), w, s) <= Fuel(st, w, s)
  {
    var id := st.waiters[s];
    assert QueueWf(st, id);
    DrainFrame(st, k);
    DrainAt(st, k, id);
    HitsBounded(st.waiters, st.events[..k], id);
    TimesFuel(st.notifies[id], Hits(st.waiters, st.events[..k], id), k, w);
  }

  /** Going through the eventfd branch uses up the MQ bit and mints nothing. */
  lemma MqFuel(st: State, w: WaiterId, s: Session, k: nat)
    requires Mine(st, w, s) && WaitEnabled(st, w, MqDrain(k))
    ensures WaitEnabled(WaitNext(st, w, MqDrain(k)), w, ClearReady)
    ensures Mine(WaitNext(WaitNext(st, w, MqDrain(k)), w, ClearReady), w, s)
    ensures Fuel(WaitNext(WaitNext(st, w, MqDrain(k)), w, ClearReady), w, s) < Fuel(st, w, s)
    ensures WaitNext(WaitNext(st, w, MqDrain(k)), w, ClearReady).waits[w].phase == Selecting(true)
  {
    var st1 := Leaving(st, w, Clearing);
    var st2 := WaitNext(st, w, MqDrain(k));
    StepInv(st, OfWait(w, MqDrain(k)));
    LeavingCore(st, w, Clearing);
    LeavingFuel(st, w, s, Clearing);
    OwnQueue(st1, w);
    DrainFuel(st1, k, w, s);
    DrainFrame(st1, k);
    StepInv(st2, OfWait(w, ClearReady));
    OwnQueue(st2, w);
  }
}
