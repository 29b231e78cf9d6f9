/** The `has_event` stall: it exists without the tick, and ticks remove it. */
module ReactorStall {
  import opened Notifies
  import opened ReactorModel
  import opened ReactorInvariants
  import opened ReactorSignals
  import opened ReactorFairness

  /** No running wait but `w` holds the Notify `id`. */
  ghost predicate Alone(st: State, w: WaiterId, id: nat) {
    forall x :: x in st.waits && x != w && Active(st, x) ==> st.waits[x].notify != id
  }

  /** `w` waits for a session whose flag is set, so no event will be posted for
      it, none is pending, and no notification is stored or on its way. */
  ghost predicate Stalled(st: State, w: WaiterId, s: Session) {
    && Active(st, w) && st.waits[w].session == s && Current(st, w)
    && var n := NotifyAt(st, st.waits[w].notify);
    && !n.permit && w !in n.woken
    && Alone(st, w, st.waits[w].notify)
    && s !in st.events && s in st.rx.hasEvent
  }

  /** Everything that may happen besides notify-all, except: a transmit event of
      the session, somebody reading or taking it down, another wait on it, and
      `w` dropping its own future or losing the eventfd. */
  predicate Quiet(step: Step, w: WaiterId, s: Session) {
    match step
    case Net(x) => !(x.Read? && x.s == s) && !(x.WriteEvent? && x.s == s)
    case Tick(x) => x.Drain?
    case OfWait(x, act) =>
      if x == w then !act.Begin? && !act.Cancel? && !act.MqError? else !(act.Begin? && act.s == s)
    case Life(x) => x.s != s
  }

  ghost predicate GaveUp(st: State, w: WaiterId) {
    w in st.waits && st.waits[w].phase == Finished(TimedOut) && st.now >= st.waits[w].deadline
  }

  lemma DrainMisses(st: State, k: nat, s: Session)
    requires Core(st) && s in st.waiters && s !in st.events && k <= |st.events|
    ensures |DrainFirst(st, k).notifies| == |st.notifies|
    ensures DrainFirst(st, k).notifies[st.waiters[s]] == st.notifies[st.waiters[s]]
  {
    NoHits(st, st.events[..k], s);
    DrainAt(st, k, st.waiters[s]);
  }

  /** A wait on another Notify does not reach the Notify of session `s`. */
  lemma OtherWaitMisses(st: State, x: WaiterId, act: WaitStep, s: Session)
    requires Core(st) && s in st.waiters && s !in st.events && WaitEnabled(st, x, act)
    requires act.Begin? || st.waits[x].notify != st.waiters[s]
    ensures |WaitNext(st, x, act).notifies| >= |st.notifies|
    ensures WaitNext(st, x, act).notifies[st.waiters[s]] == st.notifies[st.waiters[s]]
  {
    match act
    case MqDrain(k) =>
      var st1 := Leaving(st, x, Clearing);
      LeavingCore(st, x, Clearing);
      DrainMisses(st1, k, s);
    case _ =>
  }

  lemma StallOther(st: State, x: WaiterId, act: WaitStep, w: WaiterId, s: Session)
    requires Core(st) && Stalled(st, w, s) && WaitEnabled(st, x, act)
    requires x != w && !(act.Begin? && act.s == s)
    ensures Stalled(WaitNext(st, x, act), w, s)
  {
    var st' := WaitNext(st, x, act);
    WaitFrame(st, x, act);
    if act.Begin? { EnsureKeeps(st, act.s); }
    OtherWaitMisses(st, x, act, s);
    assert EpochWf(st, w);
    forall y | y in st'.waits && y != w && Active(st', y) ensures st'.waits[y].notify != st.waits[w].notify {
      if y == x && act.Begin? {
        WaitStepCore(st, x, act);
        assert EpochWf(st', y);
      } else {
        assert Active(st, y);
      }
    }
  }

  lemma StallOwn(st: State, act: WaitStep, w: WaiterId, s: Session)
    requires Core(st) && Stalled(st, w, s) && WaitEnabled(st, w, act)
    requires !act.Begin? && !act.Cancel? && !act.MqError?
    ensures Stalled(WaitNext(st, w, act), w, s) || GaveUp(WaitNext(st, w, act), w)
  {
    WaitFrame(st, w, act);
    OwnQueue(st, w);
    if act.MqDrain? {
      LeavingCore(st, w, Clearing);
      DrainMisses(Leaving(st, w, Clearing), act.k, s);
      DrainFrame(Leaving(st, w, Clearing), act.k);
    }
  }

  lemma StallStep(st: State, step: Step, w: WaiterId, s: Session)
    requires Core(st) && Stalled(st, w, s) && Enabled(st, step) && Quiet(step, w, s)
    ensures Stalled(Next(st, step), w, s) || GaveUp(Next(st, step), w)
  {
    match step
    case Net(_) =>
    case Tick(x) =>
      DrainMisses(st, x.k, s);
      DrainFrame(st, x.k);
    case OfWait(x, act) => if x == w { StallOwn(st, act, w, s); } else { StallOther(st, x, act, w, s); }
    case Life(x) =>
  }

  lemma GaveUpStep(st: State, step: Step, w: WaiterId, s: Session)
    requires GaveUp(st, w) && Enabled(st, step) && Quiet(step, w, s)
    ensures GaveUp(Next(st, step), w) && Next(st, step).waits[w] == st.waits[w]
  {
    match step
    case Net(_) =>
    case Tick(x) => TickFrame(st, x);
    case OfWait(x, act) => WaitFrame(st, x, act);
    case Life(x) =>
  }

  /** Without notify-all a stalled wait never returns Ok. However much data
      arrives and however often the eventfd fires, it leaves by its deadline only. */
  lemma {:induction false} StallRun(st: State, steps: seq<Step>, w: WaiterId, s: Session)
    requires Core(st) && (Stalled(st, w, s) || GaveUp(st, w)) && Valid(st, steps)
    requires forall i :: 0 <= i < |steps| ==> Quiet(steps[i], w, s)
    ensures Stalled(Exec(st, steps), w, s) || GaveUp(Exec(st, steps), w)
    decreases |steps|
  {
    if steps != [] {
      StepCore(st, steps[0]);
      if Stalled(st, w, s) { StallStep(st, steps[0], w, s); } else { GaveUpStep(st, steps[0], w, s); }
      StallRun(Next(st, steps[0]), steps[1..], w, s);
    }
  }

  // ---- The stall is reachable ----

  function OpenAndPark(w: WaiterId, s: Session, timeout: nat): seq<Step> {
    [Life(Open(s)), OfWait(w, Begin(s, timeout)), OfWait(w, WaitStep.Park)]
  }

  /** `w` itself drains the event, by its eventfd branch. */
  function EventByEventfd(w: WaiterId, s: Session, a: nat): seq<Step> {
    [Net(Arrive(s, a, true)), OfWait(w, MqDrain(1)), OfWait(w, ClearReady)]
  }

  function PartialRead(w: WaiterId, s: Session, a: nat, r: nat): seq<Step> {
    EventByEventfd(w, s, a) + [OfWait(w, WaitStep.TakePermit), Net(Read(s, r))]
  }

  function ParkAgain(w: WaiterId, s: Session, timeout: nat, b: nat): seq<Step> {
    [OfWait(w, Begin(s, timeout)), OfWait(w, WaitStep.Park), Net(Arrive(s, b, true))]
  }

  /** A run, one step at a time. */
  lemma RunCons(st: State, step: Step, steps: seq<Step>)
    requires Enabled(st, step) && Valid(Next(st, step), steps)
    ensures Valid(st, [step] + steps) && Exec(st, [step] + steps) == Exec(Next(st, step), steps)
  {
    assert ([step] + steps)[1..] == steps;
  }

  lemma Run3(st: State, a: Step, b: Step, c: Step)
    requires Enabled(st, a) && Enabled(Next(st, a), b) && Enabled(Next(Next(st, a), b), c)
    ensures Valid(st, [a, b, c]) && Exec(st, [a, b, c]) == Next(Next(Next(st, a), b), c)
  {
    RunCons(Next(Next(st, a), b), c, []);
    RunCons(Next(st, a), b, [c]);
    RunCons(st, a, [b, c]);
    assert [a] + [b, c] == [a, b, c] && [b] + [c] == [b, c] && [c] + [] == [c];
  }

  /** After its first wait `w` is parked alone on the only Notify. */
  ghost predicate ParkedAlone(st: State, w: WaiterId, s: Session) {
    && st.waits.Keys == {w} && st.waits[w].session == s && st.waits[w].notify == 0
    && st.waits[w].phase == Parked(false)
    && st.waiters == map[s := 0] && |st.notifies| == 1
    && st.notifies[0].parked == [w] && st.notifies[0].woken == {} && !st.notifies[0].permit
    && s in st.epoll && s in st.own.live && st.events == [] && st.now == 0
  }

  lemma OpensAndParks(w: WaiterId, s: Session, timeout: nat)
    ensures Valid(INIT, OpenAndPark(w, s, timeout))
    ensures ParkedAlone(Exec(INIT, OpenAndPark(w, s, timeout)), w, s)
    ensures Exec(INIT, OpenAndPark(w, s, timeout)).rx == INIT.rx
  {
    Run3(INIT, Life(Open(s)), OfWait(w, Begin(s, timeout)), OfWait(w, WaitStep.Park));
  }

  /** ... its own drain finds the event and stores it as a permit ... */
  lemma DrainsOwnEvent(st: State, w: WaiterId, s: Session, a: nat)
    requires ParkedAlone(st, w, s) && st.rx == INIT.rx && a > 0
    ensures Valid(st, EventByEventfd(w, s, a))
    ensures var end := Exec(st, EventByEventfd(w, s, a));
            && end.waits.Keys == {w} && end.waits[w].notify == 0 && end.waits[w].phase == Selecting(true)
            && end.waiters == map[s := 0] && |end.notifies| == 1
            && end.notifies[0].parked == [] && end.notifies[0].woken == {} && end.notifies[0].permit
            && s in end.own.live && end.events == [] && !end.mqReady
            && end.rx == Rx(map[s := a], {s})
  {
    var st1 := Next(st, Net(Arrive(s, a, true)));
    assert st1.events == [s] && st1.mqReady && st1.rx == Rx(map[s := a], {s});
    var left := Leaving(st1, w, Clearing);
    assert left.notifies[0].parked == [] && left.events[..1] == [s] && left.events[1..] == [];
    SignalOne(left.(events := []), s);
    Run3(st, Net(Arrive(s, a, true)), OfWait(w, MqDrain(1)), OfWait(w, ClearReady));
  }

  /** ... it reads some of what arrived, but not all ... */
  lemma ReadsSome(st: State, w: WaiterId, s: Session, a: nat, r: nat)
    requires ParkedAlone(st, w, s) && st.rx == INIT.rx && 1 <= r < a
    ensures Valid(st, PartialRead(w, s, a, r))
    ensures var end := Exec(st, PartialRead(w, s, a, r));
            && end.waits.Keys == {w} && !Active(end, w)
            && end.waiters == map[s := 0] && |end.notifies| == 1
            && end.notifies[0].parked == [] && end.notifies[0].woken == {} && !end.notifies[0].permit
            && s in end.own.live && end.events == [] && !end.mqReady
            && end.rx == Rx(map[s := a - r], {s})
  {
    var drained, take, read := EventByEventfd(w, s, a), OfWait(w, WaitStep.TakePermit), Net(Read(s, r));
    DrainsOwnEvent(st, w, s, a);
    RunSnoc(st, drained, take);
    RunSnoc(st, drained + [take], read);
    assert Exec(st, drained + [take] + [read]).rx.fifo == map[s := a - r];
    assert PartialRead(w, s, a, r) == drained + [take] + [read];
  }

  /** ... and parks again: data that arrives now raises no event. */
  lemma ParksAgain(st: State, w: WaiterId, s: Session, timeout: nat, c: nat, b: nat)
    requires st.waits.Keys == {w} && !Active(st, w)
    requires st.waiters == map[s := 0] && |st.notifies| == 1
    requires st.notifies[0].parked == [] && st.notifies[0].woken == {} && !st.notifies[0].permit
    requires s in st.own.live && st.events == [] && !st.mqReady
    requires c > 0 && b > 0 && st.rx == Rx(map[s := c], {s})
    ensures Valid(st, ParkAgain(w, s, timeout, b))
    ensures Stalled(Exec(st, ParkAgain(w, s, timeout, b)), w, s)
    ensures var end := Exec(st, ParkAgain(w, s, timeout, b)); end.waits[w].phase.Parked? && !end.mqReady
    ensures Bytes(Exec(st, ParkAgain(w, s, timeout, b)), s) == c + b
  {
    Run3(st, OfWait(w, Begin(s, timeout)), OfWait(w, WaitStep.Park), Net(Arrive(s, b, true)));
  }

  function StallScript(w: WaiterId, s: Session, timeout: nat, a: nat, r: nat, b: nat): seq<Step> {
    OpenAndPark(w, s, timeout) + PartialRead(w, s, a, r) + ParkAgain(w, s, timeout, b)
  }

  /** For every waiter, session, timeout and sizes there is a run without the tick
      task into the stall: the waiter drains the event itself, reads a part, and
      waits again, parked and with the eventfd dormant while more data comes in. */
  lemma StallReachable(w: WaiterId, s: Session, timeout: nat, a: nat, r: nat, b: nat)
    requires 1 <= r < a && b > 0
    ensures var steps := StallScript(w, s, timeout, a, r, b);
            && Valid(INIT, steps) && (forall i :: 0 <= i < |steps| ==> !steps[i].Tick?)
            && var end := Exec(INIT, steps);
            && Stalled(end, w, s) && end.waits[w].phase.Parked? && !end.mqReady
            && Bytes(end, s) == a - r + b
  {
    OpensAndParks(w, s, timeout);
    var st1 := Exec(INIT, OpenAndPark(w, s, timeout));
    ReadsSome(st1, w, s, a, r);
    var st2 := Exec(st1, PartialRead(w, s, a, r));
    ParksAgain(st2, w, s, timeout, a - r, b);
    RunConcat(INIT, OpenAndPark(w, s, timeout), PartialRead(w, s, a, r));
    RunConcat(INIT, OpenAndPark(w, s, timeout) + PartialRead(w, s, a, r), ParkAgain(w, s, timeout, b));
  }

  lemma {:induction false} NoTicks(steps: seq<Step>)
    requires forall i :: 0 <= i < |steps| ==> !(steps[i].Tick? && steps[i].tick.NotifyAll?)
    ensures Ticks(steps) == 0
    decreases |steps|
  {
    if steps != [] { NoTicks(steps[1..]); }
  }

  // ---- The tick removes it ----

  /** Nobody takes bytes of `s` away. */
  predicate KeepsBytes(step: Step, s: Session) {
    && !(step.Net? && step.net.Read? && step.net.s == s)
    && step != Life(Close(s)) && step != Life(ConnectFailed(s))
  }

  function ArrivedIn(step: Step, s: Session): nat {
    if step.Net? && step.net.Arrive? && step.net.s == s then step.net.bytes else 0
  }

  function ReadIn(step: Step, s: Session): nat {
    if step.Net? && step.net.Read? && step.net.s == s then step.net.n else 0
  }

  function TotalArrived(steps: seq<Step>, s: Session): nat {
    if steps == [] then 0 else ArrivedIn(steps[0], s) + TotalArrived(steps[1..], s)
  }

  function TotalRead(steps: seq<Step>, s: Session): nat {
    if steps == [] then 0 else ReadIn(steps[0], s) + TotalRead(steps[1..], s)
  }

  lemma BalanceStep(st: State, step: Step, s: Session)
    requires Enabled(st, step) && step != Life(Close(s)) && step != Life(ConnectFailed(s))
    ensures Bytes(Next(st, step), s) + ReadIn(step, s) == Bytes(st, s) + ArrivedIn(step, s)
  {
    match step
    case Net(_) =>
    case Tick(x) => TickFrame(st, x);
    case OfWait(w, act) => WaitFrame(st, w, act);
    case Life(x) => assert Bytes(LifeNext(st, x), s) == Bytes(st, s);
  }

  /** No byte is lost or made up: while a session is open, what arrived is what was
      read and what is still there; once all is read the flag is clear. */
  lemma {:induction false} FifoConserved(st: State, steps: seq<Step>, s: Session)
    requires Inv(st) && Valid(st, steps)
    requires Life(Close(s)) !in steps && Life(ConnectFailed(s)) !in steps
    ensures Bytes(Exec(st, steps), s) + TotalRead(steps, s) == Bytes(st, s) + TotalArrived(steps, s)
    ensures TotalRead(steps, s) == Bytes(st, s) + TotalArrived(steps, s) <==> s !in Exec(st, steps).rx.hasEvent
    decreases |steps|
  {
    if steps != [] {
      assert steps[0] in steps;
      StepInv(st, steps[0]);
      BalanceStep(st, steps[0], s);
      FifoConserved(Next(st, steps[0]), steps[1..], s);
    }
  }

  /** A reused handle starts clean: whatever was left over when the session was
      closed, what it holds later is what arrived since, less what was read since. */
  lemma FifoSinceClose(st: State, close: Step, steps: seq<Step>, s: Session)
    requires Inv(st) && Valid(st, [close] + steps)
    requires close == Life(Close(s)) || close == Life(ConnectFailed(s))
    requires Life(Close(s)) !in steps && Life(ConnectFailed(s)) !in steps
    ensures var end := Exec(st, [close] + steps);
            && Bytes(end, s) + TotalRead(steps, s) == TotalArrived(steps, s)
            && (s in end.rx.hasEvent <==> TotalRead(steps, s) < TotalArrived(steps, s))
  {
    assert ([close] + steps)[1..] == steps;
    StepInv(st, close);
    assert Bytes(Next(st, close), s) == 0;
    FifoConserved(Next(st, close), steps, s);
  }

  lemma {:induction false} BytesRun(st: State, steps: seq<Step>, s: Session)
    requires Valid(st, steps)
    requires forall i :: 0 <= i < |steps| ==> KeepsBytes(steps[i], s)
    ensures Bytes(Exec(st, steps), s) >= Bytes(st, s)
    decreases |steps|
  {
    if steps != [] {
      BalanceStep(st, steps[0], s);
      BytesRun(Next(st, steps[0]), steps[1..], s);
    }
  }

  /** A waiter that may share its Notify, from every reachable state with bytes in
      the FIFO: once it has stayed parked for as many ticks as there are waiters up
      to and including itself, its wait can return Ok; the retry then reads at least
      one byte, and a retry that empties the FIFO makes the next arrival raise an
      event again. */
  lemma TicksMakeProgress(st: State, steps: seq<Step>, w: WaiterId, s: Session, bytes: nat, edge: bool)
    requires Reachable(st) && Valid(st, steps) && bytes > 0
    requires IsParked(st, w) && Current(st, w) && st.waits[w].session == s && Bytes(st, s) > 0
    requires w in NotifyAt(st, st.waits[w].notify).parked
    requires forall i :: 0 <= i < |steps| ==> Bystander(steps[i], w, s) && KeepsBytes(steps[i], s)
    requires Ticks(steps) >= Index(NotifyAt(st, st.waits[w].notify).parked, w) + 1
    ensures WaitEnabled(Exec(st, steps), w, WaitStep.Accept)
    ensures var end := WaitNext(Exec(st, steps), w, WaitStep.Accept);
            && end.waits[w].phase == Finished(Woken)
            && Bytes(end, s) >= Bytes(st, s)
            && NetEnabled(end, Read(s, Bytes(end, s)))
            && var empty := NetNext(end, Read(s, Bytes(end, s)));
            (s in empty.epoll ==> NetNext(empty, Arrive(s, bytes, edge)).events == empty.events + [s])
  {
    WokenWithinTicks(st, steps, w);
    BytesRun(st, steps, s);
  }

  /** A stalled waiter that is parked needs exactly one tick. */
  lemma StalledNeedsOneTick(st: State, w: WaiterId, s: Session)
    requires Reachable(st) && Stalled(st, w, s) && st.waits[w].phase.Parked?
    ensures NotifyAt(st, st.waits[w].notify).parked == [w]
    ensures Bytes(st, s) > 0
  {
    ReachableInv(st);
    OwnQueue(st, w);
    var n := NotifyAt(st, st.waits[w].notify);
    assert |n.parked| > 1 ==> n.parked[0] != n.parked[1];
    forall i | 0 <= i < |n.parked| ensures n.parked[i] == w {
      assert Queued(n, n.parked[i]);
      assert OnNotify(st, n.parked[i], st.waits[w].notify);
      assert Active(st, n.parked[i]);
    }
  }
}
