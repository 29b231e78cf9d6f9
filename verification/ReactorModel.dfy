/** The reactor's wake-up protocol as a state machine. A step is one atomic
    action of VPP, of the tick task, of a `wait_event` future or of a session
    wrapper; every interleaving of them is a run. */
module ReactorModel {
  import opened Notifies

  type Session = nat

  datatype Outcome = Woken | TimedOut | IoFailed

  /** Where a `wait_event` future stands. `grace` marks the zero-length timeout
      after a drain; `Clearing` is the point between drain and `clear_ready`. */
  datatype Phase =
    | Selecting(grace: bool)
    | Parked(grace: bool)
    | Clearing
    | Finished(outcome: Outcome)
    | Dropped

  datatype Wait = Wait(
    session: Session,
    notify: nat,    // the Arc<Notify> cloned at the start, as an index
    deadline: nat,
    epoch: nat,     // deregistrations of the session seen at the start
    phase: Phase
  )

  /** VPP's RX FIFOs: bytes held, and the `has_event` flag. */
  datatype Rx = Rx(fifo: map<Session, nat>, hasEvent: set<Session>)

  /** Who owns which session handle. */
  datatype Owners = Owners(
    live: set<Session>,        // owned by a stream, listener or socket
    connecting: set<Session>,  // owned by a running connect_async
    closing: set<Session>,     // deregistered by drop, not closed yet
    leaked: set<Session>       // keys left behind by a failed connect_async
  )

  datatype State = State(
    now: nat,
    rx: Rx,
    epoll: set<Session>,          // sessions added to the VCL epoll set
    events: seq<Session>,         // pending epoll events
    mqReady: bool,                // tokio's readiness bit of the MQ eventfd
    waiters: map<Session, nat>,   // ReactorInner::waiters
    notifies: seq<Notify>,        // every Notify ever allocated
    waits: map<WaiterId, Wait>,
    deregs: map<Session, nat>,    // history: deregistrations per session
    own: Owners
  )

  const INIT := State(0, Rx(map[], {}), {}, [], false, map[], [], map[], map[], Owners({}, {}, {}, {}))

  /** VPP, the clock, and the application's reads. */
  datatype NetStep =
    | Arrive(s: Session, bytes: nat, edge: bool)
    | WriteEvent(s: Session, edge: bool)
    | Spurious
    | Elapse(dt: nat)
    | Read(s: Session, n: nat)

  /** The two halves of a tick. */
  datatype TickStep =
    | Drain(k: nat)
    | NotifyAll(order: seq<Session>)

  /** One `wait_event` future. */
  datatype WaitStep =
    | Begin(s: Session, timeout: nat)
    | Park
    | TakePermit
    | Accept
    | MqDrain(k: nat)
    | ClearReady
    | GraceExpire
    | TimeOut
    | MqError
    | Cancel

  /** Sessions and their wrappers. */
  datatype LifeStep =
    | Open(s: Session)
    | StartConnect(s: Session)
    | Connected(s: Session)
    | ConnectFailed(s: Session)
    | Deregister(s: Session)
    | Drop(s: Session)
    | Close(s: Session)

  datatype Step =
    | Net(net: NetStep)
    | Tick(tick: TickStep)
    | OfWait(w: WaiterId, act: WaitStep)
    | Life(life: LifeStep)

  function Held(rx: Rx, s: Session): nat {
    if s in rx.fifo then rx.fifo[s] else 0
  }

  function Bytes(st: State, s: Session): nat {
    Held(st.rx, s)
  }

  function Deregs(st: State, s: Session): nat {
    if s in st.deregs then st.deregs[s] else 0
  }

  function NotifyAt(st: State, id: nat): Notify {
    if id < |st.notifies| then st.notifies[id] else FRESH
  }

  function SetNotify(st: State, id: nat, n: Notify): State {
    if id < |st.notifies| then st.(notifies := st.notifies[id := n]) else st
  }

  predicate Waiting(p: Phase) {
    p.Selecting? || p.Parked? || p.Clearing?
  }

  predicate Active(st: State, w: WaiterId) {
    w in st.waits && Waiting(st.waits[w].phase)
  }

  /** The select! is being polled or is parked: all three branches are open. */
  predicate InSelect(st: State, w: WaiterId) {
    w in st.waits && (st.waits[w].phase == Selecting(false) || st.waits[w].phase == Parked(false))
  }

  predicate Enumerates(order: seq<Session>, keys: set<Session>) {
    && (set s | s in order) == keys
    && (forall i, j :: 0 <= i < j < |order| ==> order[i] != order[j])
  }

  /** `waiters.get(&s)` followed by `notify_one`; unknown sessions change nothing. */
  function Signal(st: State, s: Session): State {
    if s in st.waiters then SetNotify(st, st.waiters[s], NotifyOne(NotifyAt(st, st.waiters[s])))
    else st
  }

  function SignalAll(st: State, ss: seq<Session>): State
    decreases |ss|
  {
    if ss == [] then st else SignalAll(Signal(st, ss[0]), ss[1..])
  }

  function DrainFirst(st: State, k: nat): State
    requires k <= |st.events|
  {
    SignalAll(st.(events := st.events[k..]), st.events[..k])
  }

  /** Move a wait to another phase, with its Notify changed alongside. */
  function Move(st: State, w: WaiterId, n: Notify, p: Phase): State
    requires w in st.waits
  {
    SetNotify(st, st.waits[w].notify, n).(waits := st.waits[w := st.waits[w].(phase := p)])
  }

  /** Drop the `notified()` future of `w`, if it is enqueued, and go on to `p`. */
  function Leaving(st: State, w: WaiterId, p: Phase): State
    requires w in st.waits
  {
    var n := NotifyAt(st, st.waits[w].notify);
    Move(st, w, if st.waits[w].phase.Parked? then Notifies.Leave(n, w) else n, p)
  }

  function Post(st: State, s: Session, edge: bool): State {
    st.(events := st.events + [s], mqReady := st.mqReady || edge)
  }

  /** `deregister`: the map entry goes first, then the epoll membership. */
  function Unmap(st: State, s: Session): State {
    st.(waiters := st.waiters - {s}, epoll := st.epoll - {s}, own := st.own.(leaked := st.own.leaked - {s}),
        deregs := st.deregs[s := Deregs(st, s) + 1])
  }

  /** `vppcom_session_close`. */
  function Purge(st: State, s: Session): State {
    st.(rx := Rx(st.rx.fifo - {s}, st.rx.hasEvent - {s}), epoll := st.epoll - {s})
  }

  predicate Taken(own: Owners, s: Session) {
    s in own.live || s in own.connecting || s in own.closing
  }

  predicate NetEnabled(st: State, step: NetStep) {
    match step
    case Arrive(_, bytes, _) => bytes > 0
    case WriteEvent(s, _) => s in st.epoll
    case Spurious => true
    case Elapse(_) => true
    case Read(s, n) => 1 <= n <= Bytes(st, s)
  }

  function NetNext(st: State, step: NetStep): State
    requires NetEnabled(st, step)
  {
    match step
    case Arrive(s, bytes, edge) =>
      var st1 := st.(rx := Rx(st.rx.fifo[s := Bytes(st, s) + bytes], st.rx.hasEvent + {s}));
      if s !in st.rx.hasEvent && s in st.epoll then Post(st1, s, edge) else st1
    case WriteEvent(s, edge) => Post(st, s, edge)
    case Spurious => st.(mqReady := true)
    case Elapse(dt) => st.(now := st.now + dt)
    case Read(s, n) =>
      st.(rx := Rx(st.rx.fifo[s := Bytes(st, s) - n],
                   if n == Bytes(st, s) then st.rx.hasEvent - {s} else st.rx.hasEvent))
  }

  predicate TickEnabled(st: State, step: TickStep) {
    match step
    case Drain(k) => k <= |st.events|
    case NotifyAll(order) => Enumerates(order, st.waiters.Keys)
  }

  function TickNext(st: State, step: TickStep): State
    requires TickEnabled(st, step)
  {
    match step
    case Drain(k) => DrainFirst(st, k)
    case NotifyAll(order) => SignalAll(st, order)
  }

  predicate WaitEnabled(st: State, w: WaiterId, act: WaitStep) {
    match act
    case Begin(s, _) => !Active(st, w) && (s in st.own.live || s in st.own.connecting)
    case Park => w in st.waits && st.waits[w].phase.Selecting? && !NotifyAt(st, st.waits[w].notify).permit
    case TakePermit => w in st.waits && st.waits[w].phase.Selecting? && NotifyAt(st, st.waits[w].notify).permit
    case Accept => w in st.waits && st.waits[w].phase.Parked? && w in NotifyAt(st, st.waits[w].notify).woken
    case MqDrain(k) => InSelect(st, w) && st.mqReady && k <= |st.events|
    case ClearReady => w in st.waits && st.waits[w].phase.Clearing?
    case GraceExpire => w in st.waits && st.waits[w].phase == Parked(true)
    case TimeOut => InSelect(st, w) && st.now >= st.waits[w].deadline
    case MqError => InSelect(st, w)
    case Cancel => Active(st, w)
  }

  /** `waiters.entry(s).or_insert_with(...)`. */
  function Ensure(st: State, s: Session): State {
    if s in st.waiters then st
    else st.(notifies := st.notifies + [FRESH], waiters := st.waiters[s := |st.notifies|])
  }

  function BeginWait(st: State, w: WaiterId, s: Session, timeout: nat): State {
    var st1 := Ensure(st, s);
    st1.(waits := st.waits[w := Wait(s, st1.waiters[s], st.now + timeout, Deregs(st, s), Selecting(false))])
  }

  function WaitNext(st: State, w: WaiterId, act: WaitStep): State
    requires WaitEnabled(st, w, act)
  {
    match act
    case Begin(s, timeout) => BeginWait(st, w, s, timeout)
    case Park =>
      Move(st, w, Notifies.Park(NotifyAt(st, st.waits[w].notify), w), Parked(st.waits[w].phase.grace))
    case TakePermit => Move(st, w, Notifies.TakePermit(NotifyAt(st, st.waits[w].notify)), Finished(Woken))
    case Accept => Move(st, w, Notifies.Accept(NotifyAt(st, st.waits[w].notify), w), Finished(Woken))
    case MqDrain(k) => DrainFirst(Leaving(st, w, Clearing), k)
    case ClearReady => Leaving(st, w, Selecting(true)).(mqReady := false)
    case GraceExpire => Leaving(st, w, Selecting(false))
    case TimeOut => Leaving(st, w, Finished(TimedOut))
    case MqError => Leaving(st, w, Finished(IoFailed))
    case Cancel => Leaving(st, w, Dropped)
  }

  predicate LifeEnabled(st: State, step: LifeStep) {
    match step
    case Open(s) => !Taken(st.own, s)
    case StartConnect(s) => !Taken(st.own, s)
    case Connected(s) => s in st.own.connecting
    case ConnectFailed(s) => s in st.own.connecting
    case Deregister(s) => true
    case Drop(s) => s in st.own.live
    case Close(s) => s in st.own.closing
  }

  function LifeNext(st: State, step: LifeStep): State
    requires LifeEnabled(st, step)
  {
    var own := st.own;
    match step
    case Open(s) => st.(own := own.(live := own.live + {s}), epoll := st.epoll + {s})
    case StartConnect(s) => st.(own := own.(connecting := own.connecting + {s}), epoll := st.epoll + {s})
    case Connected(s) => st.(own := own.(connecting := own.connecting - {s}, live := own.live + {s}))
    case ConnectFailed(s) =>
      Purge(st, s).(own := own.(connecting := own.connecting - {s},
                                leaked := if s in st.waiters then own.leaked + {s} else own.leaked))
    case Deregister(s) => Unmap(st, s)
    case Drop(s) =>
      var st1 := Unmap(st, s);
      st1.(own := st1.own.(live := own.live - {s}, closing := own.closing + {s}))
    case Close(s) => Purge(st, s).(own := own.(closing := own.closing - {s}))
  }

  predicate Enabled(st: State, step: Step) {
    match step
    case Net(x) => NetEnabled(st, x)
    case Tick(x) => TickEnabled(st, x)
    case OfWait(w, act) => WaitEnabled(st, w, act)
    case Life(x) => LifeEnabled(st, x)
  }

  function Next(st: State, step: Step): State
    requires Enabled(st, step)
  {
    match step
    case Net(x) => NetNext(st, x)
    case Tick(x) => TickNext(st, x)
    case OfWait(w, act) => WaitNext(st, w, act)
    case Life(x) => LifeNext(st, x)
  }

  // ---- Runs ----

  predicate Valid(st: State, steps: seq<Step>)
    decreases |steps|
  {
    steps == [] || (Enabled(st, steps[0]) && Valid(Next(st, steps[0]), steps[1..]))
  }

  function Exec(st: State, steps: seq<Step>): State
    requires Valid(st, steps)
    decreases |steps|
  {
    if steps == [] then st else Exec(Next(st, steps[0]), steps[1..])
  }

  ghost predicate Reachable(st: State) {
    exists steps :: Valid(INIT, steps) && Exec(INIT, steps) == st
  }

  lemma {:induction false} RunConcat(st: State, a: seq<Step>, b: seq<Step>)
    requires Valid(st, a)
    requires Valid(Exec(st, a), b)
    ensures Valid(st, a + b)
    ensures Exec(st, a + b) == Exec(Exec(st, a), b)
    decreases |a|
  {
    if a == [] {
      assert a + b == b;
    } else {
      assert (a + b)[0] == a[0] && (a + b)[1..] == a[1..] + b;
      RunConcat(Next(st, a[0]), a[1..], b);
    }
  }

  /** Extend a run by one step. */
  lemma RunSnoc(st: State, a: seq<Step>, step: Step)
    requires Valid(st, a) && Enabled(Exec(st, a), step)
    ensures Valid(st, a + [step])
    ensures Exec(st, a + [step]) == Next(Exec(st, a), step)
  {
    var mid := Exec(st, a);
    assert [step][1..] == [];
    assert Valid(Next(mid, step), []) && Exec(Next(mid, step), []) == Next(mid, step);
    RunConcat(st, a, [step]);
  }
}
