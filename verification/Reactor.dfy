/** The reactor object: the batched drain, the tick, and polling of `wait_event`.
    Every method is shown to perform a run of the state machine. */
module Reactor {
  import opened Errors
  import opened Notifies
  import opened ReactorModel
  import opened ReactorInvariants
  import opened ReactorSignals
  import opened ReactorEdges
  import opened ReactorService
  import opened ReactorPolls

  const BATCH := 64
  const WAIT_MS := 300_000

  // ---- Facts about signalling, in the shape the loops need ----

  lemma {:induction false} SignalAllSnoc(st: State, ss: seq<Session>, s: Session)
    ensures SignalAll(st, ss + [s]) == Signal(SignalAll(st, ss), s)
    decreases |ss|
  {
    if ss == [] {
      assert ss + [s] == [s];
      SignalOne(st, s);
    } else {
      assert (ss + [s])[1..] == ss[1..] + [s];
      SignalAllSnoc(Signal(st, ss[0]), ss[1..], s);
    }
  }

  lemma {:induction false} SignalAllEvents(st: State, ss: seq<Session>, es: seq<Session>)
    ensures SignalAll(st.(events := es), ss) == SignalAll(st, ss).(events := es)
    decreases |ss|
  {
    if ss != [] { SignalAllEvents(Signal(st, ss[0]), ss[1..], es); }
  }

  lemma {:induction false} SignalAllConcat(st: State, a: seq<Session>, b: seq<Session>)
    ensures SignalAll(st, a + b) == SignalAll(SignalAll(st, a), b)
    decreases |a|
  {
    if a == [] {
      assert a + b == b;
    } else {
      assert (a + b)[1..] == a[1..] + b;
      SignalAllConcat(Signal(st, a[0]), a[1..], b);
    }
  }

  /** Two drains in a row are one longer drain. */
  lemma DrainMore(st: State, k: nat, n: nat)
    requires k + n <= |st.events|
    ensures |DrainFirst(st, k).events| == |st.events| - k
    ensures DrainFirst(DrainFirst(st, k), n) == DrainFirst(st, k + n)
  {
    var es := st.events;
    DrainFrame(st, k);
    SignalAllEvents(st, es[..k], es[k..]);
    SignalAllEvents(DrainFirst(st, k), es[k..][..n], es[k..][n..]);
    SignalAllEvents(st, es[..k + n], es[k + n..]);
    SignalAllEvents(SignalAll(st, es[..k]), es[k..][..n], es[k..]);
    SignalAllConcat(st, es[..k], es[k..][..n]);
    assert es[..k] + es[k..][..n] == es[..k + n] && es[k..][n..] == es[k + n..];
  }

  /** What `epoll_wait` returns: as much as is there, fits, and VPP grants. */
  function Fetched(queued: nat, grants: seq<int>, room: nat): int {
    var most := if grants == [] || grants[0] > room then room else grants[0];
    if queued < most then queued else most
  }

  function Tail(grants: seq<int>): seq<int> {
    if grants == [] then [] else grants[1..]
  }

  /** How many of the queued events a drain handles: full batches of 64, then one
      short batch, or nothing more. */
  function Drainable(queued: nat, grants: seq<int>): (k: nat)
    ensures k <= queued
    decreases queued
  {
    var n := Fetched(queued, grants, 64);
    if n <= 0 then 0 else if n < 64 then n else n + Drainable(queued - n, Tail(grants))
  }

  /** If VPP hands out all it has, a drain empties the queue whatever its length. */
  lemma {:induction false} DrainableAll(queued: nat)
    ensures Drainable(queued, []) == queued
    decreases queued
  {
    if queued >= 64 { DrainableAll(queued - 64); }
  }

  class VclReactor {
    // the environment: clock, VPP's FIFOs and epoll set, and what the next
    // epoll_wait calls will return at most (empty: as much as they can)
    var now: nat
    var rx: Rx
    var epoll: set<Session>
    var events: seq<Session>
    var mqReady: bool
    var driverDown: bool
    var grants: seq<int>
    // ReactorInner, the Notify heap, and the wait_event futures
    var waiters: map<Session, nat>
    var notifies: seq<Notify>
    var waits: map<WaiterId, Wait>
    var wakers: map<WaiterId, nat>
    var armed: map<WaiterId, nat>   // when the zero-length timer of a wait was made
    // history
    var deregs: map<Session, nat>
    var own: Owners

    ghost function View(): State
      reads this
    {
      State(now, rx, epoll, events, mqReady, waiters, notifies, waits, deregs, own)
    }

    /** `vppcom_epoll_wait(vep, buf, len, 0.0)`. */
    method EpollWait(buf: array<Session>) returns (n: int)
      modifies this`events, this`grants, buf
      ensures n <= buf.Length
      ensures n > 0 ==> n <= |old(events)| && buf[..n] == old(events)[..n]
      ensures View() == old(View()).(events := if n > 0 then old(events)[n..] else old(events))
      ensures n == Fetched(|old(events)|, old(grants), buf.Length) && grants == Tail(old(grants))
    {
      n := buf.Length;
      if grants != [] {
        n := if grants[0] < n then grants[0] else n;
        grants := grants[1..];
      }
      n := if |events| < n then |events| else n;
      if n > 0 {
        forall i | 0 <= i < n { buf[i] := events[i]; }
        events := events[n..];
      }
    }

    /** `waiters.get(&s)` and `notify_one`. */
    method NotifySession(s: Session)
      requires MapWf(View())
      modifies this`notifies
      ensures View() == Signal(old(View()), s) && MapWf(View())
    {
      if s in waiters {
        notifies := notifies[waiters[s] := NotifyOne(notifies[waiters[s]])];
      }
    }

    method NotifyBatch(buf: array<Session>, n: nat)
      requires n <= buf.Length && MapWf(View())
      modifies this`notifies
      ensures View() == SignalAll(old(View()), buf[..n])
      ensures MapWf(View())
    {
      ghost var st0 := View();
      for i := 0 to n
        invariant View() == SignalAll(st0, buf[..i])
        invariant MapWf(View())
      {
        SignalAllSnoc(st0, buf[..i], buf[i]);
        assert buf[..i + 1] == buf[..i] + [buf[i]];
        NotifySession(buf[i]);
      }
    }

    /** One batch: fetch it and notify the session of each event in it. */
    method DrainBatch(buf: array<Session>) returns (n: int)
      requires MapWf(View())
      modifies this`events, this`grants, this`notifies, buf
      ensures n <= buf.Length && n <= |old(events)| && MapWf(View())
      ensures |events| == |old(events)| - if n > 0 then n else 0
      ensures View() == if n > 0 then DrainFirst(old(View()), n) else old(View())
      ensures n == Fetched(|old(events)|, old(grants), buf.Length) && grants == Tail(old(grants))
    {
      n := EpollWait(buf);
      if n > 0 {
        DrainFrame(old(View()), n);
        NotifyBatch(buf, n);
      }
    }

    /** `drain_events_with_inner`: fetch batches of 64 until one comes back short.
        If epoll_wait returns less than it could, a prefix is handled and the rest
        stays queued in order. */
    method DrainEvents() returns (ghost k: nat)
      requires MapWf(View())
      modifies this`events, this`grants, this`notifies
      ensures k == Drainable(|old(events)|, old(grants))
      ensures View() == DrainFirst(old(View()), k)
      ensures MapWf(View())
      ensures old(grants) == [] ==> grants == [] && events == [] && k == |old(events)|
    {
      ghost var st0 := View();
      var buf := new Session[BATCH];
      k := 0;
      DrainableAll(|events|);
      assert View() == DrainFirst(st0, 0) by { assert st0.events[0..] == st0.events && st0.events[..0] == []; }
      while true
        invariant k <= |st0.events| && |events| == |st0.events| - k
        invariant View() == DrainFirst(st0, k)
        invariant MapWf(View())
        invariant old(grants) == [] ==> grants == []
        invariant k + Drainable(|events|, grants) == Drainable(|st0.events|, old(grants))
        decreases |events|
      {
        var n := DrainBatch(buf);
        if n <= 0 { break; }
        DrainMore(st0, k, n);
        k := k + n;
        if n < buf.Length { break; }
      }
    }

    /** The second half of a tick: `notify_one` on every value of the map, in
        whatever order the HashMap yields them. */
    method NotifyEveryone() returns (ghost order: seq<Session>)
      requires MapWf(View())
      modifies this`notifies
      ensures Enumerates(order, waiters.Keys)
      ensures View() == SignalAll(old(View()), order)
    {
      ghost var st0 := View();
      order := [];
      ghost var done: set<Session> := {};
      var todo := waiters.Keys;
      while todo != {}
        invariant todo !! done && todo + done == waiters.Keys
        invariant forall s :: s in order <==> s in done
        invariant forall i, j :: 0 <= i < j < |order| ==> order[i] != order[j]
        invariant View() == SignalAll(st0, order)
        invariant MapWf(View())
        decreases todo
      {
        var s :| s in todo;
        SignalAllSnoc(st0, order, s);
        NotifySession(s);
        order := order + [s];
        done := done + {s};
        todo := todo - {s};
      }
    }

    /** One tick. With a complete drain it empties the event queue. */
    method RunTick() returns (ghost k: nat, ghost order: seq<Session>)
      requires Inv(View())
      modifies this`events, this`grants, this`notifies
      ensures Valid(old(View()), [Tick(Drain(k)), Tick(NotifyAll(order))])
      ensures View() == Exec(old(View()), [Tick(Drain(k)), Tick(NotifyAll(order))])
      ensures Inv(View())
      ensures k == Drainable(|old(events)|, old(grants))
      ensures old(grants) == [] ==> events == []
    {
      ghost var st0 := View();
      k := DrainEvents();
      StepInv(st0, Tick(Drain(k)));
      order := NotifyEveryone();
      ghost var steps := [Tick(Drain(k)), Tick(NotifyAll(order))];
      assert Valid(st0, []) && [] + [Tick(Drain(k))] == [Tick(Drain(k))];
      RunSnoc(st0, [], Tick(Drain(k)));
      RunSnoc(st0, [Tick(Drain(k))], Tick(NotifyAll(order)));
      assert steps == [Tick(Drain(k))] + [Tick(NotifyAll(order))];
      RunInv(st0, steps);
    }

    /** `deregister`. */
    method Unregister(s: Session)
      modifies this`waiters, this`epoll, this`deregs, this`own
      ensures View() == Next(old(View()), Life(Deregister(s)))
    {
      deregs := deregs[s := (if s in deregs then deregs[s] else 0) + 1];
      waiters := waiters - {s};
      own := own.(leaked := own.leaked - {s});
      epoll := epoll - {s};
    }

    /** The head of `wait_event`: look the Notify up or create it, fix the deadline. */
    method StartWait(w: WaiterId, s: Session, timeout: nat)
      requires WaitEnabled(View(), w, Begin(s, timeout))
      modifies this`waiters, this`notifies, this`waits
      ensures View() == WaitNext(old(View()), w, Begin(s, timeout))
    {
      if s !in waiters {
        waiters := waiters[s := |notifies|];
        notifies := notifies + [FRESH];
      }
      var epoch := if s in deregs then deregs[s] else 0;
      waits := waits[w := Wait(s, waiters[s], now + timeout, epoch, Selecting(false))];
    }

    /** Replace the Notify of `w` and move `w` to another phase. */
    method Advance(w: WaiterId, n: Notify, p: Phase)
      requires w in waits && waits[w].notify < |notifies|
      modifies this`notifies, this`waits
      ensures View() == Move(old(View()), w, n, p)
    {
      notifies := notifies[waits[w].notify := n];
      waits := waits[w := waits[w].(phase := p)];
    }

    /** Drop the `notified()` future of `w`. */
    method Retreat(w: WaiterId, p: Phase)
      requires w in waits && waits[w].notify < |notifies|
      modifies this`notifies, this`waits
      ensures View() == Leaving(old(View()), w, p)
    {
      var n := notifies[waits[w].notify];
      Advance(w, if waits[w].phase.Parked? then Notifies.Leave(n, w) else n, p);
    }

    /** The task polled with `cx` is woken when `w` is handed a notification. */
    ghost predicate Wakes(w: WaiterId, cx: nat)
      reads this`wakers
    {
      w in wakers && wakers[w] == cx
    }

    /** The zero-length timer of `w` was made in this very millisecond. */
    ghost predicate GraceOpen(w: WaiterId)
      reads this
    {
      w in waits && waits[w].phase == Parked(true) && w in armed && now <= armed[w]
    }

    /** `w` is right to sleep: its zero-length wait may still be on, or no branch of
        the select! is ready; and its notification will wake `cx`. */
    ghost predicate Asleep(w: WaiterId, cx: nat)
      reads this
    {
      && Wakes(w, cx)
      && (|| GraceOpen(w)
          || (w in waits && waits[w].phase == Parked(false) && now < waits[w].deadline && !mqReady && !driverDown))
    }

    /** The zero-length timer of `w` is as it was, or made now. */
    ghost predicate ArmedFrom(w: WaiterId, was: map<WaiterId, nat>)
      reads this`armed, this`now
    {
      w in armed ==> armed[w] == now || (w in was && armed[w] == was[w])
    }

    /** A poll is Pending only with good reason, and an I/O error is the driver's. */
    ghost predicate Answers(w: WaiterId, cx: nat, r: Poll<Result<()>>)
      reads this
    {
      match r
      case Pending => Asleep(w, cx)
      case Ready(Ok(_)) => true
      case Ready(Err(e)) => e == Io ==> driverDown
    }

    /** Since the eventfd read `ready` with the events `es` queued, nothing was taken
        from it, or everything was drained and its readiness cleared after that. */
    ghost predicate DrainedSince(ready: bool, es: seq<Session>, gs: seq<int>)
      reads this
    {
      gs == [] ==>
        && grants == []
        && ((mqReady == ready && events == es) || (ready && !mqReady && events == []))
    }

    /** Poll the `notified()` future of `w`: one that is not ready keeps the waker. */
    method PollNotified(w: WaiterId, ghost s: Session, cx: nat) returns (ready: bool, ghost trace: seq<Step>)
      requires Mine(View(), w, s)
      modifies this`notifies, this`waits, this`wakers
      ensures Ran(old(View()), trace, View(), w)
      ensures ready <==> old(NotifyAt(View(), waits[w].notify).permit || w in NotifyAt(View(), waits[w].notify).woken)
      ensures ready ==> Polled(old(View()), View(), w, s, Ready(Ok(())))
      ensures !ready ==> StillMine(old(View()), View(), w, s) && Polled(old(View()), View(), w, s, Pending)
                         && waits[w].phase == Parked(old(waits[w].phase.grace)) && Wakes(w, cx)
    {
      ghost var st := View();
      OwnQueue(st, w);
      var n := notifies[waits[w].notify];
      if waits[w].phase.Parked? {
        ready, trace := w in n.woken, [];
        RanNone(st, w);
        if ready {
          GrantFuel(st, w, s, WaitStep.Accept);
          Advance(w, Notifies.Accept(n, w), Finished(Woken));
          trace := [OfWait(w, WaitStep.Accept)];
          RanOne(st, WaitStep.Accept, w);
        } else {
          wakers := wakers[w := cx];
        }
      } else if n.permit {
        GrantFuel(st, w, s, WaitStep.TakePermit);
        Advance(w, Notifies.TakePermit(n), Finished(Woken));
        ready, trace := true, [OfWait(w, WaitStep.TakePermit)];
        RanOne(st, WaitStep.TakePermit, w);
      } else {
        ParkFuel(st, w, s);
        Advance(w, Notifies.Park(n, w), Parked(waits[w].phase.grace));
        wakers := wakers[w := cx];
        ready, trace := false, [OfWait(w, WaitStep.Park)];
        RanOne(st, WaitStep.Park, w);
      }
    }

    /** The eventfd branch wins: the other futures are dropped, then the drain runs. */
    method DropAndDrain(w: WaiterId) returns (ghost k: nat)
      requires Core(View()) && InSelect(View(), w) && mqReady
      modifies this`events, this`grants, this`notifies, this`waits
      ensures WaitEnabled(old(View()), w, MqDrain(k)) && k == Drainable(|old(events)|, old(grants))
      ensures old(grants) == [] ==> grants == [] && events == []
      ensures View() == WaitNext(old(View()), w, MqDrain(k))
    {
      OwnQueue(View(), w);
      LeavingCore(View(), w, Clearing);
      Retreat(w, Clearing);
      k := DrainEvents();
    }

    /** `clear_ready`, also for events posted since the drain. */
    method Clear(w: WaiterId)
      requires Core(View()) && WaitEnabled(View(), w, ClearReady)
      modifies this`mqReady, this`notifies, this`waits
      ensures View() == WaitNext(old(View()), w, ClearReady)
    {
      OwnQueue(View(), w);
      Retreat(w, Selecting(true));
      mqReady := false;
    }

    /** The eventfd branch up to its zero-length wait. */
    method MqBranch(w: WaiterId, ghost s: Session) returns (ghost trace: seq<Step>)
      requires Mine(View(), w, s) && InSelect(View(), w) && mqReady
      modifies this`events, this`grants, this`mqReady, this`notifies, this`waits, this`armed
      ensures Ran(old(View()), trace, View(), w)
      ensures StillMine(old(View()), View(), w, s) && waits[w].phase.grace
      ensures ArmedFrom(w, old(armed)) && DrainedSince(old(mqReady), old(events), old(grants)) && !mqReady
      ensures Fuel(View(), w, s) < old(Fuel(View(), w, s))
    {
      ghost var st := View();
      ghost var k := DropAndDrain(w);
      MqRun(st, w, s, k);
      Clear(w);
      armed := armed[w := now];
      trace := [OfWait(w, MqDrain(k)), OfWait(w, ClearReady)];
    }

    /** The timer or an error branch wins. */
    method GiveUp(w: WaiterId, ghost s: Session, act: WaitStep) returns (e: VclError, ghost trace: seq<Step>)
      requires Mine(View(), w, s) && WaitEnabled(View(), w, act) && (act.TimeOut? || (act.MqError? && driverDown))
      modifies this`notifies, this`waits
      ensures Ran(old(View()), trace, View(), w)
      ensures Polled(old(View()), View(), w, s, Ready(Err(e)))
      ensures e == if act.TimeOut? then Timeout else Io
    {
      OwnQueue(View(), w);
      StepInv(View(), OfWait(w, act));
      RanOne(View(), act, w);
      var p := Finished(if act.TimeOut? then TimedOut else IoFailed);
      LeavingFuel(View(), w, s, p);
      Retreat(w, p);
      e, trace := if act.TimeOut? then Timeout else Io, [OfWait(w, act)];
    }

    /** `timeout(0, notified())`: the inner future is polled first; the timer may
        have fired, and has once a millisecond has passed. */
    method PollGrace(w: WaiterId, ghost s: Session, cx: nat)
      returns (r: Option<Poll<Result<()>>>, ghost trace: seq<Step>)
      requires Mine(View(), w, s) && waits[w].phase.grace
      modifies this`notifies, this`waits, this`wakers
      ensures Ran(old(View()), trace, View(), w)
      ensures r.Some? ==> Polled(old(View()), View(), w, s, r.value) && Answers(w, cx, r.value)
      ensures r.None? ==> StillMine(old(View()), View(), w, s) && !waits[w].phase.grace
    {
      ghost var st := View();
      var ready;
      ready, trace := PollNotified(w, s, cx);
      if ready { return Some(Ready(Ok(()))), trace; }
      var fired: bool := *;
      if w in armed && now <= armed[w] && !fired { return Some(Pending), trace; }
      ghost var mid := View();
      ExpireFuel(mid, w, s);
      OwnQueue(mid, w);
      Retreat(w, Selecting(false));
      RanOne(mid, GraceExpire, w);
      RanConcat(st, trace, mid, [OfWait(w, GraceExpire)], View(), w);
      r, trace := None, trace + [OfWait(w, GraceExpire)];
    }

    /** Whether a poll of `notified()` would be ready. */
    method IsNotified(w: WaiterId, ghost s: Session) returns (ready: bool)
      requires Mine(View(), w, s)
      ensures ready <==> NotifyAt(View(), waits[w].notify).permit || w in NotifyAt(View(), waits[w].notify).woken
    {
      OwnQueue(View(), w);
      var n := notifies[waits[w].notify];
      ready := n.permit || w in n.woken;
    }

    /** No branch of the select! is ready. */
    method FallAsleep(w: WaiterId, ghost s: Session, cx: nat) returns (ghost trace: seq<Step>)
      requires Mine(View(), w, s) && !waits[w].phase.grace
      requires !mqReady && now < waits[w].deadline && !driverDown
      requires var n := NotifyAt(View(), waits[w].notify); !n.permit && w !in n.woken
      modifies this`notifies, this`waits, this`wakers
      ensures Ran(old(View()), trace, View(), w)
      ensures Polled(old(View()), View(), w, s, Pending) && Asleep(w, cx)
    {
      var ready;
      ready, trace := PollNotified(w, s, cx);
    }

    /** The three-way select!: any branch that is ready may be picked. */
    method PollSelect(w: WaiterId, ghost s: Session, cx: nat)
      returns (r: Option<Poll<Result<()>>>, ghost trace: seq<Step>)
      requires Mine(View(), w, s) && !waits[w].phase.grace
      modifies this`events, this`grants, this`mqReady, this`notifies, this`waits, this`wakers, this`armed
      ensures Ran(old(View()), trace, View(), w)
      ensures r.Some? ==> Polled(old(View()), View(), w, s, r.value) && Answers(w, cx, r.value)
      ensures DrainedSince(old(mqReady), old(events), old(grants))
      ensures ArmedFrom(w, old(armed))
      ensures r.None? ==> StillMine(old(View()), View(), w, s) && Fuel(View(), w, s) < old(Fuel(View(), w, s))
    {
      var notified := IsNotified(w, s);
      var ready, e;
      if {
        case mqReady =>
          trace := MqBranch(w, s);
          r := None;
        case notified =>
          ready, trace := PollNotified(w, s, cx);
          r := Some(Ready(Ok(())));
        case now >= waits[w].deadline =>
          e, trace := GiveUp(w, s, TimeOut);
          r := Some(Ready(Err(e)));
        case driverDown =>
          e, trace := GiveUp(w, s, MqError);
          r := Some(Ready(Err(e)));
        case !mqReady && !notified && now < waits[w].deadline && !driverDown =>
          trace := FallAsleep(w, s, cx);
          r := Some(Pending);
      }
    }

    /** One round of the loop, wherever the wait stands. */
    method PollRound(w: WaiterId, ghost s: Session, cx: nat)
      returns (r: Option<Poll<Result<()>>>, ghost trace: seq<Step>)
      requires Mine(View(), w, s)
      modifies this`events, this`grants, this`mqReady, this`notifies, this`waits, this`wakers, this`armed
      ensures Ran(old(View()), trace, View(), w)
      ensures r.Some? ==> Polled(old(View()), View(), w, s, r.value) && Answers(w, cx, r.value)
      ensures DrainedSince(old(mqReady), old(events), old(grants))
      ensures ArmedFrom(w, old(armed))
      ensures r.None? ==> StillMine(old(View()), View(), w, s)
      ensures r.None? ==> Fuel(View(), w, s) < old(Fuel(View(), w, s)) || (old(waits[w].phase.grace) && !waits[w].phase.grace)
    {
      if waits[w].phase.grace {
        r, trace := PollGrace(w, s, cx);
      } else {
        r, trace := PollSelect(w, s, cx);
      }
    }

    /** One poll of a started `wait_event` future, with no outside step in between. */
    method PollWait(w: WaiterId, ghost s: Session, cx: nat) returns (r: Poll<Result<()>>, ghost trace: seq<Step>)
      requires Mine(View(), w, s)
      modifies this`events, this`grants, this`mqReady, this`notifies, this`waits, this`wakers, this`armed
      ensures Ran(old(View()), trace, View(), w)
      ensures Polled(old(View()), View(), w, s, r)
      ensures Answers(w, cx, r) && DrainedSince(old(mqReady), old(events), old(grants))
      ensures ArmedFrom(w, old(armed))
      ensures old(Owed(View(), w, s)) ==> r.Ready?
    {
      ghost var st := View();
      trace := [];
      RanNone(st, w);
      while true
        invariant Ran(st, trace, View(), w) && StillMine(st, View(), w, s)
        invariant DrainedSince(old(mqReady), old(events), old(grants))
        invariant ArmedFrom(w, old(armed))
        decreases Fuel(View(), w, s), if waits[w].phase.grace then 1 else 0
      {
        ghost var mid, more := View(), [];
        var round;
        round, more := PollRound(w, s, cx);
        if round.Some? {
          PollEnds(st, trace, mid, more, View(), w, s, round.value);
          return round.value, trace + more;
        }
        PollGoesOn(st, trace, mid, more, View(), w, s);
        trace := trace + more;
      }
    }

    /** The first poll of a wait starts it. */
    method PollFirst(w: WaiterId, s: Session, cx: nat) returns (r: Poll<Result<()>>, ghost trace: seq<Step>)
      requires Inv(View()) && s in own.live && !Active(View(), w)
      modifies this`waiters, this`events, this`grants, this`mqReady, this`notifies, this`waits, this`wakers, this`armed
      ensures RanBy(old(View()), trace, View(), w)
      ensures PolledStored(old(View()), View(), w, s, r)
      ensures Answers(w, cx, r) && DrainedSince(old(mqReady), old(events), old(grants))
      ensures Begins(trace) == 1 && LongWaits(trace, s)
      ensures ArmedFrom(w, old(armed))
      ensures old(Kept(View(), w, s)) ==> r.Ready?
    {
      ghost var st := View();
      ghost var first := OfWait(w, Begin(s, WAIT_MS));
      BeginFuel(st, w, s, WAIT_MS);
      if Kept(st, w, s) { KeptBegins(st, w, s, WAIT_MS); }
      StartWait(w, s, WAIT_MS);
      r, trace := PollWait(w, s, cx);
      FirstPoll(st, WAIT_MS, trace, View(), w, s, r);
      FirstBegins(first, trace, w, s);
      trace := [first] + trace;
    }

    /** Poll a stored wait, starting it first if it was never polled. */
    method PollStored(w: WaiterId, s: Session, stored: Stored, cx: nat)
      returns (r: Poll<Result<()>>, ghost trace: seq<Step>)
      requires Inv(View()) && s in own.live && stored != Nothing && Holds(View(), w, s, stored)
      modifies this`waiters, this`events, this`grants, this`mqReady, this`notifies, this`waits, this`wakers, this`armed
      ensures RanBy(old(View()), trace, View(), w)
      ensures PolledStored(old(View()), View(), w, s, r)
      ensures Answers(w, cx, r) && DrainedSince(old(mqReady), old(events), old(grants))
      ensures Begins(trace) == (if stored == Unpolled then 1 else 0) && LongWaits(trace, s)
      ensures ArmedFrom(w, old(armed))
      ensures old(if stored == Started then Owed(View(), w, s) else Kept(View(), w, s)) ==> r.Ready?
    {
      ghost var st := View();
      if stored == Unpolled {
        r, trace := PollFirst(w, s, cx);
      } else {
        r, trace := PollWait(w, s, cx);
        PollBegins(trace, w);
        PolledGivesStored(st, trace, View(), w, s, r);
      }
    }
  }

  lemma FirstBegins(first: Step, more: seq<Step>, w: WaiterId, s: Session)
    requires PollSteps(more, w) && first == OfWait(w, Begin(s, 300_000))
    ensures Begins([first] + more) == 1 && LongWaits([first] + more, s)
  {
    PollBegins(more, w);
    BeginsConcat([first], more);
    assert [first][1..] == [];
  }

  /** The last round of a poll. */
  lemma PollEnds(st: State, trace: seq<Step>, mid: State, more: seq<Step>, end: State, w: WaiterId, s: Session,
                 r: Poll<Result<()>>)
    requires Ran(st, trace, mid, w) && StillMine(st, mid, w, s)
    requires Ran(mid, more, end, w) && Polled(mid, end, w, s, r)
    ensures Ran(st, trace + more, end, w) && Polled(st, end, w, s, r)
    ensures Owed(st, w, s) ==> r.Ready?
  {
    RanConcat(st, trace, mid, more, end, w);
    PolledTrans(st, mid, end, w, s, r);
    OwedPollReady(st, trace + more, end, w, s, r);
  }

  /** Any other round. */
  lemma PollGoesOn(st: State, trace: seq<Step>, mid: State, more: seq<Step>, end: State, w: WaiterId, s: Session)
    requires Ran(st, trace, mid, w) && StillMine(st, mid, w, s)
    requires Ran(mid, more, end, w) && StillMine(mid, end, w, s)
    ensures Ran(st, trace + more, end, w) && StillMine(st, end, w, s)
  {
    RanConcat(st, trace, mid, more, end, w);
    StillMineTrans(st, mid, end, w, s);
  }

  /** The eventfd branch as a run. */
  lemma MqRun(st: State, w: WaiterId, s: Session, k: nat)
    requires Mine(st, w, s) && WaitEnabled(st, w, MqDrain(k))
    ensures var st1 := WaitNext(st, w, MqDrain(k));
            && Core(st1) && WaitEnabled(st1, w, ClearReady)
            && var st2 := WaitNext(st1, w, ClearReady);
            var steps := [OfWait(w, MqDrain(k)), OfWait(w, ClearReady)];
            && Ran(st, steps, st2, w)
            && StillMine(st, st2, w, s) && st2.waits[w].phase == Selecting(true)
            && Fuel(st2, w, s) < Fuel(st, w, s)
  {
    MqFuel(st, w, s, k);
    StepCore(st, OfWait(w, MqDrain(k)));
    WaitFrame(st, w, MqDrain(k));
    RanTwo(st, MqDrain(k), ClearReady, w);
  }

  lemma RanTwo(st: State, a: WaitStep, b: WaitStep, w: WaiterId)
    requires WaitEnabled(st, w, a) && !a.Begin? && !a.Cancel?
    requires WaitEnabled(WaitNext(st, w, a), w, b) && !b.Begin? && !b.Cancel?
    ensures Ran(st, [OfWait(w, a), OfWait(w, b)], WaitNext(WaitNext(st, w, a), w, b), w)
  {
    var st1 := WaitNext(st, w, a);
    RanOne(st, a, w);
    RanOne(st1, b, w);
    RanConcat(st, [OfWait(w, a)], st1, [OfWait(w, b)], WaitNext(st1, w, b), w);
    assert [OfWait(w, a)] + [OfWait(w, b)] == [OfWait(w, a), OfWait(w, b)];
  }

  lemma RunNil(st: State)
    ensures Valid(st, []) && Exec(st, []) == st
  {
  }
}
