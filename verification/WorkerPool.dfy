/** Worker registration: a process-wide lock, a flag per thread, and the worker
    pool inside libvppcom, under every interleaving of threads. */
module WorkerPool {
  import opened Errors

  type Thread = nat

  /** The thread that ran `VclApp::init`; it is worker 0. */
  const INIT_THREAD: Thread := 0

  /** What `vppcom_worker_register` did for a thread that had no worker. A failure
      may or may not have taken a pool slot before VPP refused. */
  datatype Answer = Registered | FailedWithSlot | FailedWithoutSlot

  /** Where a thread stands in `register_worker_thread`. */
  datatype Phase =
    | Idle
    | Waiting              // blocked on the lock
    | Holding              // has the lock, FFI call next
    | Answered(ok: bool)   // worker index known
    | Leaving              // about to release the lock

  datatype Pool = Pool(
    lock: Option<Thread>,
    flags: set<Thread>,             // threads whose REGISTERED is set
    slots: map<nat, Thread>,        // occupied pool slots and their owners
    phases: map<Thread, Phase>,
    calls: map<Thread, nat>,        // history: FFI register calls
    failures: map<Thread, nat>,     // history: failed registrations
    finished: map<Thread, nat>      // history: completed register_worker_thread calls
  )

  const START := Pool(None, {}, map[0 := INIT_THREAD], map[], map[], map[], map[])

  datatype Action =
    | Call            // fast path, or go for the lock
    | Acquire
    | Register(answer: Answer)
    | Unregister
    | SetFlag
    | Release

  function PhaseOf(p: Pool, t: Thread): Phase {
    if t in p.phases then p.phases[t] else Idle
  }

  function Count(m: map<Thread, nat>, t: Thread): nat {
    if t in m then m[t] else 0
  }

  function Bump(m: map<Thread, nat>, t: Thread): map<Thread, nat> {
    m[t := Count(m, t) + 1]
  }

  /** `pool_get`: the lowest free index. */
  function LowestFree(slots: map<nat, Thread>, from: nat): (k: nat)
    ensures k !in slots && k >= from
    ensures forall i :: from <= i < k ==> i in slots
    decreases |UpFrom(slots, from)|
  {
    if from !in slots then from
    else
      FewerLeft(slots, from);
      LowestFree(slots, from + 1)
  }

  function UpFrom(slots: map<nat, Thread>, from: nat): set<nat> {
    set k | k in slots && k >= from
  }

  lemma FewerLeft(slots: map<nat, Thread>, from: nat)
    requires from in slots
    ensures |UpFrom(slots, from + 1)| < |UpFrom(slots, from)|
  {
    assert UpFrom(slots, from + 1) == UpFrom(slots, from) - {from};
  }

  function WithoutOwner(slots: map<nat, Thread>, t: Thread): map<nat, Thread> {
    map k | k in slots && slots[k] != t :: slots[k]
  }

  predicate Enabled(p: Pool, t: Thread, a: Action) {
    match a
    case Call => PhaseOf(p, t) == Idle
    case Acquire => PhaseOf(p, t) == Waiting && p.lock.None?
    case Register(answer) => PhaseOf(p, t) == Holding && (t in p.slots.Values ==> answer == Registered)
    case Unregister => PhaseOf(p, t) == Answered(false)
    case SetFlag => PhaseOf(p, t) == Answered(true)
    case Release => PhaseOf(p, t) == Leaving
  }

  function Next(p: Pool, t: Thread, a: Action): Pool
    requires Enabled(p, t, a)
  {
    match a
    case Call =>
      if t in p.flags then p.(finished := Bump(p.finished, t)) else p.(phases := p.phases[t := Waiting])
    case Acquire => p.(lock := Some(t), phases := p.phases[t := Holding])
    case Register(answer) =>
      p.(calls := Bump(p.calls, t),
         failures := if answer == Registered then p.failures else Bump(p.failures, t),
         slots := if t in p.slots.Values || answer == FailedWithoutSlot then p.slots
                  else p.slots[LowestFree(p.slots, 0) := t],
         phases := p.phases[t := Answered(answer == Registered)])
    case Unregister => p.(slots := WithoutOwner(p.slots, t), phases := p.phases[t := Leaving])
    case SetFlag => p.(flags := p.flags + {t}, phases := p.phases[t := Leaving])
    case Release =>
      p.(lock := None, finished := Bump(p.finished, t), phases := p.phases[t := Idle])
  }

  // ---- The invariant ----

  ghost predicate OneSlotEach(slots: map<nat, Thread>) {
    forall i, j :: i in slots && j in slots && i != j ==> slots[i] != slots[j]
  }

  predicate Inside(ph: Phase) {
    ph.Holding? || ph.Answered? || ph.Leaving?
  }

  /** The lock is held exactly by the one thread inside, and nobody inside but at
      the very end, nor anybody waiting, is flagged. */
  ghost predicate LockWf(p: Pool) {
    && (forall t: Thread :: Inside(PhaseOf(p, t)) <==> p.lock == Some(t))
    && (forall t: Thread :: t in p.flags ==> PhaseOf(p, t) == Idle || PhaseOf(p, t) == Leaving)
  }

  function HolderPhase(p: Pool): Phase {
    if p.lock.Some? then PhaseOf(p, p.lock.value) else Idle
  }

  /** Occupied slots: one per flagged thread and the init thread's, and in
      between those two points the one the thread inside has just been given. */
  ghost predicate SlotsWf(p: Pool) {
    var base := p.flags + {INIT_THREAD};
    && OneSlotEach(p.slots)
    && base <= p.slots.Values
    && p.slots.Values <= base + (if HolderPhase(p).Answered? then {p.lock.value} else {})
    && (HolderPhase(p) == Answered(true) ==> p.lock.value in p.slots.Values)
    && (HolderPhase(p) == Answered(false) ==> p.lock.value !in base)
  }

  /** A call that ended left the thread flagged or recorded a failure. */
  ghost predicate HistoryWf(p: Pool) {
    && (forall t: Thread :: Count(p.finished, t) > 0 ==> t in p.flags || Count(p.failures, t) > 0)
    && (HolderPhase(p) == Leaving ==> p.lock.value in p.flags || Count(p.failures, p.lock.value) > 0)
    && (HolderPhase(p) == Answered(false) ==> Count(p.failures, p.lock.value) > 0)
  }

  ghost predicate Inv(p: Pool) {
    LockWf(p) && SlotsWf(p) && HistoryWf(p)
  }

  lemma StepLock(p: Pool, t: Thread, a: Action)
    requires LockWf(p) && Enabled(p, t, a)
    ensures LockWf(Next(p, t, a))
  {
    var q := Next(p, t, a);
    assert forall x: Thread :: x != t ==> PhaseOf(q, x) == PhaseOf(p, x);
  }

  /** Every action behind the lock is the holder's own. */
  lemma StepHolder(p: Pool, t: Thread, a: Action)
    requires LockWf(p) && Enabled(p, t, a)
    ensures var q := Next(p, t, a);
            match a
            case Call => q.lock == p.lock && HolderPhase(q) == HolderPhase(p)
            case Acquire => p.lock.None? && q.lock == Some(t) && HolderPhase(q) == Holding
            case Register(x) => p.lock == q.lock == Some(t) && HolderPhase(q) == Answered(x == Registered)
            case Unregister => p.lock == q.lock == Some(t) && HolderPhase(q) == Leaving
            case SetFlag => p.lock == q.lock == Some(t) && HolderPhase(q) == Leaving
            case Release => p.lock == Some(t) && q.lock.None?
  {
    assert Inside(PhaseOf(p, t)) <==> p.lock == Some(t);
  }

  lemma ValuesAfterInsert(slots: map<nat, Thread>, k: nat, t: Thread)
    requires k !in slots && OneSlotEach(slots) && t !in slots.Values
    ensures OneSlotEach(slots[k := t]) && slots[k := t].Values == slots.Values + {t}
  {
    var after := slots[k := t];
    assert k in after;
    forall v | v in slots.Values ensures v in after.Values {
      var i :| i in slots && slots[i] == v;
      assert after[i] == v;
    }
  }

  lemma ValuesWithoutOwner(slots: map<nat, Thread>, t: Thread)
    requires OneSlotEach(slots)
    ensures OneSlotEach(WithoutOwner(slots, t)) && WithoutOwner(slots, t).Values == slots.Values - {t}
  {
    var after := WithoutOwner(slots, t);
    forall v | v in slots.Values - {t} ensures v in after.Values {
      var i :| i in slots && slots[i] == v;
      assert i in after && after[i] == v;
    }
  }

  lemma StepSlots(p: Pool, t: Thread, a: Action)
    requires LockWf(p) && SlotsWf(p) && Enabled(p, t, a)
    ensures SlotsWf(Next(p, t, a))
  {
    StepHolder(p, t, a);
    match a
    case Register(answer) =>
      if t !in p.slots.Values && answer != FailedWithoutSlot {
        ValuesAfterInsert(p.slots, LowestFree(p.slots, 0), t);
      }
    case Unregister => ValuesWithoutOwner(p.slots, t);
    case _ =>
  }

  lemma StepHistory(p: Pool, t: Thread, a: Action)
    requires LockWf(p) && HistoryWf(p) && Enabled(p, t, a)
    ensures HistoryWf(Next(p, t, a))
  {
    var q := Next(p, t, a);
    StepHolder(p, t, a);
    assert forall x: Thread :: x != t ==> Count(q.finished, x) == Count(p.finished, x);
    assert forall x: Thread :: Count(q.failures, x) >= Count(p.failures, x);
  }

  lemma StepInv(p: Pool, t: Thread, a: Action)
    requires Inv(p) && Enabled(p, t, a)
    ensures Inv(Next(p, t, a))
  {
    StepLock(p, t, a);
    StepSlots(p, t, a);
    StepHistory(p, t, a);
  }

  // ---- Runs ----

  datatype Move = Move(t: Thread, a: Action)

  predicate Valid(p: Pool, run: seq<Move>)
    decreases |run|
  {
    run == [] || (Enabled(p, run[0].t, run[0].a) && Valid(Next(p, run[0].t, run[0].a), run[1..]))
  }

  function Exec(p: Pool, run: seq<Move>): Pool
    requires Valid(p, run)
    decreases |run|
  {
    if run == [] then p else Exec(Next(p, run[0].t, run[0].a), run[1..])
  }

  lemma {:induction false} RunInv(p: Pool, run: seq<Move>)
    requires Inv(p) && Valid(p, run)
    ensures Inv(Exec(p, run))
    decreases |run|
  {
    if run != [] {
      StepInv(p, run[0].t, run[0].a);
      RunInv(Next(p, run[0].t, run[0].a), run[1..]);
    }
  }

  lemma {:induction false} InjectiveSize(slots: map<nat, Thread>)
    requires OneSlotEach(slots)
    ensures |slots| == |slots.Values|
    decreases |slots|
  {
    if slots.Keys == {} {
      assert slots.Values == {};
    } else {
      var k :| k in slots;
      var rest := slots - {k};
      assert slots == rest[k := slots[k]];
      assert rest.Keys == slots.Keys - {k};
      InjectiveSize(rest);
      ValuesAfterInsert(rest, k, slots[k]);
    }
  }

  /** Under every interleaving and every pattern of failures: whenever the lock is
      free, the pool holds exactly one slot per flagged thread, plus the init thread's. */
  lemma PoolMatchesFlags(run: seq<Move>)
    requires Valid(START, run) && Exec(START, run).lock.None?
    ensures var p := Exec(START, run);
            && OneSlotEach(p.slots) && p.slots.Values == p.flags + {INIT_THREAD}
            && |p.slots| == |p.flags + {INIT_THREAD}|
  {
    StartInv();
    RunInv(START, run);
    InjectiveSize(Exec(START, run).slots);
  }

  lemma StartInv()
    ensures Inv(START)
  {
    assert START.slots[0] == INIT_THREAD;
  }

  // ---- A flagged thread never calls the FFI again ----

  lemma {:induction false} FlaggedStaysOut(p: Pool, run: seq<Move>, t: Thread)
    requires Inv(p) && Valid(p, run) && t in p.flags
    ensures t in Exec(p, run).flags && Count(Exec(p, run).calls, t) == Count(p.calls, t)
    decreases |run|
  {
    if run != [] {
      StepInv(p, run[0].t, run[0].a);
      FlaggedStaysOut(Next(p, run[0].t, run[0].a), run[1..], t);
    }
  }

  // ---- Failed registrations leave no trace in the pool ----

  predicate Fails(m: Move) {
    m.a.Register? ==> m.a.answer != Registered
  }

  /** The pool is as in `base`, except for a slot the thread inside may hold. */
  ghost predicate AsBefore(base: Pool, p: Pool) {
    && p.flags == base.flags
    && HolderPhase(p) != Answered(true)
    && if HolderPhase(p) == Answered(false) then
         p.lock.value !in base.slots.Values && WithoutOwner(p.slots, p.lock.value) == base.slots
       else
         p.slots == base.slots
  }

  lemma GiveAndTakeBack(slots: map<nat, Thread>, k: nat, t: Thread)
    requires k !in slots && t !in slots.Values
    ensures WithoutOwner(slots, t) == slots && WithoutOwner(slots[k := t], t) == slots
  {
    assert forall i :: i in slots ==> slots[i] in slots.Values;
  }

  lemma FailStep(base: Pool, p: Pool, m: Move)
    requires Inv(p) && AsBefore(base, p) && Enabled(p, m.t, m.a) && Fails(m)
    ensures AsBefore(base, Next(p, m.t, m.a))
  {
    StepHolder(p, m.t, m.a);
    if m.a.Register? {
      GiveAndTakeBack(base.slots, LowestFree(base.slots, 0), m.t);
    }
  }

  /** Any number of failed attempts, by any threads interleaved in any way, leaves
      the very same slots with the very same owners. */
  lemma {:induction false} FailedRetriesLeaveNoTrace(base: Pool, p: Pool, run: seq<Move>)
    requires Inv(p) && AsBefore(base, p) && Valid(p, run)
    requires forall i :: 0 <= i < |run| ==> Fails(run[i])
    ensures Inv(Exec(p, run)) && AsBefore(base, Exec(p, run))
    ensures Exec(p, run).lock.None? ==> Exec(p, run).slots == base.slots
    decreases |run|
  {
    if run != [] {
      StepInv(p, run[0].t, run[0].a);
      FailStep(base, p, run[0]);
      FailedRetriesLeaveNoTrace(base, Next(p, run[0].t, run[0].a), run[1..]);
    }
  }

  lemma FailuresFromQuiet(p: Pool, run: seq<Move>)
    requires Inv(p) && p.lock.None? && Valid(p, run) && Exec(p, run).lock.None?
    requires forall i :: 0 <= i < |run| ==> Fails(run[i])
    ensures Exec(p, run).slots == p.slots && Exec(p, run).flags == p.flags
  {
    FailedRetriesLeaveNoTrace(p, p, run);
  }

  // ---- Once only flagged threads are left, the pool no longer grows ----

  lemma {:induction false} FlaggedRunIsQuiet(p: Pool, run: seq<Move>)
    requires Inv(p) && Valid(p, run)
    requires forall i :: 0 <= i < |run| ==> run[i].t in p.flags
    ensures Exec(p, run).slots == p.slots && Exec(p, run).calls == p.calls && Exec(p, run).flags == p.flags
    decreases |run|
  {
    if run != [] {
      var q := Next(p, run[0].t, run[0].a);
      StepInv(p, run[0].t, run[0].a);
      assert q.flags == p.flags && q.slots == p.slots && q.calls == p.calls;
      FlaggedRunIsQuiet(q, run[1..]);
    }
  }

  // ---- The function itself, run by one thread while nobody else is inside ----

  function WholeCall(t: Thread, answer: Answer): seq<Move> {
    [Move(t, Call), Move(t, Acquire), Move(t, Register(answer)),
     Move(t, if answer == Registered then SetFlag else Unregister), Move(t, Release)]
  }

  /** What a call on the slow path amounts to, step by step. */
  function AfterCall(p: Pool, t: Thread, answer: Answer): Pool {
    var given := if t in p.slots.Values || answer == FailedWithoutSlot then p.slots
                 else p.slots[LowestFree(p.slots, 0) := t];
    p.(flags := if answer == Registered then p.flags + {t} else p.flags,
       slots := if answer == Registered then given else WithoutOwner(given, t),
       calls := Bump(p.calls, t),
       failures := if answer == Registered then p.failures else Bump(p.failures, t),
       finished := Bump(p.finished, t),
       phases := p.phases[t := Idle])
  }

  /** Getting inside: the fast path is not taken and the lock is free. */
  lemma EnterRun(p: Pool, t: Thread)
    requires p.lock.None? && PhaseOf(p, t) == Idle && t !in p.flags
    ensures var enter := [Move(t, Call), Move(t, Acquire)];
            Valid(p, enter) && Exec(p, enter) == p.(lock := Some(t), phases := p.phases[t := Holding])
  {
    var p1 := Next(p, t, Call);
    assert p1.phases[t := Holding] == p.phases[t := Holding];
    ConsRun(p1, Move(t, Acquire), []);
    ConsRun(p, Move(t, Call), [Move(t, Acquire)]);
  }

  lemma LeaveRun(p: Pool, t: Thread, answer: Answer)
    requires p.lock == Some(t) && PhaseOf(p, t) == Holding
    requires t in p.slots.Values ==> answer == Registered
    ensures var leave := WholeCall(t, answer)[2..];
            Valid(p, leave) && Exec(p, leave) == AfterCall(p, t, answer).(lock := None)
  {
    var run := WholeCall(t, answer);
    var p1 := Next(p, t, Register(answer));
    var p2 := Next(p1, t, run[3].a);
    assert Next(p2, t, Release) == AfterCall(p, t, answer).(lock := None);
    ConsRun(p2, run[4], []);
    ConsRun(p1, run[3], [run[4]]);
    ConsRun(p, run[2], [run[3], run[4]]);
    assert run[2..] == [run[2]] + ([run[3]] + ([run[4]] + []));
  }

  lemma {:induction false} ConcatRun(p: Pool, a: seq<Move>, b: seq<Move>)
    requires Valid(p, a) && Valid(Exec(p, a), b)
    ensures Valid(p, a + b) && Exec(p, a + b) == Exec(Exec(p, a), b)
    decreases |a|
  {
    if a == [] {
      assert a + b == b;
    } else {
      ConcatRun(Next(p, a[0].t, a[0].a), a[1..], b);
      ConsRun(p, a[0], a[1..] + b);
      assert a + b == [a[0]] + (a[1..] + b);
    }
  }

  lemma CallIsRun(p: Pool, t: Thread, answer: Answer)
    requires p.lock.None? && PhaseOf(p, t) == Idle && t !in p.flags
    requires t in p.slots.Values ==> answer == Registered
    ensures Valid(p, WholeCall(t, answer)) && Exec(p, WholeCall(t, answer)) == AfterCall(p, t, answer)
  {
    var enter, leave := [Move(t, Call), Move(t, Acquire)], WholeCall(t, answer)[2..];
    EnterRun(p, t);
    var inside := p.(lock := Some(t), phases := p.phases[t := Holding]);
    LeaveRun(inside, t, answer);
    AfterInside(p, t, answer);
    ConcatRun(p, enter, leave);
    assert WholeCall(t, answer) == enter + leave;
  }

  /** Seen from inside, a call leaves the pool as it does seen from before. */
  lemma AfterInside(p: Pool, t: Thread, answer: Answer)
    requires p.lock.None?
    ensures AfterCall(p.(lock := Some(t), phases := p.phases[t := Holding]), t, answer).(lock := None) ==
            AfterCall(p, t, answer)
  {
    assert p.phases[t := Holding][t := Idle] == p.phases[t := Idle];
  }

  lemma ConsRun(p: Pool, m: Move, run: seq<Move>)
    requires Enabled(p, m.t, m.a) && Valid(Next(p, m.t, m.a), run)
    ensures Valid(p, [m] + run) && Exec(p, [m] + run) == Exec(Next(p, m.t, m.a), run)
  {
    assert ([m] + run)[1..] == run;
  }

  /** A call either registers the thread or changes nothing in flags and pool. */
  lemma CallOutcome(p: Pool, t: Thread, answer: Answer)
    requires Inv(p) && p.lock.None? && PhaseOf(p, t) == Idle && t !in p.flags
    requires t in p.slots.Values ==> answer == Registered
    ensures Inv(AfterCall(p, t, answer))
    ensures answer != Registered ==> AfterCall(p, t, answer).slots == p.slots
    ensures answer == Registered ==> t in AfterCall(p, t, answer).slots.Values
  {
    CallIsRun(p, t, answer);
    RunInv(p, WholeCall(t, answer));
    if answer != Registered { GiveAndTakeBack(p.slots, LowestFree(p.slots, 0), t); }
  }

  class Registry {
    var flags: set<Thread>
    var slots: map<nat, Thread>
    var calls: map<Thread, nat>
    var failures: map<Thread, nat>
    var finished: map<Thread, nat>
    ghost var phases: map<Thread, Phase>

    ghost function View(): Pool
      reads this
    {
      Pool(None, flags, slots, phases, calls, failures, finished)
    }

    /** `vppcom_worker_register` and `vppcom_worker_index`. */
    method WorkerRegister(t: Thread) returns (index: int, ghost answer: Answer)
      modifies this`slots, this`calls, this`failures
      ensures calls == Bump(old(calls), t)
      ensures t in old(slots).Values ==> answer == Registered
      ensures index >= 0 <==> answer == Registered
      ensures failures == if answer == Registered then old(failures) else Bump(old(failures), t)
      ensures slots == if t in old(slots).Values || answer == FailedWithoutSlot then old(slots)
                       else old(slots)[LowestFree(old(slots), 0) := t]
    {
      calls := Bump(calls, t);
      var choice: int := *;
      if t in slots.Values || choice == 0 {
        index, answer := 0, Registered;
      } else {
        index, answer := -1, if choice == 1 then FailedWithSlot else FailedWithoutSlot;
        failures := Bump(failures, t);
      }
      if t !in slots.Values && (index >= 0 || choice == 1) {
        slots := slots[LowestFree(slots, 0) := t];
      }
    }

    /** `register_worker_thread`: a run of the protocol that ends with the thread
        flagged and owning a slot, or with the pool untouched and the flag clear,
        so that the next call tries again. */
    method RegisterWorkerThread(t: Thread) returns (ghost run: seq<Move>)
      requires Inv(View()) && PhaseOf(View(), t) == Idle
      modifies this
      ensures Valid(old(View()), run) && View() == Exec(old(View()), run) && Inv(View())
      ensures t in old(flags) ==> View() == old(View()).(finished := Bump(old(finished), t))
      ensures t !in old(flags) ==> calls == Bump(old(calls), t) && finished == Bump(old(finished), t)
      ensures t in old(flags) ==> run == [Move(t, Call)]
      ensures t !in old(flags) ==> exists answer :: run == WholeCall(t, answer)
      ensures t !in flags ==> flags == old(flags) && slots == old(slots) && Count(failures, t) > old(Count(failures, t))
      ensures t in flags ==> flags == old(flags) + {t} && t in slots.Values
    {
      ghost var p := View();
      if t in flags {
        finished := Bump(finished, t);
        run := [Move(t, Call)];
        StepInv(p, t, Call);
        ConsRun(p, Move(t, Call), []);
        assert t in p.slots.Values;
        return;
      }
      ghost var answer;
      var index;
      index, answer := WorkerRegister(t);
      if index < 0 {
        slots := WithoutOwner(slots, t);
      } else {
        flags := flags + {t};
      }
      finished := Bump(finished, t);
      phases := phases[t := Idle];
      run := WholeCall(t, answer);
      CallIsRun(p, t, answer);
      CallOutcome(p, t, answer);
      assert View() == AfterCall(p, t, answer);
    }
  }
}
