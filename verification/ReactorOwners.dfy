/** Who the entries of the `waiters` map belong to. */
module ReactorOwners {
  import opened Notifies
  import opened ReactorModel
  import opened ReactorInvariants
  import opened ReactorFairness
  import opened ReactorStall

  function Failures(steps: seq<Step>): nat {
    if steps == [] then 0
    else (if steps[0].Life? && steps[0].life.ConnectFailed? then 1 else 0) + Failures(steps[1..])
  }

  lemma SubsetSize<T>(a: set<T>, b: set<T>)
    requires a <= b
    ensures |a| <= |b|
  {
    assert a + (b - a) == b;
    assert |a + (b - a)| == |a| + |b - a|;
  }

  lemma LeakedStep(st: State, step: Step)
    requires Enabled(st, step)
    ensures |Next(st, step).own.leaked| <= |st.own.leaked| + Failures([step])
  {
    match step
    case Net(_) =>
    case Tick(x) => TickFrame(st, x);
    case OfWait(w, act) => WaitFrame(st, w, act);
    case Life(x) =>
      if x.Deregister? || x.Drop? { SubsetSize(st.own.leaked - {x.s}, st.own.leaked); }
  }

  lemma {:induction false} LeakedRun(st: State, steps: seq<Step>)
    requires Valid(st, steps)
    ensures |Exec(st, steps).own.leaked| <= |st.own.leaked| + Failures(steps)
    decreases |steps|
  {
    if steps != [] {
      LeakedStep(st, steps[0]);
      assert [steps[0]][1..] == [];
      LeakedRun(Next(st, steps[0]), steps[1..]);
    }
  }

  /** In every run the map holds at most one entry per live wrapper, running
      connect and failed connect; without failures every key has a living owner. */
  lemma MapBounded(steps: seq<Step>)
    requires Valid(INIT, steps)
    ensures var st := Exec(INIT, steps);
            && |st.waiters.Keys| <= |st.own.live| + |st.own.connecting| + Failures(steps)
            && (Failures(steps) == 0 ==> st.waiters.Keys <= st.own.live + st.own.connecting)
            && st.own.closing !! st.waiters.Keys
  {
    RunInv(INIT, steps);
    LeakedRun(INIT, steps);
    var st := Exec(INIT, steps);
    var own := st.own;
    SubsetSize(st.waiters.Keys, own.live + own.connecting + own.leaked);
    assert |own.live + own.connecting + own.leaked| <= |own.live| + |own.connecting| + |own.leaked| by {
      assert |own.live + own.connecting| == |own.live| + |own.connecting| - |own.live * own.connecting|;
      assert |own.live + own.connecting + own.leaked| ==
             |own.live + own.connecting| + |own.leaked| - |(own.live + own.connecting) * own.leaked|;
    }
  }

  lemma EntryStep(st: State, step: Step, s: Session)
    requires Enabled(st, step) && s in st.waiters
    requires step != Life(Deregister(s)) && step != Life(Drop(s))
    ensures s in Next(st, step).waiters && Next(st, step).waiters[s] == st.waiters[s]
  {
    match step
    case Net(_) =>
    case Tick(x) => TickFrame(st, x);
    case OfWait(w, act) =>
      WaitFrame(st, w, act);
      if act.Begin? { EnsureKeeps(st, act.s); }
    case Life(x) => LifeKeeps(st, x, s);
  }

  /** Only a deregistration of that very handle removes an entry, so what a
      failed connect leaves behind stays until a later owner of the reused
      handle is dropped. */
  lemma {:induction false} EntryStays(st: State, steps: seq<Step>, s: Session)
    requires Valid(st, steps) && s in st.waiters
    requires Life(Deregister(s)) !in steps && Life(Drop(s)) !in steps
    ensures s in Exec(st, steps).waiters && Exec(st, steps).waiters[s] == st.waiters[s]
    decreases |steps|
  {
    if steps != [] {
      assert steps[0] in steps;
      EntryStep(st, steps[0], s);
      EntryStays(Next(st, steps[0]), steps[1..], s);
    }
  }

  // ---- Exactly which keys the map holds ----

  predicate Removes(step: Step, s: Session) {
    step == Life(Deregister(s)) || step == Life(Drop(s))
  }

  predicate Starts(step: Step, s: Session) {
    step.OfWait? && step.act.Begin? && step.act.s == s
  }

  predicate Claims(step: Step, s: Session) {
    step == Life(Open(s)) || step == Life(StartConnect(s))
  }

  predicate KeptFrom(steps: seq<Step>, s: Session, i: nat) {
    forall j :: i <= j < |steps| ==> !Removes(steps[j], s)
  }

  predicate UnclaimedFrom(steps: seq<Step>, s: Session, i: nat) {
    forall j :: i <= j < |steps| ==> !Claims(steps[j], s)
  }

  /** Step `i` began a wait on `s`, and the handle was not deregistered since. */
  predicate Began(steps: seq<Step>, s: Session, i: nat) {
    i < |steps| && Starts(steps[i], s) && KeptFrom(steps, s, i + 1)
  }

  /** A connect that was past the start of its wait failed at step `f`, and nobody
      has taken the handle over. */
  predicate FailedAt(steps: seq<Step>, s: Session, i: nat, f: nat) {
    Began(steps, s, i) && i < f < |steps| && steps[f] == Life(ConnectFailed(s)) && UnclaimedFrom(steps, s, f + 1)
  }

  /** A map entry whose handle nobody owns. */
  ghost predicate Orphan(st: State, s: Session) {
    s in st.waiters && s !in st.own.live && s !in st.own.connecting
  }

  lemma KeyLife(st: State, x: LifeStep, s: Session)
    requires LifeEnabled(st, x)
    ensures s in LifeNext(st, x).waiters <==> s in st.waiters && x != Deregister(s) && x != Drop(s)
  {
  }

  lemma KeyStep(st: State, step: Step, s: Session)
    requires Enabled(st, step)
    ensures s in Next(st, step).waiters <==> Starts(step, s) || (s in st.waiters && !Removes(step, s))
  {
    match step
    case Net(_) =>
    case Tick(x) => TickFrame(st, x);
    case OfWait(w, act) => WaitFrame(st, w, act);
    case Life(x) => KeyLife(st, x, s);
  }

  /** A run is a shorter run and one more step. */
  lemma {:induction false} RunLast(st: State, steps: seq<Step>)
    requires Valid(st, steps) && steps != []
    ensures var pre, last := steps[..|steps| - 1], steps[|steps| - 1];
            Valid(st, pre) && Enabled(Exec(st, pre), last) && Exec(st, steps) == Next(Exec(st, pre), last)
    decreases |steps|
  {
    var rest := steps[1..];
    if rest == [] {
      assert steps[..0] == [];
    } else {
      RunLast(Next(st, steps[0]), rest);
      var pre := steps[..|steps| - 1];
      assert pre[1..] == rest[..|rest| - 1];
    }
  }

  /** Over every run: a handle is a key if and only if it was one before, or a wait
      on it began, and it was not deregistered since. */
  lemma {:induction false} KeyIff(st: State, steps: seq<Step>, s: Session)
    requires Valid(st, steps)
    ensures s in Exec(st, steps).waiters <==>
              (s in st.waiters && KeptFrom(steps, s, 0)) || exists i: nat :: Began(steps, s, i)
    decreases |steps|
  {
    if steps != [] {
      var n := |steps| - 1;
      var pre, last := steps[..n], steps[n];
      RunLast(st, steps);
      KeyIff(st, pre, s);
      KeyStep(Exec(st, pre), last, s);
      if Starts(last, s) {
        assert Began(steps, s, n);
      } else {
        assert forall i: nat :: Began(steps, s, i) <==> Began(pre, s, i) && !Removes(last, s);
        assert KeptFrom(steps, s, 0) <==> KeptFrom(pre, s, 0) && !Removes(last, s);
      }
    }
  }

  lemma OrphanStep(st: State, step: Step, s: Session)
    requires Inv(st) && Enabled(st, step)
    ensures Orphan(Next(st, step), s) <==>
              && !Removes(step, s) && !Claims(step, s)
              && (Orphan(st, s) || (step == Life(ConnectFailed(s)) && s in st.waiters))
  {
    KeyStep(st, step, s);
    match step
    case Net(_) =>
    case Tick(x) => TickFrame(st, x);
    case OfWait(w, act) => WaitFrame(st, w, act);
    case Life(x) =>
  }

  /** Over every run: the map holds an entry nobody owns if and only if a connect
      failed after its wait had begun, and since then the handle was neither
      deregistered nor given out again. */
  lemma {:induction false} OrphanIff(steps: seq<Step>, s: Session)
    requires Valid(INIT, steps)
    ensures Orphan(Exec(INIT, steps), s) <==> exists i: nat, f: nat :: FailedAt(steps, s, i, f)
    decreases |steps|
  {
    if steps != [] {
      var n := |steps| - 1;
      var pre, last := steps[..n], steps[n];
      RunLast(INIT, steps);
      RunInv(INIT, pre);
      OrphanIff(pre, s);
      OrphanStep(Exec(INIT, pre), last, s);
      KeyIff(INIT, pre, s);
      FailedLast(steps, s);
    }
  }

  /** The condition of `OrphanIff`, one step at a time. */
  lemma FailedLast(steps: seq<Step>, s: Session)
    requires steps != []
    ensures var pre, last := steps[..|steps| - 1], steps[|steps| - 1];
            (exists i: nat, f: nat :: FailedAt(steps, s, i, f)) <==>
              && !Removes(last, s) && !Claims(last, s)
              && (|| (exists i: nat, f: nat :: FailedAt(pre, s, i, f))
                  || (last == Life(ConnectFailed(s)) && exists i: nat :: Began(pre, s, i)))
  {
    var n := |steps| - 1;
    var pre, last := steps[..n], steps[n];
    assert forall i :: 0 <= i < n ==> (Began(steps, s, i) <==> Began(pre, s, i) && !Removes(last, s));
    assert forall g :: 0 <= g <= n ==> (UnclaimedFrom(steps, s, g) <==> UnclaimedFrom(pre, s, g) && !Claims(last, s));
    if i: nat, f: nat :| FailedAt(steps, s, i, f) {
      if f < n { assert FailedAt(pre, s, i, f); } else { assert Began(pre, s, i); }
    }
    if !Removes(last, s) && !Claims(last, s) {
      if i: nat, f: nat :| FailedAt(pre, s, i, f) { assert FailedAt(steps, s, i, f); }
      if i: nat :| Began(pre, s, i) {
        if last == Life(ConnectFailed(s)) { assert FailedAt(steps, s, i, n); }
      }
    }
  }

  /** `connect_async` whose wait runs into its timeout. */
  function FailedConnect(w: WaiterId, s: Session, timeout: nat): seq<Step> {
    [Life(StartConnect(s)), OfWait(w, Begin(s, timeout)), Net(Elapse(timeout))]
    + [OfWait(w, TimeOut), Life(ConnectFailed(s))]
  }

  /** From every state in which the handle is free, a connect whose wait times out is
      a run that leaves an entry without an owner. */
  lemma ConnectLeaks(st: State, w: WaiterId, s: Session, timeout: nat)
    requires !Taken(st.own, s) && !Active(st, w)
    ensures Valid(st, FailedConnect(w, s, timeout))
    ensures var end := Exec(st, FailedConnect(w, s, timeout));
            && Orphan(end, s) && !Taken(end.own, s)
            && w in end.waits && end.waits[w].session == s && end.waits[w].phase == Finished(TimedOut)
  {
    var waiting := [Life(StartConnect(s)), OfWait(w, Begin(s, timeout)), Net(Elapse(timeout))];
    Run3(st, waiting[0], waiting[1], waiting[2]);
    RunSnoc(st, waiting, OfWait(w, TimeOut));
    RunSnoc(st, waiting + [OfWait(w, TimeOut)], Life(ConnectFailed(s)));
    assert FailedConnect(w, s, timeout) == waiting + [OfWait(w, TimeOut)] + [Life(ConnectFailed(s))];
  }

  // ---- Exactly which sessions are watched, and which handles are taken ----

  /** `vppcom_session_close`. */
  predicate Closes(step: Step, s: Session) {
    step == Life(Close(s)) || step == Life(ConnectFailed(s))
  }

  predicate Unwatches(step: Step, s: Session) {
    Removes(step, s) || Closes(step, s)
  }

  /** Step `i` registered `s`, and it was neither deregistered nor closed since. */
  predicate Watched(steps: seq<Step>, s: Session, i: nat) {
    i < |steps| && Claims(steps[i], s) && forall j :: i < j < |steps| ==> !Unwatches(steps[j], s)
  }

  /** Step `i` made the session `s`, and it was not closed since. */
  predicate Made(steps: seq<Step>, s: Session, i: nat) {
    i < |steps| && Claims(steps[i], s) && forall j :: i < j < |steps| ==> !Closes(steps[j], s)
  }

  lemma LifeStepOf(st: State, x: LifeStep, s: Session)
    requires LifeEnabled(st, x)
    requires OwnerWf(st.own, st.waiters.Keys, st.epoll)
    ensures var st', step := LifeNext(st, x), Life(x);
            && (s in st'.epoll <==> Claims(step, s) || (s in st.epoll && !Unwatches(step, s)))
            && (Taken(st'.own, s) <==> Claims(step, s) || (Taken(st.own, s) && !Closes(step, s)))
  {
  }

  lemma WatchStep(st: State, step: Step, s: Session)
    requires Inv(st) && Enabled(st, step)
    ensures s in Next(st, step).epoll <==> Claims(step, s) || (s in st.epoll && !Unwatches(step, s))
    ensures Taken(Next(st, step).own, s) <==> Claims(step, s) || (Taken(st.own, s) && !Closes(step, s))
  {
    match step
    case Net(_) =>
    case Tick(x) => TickFrame(st, x);
    case OfWait(w, act) => WaitFrame(st, w, act);
    case Life(x) => LifeStepOf(st, x, s);
  }

  /** Over every run: a session is in the epoll set if and only if it was registered
      and has neither been deregistered nor closed since; and its handle is taken, so
      that VPP cannot give it out again, exactly from its making to its close. */
  lemma {:induction false} WatchedIff(steps: seq<Step>, s: Session)
    requires Valid(INIT, steps)
    ensures s in Exec(INIT, steps).epoll <==> exists i: nat :: Watched(steps, s, i)
    ensures Taken(Exec(INIT, steps).own, s) <==> exists i: nat :: Made(steps, s, i)
    decreases |steps|
  {
    if steps != [] {
      var n := |steps| - 1;
      var pre, last := steps[..n], steps[n];
      RunLast(INIT, steps);
      RunInv(INIT, pre);
      WatchedIff(pre, s);
      WatchStep(Exec(INIT, pre), last, s);
      if Claims(last, s) {
        assert Watched(steps, s, n) && Made(steps, s, n);
      } else {
        assert forall i: nat :: Watched(steps, s, i) <==> Watched(pre, s, i) && !Unwatches(last, s);
        assert forall i: nat :: Made(steps, s, i) <==> Made(pre, s, i) && !Closes(last, s);
      }
    }
  }
}
