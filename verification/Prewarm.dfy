/** `prewarm(n)`: n tasks on the blocking pool, each registering its thread and
    then waiting at one barrier for all n. */
module Prewarm {
  import WorkerPool

  type Thread = WorkerPool.Thread

  /** A task occupies its thread from Running to Passed. `seen` is how many
      registration calls the thread had completed when it began. */
  datatype Task =
    | Queued
    | Running(thread: Thread, seen: nat)
    | Arrived(thread: Thread, seen: nat)
    | Passed(thread: Thread, seen: nat)
    | Done(thread: Thread, seen: nat)
    | Panicked

  datatype State = State(
    pool: WorkerPool.Pool,
    threads: set<Thread>,   // what the runtime's max_blocking_threads allows
    tasks: seq<Task>
  )

  datatype Step =
    | Work(t: Thread, a: WorkerPool.Action)
    | Begin(i: nat, t: Thread)
    | Arrive(i: nat)
    | Pass(i: nat)
    | Finish(i: nat)
    | Panic(i: nat)

  function Start(pool: WorkerPool.Pool, threads: set<Thread>, n: nat): State {
    State(pool, threads, seq(n, _ => Queued))
  }

  predicate Occupies(k: Task, t: Thread) {
    (k.Running? || k.Arrived? || k.Passed?) && k.thread == t
  }

  predicate AtBarrier(k: Task) {
    k.Arrived? || k.Passed? || k.Done?
  }

  predicate Past(k: Task) {
    k.Passed? || k.Done?
  }

  predicate Placed(k: Task) {
    k.Running? || AtBarrier(k)
  }

  predicate Enabled(st: State, step: Step) {
    match step
    case Work(t, a) => WorkerPool.Enabled(st.pool, t, a)
    case Begin(i, t) =>
      && i < |st.tasks| && st.tasks[i].Queued? && t in st.threads
      && forall j :: 0 <= j < |st.tasks| ==> !Occupies(st.tasks[j], t)
    case Arrive(i) =>
      && i < |st.tasks| && st.tasks[i].Running?
      && WorkerPool.Count(st.pool.finished, st.tasks[i].thread) > st.tasks[i].seen
    case Pass(i) =>
      && i < |st.tasks| && st.tasks[i].Arrived?
      && forall j :: 0 <= j < |st.tasks| ==> AtBarrier(st.tasks[j])
    case Finish(i) => i < |st.tasks| && st.tasks[i].Passed?
    case Panic(i) => i < |st.tasks| && st.tasks[i].Running?
  }

  function Next(st: State, step: Step): State
    requires Enabled(st, step)
  {
    match step
    case Work(t, a) => st.(pool := WorkerPool.Next(st.pool, t, a))
    case Begin(i, t) => st.(tasks := st.tasks[i := Running(t, WorkerPool.Count(st.pool.finished, t))])
    case Arrive(i) => st.(tasks := st.tasks[i := Arrived(st.tasks[i].thread, st.tasks[i].seen)])
    case Pass(i) => st.(tasks := st.tasks[i := Passed(st.tasks[i].thread, st.tasks[i].seen)])
    case Finish(i) => st.(tasks := st.tasks[i := Done(st.tasks[i].thread, st.tasks[i].seen)])
    case Panic(i) => st.(tasks := st.tasks[i := Panicked])
  }

  predicate Valid(st: State, steps: seq<Step>)
    decreases |steps|
  {
    steps == [] || (Enabled(st, steps[0]) && Valid(Next(st, steps[0]), steps[1..]))
  }

  function Exec(st: State, steps: seq<Step>): State
    requires Valid(st, steps)
    decreases |steps|
  {
    if steps == [] then st else Exec(Next(st, steps[0]), steps[1..])
  }

  // ---- The invariant ----

  /** Tasks that have a thread have different ones. */
  ghost predicate Apart(tasks: seq<Task>) {
    forall i, j :: 0 <= i < j < |tasks| && Placed(tasks[i]) && Placed(tasks[j]) ==> tasks[i].thread != tasks[j].thread
  }

  /** The barrier opens for nobody before all have arrived. */
  ghost predicate BarrierWf(tasks: seq<Task>) {
    forall i, j :: 0 <= i < |tasks| && 0 <= j < |tasks| && Past(tasks[i]) ==> AtBarrier(tasks[j])
  }

  /** Whoever arrived has completed a registration call of its own. */
  ghost predicate CalledWf(st: State) {
    forall i :: 0 <= i < |st.tasks| && AtBarrier(st.tasks[i]) ==>
                  WorkerPool.Count(st.pool.finished, st.tasks[i].thread) > st.tasks[i].seen
  }

  ghost predicate Inv(st: State) {
    && WorkerPool.Inv(st.pool)
    && Apart(st.tasks) && BarrierWf(st.tasks) && CalledWf(st)
    && forall i :: 0 <= i < |st.tasks| && Placed(st.tasks[i]) ==> st.tasks[i].thread in st.threads
  }

  lemma WorkStep(st: State, t: Thread, a: WorkerPool.Action)
    requires Inv(st) && WorkerPool.Enabled(st.pool, t, a)
    ensures Inv(Next(st, Work(t, a)))
  {
    WorkerPool.StepInv(st.pool, t, a);
    var after := WorkerPool.Next(st.pool, t, a);
    assert forall x: Thread :: WorkerPool.Count(after.finished, x) >= WorkerPool.Count(st.pool.finished, x);
  }

  lemma BeginStep(st: State, i: nat, t: Thread)
    requires Inv(st) && Enabled(st, Begin(i, t))
    ensures Inv(Next(st, Begin(i, t)))
  {
    // a Done task would mean that nobody is queued any more
    assert forall j :: 0 <= j < |st.tasks| ==> !Past(st.tasks[j]);
    assert forall j :: 0 <= j < |st.tasks| && Placed(st.tasks[j]) ==> Occupies(st.tasks[j], st.tasks[j].thread);
  }

  lemma PassStep(st: State, i: nat)
    requires Inv(st) && Enabled(st, Pass(i))
    ensures Inv(Next(st, Pass(i)))
  {
    assert AtBarrier(Next(st, Pass(i)).tasks[i]);
  }

  lemma PanicStep(st: State, i: nat)
    requires Inv(st) && Enabled(st, Panic(i))
    ensures Inv(Next(st, Panic(i)))
  {
    assert !AtBarrier(st.tasks[i]);
    assert forall j :: 0 <= j < |st.tasks| ==> !Past(st.tasks[j]);
  }

  lemma StepInv(st: State, step: Step)
    requires Inv(st) && Enabled(st, step)
    ensures Inv(Next(st, step))
  {
    match step
    case Work(t, a) => WorkStep(st, t, a);
    case Begin(i, t) => BeginStep(st, i, t);
    case Pass(i) => PassStep(st, i);
    case Panic(i) => PanicStep(st, i);
    case _ =>
  }

  lemma {:induction false} RunInv(st: State, steps: seq<Step>)
    requires Inv(st) && Valid(st, steps)
    ensures Inv(Exec(st, steps)) && Exec(st, steps).threads == st.threads && |Exec(st, steps).tasks| == |st.tasks|
    decreases |steps|
  {
    if steps != [] {
      StepInv(st, steps[0]);
      RunInv(Next(st, steps[0]), steps[1..]);
    }
  }

  lemma {:induction false} Pigeonhole(tasks: seq<Task>, within: set<Thread>)
    requires Apart(tasks)
    requires forall i :: 0 <= i < |tasks| ==> Placed(tasks[i]) && tasks[i].thread in within
    ensures |tasks| <= |within|
    decreases |tasks|
  {
    if tasks != [] {
      var m := |tasks| - 1;
      Pigeonhole(tasks[..m], within - {tasks[m].thread});
    }
  }

  /** Once any task is past the barrier, in any run: the n tasks sit on n different
      threads of the pool, each of which has completed a registration call since
      its task began, and is a registered worker unless such a call failed. */
  lemma DistinctThreads(pool: WorkerPool.Pool, threads: set<Thread>, n: nat, steps: seq<Step>, i: nat)
    requires WorkerPool.Inv(pool) && Valid(Start(pool, threads, n), steps)
    requires var end := Exec(Start(pool, threads, n), steps); i < |end.tasks| && Past(end.tasks[i])
    ensures var end := Exec(Start(pool, threads, n), steps);
            && |end.tasks| == n
            && (forall j :: 0 <= j < n ==> AtBarrier(end.tasks[j]) && end.tasks[j].thread in threads)
            && (forall j, k :: 0 <= j < k < n ==> end.tasks[j].thread != end.tasks[k].thread)
            && (forall j :: 0 <= j < n ==>
                  && WorkerPool.Count(end.pool.finished, end.tasks[j].thread) > end.tasks[j].seen
                  && (end.tasks[j].thread in end.pool.flags
                      || WorkerPool.Count(end.pool.failures, end.tasks[j].thread) > 0))
    ensures n <= |threads|
  {
    var st := Start(pool, threads, n);
    RunInv(st, steps);
    var end := Exec(st, steps);
    assert forall j :: 0 <= j < n ==> AtBarrier(end.tasks[j]);
    assert forall j :: 0 <= j < n ==> Placed(end.tasks[j]);
    Pigeonhole(end.tasks, threads);
  }

  /** With fewer threads than tasks nobody ever gets past the barrier. */
  lemma TooFewThreads(pool: WorkerPool.Pool, threads: set<Thread>, n: nat, steps: seq<Step>, i: nat)
    requires WorkerPool.Inv(pool) && Valid(Start(pool, threads, n), steps) && |threads| < n
    ensures var end := Exec(Start(pool, threads, n), steps); i < |end.tasks| ==> !Past(end.tasks[i])
  {
    var end := Exec(Start(pool, threads, n), steps);
    if i < |end.tasks| && Past(end.tasks[i]) {
      DistinctThreads(pool, threads, n, steps, i);
      assert false;
    }
  }

  lemma {:induction false} StaysPanicked(st: State, steps: seq<Step>, j: nat)
    requires Valid(st, steps) && j < |st.tasks|
    requires st.tasks[j].Panicked? || Panic(j) in steps
    ensures j < |Exec(st, steps).tasks| && Exec(st, steps).tasks[j].Panicked?
    decreases |steps|
  {
    if steps != [] {
      assert Panic(j) in steps ==> steps[0] == Panic(j) || Panic(j) in steps[1..];
      StaysPanicked(Next(st, steps[0]), steps[1..], j);
    }
  }

  /** One task that panics before the barrier keeps all others from passing it, for
      good, and the call never succeeds. */
  lemma PanicForfeits(pool: WorkerPool.Pool, threads: set<Thread>, n: nat, steps: seq<Step>, i: nat, j: nat)
    requires WorkerPool.Inv(pool) && Valid(Start(pool, threads, n), steps) && Panic(j) in steps && i < n && j < n
    ensures var end := Exec(Start(pool, threads, n), steps);
            |end.tasks| == n && end.tasks[j].Panicked? && !Past(end.tasks[i]) && !Succeeds(pool, threads, n, steps)
  {
    var st := Start(pool, threads, n);
    RunInv(st, steps);
    StaysPanicked(st, steps, j);
    assert !AtBarrier(Exec(st, steps).tasks[j]);
  }

  /** After a success in which none of the n threads was left with failed attempts
      only, whatever those threads do next, the worker pool is never touched again.
      What happened on other threads does not matter. */
  lemma PrewarmedPoolIsStable(pool: WorkerPool.Pool, threads: set<Thread>, n: nat, steps: seq<Step>,
                              run: seq<WorkerPool.Move>)
    requires WorkerPool.Inv(pool) && n > 0 && Succeeds(pool, threads, n, steps)
    requires var end := Exec(Start(pool, threads, n), steps);
             && (forall j :: 0 <= j < |end.tasks| && Placed(end.tasks[j]) ==>
                   || end.tasks[j].thread in end.pool.flags
                   || WorkerPool.Count(end.pool.failures, end.tasks[j].thread) == 0)
             && WorkerPool.Valid(end.pool, run)
             && forall i :: 0 <= i < |run| ==> exists j :: 0 <= j < |end.tasks| && Occupied(end.tasks[j], run[i].t)
    ensures var end := Exec(Start(pool, threads, n), steps);
            && WorkerPool.Exec(end.pool, run).slots == end.pool.slots
            && WorkerPool.Exec(end.pool, run).calls == end.pool.calls
  {
    var st := Start(pool, threads, n);
    var end := Exec(st, steps);
    RunInv(st, steps);
    DistinctThreads(pool, threads, n, steps, 0);
    forall i | 0 <= i < |run| ensures run[i].t in end.pool.flags {
      var j :| 0 <= j < |end.tasks| && Occupied(end.tasks[j], run[i].t);
    }
    WorkerPool.FlaggedRunIsQuiet(end.pool, run);
  }

  /** This one of the n tasks ran on thread `t`. */
  predicate Occupied(k: Task, t: Thread) {
    Placed(k) && k.thread == t
  }

  // ---- With enough threads it can succeed ----

  lemma ConsRun(st: State, step: Step, steps: seq<Step>)
    requires Enabled(st, step) && Valid(Next(st, step), steps)
    ensures Valid(st, [step] + steps) && Exec(st, [step] + steps) == Exec(Next(st, step), steps)
  {
    assert ([step] + steps)[1..] == steps;
  }

  lemma {:induction false} ConcatRun(st: State, a: seq<Step>, b: seq<Step>)
    requires Valid(st, a) && Valid(Exec(st, a), b)
    ensures Valid(st, a + b) && Exec(st, a + b) == Exec(Exec(st, a), b)
    decreases |a|
  {
    if a == [] {
      assert a + b == b;
    } else {
      ConcatRun(Next(st, a[0]), a[1..], b);
      ConsRun(st, a[0], a[1..] + b);
      assert a + b == [a[0]] + (a[1..] + b);
    }
  }

  function Lift(run: seq<WorkerPool.Move>): seq<Step> {
    if run == [] then [] else [Work(run[0].t, run[0].a)] + Lift(run[1..])
  }

  lemma {:induction false} LiftRun(st: State, run: seq<WorkerPool.Move>)
    requires WorkerPool.Valid(st.pool, run)
    ensures Valid(st, Lift(run)) && Exec(st, Lift(run)) == st.(pool := WorkerPool.Exec(st.pool, run))
    decreases |run|
  {
    if run != [] {
      var step := Work(run[0].t, run[0].a);
      LiftRun(Next(st, step), run[1..]);
      ConsRun(st, step, Lift(run[1..]));
    }
  }

  /** Nobody is in a registration call, and the first `i` tasks wait at the barrier. */
  ghost predicate Ready(st: State, i: nat) {
    && Inv(st) && i <= |st.tasks| && st.pool.lock.None?
    && (forall t: Thread :: t in st.threads ==> WorkerPool.PhaseOf(st.pool, t) == WorkerPool.Idle)
    && (forall j :: 0 <= j < i ==> st.tasks[j].Arrived?)
    && (forall j :: i <= j < |st.tasks| ==> st.tasks[j].Queued?)
  }

  function Used(tasks: seq<Task>): set<Thread>
    requires forall i :: 0 <= i < |tasks| ==> Placed(tasks[i])
  {
    if tasks == [] then {}
    else
      var last := tasks[|tasks| - 1];
      assert Placed(last);
      Used(tasks[..|tasks| - 1]) + {last.thread}
  }

  lemma {:induction false} UsedSize(tasks: seq<Task>)
    requires forall i :: 0 <= i < |tasks| ==> Placed(tasks[i])
    ensures |Used(tasks)| <= |tasks|
    ensures forall i :: 0 <= i < |tasks| ==> tasks[i].thread in Used(tasks)
    decreases |tasks|
  {
    if tasks != [] {
      var m := |tasks| - 1;
      UsedSize(tasks[..m]);
      assert forall i :: 0 <= i < m ==> tasks[i] == tasks[..m][i];
    }
  }

  lemma NotAllUsed(a: set<Thread>, b: set<Thread>)
    requires |b| < |a|
    ensures exists t :: t in a && t !in b
  {
    assert a == (a - b) + a * b && b == (b - a) + a * b;
    assert |a| == |a - b| + |a * b| && |b| == |b - a| + |a * b|;
    var t :| t in a - b;
  }

  lemma SpareThread(st: State, i: nat) returns (t: Thread)
    requires Ready(st, i) && i < |st.tasks| <= |st.threads|
    ensures t in st.threads && forall j :: 0 <= j < |st.tasks| ==> !Occupies(st.tasks[j], t)
  {
    UsedSize(st.tasks[..i]);
    var used := Used(st.tasks[..i]);
    NotAllUsed(st.threads, used);
    t :| t in st.threads && t !in used;
    assert forall j :: 0 <= j < i ==> st.tasks[j] == st.tasks[..i][j];
  }

  /** One complete registration call by an idle thread. */
  lemma CallRun(pool: WorkerPool.Pool, t: Thread) returns (run: seq<WorkerPool.Move>)
    requires WorkerPool.Inv(pool) && pool.lock.None? && WorkerPool.PhaseOf(pool, t) == WorkerPool.Idle
    ensures WorkerPool.Valid(pool, run)
    ensures var after := WorkerPool.Exec(pool, run);
            && after.lock.None? && t in after.flags
            && WorkerPool.Count(after.finished, t) > WorkerPool.Count(pool.finished, t)
            && forall x: Thread :: WorkerPool.PhaseOf(after, x) == WorkerPool.PhaseOf(pool, x)
  {
    if t in pool.flags {
      run := [WorkerPool.Move(t, WorkerPool.Call)];
      WorkerPool.ConsRun(pool, run[0], []);
    } else {
      run := WorkerPool.WholeCall(t, WorkerPool.Registered);
      WorkerPool.CallIsRun(pool, t, WorkerPool.Registered);
    }
  }

  lemma ArriveNext(st: State, i: nat) returns (steps: seq<Step>)
    requires Ready(st, i) && i < |st.tasks| <= |st.threads|
    ensures Valid(st, steps)
    ensures var end := Exec(st, steps);
            Ready(end, i + 1) && end.threads == st.threads && |end.tasks| == |st.tasks|
  {
    var t := SpareThread(st, i);
    var st1 := Next(st, Begin(i, t));
    var run := CallRun(st1.pool, t);
    LiftRun(st1, run);
    var st2 := Exec(st1, Lift(run));
    ConsRun(st2, Arrive(i), []);
    ConcatRun(st1, Lift(run), [Arrive(i)]);
    ConsRun(st, Begin(i, t), Lift(run) + [Arrive(i)]);
    steps := [Begin(i, t)] + (Lift(run) + [Arrive(i)]);
    RunInv(st, steps);
  }

  lemma {:induction false} ArriveAll(st: State, i: nat) returns (steps: seq<Step>)
    requires Ready(st, i) && |st.tasks| <= |st.threads|
    ensures Valid(st, steps) && Ready(Exec(st, steps), |st.tasks|) && |Exec(st, steps).tasks| == |st.tasks|
    decreases |st.tasks| - i
  {
    if i == |st.tasks| {
      steps := [];
    } else {
      var first := ArriveNext(st, i);
      var rest := ArriveAll(Exec(st, first), i + 1);
      ConcatRun(st, first, rest);
      steps := first + rest;
    }
  }

  /** Past the barrier one after the other. */
  lemma {:induction false} FinishAll(st: State, i: nat) returns (steps: seq<Step>)
    requires i <= |st.tasks|
    requires forall j :: 0 <= j < i ==> st.tasks[j].Done?
    requires forall j :: i <= j < |st.tasks| ==> st.tasks[j].Arrived?
    ensures Valid(st, steps) && |Exec(st, steps).tasks| == |st.tasks|
    ensures forall j :: 0 <= j < |st.tasks| ==> Exec(st, steps).tasks[j].Done?
    decreases |st.tasks| - i
  {
    if i == |st.tasks| {
      steps := [];
    } else {
      var st1 := Next(st, Pass(i));
      var st2 := Next(st1, Finish(i));
      var rest := FinishAll(st2, i + 1);
      ConsRun(st1, Finish(i), rest);
      ConsRun(st, Pass(i), [Finish(i)] + rest);
      steps := [Pass(i)] + ([Finish(i)] + rest);
    }
  }

  /** `prewarm(n)` can succeed if and only if the pool may grow to n threads. */
  lemma SucceedsIffEnoughThreads(pool: WorkerPool.Pool, threads: set<Thread>, n: nat)
    requires WorkerPool.Inv(pool) && pool.lock.None?
    requires forall t: Thread :: t in threads ==> WorkerPool.PhaseOf(pool, t) == WorkerPool.Idle
    ensures (exists steps :: Succeeds(pool, threads, n, steps)) <==> n <= |threads|
  {
    var st := Start(pool, threads, n);
    if n <= |threads| {
      var a := ArriveAll(st, 0);
      var b := FinishAll(Exec(st, a), 0);
      ConcatRun(st, a, b);
      assert Succeeds(pool, threads, n, a + b);
    } else {
      forall steps ensures !Succeeds(pool, threads, n, steps) {
        if Valid(st, steps) {
          RunInv(st, steps);
          TooFewThreads(pool, threads, n, steps, 0);
        }
      }
    }
  }

  /** All n handles join. */
  ghost predicate Succeeds(pool: WorkerPool.Pool, threads: set<Thread>, n: nat, steps: seq<Step>) {
    && Valid(Start(pool, threads, n), steps)
    && forall j :: 0 <= j < |Exec(Start(pool, threads, n), steps).tasks| ==>
                     Exec(Start(pool, threads, n), steps).tasks[j].Done?
  }
}
