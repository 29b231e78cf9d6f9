/** Connecting from a chosen source address: up to eight ports are tried, all
    within the caller's one timeout. */
module ConnectBudget {
  import opened Errors
  import opened Clocks
  import opened Endpoints

  const PORTS := 8

  /** One `connect_async`: when it began and what it was given; how long creating,
      binding and registering the session took; when and how it ended. */
  datatype Attempt = Attempt(start: nat, budget: nat, setup: nat, end: nat, result: Result<()>)

  /** Only the wait is bounded by the budget, up to the time `lag` the runtime may
      take to run a task whose timer fired; Timeout means the budget is used up. */
  predicate Honours(a: Attempt, lag: nat) {
    && a.start <= a.end <= a.start + a.setup + a.budget + lag
    && (a.result == Err(Timeout) ==> a.end >= a.start + a.setup + a.budget)
  }

  /** What reaches the network. */
  class Network {
    ghost var attempts: seq<Attempt>
  }

  method ConnectAsync(net: Network, clock: Clock, budget: nat, lag: nat) returns (a: Attempt)
    modifies clock, net
    ensures net.attempts == old(net.attempts) + [a]
    ensures Honours(a, lag) && a.start == old(clock.now) && a.budget == budget && a.end == clock.now
  {
    var start := clock.now;
    clock.Pass(0);
    var setup, rc: int := clock.now - start, *;
    if rc < 0 {
      a := Attempt(start, budget, setup, clock.now, Err(FromRc(rc)));
      net.attempts := net.attempts + [a];
      return;
    }
    var used: int := *;
    used := if used < 0 then 0 else if used > budget + lag then budget + lag else used;
    clock.now := clock.now + used;
    var r: Result<()> := Ok(());
    if {
      case true =>
      case used >= budget => r := Err(Timeout);
      case true => r := Err(Io);
    }
    a := Attempt(start, budget, setup, clock.now, r);
    net.attempts := net.attempts + [a];
  }

  predicate WithinBudget(log: seq<Attempt>, deadline: nat, lag: nat) {
    forall i :: 0 <= i < |log| ==> log[i].start + log[i].budget == deadline && log[i].budget > 0 && Honours(log[i], lag)
  }

  predicate InOrder(log: seq<Attempt>) {
    forall i, j :: 0 <= i < j < |log| ==> log[i].end <= log[j].start
  }

  /** The attempts so far were begun in time, one after the other, and ended before now. */
  predicate Fits(log: seq<Attempt>, started: nat, deadline: nat, now: nat, lag: nat) {
    && WithinBudget(log, deadline, lag) && InOrder(log)
    && forall i :: 0 <= i < |log| ==> started <= log[i].start && log[i].end <= now
  }

  /** The first `k` attempts failed, and not by running out of time. */
  predicate FailedEarly(log: seq<Attempt>, k: nat)
    requires k <= |log|
  {
    forall i :: 0 <= i < k ==> log[i].result.Err? && log[i].result != Err(Timeout)
  }

  /** One more attempt, begun before the deadline. No earlier one timed out: it
      would have lasted until the deadline. */
  lemma OneMore(log: seq<Attempt>, a: Attempt, started: nat, deadline: nat, now: nat, lag: nat)
    requires Fits(log, started, deadline, now, lag) && started <= now <= a.start < deadline
    requires Honours(a, lag) && a.start + a.budget == deadline
    requires forall i :: 0 <= i < |log| ==> log[i].result.Err?
    ensures Fits(log + [a], started, deadline, a.end, lag) && FailedEarly(log + [a], |log|)
  {
    forall i | 0 <= i < |log| ensures log[i].result != Err(Timeout) {
      assert Honours(log[i], lag) && log[i].end <= now;
    }
  }

  /** All attempts but the last end before the deadline, and that one overruns it by
      no more than its own setup and the runtime's lag. */
  lemma OnlyTheLastIsLate(log: seq<Attempt>, started: nat, deadline: nat, now: nat, lag: nat)
    requires Fits(log, started, deadline, now, lag) && log != []
    ensures forall i :: 0 <= i < |log| - 1 ==> log[i].end < deadline
    ensures var a := log[|log| - 1]; a.end <= deadline + a.setup + lag
  {
    var a := log[|log| - 1];
    assert a.start + a.budget == deadline && Honours(a, lag);
    forall i | 0 <= i < |log| - 1 ensures log[i].end < deadline {
      assert log[i].end <= a.start;
    }
  }

  /** The connect phase of `query_tcp_dns_async` with a source address. */
  method ConnectFrom(net: Network, clock: Clock, source: IpAddr, peer: SocketAddr, timeout: nat, lag: nat)
    returns (r: Result<()>, log: seq<Attempt>, ghost started: nat)
    modifies clock, net
    ensures net.attempts == old(net.attempts) + log
    ensures source.V4? != peer.ip.V4? ==> r == Err(Api(-1)) && log == []
    // one after the other, each begun within the caller's timeout (see OnlyTheLastIsLate)
    ensures started >= old(clock.now) && |log| <= 8
    ensures Fits(log, started, started + timeout, clock.now, lag)
    // only the last attempt can have succeeded or timed out
    ensures log != [] ==> FailedEarly(log, |log| - 1)
    ensures r.Ok? <==> log != [] && log[|log| - 1].result.Ok?
    ensures log != [] && log[|log| - 1].result == Err(Timeout) ==> r == Err(Timeout)
    // Timeout means the budget is gone, any other error that all ports failed
    ensures r == Err(Timeout) ==> clock.now >= started + timeout
    ensures source.V4? == peer.ip.V4? && r.Err? && r != Err(Timeout) ==>
              |log| == 8 && r == log[7].result
  {
    log := [];
    var t0 := clock.Now();
    started := t0;
    if source.V4? != peer.ip.V4? { return Err(Api(-1)), log, started; }
    var last: Option<VclError> := None;
    for i := 0 to PORTS
      invariant net.attempts == old(net.attempts) + log
      invariant |log| == i && clock.now >= t0 && Fits(log, t0, t0 + timeout, clock.now, lag)
      invariant forall k :: 0 <= k < i ==> log[k].result.Err?
      invariant i > 0 ==> FailedEarly(log, i - 1) && last.Some? && log[i - 1].result == Err(last.value)
    {
      var t := clock.Now();
      var remaining := Left(t0 + timeout, t);
      if remaining == 0 { return Err(Timeout), log, started; }
      var a := ConnectAsync(net, clock, remaining, lag);
      OneMore(log, a, t0, t0 + timeout, t, lag);
      log := log + [a];
      if a.result.Ok? { return Ok(()), log, started; }
      last := Some(a.result.error);
    }
    r := Err(last.value);
  }
}
