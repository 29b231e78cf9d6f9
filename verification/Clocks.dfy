/** `Instant::now()` and the calls that take time. Nothing is assumed of the clock
    but that it never runs backwards and that blocking takes some time. */
module Clocks {

  class Clock {
    var now: nat

    method Now() returns (t: nat)
      modifies this
      ensures t == now >= old(now)
    {
      Pass(0);
      t := now;
    }

    /** `drain_mq(5.0)` or `sleep(5 ms)`: may return early, but not at once. */
    method Block()
      modifies this
      ensures now > old(now)
    {
      Pass(1);
    }

    method Pass(atLeast: nat)
      modifies this
      ensures now >= old(now) + atLeast
    {
      var dt: int := *;
      now := now + if dt < atLeast then atLeast else dt;
    }
  }

  /** Time left until the deadline. */
  function Left(deadline: nat, now: nat): nat {
    if now < deadline then deadline - now else 0
  }
}
