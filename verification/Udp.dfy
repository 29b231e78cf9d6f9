/** The long-lived UDP socket of a resolver: one query, strays discarded, one
    buffer reused for every datagram. */
module Udp {
  import opened Errors
  import opened Clocks
  import opened Framing
  import opened Endpoints

  datatype Datagram = Datagram(from: SocketAddr, payload: seq<byte>)

  const BUF_LEN := 4096

  function Shortened(payload: seq<byte>): seq<byte> {
    if |payload| <= BUF_LEN then payload else payload[..BUF_LEN]
  }

  /** One recvfrom: the caller's clock, and whether it said WouldBlock. */
  datatype Recv = Recv(at: nat, blocked: bool)

  /** The calls made since `before`: all at or after `start`; and one from the deadline
      on that finds nothing is the last, and a timeout. */
  predicate Punctual(before: seq<Recv>, after: seq<Recv>, start: nat, deadline: nat, timedOut: bool) {
    && before <= after
    && (forall i :: |before| <= i < |after| ==> start <= after[i].at)
    && (forall i :: |before| <= i < |after| && after[i].blocked && after[i].at >= deadline ==>
                      timedOut && i == |after| - 1)
  }

  lemma PunctualSnoc(before: seq<Recv>, after: seq<Recv>, c: Recv, start: nat, deadline: nat)
    requires Punctual(before, after, start, deadline, false) && c.at >= start
    ensures Punctual(before, after + [c], start, deadline, true)
    ensures !c.blocked || c.at < deadline ==> Punctual(before, after + [c], start, deadline, false)
  {
  }

  /** How many of the calls from number `i` on, made from the deadline on, there were. */
  function Late(calls: seq<Recv>, i: nat, deadline: nat): nat
    requires i <= |calls|
  {
    if |calls| == i then 0
    else Late(calls[..|calls| - 1], i, deadline) + if calls[|calls| - 1].at >= deadline then 1 else 0
  }

  /** And how many of those brought something. */
  function LateHits(calls: seq<Recv>, i: nat, deadline: nat): nat
    requires i <= |calls|
  {
    if |calls| == i then 0
    else LateHits(calls[..|calls| - 1], i, deadline) +
         if calls[|calls| - 1].at >= deadline && !calls[|calls| - 1].blocked then 1 else 0
  }

  /** Work after the deadline is paid for by arrivals: at most one call of recvfrom
      more than there were datagrams or errors to receive. */
  lemma {:induction false} LateWorkBounded(before: seq<Recv>, after: seq<Recv>, start: nat, deadline: nat, timedOut: bool)
    requires Punctual(before, after, start, deadline, timedOut)
    ensures Late(after, |before|, deadline) <= LateHits(after, |before|, deadline) + if timedOut then 1 else 0
    decreases |after|
  {
    if |after| > |before| {
      var pre := after[..|after| - 1];
      assert Punctual(before, pre, start, deadline, false);
      LateWorkBounded(before, pre, start, deadline, false);
    }
  }

  class VclUdpSyncSocket {
    const arrivals: seq<Datagram>   // everything VPP will deliver, in order
    var next: nat                   // datagrams received so far
    var fault: Option<VclError>
    ghost var sent: seq<(seq<byte>, SocketAddr)>
    ghost var calls: seq<Recv>      // every recvfrom
    ghost var sentAt: nat           // when the last sendto was done

    ghost predicate Valid()
      reads this
    {
      && next <= |arrivals|
      && forall i :: 0 <= i < |arrivals| ==> WellFormed(arrivals[i].from)
    }

    /** `sendto`. */
    method SendTo(query: seq<byte>, peer: SocketAddr, clock: Clock) returns (r: Result<nat>)
      modifies this`fault, this`sent, this`sentAt, clock
      ensures sentAt == clock.now >= old(clock.now)
      ensures r.Err? ==> fault == Some(r.error) && sent == old(sent) && r.error != Timeout
      ensures r.Ok? ==> fault == old(fault) && sent == old(sent) + [(query, peer)]
    {
      clock.Pass(0);
      sentAt := clock.now;
      var rc: int := *;
      if rc < 0 {
        fault := Some(FromRc(rc));
        r := Err(FromRc(rc));
      } else {
        sent := sent + [(query, peer)];
        r := Ok(rc);
      }
    }

    /** `recvfrom`: the next datagram into the front of `buf`, or an error code.
        The sender's address crosses the boundary as an endpoint. */
    method RecvFrom(buf: array<byte>, ghost clock: Clock) returns (r: Result<(nat, SocketAddr)>)
      requires Valid() && buf.Length == BUF_LEN
      modifies this`next, this`fault, this`calls, buf
      ensures Valid()
      ensures calls == old(calls) + [Recv(clock.now, r == Err(WouldBlock))]
      ensures r.Ok? ==> next == old(next) + 1 && fault == old(fault)
                        && var d := arrivals[old(next)];
                        && r.value.1 == d.from && r.value.0 == |Shortened(d.payload)|
                        && buf[..r.value.0] == Shortened(d.payload)
                        && buf[r.value.0..] == old(buf[..])[r.value.0..]
      ensures r.Err? ==> next == old(next) && r.error != Timeout
      ensures r.Err? && r.error != WouldBlock ==> fault == Some(r.error)
      ensures r == Err(WouldBlock) ==> fault == old(fault)
    {
      var rc: int := *;
      if rc >= 0 && next < |arrivals| {
        var d := arrivals[next];
        var data := Shortened(d.payload);
        forall i | 0 <= i < |data| { buf[i] := data[i]; }
        assert buf[..|data|] == data;
        var ipBuf := new byte[16];
        var ep := EndpointIntoBuf(d.from, ipBuf);
        next := next + 1;
        r := Ok((|data|, AddrFromEndpoint(ep, ipBuf[..])));
      } else {
        var e := FromRc(if rc < 0 then rc else -EAGAIN);
        if e != WouldBlock { fault := Some(e); }
        r := Err(e);
      }
      calls := calls + [Recv(clock.now, r == Err(WouldBlock))];
    }

    /** None of the datagrams received from `lo` up to `hi` came from `peer`. */
    ghost predicate Strays(lo: nat, hi: nat, peer: SocketAddr)
      requires hi <= |arrivals|
    {
      forall i :: lo <= i < hi ==> arrivals[i].from.ip != peer.ip
    }

    /** `query`: the first datagram from the peer's address, and of the reused
        buffer only what that datagram filled. The loop ends because a stray,
        which skips the deadline check, uses up an arrival. */
    method Query(clock: Clock, peer: SocketAddr, query: seq<byte>, timeout: nat)
      returns (r: Result<(seq<byte>, SocketAddr)>, ghost started: nat)
      requires Valid() && fault.None?
      modifies this`next, this`fault, this`sent, this`sentAt, this`calls, clock
      ensures Valid() && old(next) <= next && old(clock.now) <= started <= clock.now
      ensures r.Ok? ==> next > old(next) && Strays(old(next), next - 1, peer)
                        && var d := arrivals[next - 1];
                        && d.from.ip == peer.ip && r.value.1 == d.from && r.value.0 <= d.payload
                        && |r.value.0| == if |d.payload| < 4096 then |d.payload| else 4096
      ensures r.Err? ==> Strays(old(next), next, peer)
      ensures r == Err(Timeout) ==> clock.now >= started + timeout && fault.None?
      ensures r.Err? && r.error != Timeout ==> fault == Some(r.error)
      ensures r == Err(WouldBlock) ==> next == old(next) && sent == old(sent)
      ensures r.Ok? ==> sent == old(sent) + [(query, peer)] && fault.None?
      // one deadline, set between sendto and the first recvfrom
      ensures sent != old(sent) ==> sentAt <= started
      ensures Punctual(old(calls), calls, started, started + timeout, r == Err(Timeout))
      ensures r == Err(Timeout) ==> |calls| > |old(calls)| && calls[|calls| - 1].blocked
    {
      started := clock.now;
      var s := SendTo(query, peer, clock);
      if s.Err? { return Err(s.error), started; }
      var t0 := clock.Now();
      started := t0;
      var buf := new byte[BUF_LEN];
      while true
        invariant Valid() && old(next) <= next && Strays(old(next), next, peer) && fault.None?
        invariant sent == old(sent) + [(query, peer)] && clock.now >= t0 >= sentAt
        invariant Punctual(old(calls), calls, t0, t0 + timeout, false)
        decreases |arrivals| - next, Left(t0 + timeout, clock.now)
      {
        ghost var before := calls;
        var x := RecvFrom(buf, clock);
        PunctualSnoc(old(calls), before, calls[|before|], t0, t0 + timeout);
        match x
        case Ok((n, from)) =>
          if from.ip != peer.ip { continue; }
          return Ok((buf[..n], from)), started;
        case Err(e) =>
          if e != WouldBlock { return Err(e), started; }
          var t := clock.Now();
          if t >= t0 + timeout { return Err(Timeout), started; }
          clock.Block();
      }
    }
  }
}
