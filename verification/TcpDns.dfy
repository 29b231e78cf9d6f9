/** One DNS query over TCP, with the blocking loops and with the awaiting ones.
    Both are held against `Framing.Reply`, a function of the peer's bytes alone,
    so how the bytes were cut up and scheduled cannot show in the result. */
module TcpDns {
  import opened Errors
  import opened Clocks
  import opened Framing
  import opened Sessions
  import opened Streams

  /** The calls made since `before`: all at or after `start`; and a call from the
      deadline on that asks for another try is the last one, and a timeout. */
  predicate Punctual(before: seq<Call>, after: seq<Call>, start: nat, deadline: nat, timedOut: bool) {
    && before <= after
    && (forall i :: |before| <= i < |after| ==> start <= after[i].at)
    && (forall i :: |before| <= i < |after| && IsRetry(after[i].rc) && after[i].at >= deadline ==>
                      timedOut && i == |after| - 1)
  }

  /** The last call says why the loop gave up: still retrying, or its error. */
  predicate GaveUpOn(calls: seq<Call>, e: VclError) {
    calls != [] && var rc := calls[|calls| - 1].rc; rc < 0 && if IsRetry(rc) then e == Timeout else e == FromRc(rc)
  }

  lemma PunctualSnoc(before: seq<Call>, after: seq<Call>, c: Call, start: nat, deadline: nat)
    requires Punctual(before, after, start, deadline, false) && c.at >= start
    ensures Punctual(before, after + [c], start, deadline, true)
    ensures !IsRetry(c.rc) || c.at < deadline ==> Punctual(before, after + [c], start, deadline, false)
  {
  }

  /** The write loop. It ends: every round sends a byte, or uses up one of the
      finitely many empty writes, or brings the deadline closer. */
  method SendAll(h: SessionHandle, clock: Clock, framed: seq<byte>, deadline: nat)
    returns (r: Result<()>, ghost sent: nat)
    modifies h`tx, h`fault, h`zeros, h`wcodes, h`wlog, clock
    ensures sent <= |framed| && h.tx == old(h.tx) + framed[..sent]
    ensures r.Ok? <==> sent == |framed|
    ensures r.Ok? ==> h.fault == old(h.fault)
    ensures r.Err? ==> (r.error == Timeout && clock.now >= deadline && h.fault == old(h.fault))
                       || (h.fault == Some(r.error) && r.error != Timeout)
    ensures clock.now >= old(clock.now)
    ensures |h.wlog| - |old(h.wlog)| == |h.wcodes| - |old(h.wcodes)|
    ensures Punctual(old(h.wlog), h.wlog, old(clock.now), deadline, r == Err(Timeout))
    ensures r.Err? ==> |h.wlog| > |old(h.wlog)| && GaveUpOn(h.wlog, r.error)
  {
    var done := 0;
    while done < |framed|
      invariant 0 <= done <= |framed| && h.tx == old(h.tx) + framed[..done]
      invariant h.fault == old(h.fault) && clock.now >= old(clock.now)
      invariant |h.wlog| - |old(h.wlog)| == |h.wcodes| - |old(h.wcodes)|
      invariant Punctual(old(h.wlog), h.wlog, old(clock.now), deadline, false)
      decreases |framed| - done, h.zeros, Left(deadline, clock.now)
    {
      ghost var calls, now := h.wlog, clock.now;
      var x;
      ghost var rc;
      x, rc := h.Write(framed[done..], clock);
      PunctualSnoc(old(h.wlog), calls, Call(rc, now), old(clock.now), deadline);
      match x
      case Ok(n) =>
        assert framed[..done + n] == framed[..done] + framed[done..][..n];
        done := done + n;
      case Err(e) =>
        if !Retryable(e) { return Err(e), done; }
        var t := clock.Now();
        if t >= deadline { return Err(Timeout), done; }
        clock.Block();
    }
    r, sent := Ok(()), done;
  }

  /** Every read since `before` was made at or after `start` and before the deadline. */
  predicate Stamped(before: seq<nat>, after: seq<nat>, start: nat, deadline: nat) {
    before <= after && forall i :: |before| <= i < |after| ==> start <= after[i] < deadline
  }

  lemma StampSnoc(before: seq<nat>, after: seq<nat>, t: nat, start: nat, deadline: nat)
    requires Stamped(before, after, start, deadline) && start <= t < deadline
    ensures Stamped(before, after + [t], start, deadline)
  {
  }

  /** The two read loops: each read follows a check made before the deadline. */
  method Fill(h: SessionHandle, clock: Clock, buf: array<byte>, deadline: nat) returns (r: Result<()>)
    requires h.pos <= |h.incoming|
    modifies h`pos, h`fault, h`codes, h`stamps, clock, buf
    ensures old(h.pos) <= h.pos <= |h.incoming|
    ensures r.Ok? ==> h.pos == old(h.pos) + buf.Length && h.fault == old(h.fault)
                      && buf[..] == h.incoming[old(h.pos)..h.pos]
    ensures r.Err? ==> || (r.error == Timeout && clock.now >= deadline && h.fault == old(h.fault)
                           && h.pos - old(h.pos) < buf.Length)
                       || (r.error == Closed && |h.incoming| - old(h.pos) < buf.Length && h.fault == old(h.fault))
                       || (h.fault == Some(r.error) && r.error != Timeout)
    ensures r.Err? && r.error != Timeout ==> |h.codes| > |old(h.codes)| && LastSays(h.codes, r.error)
    ensures clock.now >= old(clock.now)
    ensures |h.stamps| - |old(h.stamps)| == |h.codes| - |old(h.codes)|
    ensures Stamped(old(h.stamps), h.stamps, old(clock.now), deadline)
  {
    var got := 0;
    while got < buf.Length
      invariant 0 <= got <= buf.Length && h.pos == old(h.pos) + got && h.pos <= |h.incoming|
      invariant buf[..got] == h.incoming[old(h.pos)..h.pos] && h.fault == old(h.fault)
      invariant clock.now >= old(clock.now)
      invariant |h.stamps| - |old(h.stamps)| == |h.codes| - |old(h.codes)|
      invariant Stamped(old(h.stamps), h.stamps, old(clock.now), deadline)
      decreases buf.Length - got, Left(deadline, clock.now)
    {
      var t := clock.Now();
      if t >= deadline { return Err(Timeout); }
      ghost var was := buf[..];
      StampSnoc(old(h.stamps), h.stamps, t, old(clock.now), deadline);
      var x;
      ghost var rc;
      x, rc := h.Read(buf, got, clock);
      match x
      case Ok(n) =>
        if n == 0 { return Err(Closed); }
        assert buf[..got + n] == was[..got] + h.incoming[old(h.pos) + got..h.pos];
        got := got + n;
      case Err(e) =>
        if !Retryable(e) { return Err(e); }
        clock.Block();
    }
    r := Ok(());
  }

  /** Reading the length prefix and the body amounts to `Reply`. */
  lemma TwoReads(s: seq<byte>, len: Result<nat>)
    requires |s| >= 2 && len == DecodeTcpDnsLen(s[0], s[1])
    ensures len.Err? ==> Reply(s) == Err(len.error)
    ensures len.Ok? && |s| < 2 + len.value ==> Reply(s) == Err(Closed)
    ensures len.Ok? && |s| >= 2 + len.value ==> Reply(s) == Ok(s[2..][..len.value])
  {
    if len.Ok? && |s| >= 2 + len.value { assert s[2..][..len.value] == s[2..2 + len.value]; }
  }

  /** The two read loops of `query_tcp_dns_sync`. */
  method FillReply(h: SessionHandle, clock: Clock, deadline: nat) returns (r: Result<seq<byte>>)
    requires h.pos <= |h.incoming| && h.fault.None?
    modifies h`pos, h`fault, h`codes, h`stamps, clock
    ensures clock.now >= old(clock.now) && old(h.pos) <= h.pos <= |h.incoming|
    ensures h.fault.Some? ==> r == Err(h.fault.value) && r != Err(Timeout)
    ensures h.fault.None? && r != Err(Timeout) ==> r == Reply(h.incoming[old(h.pos)..])
    ensures r == Err(Timeout) ==> clock.now >= deadline && Reply(h.incoming[old(h.pos)..h.pos]) == Err(Closed)
    ensures r.Ok? ==> h.fault.None? && h.pos == old(h.pos) + 2 + |r.value|
    ensures |h.stamps| - |old(h.stamps)| == |h.codes| - |old(h.codes)|
    ensures Stamped(old(h.stamps), h.stamps, old(clock.now), deadline)
  {
    ghost var s := h.incoming[old(h.pos)..];
    var lenbuf := new byte[2];
    var x := Fill(h, clock, lenbuf, deadline);
    if x.Err? { return Err(x.error); }
    assert lenbuf[..] == s[..2] && lenbuf[0] == lenbuf[..][0] && lenbuf[1] == lenbuf[..][1];
    var len := DecodeTcpDnsLen(lenbuf[0], lenbuf[1]);
    TwoReads(s, len);
    if len.Err? { return Err(len.error); }
    var resp := new byte[len.value];
    x := Fill(h, clock, resp, deadline);
    if x.Err? { return Err(x.error); }
    assert resp[..] == s[2..][..len.value];
    r := Ok(resp[..]);
  }

  /** `query_tcp_dns_sync` from the moment its deadline is set. */
  method ExchangeSync(h: SessionHandle, clock: Clock, query: seq<byte>, timeout: nat)
    returns (r: Result<seq<byte>>, ghost sent: nat, ghost started: nat)
    requires h.pos <= |h.incoming| && h.fault.None?
    modifies h`pos, h`tx, h`fault, h`zeros, h`wcodes, h`wlog, h`codes, h`stamps, clock
    ensures old(clock.now) <= started <= clock.now && old(h.pos) <= h.pos <= |h.incoming|
    ensures |query| > MAX_LEN ==> r == Err(Api(-1)) && h.tx == old(h.tx) && h.pos == old(h.pos) && h.fault.None?
    ensures |query| <= MAX_LEN ==>
              var framed := FrameTcpDnsQuery(query).value;
              && sent <= |framed| && h.tx == old(h.tx) + framed[..sent]
              && (r == Err(Timeout) ==> clock.now >= started + timeout)
              && (h.fault.Some? ==> r == Err(h.fault.value) && r != Err(Timeout))
              && (h.fault.None? && r != Err(Timeout) ==> sent == |framed| && r == Reply(h.incoming[old(h.pos)..]))
    ensures r.Ok? ==> h.fault.None? && h.pos == old(h.pos) + 2 + |r.value|
    ensures |h.stamps| - |old(h.stamps)| == |h.codes| - |old(h.codes)|
    // one deadline, set before the first write, for the writes and for both reads
    ensures Stamped(old(h.stamps), h.stamps, started, started + timeout)
    ensures |h.wlog| - |old(h.wlog)| == |h.wcodes| - |old(h.wcodes)|
    ensures Punctual(old(h.wlog), h.wlog, started, started + timeout, r == Err(Timeout))
    // a timeout is no cover for a reply that is there in full
    ensures |query| <= MAX_LEN && r == Err(Timeout) && sent == 2 + |query| ==>
              Reply(h.incoming[old(h.pos)..h.pos]) == Err(Closed)
    ensures |query| <= MAX_LEN && sent < 2 + |query| ==> h.codes == old(h.codes)
  {
    var t0 := clock.Now();
    started := t0;
    sent := 0;
    var framed := FrameTcpDnsQuery(query);
    if framed.Err? { return Err(framed.error), sent, started; }
    var w;
    w, sent := SendAll(h, clock, framed.value, t0 + timeout);
    if w.Err? { return Err(w.error), sent, started; }
    r := FillReply(h, clock, t0 + timeout);
  }

  /** The two `read_exact` calls of `query_tcp_dns_async`. */
  method ReadReply(stream: VclStream, patience: nat) returns (r: Option<Result<seq<byte>>>)
    requires stream.handle.pos <= |stream.handle.incoming| && stream.handle.fault.None?
    modifies stream.handle`pos, stream.handle`fault, stream.handle`waited, stream.handle`awaits,
             stream.handle`codes, stream.handle`stamps
    ensures stream.handle.fault.Some? ==> r == Some(Err(stream.handle.fault.value))
    ensures stream.handle.fault.None? && r.Some? ==> r.value == Reply(stream.handle.incoming[old(stream.handle.pos)..])
    ensures r.Some? && r.value.Ok? ==>
              stream.handle.fault.None? && stream.handle.pos == old(stream.handle.pos) + 2 + |r.value.value|
    ensures stream.handle.awaits <= old(stream.handle.awaits) + patience
    ensures r.None? ==> stream.handle.fault.None? && stream.handle.awaits == old(stream.handle.awaits) + patience
    ensures stream.handle.waited >= old(stream.handle.waited) + if r == Some(Err(Timeout)) then 300_000 else 0
  {
    var h := stream.handle;
    ghost var s := h.incoming[old(h.pos)..];
    var lenbuf := new byte[2];
    var x, left := stream.ReadExact(lenbuf, patience);
    if x.None? { return None; }
    if x.value.Err? { return Some(Err(x.value.error)); }
    assert lenbuf[..] == s[..2] && lenbuf[0] == lenbuf[..][0] && lenbuf[1] == lenbuf[..][1];
    var len := DecodeTcpDnsLen(lenbuf[0], lenbuf[1]);
    TwoReads(s, len);
    if len.Err? { return Some(Err(len.error)); }
    var resp := new byte[len.value];
    x, left := stream.ReadExact(resp, left);
    if x.None? { return None; }
    if x.value.Err? { return Some(Err(x.value.error)); }
    assert resp[..] == s[2..][..len.value];
    r := Some(Ok(resp[..]));
  }

  /** `query_tcp_dns_async` once it is connected, by a caller that sits through
      `patience` waits in all before it drops the query. */
  method ExchangeAsync(stream: VclStream, query: seq<byte>, patience: nat)
    returns (r: Option<Result<seq<byte>>>, ghost sent: nat)
    requires stream.handle.pos <= |stream.handle.incoming| && stream.handle.fault.None?
    modifies stream.handle
    ensures |query| > MAX_LEN ==> r == Some(Err(Api(-1))) && stream.handle.tx == old(stream.handle.tx)
                                  && stream.handle.pos == old(stream.handle.pos) && stream.handle.fault.None?
    ensures |query| <= MAX_LEN ==>
              var h := stream.handle;
              var framed := FrameTcpDnsQuery(query).value;
              && sent <= |framed| && h.tx == old(h.tx) + framed[..sent]
              && (h.fault.Some? ==> r == Some(Err(h.fault.value)))
              && (h.fault.None? && r.Some? ==> sent == |framed| && r.value == Reply(h.incoming[old(h.pos)..]))
    // nothing is read before the whole query is sent
    ensures |query| <= MAX_LEN && sent < 2 + |query| ==> stream.handle.codes == old(stream.handle.codes)
    ensures stream.handle.awaits <= old(stream.handle.awaits) + patience
    ensures r.None? ==> stream.handle.fault.None? && stream.handle.awaits == old(stream.handle.awaits) + patience
    ensures r.Some? && r.value.Ok? ==>
              stream.handle.fault.None? && stream.handle.pos == old(stream.handle.pos) + 2 + |r.value.value|
    ensures stream.handle.waited >= old(stream.handle.waited) + if r == Some(Err(Timeout)) then 300_000 else 0
  {
    sent := 0;
    var framed := FrameTcpDnsQuery(query);
    if framed.Err? { return Some(Err(framed.error)), sent; }
    var w, left;
    ghost var cs;
    w, left, sent, cs := stream.WriteAll(framed.value, patience);
    if w.None? { return None, sent; }
    if w.value.Err? { return Some(Err(w.value.error)), sent; }
    r := ReadReply(stream, left);
  }

  /** End to end: a sender that put any prefix of its frame into the FIFO has the
      far end decode the query exactly if the prefix is the whole frame. */
  lemma FarEndDecodes(query: seq<byte>, sent: nat)
    requires Sendable(query) && sent <= |Frame(query)|
    ensures Reply(Frame(query)[..sent]) == Ok(query) <==> sent == |Frame(query)|
    ensures sent < |Frame(query)| ==> Reply(Frame(query)[..sent]) == Err(Closed)
  {
    var f := Frame(query);
    ReplyIffFramed(f[..sent], query);
    if sent == |f| {
      assert f[..sent] == f;
    } else if sent >= 2 {
      ReplyIffFramed(f, query);
      assert f[..sent][0] == f[0] && f[..sent][1] == f[1];
    }
  }
}
