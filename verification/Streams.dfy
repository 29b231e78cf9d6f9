/** The connected stream: awaiting reads and writes, and the poll-based traits. */
module Streams {
  import opened Errors
  import opened Framing
  import opened Notifies
  import opened ReactorModel
  import opened ReactorInvariants
  import opened ReactorFairness
  import opened ReactorPolls
  import opened Reactor
  import opened Sessions

  datatype IoResult = IoOk(n: nat) | IoErr(kind: IoErrorKind)

  /** VPP says that the session is gone. */
  predicate Gone(rc: int) {
    rc == -ECONNRESET || rc == -EPIPE
  }

  /** How `read` turns the code that ends its loop into a result: bytes, or Closed at
      the end of the stream and for a session that is gone, or the code itself. */
  function ReadOutcome(rc: int): (r: Result<nat>)
    ensures r.Ok? <==> rc > 0
    ensures r.Ok? ==> r.value == rc
    ensures r == Err(Closed) <==> rc == 0 || Gone(rc)
    ensures rc < 0 && !IsRetry(rc) && !Gone(rc) ==> r == Err(Api(rc))
  {
    if rc == 0 then Err(Closed) else if rc > 0 then Ok(rc) else Err(FromRc(rc))
  }

  /** `poll_read` reports the end of the stream, and a session that is gone, as
      nothing read. */
  function PollOutcome(rc: int): (out: IoResult)
    ensures out.IoOk? <==> rc >= 0 || Gone(rc)
    ensures out.IoOk? ==> out.n == if rc >= 0 then rc else 0
    ensures rc < 0 && !IsRetry(rc) && !Gone(rc) ==> out == IoErr(Other)
  {
    if rc >= 0 then IoOk(rc)
    else if FromRc(rc) == Closed then IoOk(0)
    else IoErr(VclToIo(FromRc(rc)))
  }

  /** `poll_write` reports a session that is gone as an error. */
  function WriteOutcome(rc: int): (out: IoResult)
    ensures out.IoOk? <==> rc >= 0
    ensures out.IoOk? ==> out.n == rc
    ensures out == IoErr(UnexpectedEof) <==> Gone(rc)
    ensures rc < 0 && !IsRetry(rc) && !Gone(rc) ==> out == IoErr(Other)
  {
    if rc >= 0 then IoOk(rc) else IoErr(VclToIo(FromRc(rc)))
  }

  /** The last code of a call that failed says why: after a retryable one the wait
      failed, any other is the error. */
  predicate LastSays(codes: seq<int>, e: VclError) {
    && codes != []
    && var rc := codes[|codes| - 1];
    if IsRetry(rc) then e == Timeout || e == Io else ReadOutcome(rc) == Err(e)
  }

  /** The loop went round on every code but the last, which decided. */
  predicate EndsWith(codes: seq<int>, rc: int) {
    && |codes| > 0 && codes[|codes| - 1] == rc && AllRetry(codes[..|codes| - 1])
    && (rc < 0 ==> !Retryable(FromRc(rc)))
  }

  /** No proper prefix of what one loop consumed would have ended another. */
  lemma EndsOnce(script: seq<int>, m: nat, n: nat, x: int, y: int)
    requires m < n <= |script| && EndsWith(script[..m], x)
    ensures !EndsWith(script[..n], y)
  {
    assert script[..n][..n - 1][m - 1] == script[..m][m - 1];
  }

  /** Fed with the same codes, `read` and `poll_read` use up the same ones and
      deliver the same bytes; one says Closed exactly if the other says end of
      file, and neither lets a retryable code through. */
  lemma ReadMatchesPoll(script: seq<int>, m: nat, n: nat, x: int, y: int)
    requires m <= |script| && n <= |script|
    requires EndsWith(script[..m], x) && EndsWith(script[..n], y)
    ensures m == n
    ensures ReadOutcome(x) == Err(Closed) <==> PollOutcome(y) == IoOk(0)
    ensures forall k: nat :: k > 0 ==> (ReadOutcome(x) == Ok(k) <==> PollOutcome(y) == IoOk(k))
    ensures ReadOutcome(x).Err? ==> !Retryable(ReadOutcome(x).error)
    ensures PollOutcome(y) != IoErr(WouldBlockKind)
  {
    if m < n {
      EndsOnce(script, m, n, x, y);
    } else if n < m {
      EndsOnce(script, n, m, y, x);
    }
  }

  /** The other direction's stored wait is not disturbed. */
  lemma {:induction false} OthersHold(st: State, steps: seq<Step>, w: WaiterId, x: WaiterId, s: Session, stored: Stored)
    requires Inv(st) && Valid(st, steps) && OwnSteps(steps, w) && x != w && Holds(st, x, s, stored)
    ensures Inv(Exec(st, steps)) && Holds(Exec(st, steps), x, s, stored)
    ensures Exec(st, steps).own == st.own
    decreases |steps|
  {
    if steps != [] {
      var st1 := Next(st, steps[0]);
      StepInv(st, steps[0]);
      WaitFrame(st, w, steps[0].act);
      if stored == Started { StaysCurrent(st, steps[0], x); }
      OthersHold(st1, steps[1..], w, x, s, stored);
    }
  }

  predicate EndsIn(all: seq<int>, tail: seq<int>) {
    |tail| <= |all| && all[|all| - |tail|..] == tail
  }

  lemma EndsInSnoc(all: seq<int>, tail: seq<int>, rc: int)
    requires EndsIn(all, tail)
    ensures EndsIn(all + [rc], tail + [rc])
  {
    var k := |all| - |tail|;
    assert (all + [rc])[k..] == all[k..] + [rc];
  }

  lemma AllRetrySnoc(codes: seq<int>, rc: int)
    requires AllRetry(codes)
    ensures AllRetry(codes + [rc]) <==> IsRetry(rc)
  {
    assert (codes + [rc])[|codes|] == rc;
  }

  /** How many codes the current read or write has seen: none if no wait is stored. */
  function Carried(stored: Stored, codes: seq<int>): nat {
    if stored == Nothing then 0 else |codes|
  }

  /** The waits begun in `trace` are one for each retryable code among the `n` codes
      seen meanwhile, and one for a wait that was stored unstarted at the outset;
      one may be stored unstarted at the end. */
  ghost predicate Tally(s: Session, trace: seq<Step>, n: int, codes: seq<int>, was: Stored, stored: Stored) {
    && LongWaits(trace, s)
    && Begins(trace) + (if stored == Unpolled then 1 else 0) ==
       n - (if AllRetry(codes) then 0 else 1) + (if was == Unpolled then 1 else 0)
  }

  lemma TallyConcat(s: Session, a: seq<Step>, m: int, b: seq<Step>, n: int, codes: seq<int>,
                    was: Stored, mid: Stored, stored: Stored)
    requires Tally(s, a, m, [], was, mid) && Tally(s, b, n, codes, mid, stored)
    ensures Tally(s, a + b, m + n, codes, was, stored)
  {
    BeginsConcat(a, b);
  }

  class VclStream {
    const handle: SessionHandle
    const reactor: VclReactor
    const sh: Session
    const rid: WaiterId
    const wid: WaiterId
    var pendingReadable: Stored
    var pendingWritable: Stored
    ghost var asked: seq<int>   // the codes poll_read has seen for the current read
    ghost var tried: seq<int>   // the codes poll_write has seen for the current write

    ghost predicate StreamValid()
      reads this, handle, reactor
    {
      && handle.pos <= |handle.incoming|
      && Inv(reactor.View()) && sh in reactor.own.live && rid != wid
      && Holds(reactor.View(), rid, sh, pendingReadable)
      && Holds(reactor.View(), wid, sh, pendingWritable)
      && (pendingReadable != Nothing ==> AllRetry(asked) && asked != [])
      && EndsIn(handle.codes, asked)
      && (pendingWritable != Nothing ==> AllRetry(tried) && tried != [])
      && EndsIn(handle.wcodes, tried)
    }

    /** Wrapping a session that is registered and owned: nothing is stored. */
    constructor (handle: SessionHandle, reactor: VclReactor, sh: Session, rid: WaiterId, wid: WaiterId)
      requires handle.pos <= |handle.incoming|
      requires Inv(reactor.View()) && sh in reactor.own.live && rid != wid
      requires !Active(reactor.View(), rid) && !Active(reactor.View(), wid)
      ensures StreamValid() && pendingReadable == pendingWritable == Nothing
      ensures this.handle == handle && this.reactor == reactor && this.sh == sh
    {
      this.handle, this.reactor, this.sh := handle, reactor, sh;
      this.rid, this.wid := rid, wid;
      pendingReadable, pendingWritable, asked, tried := Nothing, Nothing, [], [];
    }

    // ---- Awaiting ----

    // An awaiting call may have to go on for ever, and its caller may drop it at any
    // await. `patience` is how many waits the caller sits through; with no result
    // it dropped the future in the wait after those.

    /** `read` into `buf[lo..]`. With no room left the code 0 means nothing, but it
        is reported as Closed all the same. */
    method Read(buf: array<byte>, lo: nat, patience: nat)
      returns (r: Option<Result<nat>>, left: nat, ghost newCodes: seq<int>)
      requires handle.pos <= |handle.incoming| && lo <= buf.Length
      modifies handle`pos, handle`fault, handle`waited, handle`awaits, handle`codes, handle`stamps, buf
      ensures handle.codes == old(handle.codes) + newCodes
      ensures left <= patience && handle.awaits == old(handle.awaits) + patience - left
      ensures r.None? ==> AllRetry(newCodes) && |newCodes| == patience + 1 && left == 0
                          && handle.pos == old(handle.pos) && buf[..] == old(buf[..])
                          && handle.fault == old(handle.fault)
      // one wait for every retryable code, and the last code says how it ended
      ensures r.Some? ==> |newCodes| == patience - left + if AllRetry(newCodes) then 0 else 1
      ensures r.Some? && !AllRetry(newCodes) ==> exists rc :: EndsWith(newCodes, rc) && r.value == ReadOutcome(rc)
      ensures r.Some? && r.value.Err? ==> LastSays(newCodes, r.value.error)
      ensures r.Some? && r.value.Ok? ==> ReadMoved(r.value.value, old(handle.pos), old(buf[..]), buf[..], lo)
                                         && r.value.value > 0 && handle.fault == old(handle.fault)
      ensures r.Some? && r.value.Err? ==>
                && handle.pos == old(handle.pos) && !Retryable(r.value.error)
                && (|| handle.fault == Some(r.value.error)
                    || (handle.fault == old(handle.fault) && r.value.error == Closed
                        && (handle.pos == |handle.incoming| || lo == buf.Length)))
      ensures handle.waited >= old(handle.waited) + if r == Some(Err(Timeout)) then 300_000 else 0
    {
      newCodes := [];
      left := patience;
      while true
        invariant handle.pos == old(handle.pos) && handle.fault == old(handle.fault) && buf[..] == old(buf[..])
        invariant AllRetry(newCodes) && handle.codes == old(handle.codes) + newCodes
        invariant left + |newCodes| == patience && handle.awaits == old(handle.awaits) + patience - left
        invariant handle.waited >= old(handle.waited)
        decreases left
      {
        var x;
        ghost var rc;
        x, rc := handle.Read(buf, lo, null);
        ghost var before := newCodes;
        newCodes := newCodes + [rc];
        assert newCodes[..|newCodes| - 1] == before && newCodes[|newCodes| - 1] == rc;
        match x
        case Ok(n) =>
          assert EndsWith(newCodes, rc);
          return Some(if n == 0 then Err(Closed) else Ok(n)), left, newCodes;
        case Err(e) =>
          if !Retryable(e) {
            assert EndsWith(newCodes, rc);
            return Some(Err(e)), left, newCodes;
          }
          if left == 0 { return None, left, newCodes; }
          left := left - 1;
          var w := handle.Await(WAIT_MS);
          if w.Err? { return Some(Err(w.error)), left, newCodes; }
      }
    }

    /** Exactly the next `n` bytes of the stream were moved to `lo`. */
    ghost predicate ReadMoved(n: nat, from: nat, before: seq<byte>, after: seq<byte>, lo: nat)
      reads handle
    {
      && handle.pos == from + n && handle.pos <= |handle.incoming| && lo + n <= |before|
      && after == before[..lo] + handle.incoming[from..handle.pos] + before[lo + n..]
    }

    /** `read_exact`: fill `buf`, or fail; the bytes are the next ones of the
        stream however they were cut into reads. Dropped half-way, the bytes taken
        so far are those at the front of `buf`. */
    method ReadExact(buf: array<byte>, patience: nat) returns (r: Option<Result<()>>, left: nat)
      requires handle.pos <= |handle.incoming|
      modifies handle`pos, handle`fault, handle`waited, handle`awaits, handle`codes, handle`stamps, buf
      ensures old(handle.pos) <= handle.pos <= |handle.incoming|
      ensures left <= patience <= left + |handle.codes| - |old(handle.codes)|
      ensures handle.awaits == old(handle.awaits) + patience - left
      ensures r.Some? && r.value.Err? ==>
                |handle.codes| > |old(handle.codes)| && LastSays(handle.codes, r.value.error)
      ensures r.Some? && r.value.Ok? ==>
                && handle.pos == old(handle.pos) + buf.Length && handle.fault == old(handle.fault)
                && buf[..] == handle.incoming[old(handle.pos)..handle.pos]
      ensures r.Some? && r.value.Err? ==>
                || handle.fault == Some(r.value.error)
                || (handle.fault == old(handle.fault) && r.value.error == Closed
                    && |handle.incoming| - old(handle.pos) < buf.Length)
      ensures r.None? ==>
                && var got := handle.pos - old(handle.pos);
                && got < buf.Length && buf[..got] == handle.incoming[old(handle.pos)..handle.pos]
                && left == 0 && handle.fault == old(handle.fault) && |handle.codes| > |old(handle.codes)| + patience
      ensures handle.waited >= old(handle.waited) + if r == Some(Err(Timeout)) then 300_000 else 0
    {
      var got := 0;
      left := patience;
      while got < buf.Length
        invariant 0 <= got <= buf.Length && left <= patience
        invariant handle.pos == old(handle.pos) + got && handle.pos <= |handle.incoming|
        invariant handle.fault == old(handle.fault) && handle.waited >= old(handle.waited)
        invariant |handle.codes| >= |old(handle.codes)| + patience - left
        invariant handle.awaits == old(handle.awaits) + patience - left
        invariant buf[..got] == handle.incoming[old(handle.pos)..handle.pos]
      {
        ghost var was := buf[..];
        var x;
        ghost var cs;
        x, left, cs := Read(buf, got, left);
        if x.None? { return None, left; }
        if x.value.Err? { return Some(Err(x.value.error)), left; }
        assert buf[..got + x.value.value] == was[..got] + handle.incoming[old(handle.pos) + got..handle.pos];
        got := got + x.value.value;
      }
      r := Some(Ok(()));
    }

    /** `write_all`: whatever is accepted when, the TX FIFO grows by a prefix of
        `buf`, by all of it exactly on success. */
    method WriteAll(buf: seq<byte>, patience: nat)
      returns (r: Option<Result<()>>, left: nat, ghost sent: nat, ghost newCodes: seq<int>)
      modifies handle`tx, handle`fault, handle`zeros, handle`wcodes, handle`wlog, handle`waited, handle`awaits
      ensures sent <= |buf| && handle.tx == old(handle.tx) + buf[..sent]
      ensures r.Some? && r.value.Ok? <==> sent == |buf|
      // one wait for every retryable code, and the last code says how it failed
      ensures handle.wcodes == old(handle.wcodes) + newCodes
      ensures left <= patience && handle.awaits == old(handle.awaits) + patience - left
      ensures Retries(newCodes) == patience - left + if r.None? then 1 else 0
      ensures r.None? ==> left == 0 && IsRetry(newCodes[|newCodes| - 1])
      ensures r.Some? && r.value.Err? ==> newCodes != [] && newCodes[|newCodes| - 1] < 0
                                          && LastSays(newCodes, r.value.error)
      ensures r.None? || r.value.Ok? ==> handle.fault == old(handle.fault)
      ensures r.Some? && r.value.Err? ==> handle.fault == Some(r.value.error) && !Retryable(r.value.error)
      ensures handle.waited >= old(handle.waited) + if r == Some(Err(Timeout)) then 300_000 else 0
    {
      sent, left, newCodes := 0, patience, [];
      var done := 0;
      while done < |buf|
        invariant 0 <= done <= |buf| && handle.fault == old(handle.fault) && left <= patience
        invariant handle.tx == old(handle.tx) + buf[..done] && handle.waited >= old(handle.waited)
        invariant handle.wcodes == old(handle.wcodes) + newCodes && Retries(newCodes) == patience - left
        invariant handle.awaits == old(handle.awaits) + patience - left
        decreases |buf| - done, handle.zeros, left
      {
        var x;
        ghost var rc;
        x, rc := handle.Write(buf[done..], null);
        RetriesSnoc(newCodes, rc);
        newCodes := newCodes + [rc];
        match x
        case Ok(n) =>
          assert buf[..done + n] == buf[..done] + buf[done..][..n];
          done := done + n;
        case Err(e) =>
          if !Retryable(e) { return Some(Err(e)), left, done, newCodes; }
          if left == 0 { return None, left, done, newCodes; }
          left := left - 1;
          var w := handle.Await(WAIT_MS);
          if w.Err? { return Some(Err(w.error)), left, done, newCodes; }
      }
      r, sent := Some(Ok(())), done;
    }

    // ---- Polling ----

    /** What resuming the wait of `w` promises, given the measure `fuel` before it. */
    ghost predicate Resumed(w: WaiterId, r: Poll<Result<()>>, cx: nat, fuel: nat)
      reads reactor
    {
      && (r.Pending? ==> ParkedFor(w, cx)) && reactor.Answers(w, cx, r)
      && Fuel(reactor.View(), w, sh) <= fuel
      && (r.Ready? && r.value.Ok? ==> Fuel(reactor.View(), w, sh) < fuel)
      && (r == Ready(Err(Timeout)) ==> w in reactor.waits && reactor.now >= reactor.waits[w].deadline)
      && (r.Ready? && r.value.Err? ==>
            WaitFailed(reactor.View(), w) && (r.value.error == Timeout || r.value.error == Io))
    }

    /** Poll the wait of `w`, which leaves the stored wait of `other` alone. */
    method PollDirection(w: WaiterId, stored: Stored, ghost other: WaiterId, ghost otherStored: Stored, cx: nat)
      returns (r: Poll<Result<()>>, ghost trace: seq<Step>)
      requires Inv(reactor.View()) && sh in reactor.own.live && w != other && stored != Nothing
      requires Holds(reactor.View(), w, sh, stored) && Holds(reactor.View(), other, sh, otherStored)
      modifies reactor`waiters, reactor`events, reactor`grants, reactor`mqReady,
               reactor`notifies, reactor`waits, reactor`wakers, reactor`armed
      ensures Inv(reactor.View()) && Holds(reactor.View(), other, sh, otherStored)
      ensures Holds(reactor.View(), w, sh, if r.Pending? then Started else Nothing)
      ensures RanBy(old(reactor.View()), trace, reactor.View(), w)
      ensures Resumed(w, r, cx, old(Fuel(reactor.View(), w, sh)))
      ensures Begins(trace) == (if stored == Unpolled then 1 else 0) && LongWaits(trace, sh)
    {
      ghost var st := reactor.View();
      r, trace := reactor.PollStored(w, sh, stored, cx);
      OthersHold(st, trace, w, other, sh, otherStored);
    }

    /** Poll the wait stored for one direction, starting it first if it was never
        polled; it is cleared unless it is still pending. */
    method Resume(readable: bool, cx: nat) returns (r: Poll<Result<()>>, ghost trace: seq<Step>)
      requires StreamValid() && (if readable then pendingReadable else pendingWritable) != Nothing
      modifies this`pendingReadable, this`pendingWritable,
               reactor`waiters, reactor`events, reactor`grants, reactor`mqReady,
               reactor`notifies, reactor`waits, reactor`wakers, reactor`armed
      ensures StreamValid()
      ensures RanBy(old(reactor.View()), trace, reactor.View(), if readable then rid else wid)
      ensures readable ==> pendingWritable == old(pendingWritable)
      ensures !readable ==> pendingReadable == old(pendingReadable)
      ensures (if readable then pendingReadable else pendingWritable) == if r.Pending? then Started else Nothing
      ensures var w := if readable then rid else wid; Resumed(w, r, cx, old(Fuel(reactor.View(), w, sh)))
      ensures Begins(trace) == (if old(if readable then pendingReadable else pendingWritable) == Unpolled then 1 else 0)
      ensures LongWaits(trace, sh)
    {
      if readable {
        r, trace := PollDirection(rid, pendingReadable, wid, pendingWritable, cx);
        pendingReadable := if r.Pending? then Started else Nothing;
      } else {
        r, trace := PollDirection(wid, pendingWritable, rid, pendingReadable, cx);
        pendingWritable := if r.Pending? then Started else Nothing;
      }
    }

    /** `w` sits in the queue of the live Notify and will wake the context `cx`. */
    ghost predicate ParkedFor(w: WaiterId, cx: nat)
      reads reactor
    {
      && Mine(reactor.View(), w, sh)
      && w in NotifyAt(reactor.View(), reactor.waits[w].notify).parked
      && reactor.Asleep(w, cx)
    }

    /** What a Ready `poll_read` has done: the wait failed, or the last code decided,
        and exactly the bytes it reports were moved. */
    ghost predicate ReadDone(out: IoResult, from: nat, before: seq<byte>, after: seq<byte>, lo: nat)
      reads this, handle, reactor
    {
      && ((out == IoErr(Other) && AllRetry(asked) && asked != [] && WaitFailed(reactor.View(), rid))
          || (asked != [] && var rc := asked[|asked| - 1]; EndsWith(asked, rc) && out == PollOutcome(rc)))
      && out != IoErr(WouldBlockKind)
      && (out.IoOk? ==> ReadMoved(out.n, from, before, after, lo))
      && (out == IoOk(0) ==> lo == |before| || handle.pos == |handle.incoming| || handle.fault == Some(Closed))
    }

    /** One `read` of the session on behalf of `poll_read`. */
    method Ask(buf: array<byte>, lo: nat) returns (x: Result<nat>, ghost rc: int)
      requires handle.pos <= |handle.incoming| && lo <= buf.Length && AllRetry(asked) && EndsIn(handle.codes, asked)
      modifies this`asked, buf, handle`pos, handle`fault, handle`codes, handle`stamps
      ensures x == if rc < 0 then Err(FromRc(rc)) else Ok(rc)
      ensures EndsIn(handle.codes, asked) && |handle.codes| == |old(handle.codes)| + 1
      ensures asked == old(asked) + [rc] && (AllRetry(asked) <==> IsRetry(rc)) && (!IsRetry(rc) ==> EndsWith(asked, rc))
      ensures ReadMoved(if x.Ok? then x.value else 0, old(handle.pos), old(buf[..]), buf[..], lo)
      ensures x == Ok(0) ==> lo == buf.Length || handle.pos == |handle.incoming|
      ensures x == Err(Closed) ==> handle.fault == Some(Closed)
    {
      ghost var before, was := asked, buf[..];
      x, rc := handle.Read(buf, lo, null);
      EndsInSnoc(old(handle.codes), before, rc);
      AllRetrySnoc(before, rc);
      asked := asked + [rc];
      assert asked[..|before|] == before;
      assert x.Err? ==> was == was[..lo] + [] + was[lo..];
      assert was[..lo] == old(buf[..lo]) && (x.Ok? ==> was[lo + x.value..] == old(buf[lo + x.value..]));
    }

    /** One read attempt of `poll_read`; no result means: wait and try again. */
    method TryRead(buf: array<byte>, lo: nat) returns (out: Option<IoResult>)
      requires handle.pos <= |handle.incoming| && lo <= buf.Length && AllRetry(asked) && EndsIn(handle.codes, asked)
      modifies this`asked, buf, handle`pos, handle`fault, handle`codes, handle`stamps
      ensures handle.pos <= |handle.incoming| && old(asked) <= asked && EndsIn(handle.codes, asked)
      ensures |handle.codes| == |old(handle.codes)| + 1 && |asked| == |old(asked)| + 1
      ensures out.None? <==> AllRetry(asked)
      ensures out.None? ==> handle.pos == old(handle.pos) && buf[..] == old(buf[..])
      ensures out.Some? ==> ReadDone(out.value, old(handle.pos), old(buf[..]), buf[..], lo)
    {
      var x;
      ghost var rc;
      x, rc := Ask(buf, lo);
      match x
      case Ok(n) => out := Some(IoOk(n));
      case Err(e) =>
        out := if Retryable(e) then None else Some(if e == Closed then IoOk(0) else IoErr(VclToIo(e)));
        assert buf[..] == old(buf[..]) by {
          ghost var was := old(buf[..]);
          assert was == was[..lo] + [] + was[lo..];
        }
    }

    /** Try to read, and store a wait if that has to be tried again. */
    method ReadOrStore(buf: array<byte>, lo: nat) returns (out: Option<IoResult>)
      requires StreamValid() && lo <= buf.Length && pendingReadable == Nothing && AllRetry(asked)
      modifies this`pendingReadable, this`asked, buf, handle`pos, handle`fault, handle`codes, handle`stamps
      ensures StreamValid() && old(asked) <= asked
      ensures |handle.codes| == |old(handle.codes)| + 1 && |asked| == |old(asked)| + 1
      ensures pendingReadable == (if out.None? then Unpolled else Nothing) && (out.None? <==> AllRetry(asked))
      ensures out.None? ==> handle.pos == old(handle.pos) && buf[..] == old(buf[..])
      ensures out.Some? ==> ReadDone(out.value, old(handle.pos), old(buf[..]), buf[..], lo)
    {
      out := TryRead(buf, lo);
      if out.None? { pendingReadable := Unpolled; }
    }

    /** One round of the `poll_read` loop: resume the stored wait if there is one,
        then try to read. No result means the wait for the next round is stored. */
    method ReadRound(cx: nat, buf: array<byte>, lo: nat) returns (p: Option<Poll<IoResult>>, ghost trace: seq<Step>)
      requires StreamValid() && lo <= buf.Length
      modifies this`pendingReadable, this`pendingWritable, this`asked, buf,
               handle`pos, handle`fault, handle`codes, handle`stamps,
               reactor`waiters, reactor`events, reactor`grants, reactor`mqReady,
               reactor`notifies, reactor`waits, reactor`wakers, reactor`armed
      ensures StreamValid() && pendingWritable == old(pendingWritable)
      ensures RanBy(old(reactor.View()), trace, reactor.View(), rid)
      ensures |handle.codes| >= |old(handle.codes)| + if old(pendingReadable) == Nothing then 1 else 0
      ensures |asked| == |handle.codes| - |old(handle.codes)| + old(Carried(pendingReadable, asked))
      ensures Tally(sh, trace, |handle.codes| - |old(handle.codes)|, asked, old(pendingReadable), pendingReadable)
      ensures old(pendingReadable) != Nothing ==> old(asked) <= asked
      ensures p.None? || p == Some(Pending) ==> handle.pos == old(handle.pos) && buf[..] == old(buf[..])
      ensures p.None? ==> AllRetry(asked)
      ensures p.None? ==>
                && pendingReadable == Unpolled
                && Fuel(reactor.View(), rid, sh) <= old(Fuel(reactor.View(), rid, sh))
                && (old(pendingReadable) != Nothing ==>
                      Fuel(reactor.View(), rid, sh) < old(Fuel(reactor.View(), rid, sh)))
      ensures p == Some(Pending) ==> pendingReadable == Started && ParkedFor(rid, cx)
      ensures p.Some? && p.value.Ready? ==>
                pendingReadable == Nothing && ReadDone(p.value.value, old(handle.pos), old(buf[..]), buf[..], lo)
    {
      trace := [];
      RunNil(reactor.View());
      if pendingReadable == Nothing {
        asked := [];
      } else {
        var r;
        r, trace := Resume(true, cx);
        if r.Pending? { return Some(Pending), trace; }
        if r.value.Err? { return Some(Ready(IoErr(VclToIo(r.value.error)))), trace; }
      }
      var out := ReadOrStore(buf, lo);
      p := if out.Some? then Some(Ready(out.value)) else None;
    }

    /** `poll_read` into `buf[lo..]`. Pending leaves a wait stored that was polled
        with this very context and is parked on the live Notify; Ready leaves none. */
    method PollRead(cx: nat, buf: array<byte>, lo: nat) returns (p: Poll<IoResult>, ghost trace: seq<Step>)
      requires StreamValid() && lo <= buf.Length
      modifies this`pendingReadable, this`pendingWritable, this`asked, buf,
               handle`pos, handle`fault, handle`codes, handle`stamps,
               reactor`waiters, reactor`events, reactor`grants, reactor`mqReady,
               reactor`notifies, reactor`waits, reactor`wakers, reactor`armed
      ensures StreamValid() && pendingWritable == old(pendingWritable)
      ensures RanBy(old(reactor.View()), trace, reactor.View(), rid)
      ensures |asked| == |handle.codes| - |old(handle.codes)| + old(Carried(pendingReadable, asked))
      ensures Tally(sh, trace, |handle.codes| - |old(handle.codes)|, asked, old(pendingReadable), pendingReadable)
      ensures old(pendingReadable) == Nothing ==> |handle.codes| > |old(handle.codes)|
      ensures old(pendingReadable) != Nothing ==> old(asked) <= asked
      ensures p.Pending? ==> pendingReadable == Started && ParkedFor(rid, cx)
                             && handle.pos == old(handle.pos) && buf[..] == old(buf[..])
      ensures p.Ready? ==> pendingReadable == Nothing
                           && ReadDone(p.value, old(handle.pos), old(buf[..]), buf[..], lo)
    {
      ghost var st := reactor.View();
      trace := [];
      RunNil(st);
      while true
        invariant StreamValid() && pendingWritable == old(pendingWritable)
        invariant old(pendingReadable) != Nothing ==> old(asked) <= asked && pendingReadable != Nothing
        invariant RanBy(st, trace, reactor.View(), rid)
        invariant pendingReadable != Nothing ==>
                    |asked| == |handle.codes| - |old(handle.codes)| + old(Carried(pendingReadable, asked))
        invariant pendingReadable == Nothing ==> old(pendingReadable) == Nothing && |handle.codes| == |old(handle.codes)|
        invariant Tally(sh, trace, |handle.codes| - |old(handle.codes)|, [], old(pendingReadable), pendingReadable)
        invariant |handle.codes| >= |old(handle.codes)|
        invariant handle.pos == old(handle.pos) && buf[..] == old(buf[..])
        decreases Fuel(reactor.View(), rid, sh), if pendingReadable == Nothing then 1 else 0
      {
        ghost var mid, more;
        mid := reactor.View();
        ghost var n, stored := |handle.codes|, pendingReadable;
        var out;
        out, more := ReadRound(cx, buf, lo);
        RanByConcat(st, trace, mid, more, reactor.View(), rid);
        TallyConcat(sh, trace, n - |old(handle.codes)|, more, |handle.codes| - n, asked,
                    old(pendingReadable), stored, pendingReadable);
        trace := trace + more;
        if out.Some? { return out.value, trace; }
        assert Tally(sh, trace, |handle.codes| - |old(handle.codes)|, [], old(pendingReadable), pendingReadable);
      }
    }

    /** What a Ready `poll_write` has done: the wait failed, or the last code decided,
        and exactly the prefix it reports reached the TX FIFO. */
    ghost predicate WriteDone(out: IoResult, before: seq<byte>, buf: seq<byte>)
      reads this, handle, reactor
    {
      && ((out == IoErr(Other) && AllRetry(tried) && tried != [] && WaitFailed(reactor.View(), wid))
          || (tried != [] && var rc := tried[|tried| - 1]; EndsWith(tried, rc) && out == WriteOutcome(rc)))
      && out != IoErr(WouldBlockKind)
      && (out.IoOk? ==> out.n <= |buf|)
      && handle.tx == before + if out.IoOk? then buf[..out.n] else []
    }

    /** One write attempt of `poll_write`; no result means: wait and try again. */
    method TryWrite(buf: seq<byte>) returns (out: Option<IoResult>)
      requires AllRetry(tried) && EndsIn(handle.wcodes, tried)
      modifies this`tried, handle`tx, handle`fault, handle`zeros, handle`wcodes, handle`wlog
      ensures old(tried) <= tried && EndsIn(handle.wcodes, tried)
      ensures |handle.wcodes| == |old(handle.wcodes)| + 1 && |tried| == |old(tried)| + 1
      ensures out.None? <==> AllRetry(tried)
      ensures out.None? ==> AllRetry(tried) && handle.tx == old(handle.tx)
      ensures out.Some? ==> WriteDone(out.value, old(handle.tx), buf)
    {
      ghost var before := tried;
      var x;
      ghost var rc;
      x, rc := handle.Write(buf, null);
      EndsInSnoc(old(handle.wcodes), before, rc);
      AllRetrySnoc(tried, rc);
      tried := tried + [rc];
      assert tried[..|before|] == before;
      match x
      case Ok(n) => out := Some(IoOk(n));
      case Err(e) => out := if Retryable(e) then None else Some(IoErr(VclToIo(e)));
    }

    /** Try to write, and store a wait if that has to be tried again. */
    method WriteOrStore(buf: seq<byte>) returns (out: Option<IoResult>)
      requires StreamValid() && pendingWritable == Nothing && AllRetry(tried)
      modifies this`pendingWritable, this`tried, handle`tx, handle`fault, handle`zeros, handle`wcodes, handle`wlog
      ensures StreamValid() && old(tried) <= tried
      ensures |handle.wcodes| == |old(handle.wcodes)| + 1 && |tried| == |old(tried)| + 1
      ensures pendingWritable == (if out.None? then Unpolled else Nothing) && (out.None? <==> AllRetry(tried))
      ensures out.None? ==> handle.tx == old(handle.tx)
      ensures out.Some? ==> WriteDone(out.value, old(handle.tx), buf)
    {
      out := TryWrite(buf);
      if out.None? { pendingWritable := Unpolled; }
    }

    method WriteRound(cx: nat, buf: seq<byte>) returns (p: Option<Poll<IoResult>>, ghost trace: seq<Step>)
      requires StreamValid()
      modifies this`pendingReadable, this`pendingWritable, this`tried,
               handle`tx, handle`fault, handle`zeros, handle`wcodes, handle`wlog,
               reactor`waiters, reactor`events, reactor`grants, reactor`mqReady,
               reactor`notifies, reactor`waits, reactor`wakers, reactor`armed
      ensures StreamValid() && pendingReadable == old(pendingReadable)
      ensures RanBy(old(reactor.View()), trace, reactor.View(), wid)
      ensures |handle.wcodes| >= |old(handle.wcodes)| + if old(pendingWritable) == Nothing then 1 else 0
      ensures |tried| == |handle.wcodes| - |old(handle.wcodes)| + old(Carried(pendingWritable, tried))
      ensures Tally(sh, trace, |handle.wcodes| - |old(handle.wcodes)|, tried, old(pendingWritable), pendingWritable)
      ensures p.None? ==> AllRetry(tried)
      ensures p.None? ==>
                && pendingWritable == Unpolled
                && Fuel(reactor.View(), wid, sh) <= old(Fuel(reactor.View(), wid, sh))
                && (old(pendingWritable) != Nothing ==>
                      Fuel(reactor.View(), wid, sh) < old(Fuel(reactor.View(), wid, sh)))
      ensures p == Some(Pending) ==> pendingWritable == Started && ParkedFor(wid, cx)
      ensures old(pendingWritable) != Nothing ==> old(tried) <= tried
      ensures p.None? || p == Some(Pending) ==> handle.tx == old(handle.tx)
      ensures p.Some? && p.value.Ready? ==> pendingWritable == Nothing && WriteDone(p.value.value, old(handle.tx), buf)
    {
      trace := [];
      RunNil(reactor.View());
      if pendingWritable == Nothing {
        tried := [];
      } else {
        var r;
        r, trace := Resume(false, cx);
        if r.Pending? { return Some(Pending), trace; }
        if r.value.Err? { return Some(Ready(IoErr(VclToIo(r.value.error)))), trace; }
      }
      var out := WriteOrStore(buf);
      p := if out.Some? then Some(Ready(out.value)) else None;
    }

    /** `poll_write`: the same protocol for the other direction. */
    method PollWrite(cx: nat, buf: seq<byte>) returns (p: Poll<IoResult>, ghost trace: seq<Step>)
      requires StreamValid()
      modifies this`pendingReadable, this`pendingWritable, this`tried,
               handle`tx, handle`fault, handle`zeros, handle`wcodes, handle`wlog,
               reactor`waiters, reactor`events, reactor`grants, reactor`mqReady,
               reactor`notifies, reactor`waits, reactor`wakers, reactor`armed
      ensures StreamValid() && pendingReadable == old(pendingReadable)
      ensures RanBy(old(reactor.View()), trace, reactor.View(), wid)
      ensures |tried| == |handle.wcodes| - |old(handle.wcodes)| + old(Carried(pendingWritable, tried))
      ensures Tally(sh, trace, |handle.wcodes| - |old(handle.wcodes)|, tried, old(pendingWritable), pendingWritable)
      ensures old(pendingWritable) == Nothing ==> |handle.wcodes| > |old(handle.wcodes)|
      ensures old(pendingWritable) != Nothing ==> old(tried) <= tried
      ensures p.Pending? ==> pendingWritable == Started && ParkedFor(wid, cx) && handle.tx == old(handle.tx)
      ensures p.Ready? ==> pendingWritable == Nothing && WriteDone(p.value, old(handle.tx), buf)
    {
      ghost var st := reactor.View();
      trace := [];
      RunNil(st);
      while true
        invariant StreamValid() && pendingReadable == old(pendingReadable) && handle.tx == old(handle.tx)
        invariant old(pendingWritable) != Nothing ==> old(tried) <= tried && pendingWritable != Nothing
        invariant RanBy(st, trace, reactor.View(), wid)
        invariant pendingWritable != Nothing ==>
                    |tried| == |handle.wcodes| - |old(handle.wcodes)| + old(Carried(pendingWritable, tried))
        invariant pendingWritable == Nothing ==> old(pendingWritable) == Nothing && |handle.wcodes| == |old(handle.wcodes)|
        invariant Tally(sh, trace, |handle.wcodes| - |old(handle.wcodes)|, [], old(pendingWritable), pendingWritable)
        invariant |handle.wcodes| >= |old(handle.wcodes)|
        decreases Fuel(reactor.View(), wid, sh), if pendingWritable == Nothing then 1 else 0
      {
        ghost var mid, more;
        mid := reactor.View();
        ghost var n, stored := |handle.wcodes|, pendingWritable;
        var out;
        out, more := WriteRound(cx, buf);
        RanByConcat(st, trace, mid, more, reactor.View(), wid);
        TallyConcat(sh, trace, n - |old(handle.wcodes)|, more, |handle.wcodes| - n, tried,
                    old(pendingWritable), stored, pendingWritable);
        trace := trace + more;
        if out.Some? { return out.value, trace; }
        assert Tally(sh, trace, |handle.wcodes| - |old(handle.wcodes)|, [], old(pendingWritable), pendingWritable);
      }
    }
  }
}
