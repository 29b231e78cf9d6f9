/** A VCL session as the crate sees it: calls that return a code. What the codes
    are is up to VPP; the bodies below pick any code the assumed contract allows. */
module Sessions {
  import opened Clocks
  import opened Errors
  import opened Framing

  predicate AllRetry(codes: seq<int>) {
    forall i :: 0 <= i < |codes| ==> codes[i] < 0 && Retryable(FromRc(codes[i]))
  }

  predicate IsRetry(rc: int) {
    rc < 0 && Retryable(FromRc(rc))
  }

  /** How many of the codes ask for another try. */
  function Retries(codes: seq<int>): nat {
    if codes == [] then 0
    else Retries(codes[..|codes| - 1]) + if IsRetry(codes[|codes| - 1]) then 1 else 0
  }

  lemma RetriesSnoc(codes: seq<int>, rc: int)
    ensures Retries(codes + [rc]) == Retries(codes) + if IsRetry(rc) then 1 else 0
  {
    assert (codes + [rc])[..|codes|] == codes;
  }

  /** A call under somebody's clock: its code, and when it was made. */
  datatype Call = Call(rc: int, at: nat)

  class SessionHandle {
    const incoming: seq<byte>        // all bytes the peer sends before it closes
    var pos: nat                     // bytes of `incoming` handed out so far
    var tx: seq<byte>                // the TX FIFO, never truncated
    var fault: Option<VclError>      // the last failure that was not retryable
    var zeros: nat                   // writes still to come that accept no byte
    var waited: nat                  // milliseconds spent awaiting readiness
    ghost var codes: seq<int>        // every code returned by read
    ghost var wcodes: seq<int>       // every code returned by write
    ghost var wlog: seq<Call>        // every write that was given a clock
    ghost var awaits: nat            // waits for readiness begun and ended
    ghost var stamps: seq<nat>       // the caller's clock at every read that was given one

    /** `read`: some of the bytes that are there, 0 at the end, or an error code. */
    method Read(buf: array<byte>, lo: nat, ghost clock: Clock?) returns (r: Result<nat>, ghost rc: int)
      requires pos <= |incoming| && lo <= buf.Length
      modifies this`pos, this`fault, this`codes, this`stamps, buf
      ensures r == if rc < 0 then Err(FromRc(rc)) else Ok(rc)
      ensures codes == old(codes) + [rc]
      ensures stamps == if clock == null then old(stamps) else old(stamps) + [clock.now]
      ensures r.Ok? ==> pos == old(pos) + r.value && pos <= |incoming| && lo + r.value <= buf.Length
                        && buf[..] == old(buf[..lo]) + incoming[old(pos)..pos] + old(buf[lo + r.value..])
      ensures r == Ok(0) ==> pos == |incoming| || lo == buf.Length
      ensures r.Err? ==> pos == old(pos) && buf[..] == old(buf[..])
      ensures fault == if r.Err? && !Retryable(r.error) then Some(r.error) else old(fault)
    {
      var code: int := *;
      var room, left := buf.Length - lo, |incoming| - pos;
      if code > 0 && (code > room || code > left) { code := if room < left then room else left; }
      if code == 0 && room > 0 && left > 0 { code := 1; }
      rc := code;
      if code >= 0 {
        forall i | 0 <= i < code { buf[lo + i] := incoming[pos + i]; }
        pos := pos + code;
        r := Ok(code);
      } else {
        r := Err(FromRc(code));
        if !Retryable(r.error) { fault := Some(r.error); }
      }
      codes := codes + [rc];
      stamps := if clock == null then stamps else stamps + [clock.now];
    }

    /** `write`: a prefix is accepted, or an error code is returned. */
    method Write(buf: seq<byte>, ghost clock: Clock?) returns (r: Result<nat>, ghost rc: int)
      modifies this`tx, this`fault, this`zeros, this`wcodes, this`wlog
      ensures wlog == if clock == null then old(wlog) else old(wlog) + [Call(rc, clock.now)]
      ensures r == if rc < 0 then Err(FromRc(rc)) else Ok(rc)
      ensures wcodes == old(wcodes) + [rc]
      ensures r.Ok? ==> r.value <= |buf| && tx == old(tx) + buf[..r.value]
      ensures r.Err? ==> tx == old(tx) && r.error != Timeout
      ensures if r == Ok(0) && buf != [] then zeros < old(zeros) else zeros == old(zeros)
      ensures fault == if r.Err? && !Retryable(r.error) then Some(r.error) else old(fault)
    {
      var code: int := *;
      if code > |buf| { code := |buf|; }
      if code == 0 && buf != [] && zeros == 0 { code := 1; }
      rc := code;
      wcodes := wcodes + [rc];
      wlog := if clock == null then wlog else wlog + [Call(rc, clock.now)];
      if code >= 0 {
        if code == 0 && buf != [] { zeros := zeros - 1; }
        tx := tx + buf[..code];
        r := Ok(code);
      } else {
        r := Err(FromRc(code));
        if !Retryable(r.error) { fault := Some(r.error); }
      }
    }

    /** Awaiting `wait_readable` or `wait_writable`: a hint or an error at any time,
        Timeout not before the whole timeout has passed. */
    method Await(timeout: nat) returns (r: Result<()>)
      modifies this`fault, this`waited, this`awaits
      ensures awaits == old(awaits) + 1
      ensures waited >= old(waited) + if r == Err(Timeout) then timeout else 0
      ensures r.Err? ==> fault == Some(r.error) && (r.error == Timeout || r.error == Io)
      ensures r.Ok? ==> fault == old(fault)
    {
      awaits := awaits + 1;
      var dt: int := *;
      if dt > 0 { waited := waited + dt; }
      if {
        case true => r := Ok(());
        case dt >= timeout => r := Err(Timeout);
        case true => r := Err(Io);
      }
      if r.Err? { fault := Some(r.error); }
    }
  }
}
