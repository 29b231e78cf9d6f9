/** DNS over TCP: a two-byte big-endian length before every message
    (section 4.2.2 of RFC 1035). */
module Framing {
  import opened Errors

  newtype byte = x: int | 0 <= x < 256

  const MAX_LEN := 65535

  /** `u16::to_be_bytes`. */
  function ToBeBytes(n: nat): (b: seq<byte>)
    requires n <= MAX_LEN
    ensures |b| == 2 && FromBeBytes(b[0], b[1]) == n
  {
    [(n / 256) as byte, (n % 256) as byte]
  }

  /** `u16::from_be_bytes`. */
  function FromBeBytes(hi: byte, lo: byte): (n: nat)
    ensures n <= MAX_LEN
  {
    256 * (hi as int) + (lo as int)
  }

  /** The first byte on the wire is the more significant one. */
  lemma MostSignificantFirst(hi: byte, lo: byte)
    ensures FromBeBytes(hi, lo) / 256 == hi as int && FromBeBytes(hi, lo) % 256 == lo as int
  {
  }

  function FrameTcpDnsQuery(query: seq<byte>): (r: Result<seq<byte>>)
    ensures if |query| <= 0xFFFF then r.Ok? else r == Err(Api(-1))
    ensures r.Ok? ==> |r.value| == 2 + |query| && FromBeBytes(r.value[0], r.value[1]) == |query| && r.value[2..] == query
  {
    if |query| > MAX_LEN then Err(Api(-1)) else Ok(ToBeBytes(|query|) + query)
  }

  function DecodeTcpDnsLen(hi: byte, lo: byte): (r: Result<nat>)
    ensures r.Err? <==> hi == 0 && lo == 0
    ensures r.Err? ==> r == Err(Api(-1))
    ensures r.Ok? ==> 1 <= r.value <= MAX_LEN && ToBeBytes(r.value) == [hi, lo]
  {
    var len := FromBeBytes(hi, lo);
    if len == 0 then Err(Api(-1)) else Ok(len)
  }

  /** What a reader of the stream `s`, closed by the peer at its end, is to
      return: the body of the first frame. */
  function Reply(s: seq<byte>): (r: Result<seq<byte>>)
    ensures r.Ok? ==> 1 <= |r.value| <= MAX_LEN && |s| >= 2 + |r.value|
  {
    if |s| < 2 then Err(Closed)
    else
      var len := DecodeTcpDnsLen(s[0], s[1]);
      if len.Err? then Err(len.error)
      else if |s| < 2 + len.value then Err(Closed)
      else Ok(s[2..2 + len.value])
  }

  predicate Sendable(query: seq<byte>) {
    1 <= |query| <= MAX_LEN
  }

  function Frame(query: seq<byte>): (f: seq<byte>)
    requires Sendable(query)
    ensures |f| == 2 + |query|
  {
    FrameTcpDnsQuery(query).value
  }

  /** Framing and decoding are inverse, in both directions: the far end reads
      `q` off a stream exactly if the stream starts with the frame of `q`. */
  lemma ReplyIffFramed(s: seq<byte>, q: seq<byte>)
    ensures Reply(s) == Ok(q) <==> Sendable(q) && Frame(q) <= s
  {
    if Sendable(q) && Frame(q) <= s {
      var f := Frame(q);
      assert s[0] == f[0] && s[1] == f[1];
      assert s[2..2 + |q|] == f[2..];
    }
    if Reply(s) == Ok(q) {
      assert ToBeBytes(|q|) == [s[0], s[1]];
      assert Frame(q) == [s[0], s[1]] + s[2..2 + |q|];
      assert s[..2 + |q|] == [s[0], s[1]] + s[2..2 + |q|];
    }
  }

  /** No frame is a proper prefix of another. */
  lemma PrefixFree(p: seq<byte>, q: seq<byte>)
    requires Sendable(p) && Sendable(q) && Frame(p) <= Frame(q)
    ensures p == q
  {
    ReplyIffFramed(Frame(q), p);
    ReplyIffFramed(Frame(q), q);
  }

  // ---- Streams of frames ----

  function Frames(qs: seq<seq<byte>>): seq<byte>
    requires forall i :: 0 <= i < |qs| ==> Sendable(qs[i])
  {
    if qs == [] then [] else Frame(qs[0]) + Frames(qs[1..])
  }

  /** Decode-and-take until the stream is used up or malformed. */
  function Unframe(s: seq<byte>): (r: (seq<seq<byte>>, seq<byte>))
    ensures forall i :: 0 <= i < |r.0| ==> Sendable(r.0[i])
    decreases |s|
  {
    var head := Reply(s);
    if head.Err? then ([], s)
    else
      var rest := Unframe(s[2 + |head.value|..]);
      ([head.value] + rest.0, rest.1)
  }

  /** A stream of frames is decoded to exactly what was framed, whatever
      follows it that does not hold another whole frame. */
  lemma {:induction false} UnframeFrames(qs: seq<seq<byte>>, tail: seq<byte>)
    requires forall i :: 0 <= i < |qs| ==> Sendable(qs[i])
    requires Reply(tail).Err?
    ensures Unframe(Frames(qs) + tail) == (qs, tail)
    decreases |qs|
  {
    var s := Frames(qs) + tail;
    if qs == [] {
      assert s == tail;
    } else {
      assert s == Frame(qs[0]) + (Frames(qs[1..]) + tail);
      ReplyIffFramed(s, qs[0]);
      assert s[2 + |qs[0]|..] == Frames(qs[1..]) + tail;
      UnframeFrames(qs[1..], tail);
      assert [qs[0]] + qs[1..] == qs;
    }
  }

  /** A stream that can be decoded is a frame and what follows it. */
  lemma SplitHead(s: seq<byte>)
    requires Reply(s).Ok?
    ensures Sendable(Reply(s).value) && s == Frame(Reply(s).value) + s[2 + |Reply(s).value|..]
  {
    var q := Reply(s).value;
    ReplyIffFramed(s, q);
    assert s == s[..2 + |q|] + s[2 + |q|..];
  }

  /** ... and decoding loses nothing of any stream. */
  lemma {:induction false} FramesUnframe(s: seq<byte>)
    ensures Frames(Unframe(s).0) + Unframe(s).1 == s
    ensures Reply(Unframe(s).1).Err?
    decreases |s|
  {
    if Reply(s).Ok? {
      var q := Reply(s).value;
      var tail := s[2 + |q|..];
      SplitHead(s);
      FramesUnframe(tail);
      FramesCons(q, Unframe(tail).0, Unframe(tail).1);
    }
  }

  lemma FramesCons(q: seq<byte>, qs: seq<seq<byte>>, tail: seq<byte>)
    requires Sendable(q) && forall i :: 0 <= i < |qs| ==> Sendable(qs[i])
    ensures Frames([q] + qs) + tail == Frame(q) + (Frames(qs) + tail)
  {
    assert ([q] + qs)[1..] == qs;
  }

  /** The empty query is the one gap: it can be framed but not decoded. */
  lemma RoundTripGap(q: seq<byte>)
    requires FrameTcpDnsQuery(q).Ok?
    ensures Reply(FrameTcpDnsQuery(q).value) == Ok(q) <==> q != []
  {
    if q != [] { ReplyIffFramed(Frame(q), q); }
  }
}
