/** Socket addresses and their form at the FFI boundary. */
module Endpoints {
  import opened Framing

  datatype IpAddr = V4(octets: seq<byte>) | V6(octets: seq<byte>)

  datatype SocketAddr = SocketAddr(ip: IpAddr, port: nat)

  datatype Endpoint = Endpoint(isIp4: nat, port: nat)

  predicate WellFormed(a: SocketAddr) {
    |a.ip.octets| == (if a.ip.V4? then 4 else 16) && a.port <= MAX_LEN
  }

  /** `u16::to_be` and `u16::from_be` on a little-endian host. */
  function SwapBytes(p: nat): (q: nat)
    requires p <= MAX_LEN
    ensures q <= MAX_LEN && q / 256 == p % 256 && q % 256 == p / 256
  {
    p % 256 * 256 + p / 256
  }

  lemma SwapTwice(p: nat)
    requires p <= MAX_LEN
    ensures SwapBytes(SwapBytes(p)) == p
  {
    var q := SwapBytes(p);
    assert q / 256 == p % 256 && q % 256 == p / 256;
  }

  function AddrFromEndpoint(ep: Endpoint, buf: seq<byte>): SocketAddr
    requires ep.port <= MAX_LEN && |buf| == 16
  {
    SocketAddr(if ep.isIp4 != 0 then V4(buf[..4]) else V6(buf), SwapBytes(ep.port))
  }

  /** `endpoint_into_buf`: whatever the buffer held before, reading it back gives
      the address. */
  method EndpointIntoBuf(addr: SocketAddr, buf: array<byte>) returns (ep: Endpoint)
    requires WellFormed(addr) && buf.Length == 16
    modifies buf
    ensures ep.port <= MAX_LEN && AddrFromEndpoint(ep, buf[..]) == addr
    ensures ep.isIp4 == (if addr.ip.V4? then 1 else 0) && SwapBytes(ep.port) == addr.port
    ensures buf[..|addr.ip.octets|] == addr.ip.octets
    ensures addr.ip.V4? ==> buf[4..] == old(buf[4..])
  {
    var octets := addr.ip.octets;
    forall i | 0 <= i < |octets| { buf[i] := octets[i]; }
    SwapTwice(addr.port);
    ep := Endpoint(if addr.ip.V4? then 1 else 0, SwapBytes(addr.port));
    assert buf[..|octets|] == octets;
  }
}
