/** The error type of the crate and the classification of libvppcom return
    codes that every retry loop branches on. Message texts are not modelled. */
module Errors {

  // errno values on Linux
  const EAGAIN := 11
  const EWOULDBLOCK := 11
  const EPIPE := 32
  const ECONNRESET := 104
  const ENOTCONN := 107
  const EINPROGRESS := 115

  datatype VclError = Api(rc: int) | Io | Closed | NotConnected | WouldBlock | Timeout

  datatype Option<+T> = None | Some(value: T)

  datatype Result<+T> = Ok(value: T) | Err(error: VclError)

  /** The codes after which a loop waits and calls again. */
  predicate Retryable(e: VclError) {
    e.WouldBlock? || e.NotConnected?
  }

  function FromRc(rc: int): (e: VclError)
    ensures Retryable(e) <==> -rc in {EAGAIN, EINPROGRESS, ENOTCONN}
    ensures e.Closed? <==> -rc in {ECONNRESET, EPIPE}
    ensures e.NotConnected? <==> rc == -ENOTCONN
    ensures e.Api? <==> -rc !in {EAGAIN, EINPROGRESS, ENOTCONN, ECONNRESET, EPIPE}
    ensures e.Api? ==> e.rc == rc
    ensures !e.Timeout? && !e.Io?
  {
    if rc == -EWOULDBLOCK || rc == -EAGAIN || rc == -EINPROGRESS then WouldBlock
    else if rc == -ENOTCONN then NotConnected
    else if rc == -ECONNRESET || rc == -EPIPE then Closed
    else Api(rc)
  }

  datatype IoErrorKind = UnexpectedEof | WouldBlockKind | Other

  function VclToIo(e: VclError): (k: IoErrorKind)
    ensures k.WouldBlockKind? <==> e.WouldBlock?
    ensures k.UnexpectedEof? <==> e.Closed?
    ensures k.Other? <==> !e.Closed? && !e.WouldBlock?
  {
    match e
    case Closed => UnexpectedEof
    case WouldBlock => WouldBlockKind
    case _ => Other
  }
}
