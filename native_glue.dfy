/**
 * The decision rules of the JNI glue (the Rust side of the native classes):
 * how engine errors become Java IOException messages, how native read and
 * write results are mapped, how far into the direct buffer a write reaches,
 * how the TLS termination pair is validated, how edge types are named, the
 * session metadata default, and how the end of the connection stream
 * surfaces from accept. The engine itself is not modelled: its answers are
 * the parameters of these functions.
 */
module NativeGlue {
  import opened Exceptions
  import opened Nio

  /** An engine error: an optional error code and a message. */
  datatype EngineError = EngineError(code: Optional<string>, msg: string)

  /** The kinds of error the engine reports from accept. */
  datatype AcceptError =
    | Reconnect(err: EngineError)   // the session failed and could not reconnect
    | Transport(text: string)       // a transport failure; `text` is the inner error's text
    | OtherAccept(display: string)  // any other accept error, by its display text

  /** `ngrok_exc`: a coded error reads "code\n\nmsg", an uncoded one just "msg". */
  function NgrokExc(e: EngineError): (x: Exc)
    ensures x.IOException?
    ensures |x.message| >= |e.msg| && x.message[|x.message| - |e.msg|..] == e.msg
    ensures e.code.Empty? ==> x.message == e.msg
    ensures e.code.Of? ==>
      |x.message| == |e.code.get| + 2 + |e.msg| && x.message[..|e.code.get|] == e.code.get &&
      x.message[|e.code.get|..|e.code.get| + 2] == "\n\n"
  {
    match e.code
    case Of(code) => IOException(code + "\n\n" + e.msg)
    case Empty => IOException(e.msg)
  }

  /** `accept_exc_err`: the IOException an accept error is raised as. */
  function AcceptExc(e: AcceptError): (x: Exc)
    ensures x.IOException?
    ensures e.Transport? ==> x.message == e.text
    ensures e.OtherAccept? ==> x.message == e.display
  {
    match e
    case Reconnect(err) =>
      (match err.code
       case Of(code) => IOException(code + "\n\n" + err.msg)
       case Empty => IOException(err.msg))
    case Transport(text) => IOException(text)
    case OtherAccept(display) => IOException(display)
  }

  /** A failed reconnect is reported exactly as `ngrok_exc` reports the same engine error. */
  lemma ReconnectLikeNgrokExc(err: EngineError)
    ensures AcceptExc(Reconnect(err)) == NgrokExc(err)
  {
  }

  /** What the engine's asynchronous read or write produced: a byte count or an I/O error's text. */
  datatype IoResult = IoOk(n: nat) | IoErr(text: string)

  /** The message of the IOException for a native read that produced no bytes. */
  const Closed: string := "closed"

  /** `read_native`: zero bytes is the "closed" error; any other count is returned as it is. */
  function ReadNative(res: IoResult): (r: Result<int>)
    ensures r.Ok? <==> res.IoOk? && res.n != 0
    ensures r.Ok? ==> r.value == res.n && r.value > 0
    ensures res == IoOk(0) ==> r == Err(IOException(Closed))
    ensures res.IoErr? ==> r == Err(IOException(res.text))
  {
    match res
    case IoOk(n) => if n == 0 then Err(IOException(Closed)) else Ok(n)
    case IoErr(text) => Err(IOException(text))
  }

  /** `write_native`: the engine's count is returned unchanged, errors become IOException. */
  function WriteNative(res: IoResult): (r: Result<int>)
    ensures r.Ok? <==> res.IoOk?
    ensures r.Ok? ==> r.value == res.n
    ensures res.IoErr? ==> r == Err(IOException(res.text))
  {
    match res
    case IoOk(n) => Ok(n)
    case IoErr(text) => Err(IOException(text))
  }

  /** `&addr[..limit]`: a native write hands the engine the first `limit` bytes of the whole direct buffer. */
  function WriteSlice(addr: seq<Byte>, limit: int): (act: seq<Byte>)
    requires 0 <= limit <= |addr|
    ensures |act| == limit
    ensures forall i :: 0 <= i < limit ==> act[i] == addr[i]
  {
    addr[..limit]
  }

  /** The server-side TLS termination material. */
  datatype Termination = Termination(certPem: seq<Byte>, keyPem: seq<Byte>)

  const TerminationPairRequired: string := "requires both terminationCertPEM and terminationKeyPEM"

  /** The certificate/key pairing check of `tls_builder`: both or neither, never one. */
  function TlsTermination(cert: Nullable<seq<Byte>>, key: Nullable<seq<Byte>>): (r: Result<Optional<Termination>>)
    ensures r.Ok? <==> (cert.NonNull? <==> key.NonNull?)
    ensures r == Ok(Empty) <==> cert.Null? && key.Null?
    ensures cert.NonNull? && key.NonNull? ==> r == Ok(Of(Termination(cert.ref, key.ref)))
    ensures r.Err? ==> r.exc == IOException(TerminationPairRequired)
  {
    if cert.NonNull? && key.NonNull? then Ok(Of(Termination(cert.ref, key.ref)))
    else if cert.Null? && key.Null? then Ok(Empty)
    else Err(IOException(TerminationPairRequired))
  }

  /** The kinds of edge an edge connection can arrive on. */
  datatype EdgeType = Https | Tls | Tcp | Undefined

  /** The edge-type string a native edge connection is constructed with. */
  function EdgeTypeName(t: EdgeType): (name: string)
    ensures name in {"HTTPS", "TLS", "TCP", ""}
    ensures name == "" <==> t.Undefined?
  {
    match t
    case Https => "HTTPS"
    case Tls => "TLS"
    case Tcp => "TCP"
    case Undefined => ""
  }

  /** Distinct edge types get distinct names, so the Java side can tell them apart. */
  lemma EdgeTypeNameInjective(s: EdgeType, t: EdgeType)
    ensures EdgeTypeName(s) == EdgeTypeName(t) ==> s == t
  {
  }

  /** `connect_native`: the metadata a native session is constructed with. */
  function SessionMetadata(metadata: Optional<string>): (m: string)
    ensures metadata.Of? ==> m == metadata.get
    ensures metadata.Empty? ==> m == ""
  {
    match metadata
    case Of(s) => s
    case Empty => ""
  }

  /** What the engine's connection stream yields to one accept: a connection, its end, or an error. */
  datatype EngineNext<C> = NextConn(conn: C) | StreamEnded | AcceptFailed(err: AcceptError)

  const NoNextConn: string := "could not get next conn"

  /** The accept mapping shared by every native listener. */
  function AcceptResult<C>(next: EngineNext<C>): (r: Result<C>)
    ensures r.Ok? <==> next.NextConn?
    ensures r.Ok? ==> r.value == next.conn
    ensures next.StreamEnded? ==> r == Err(IOException(NoNextConn))
    ensures next.AcceptFailed? ==> r == Err(AcceptExc(next.err))
  {
    match next
    case NextConn(c) => Ok(c)
    case StreamEnded => Err(IOException(NoNextConn))
    case AcceptFailed(err) => Err(AcceptExc(err))
  }
}
