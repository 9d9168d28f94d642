/**
 * A connection as the stream adapters see it: `read` fills a buffer with one
 * chunk, `write` hands the bytes of a buffer to the other side. The three
 * native classes (plain, endpoint, edge) share one cursor contract; the
 * collecting connection of the output-stream test consumes everything it is
 * given. Java's class hierarchy becomes one class with a `kind`.
 */
module Connections {
  import opened Exceptions
  import opened Nio
  import NativeGlue

  /** Which concrete connection class an object is. */
  datatype ConnKind =
    | Native                                            // NativeConnection
    | NativeEndpoint(proto: string)                     // NativeEndpointConnection
    | NativeEdge(edgeType: string, passthroughTls: bool) // NativeEdgeConnection
    | Collecting                                        // the test's CollectingConnection

  /** The engine's answer to one native read: the bytes of one chunk, or an I/O error. */
  datatype EngineRead = ReadBytes(bytes: seq<Byte>) | ReadFails(reason: string)

  /** The engine's answer to one native write: how many bytes it took, or an I/O error. */
  datatype EngineWrite = Wrote(count: nat) | WriteFails(reason: string)

  /** What `read(dst)` returns. */
  function ReadOutcome(kind: ConnKind, ev: EngineRead): (r: Result<int>)
    ensures kind.Collecting? ==> r == Ok(0)
    ensures !kind.Collecting? ==> (r.Ok? <==> ev.ReadBytes? && ev.bytes != [])
    ensures !kind.Collecting? && r.Ok? ==> r.value == |ev.bytes| > 0
    ensures !kind.Collecting? && ev == ReadBytes([]) ==> r == Err(IOException(NativeGlue.Closed))
  {
    if kind.Collecting? then Ok(0)
    else NativeGlue.ReadNative(match ev case ReadBytes(bs) => NativeGlue.IoOk(|bs|) case ReadFails(m) => NativeGlue.IoErr(m))
  }

  /** What `write(src)` returns, for a source buffer whose limit is `limit`. */
  function WriteOutcome(kind: ConnKind, limit: nat, ev: EngineWrite): (r: Result<int>)
    ensures kind.Collecting? ==> r == Ok(limit)
    ensures !kind.Collecting? ==> (r.Ok? <==> ev.Wrote?) && (r.Ok? ==> r.value == ev.count)
  {
    if kind.Collecting? then Ok(limit)
    else NativeGlue.WriteNative(match ev case Wrote(n) => NativeGlue.IoOk(n) case WriteFails(m) => NativeGlue.IoErr(m))
  }

  class Connection {
    const kind: ConnKind
    const remoteAddr: string
    /** How many times `read` has been called. */
    var readCalls: nat
    /** The chunks the connection has delivered into buffers, concatenated. */
    var received: seq<Byte>
    /** The bytes each `write` call handed over, one entry per call. */
    var offered: seq<seq<Byte>>

    constructor NativeConnection(remoteAddr: string)
      ensures kind == Native && this.remoteAddr == remoteAddr
      ensures readCalls == 0 && received == [] && offered == []
    {
      kind, this.remoteAddr := Native, remoteAddr;
      readCalls, received, offered := 0, [], [];
    }

    constructor NativeEndpointConnection(remoteAddr: string, proto: string)
      ensures kind == NativeEndpoint(proto) && this.remoteAddr == remoteAddr
      ensures readCalls == 0 && received == [] && offered == []
    {
      kind, this.remoteAddr := NativeEndpoint(proto), remoteAddr;
      readCalls, received, offered := 0, [], [];
    }

    constructor NativeEdgeConnection(remoteAddr: string, edgeType: string, passthroughTls: bool)
      ensures kind == NativeEdge(edgeType, passthroughTls) && this.remoteAddr == remoteAddr
      ensures readCalls == 0 && received == [] && offered == []
    {
      kind, this.remoteAddr := NativeEdge(edgeType, passthroughTls), remoteAddr;
      readCalls, received, offered := 0, [], [];
    }

    /** The test connection: its remote address is "local". */
    constructor CollectingConnection()
      ensures kind == Collecting && remoteAddr == "local"
      ensures readCalls == 0 && received == [] && offered == []
    {
      kind, remoteAddr := Collecting, "local";
      readCalls, received, offered := 0, [], [];
    }

    /**
     * `read(dst)`. A native connection lets the engine fill the direct buffer from
     * index 0 (at most its capacity), then sets position 0 and limit sz and returns
     * sz; an empty chunk is the "closed" IOException. The collecting connection
     * returns 0 and leaves `dst` alone.
     */
    method Read(dst: ByteBuffer, ev: EngineRead) returns (r: Result<int>)
      requires dst.Valid()
      requires ev.ReadBytes? ==> |ev.bytes| <= dst.data.Length
      modifies this, dst, dst.data
      ensures dst.Valid()
      ensures r == ReadOutcome(kind, ev)
      ensures readCalls == old(readCalls) + 1 && offered == old(offered)
      ensures r.Ok? && !kind.Collecting? ==>
        dst.position == 0 && dst.limit == |ev.bytes| && dst.Unread() == ev.bytes &&
        dst.data[|ev.bytes|..] == old(dst.data[|ev.bytes|..]) &&
        received == old(received) + ev.bytes
      ensures !(r.Ok? && !kind.Collecting?) ==>
        dst.position == old(dst.position) && dst.limit == old(dst.limit) &&
        dst.data[..] == old(dst.data[..]) && received == old(received)
    {
      readCalls := readCalls + 1;
      r := ReadOutcome(kind, ev);
      if kind.Collecting? || r.Err? {
        return;
      }
      var bs := ev.bytes;
      forall i | 0 <= i < |bs| {
        dst.data[i] := bs[i];
      }
      var p := dst.SetPosition(0);
      var l := dst.SetLimit(|bs|);
      received := received + bs;
    }

    /**
     * `write(src)`. A native connection hands the engine `src[0..limit)`, ignoring
     * the position, and returns the engine's count; the buffer's cursor is left as
     * it was. The collecting connection takes `src[position..limit)`, moves the
     * position to the limit and returns the limit.
     */
    method Write(src: ByteBuffer, ev: EngineWrite) returns (r: Result<int>)
      requires src.Valid()
      modifies this, src
      ensures src.Valid() && src.limit == old(src.limit)
      ensures r == WriteOutcome(kind, src.limit, ev)
      ensures readCalls == old(readCalls) && received == old(received)
      ensures !kind.Collecting? ==>
        src.position == old(src.position) && offered == old(offered) + [NativeGlue.WriteSlice(src.data[..], src.limit)]
      ensures kind.Collecting? ==>
        src.position == src.limit && offered == old(offered) + [old(src.Unread())]
    {
      if kind.Collecting? {
        offered := offered + [src.Unread()];
        var p := src.SetPosition(src.limit);
        r := Ok(src.limit);
      } else {
        offered := offered + [NativeGlue.WriteSlice(src.data[..], src.limit)];
        r := WriteOutcome(kind, src.limit, ev);
      }
    }
  }
}
