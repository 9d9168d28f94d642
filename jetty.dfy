/**
 * The Jetty end point over a connection: `fill` is one connection read, and
 * `flush` writes the given buffers in order, one connection write each, and
 * gives up at the first write that reports fewer bytes than the buffer's limit.
 */
module Jetty {
  import opened Exceptions
  import opened Nio
  import opened Connections
  import NativeGlue

  /** The result of a whole `flush` and how many connection writes it made. */
  datatype FlushRun = FlushRun(result: Result<bool>, writes: nat)

  /** A buffer counts as flushed when its write succeeds with at least `limit` bytes. */
  predicate Complete(limit: nat, w: Result<int>)
  {
    w.Ok? && w.value >= limit
  }

  /**
   * The reference run of `flush` from the `i`-th buffer on, over buffers with the
   * given limits, the engine answering the write of the j-th buffer with `evs[j]`.
   */
  function RunFrom(kind: ConnKind, limits: seq<nat>, evs: seq<EngineWrite>, i: nat): (f: FlushRun)
    requires |limits| == |evs| && i <= |limits|
    ensures f.writes <= |limits| - i
    decreases |limits| - i
  {
    if i == |limits| then FlushRun(Ok(true), 0)
    else
      match WriteOutcome(kind, limits[i], evs[i])
      case Err(e) => FlushRun(Err(e), 1)
      case Ok(sz) =>
        if sz < limits[i] then FlushRun(Ok(false), 1)
        else
          var rest := RunFrom(kind, limits, evs, i + 1);
          FlushRun(rest.result, rest.writes + 1)
  }

  /** The run of a whole `flush`. */
  function Run(kind: ConnKind, limits: seq<nat>, evs: seq<EngineWrite>): (f: FlushRun)
    requires |limits| == |evs|
    ensures f.writes <= |limits|
  {
    RunFrom(kind, limits, evs, 0)
  }

  /** The run from `i` answers true exactly when every write from `i` on is complete, and then makes them all. */
  lemma {:induction false} RunFromTrueIff(kind: ConnKind, limits: seq<nat>, evs: seq<EngineWrite>, i: nat)
    requires |limits| == |evs| && i <= |limits|
    ensures RunFrom(kind, limits, evs, i).result == Ok(true) <==>
      forall j :: i <= j < |limits| ==> Complete(limits[j], WriteOutcome(kind, limits[j], evs[j]))
    ensures RunFrom(kind, limits, evs, i).result == Ok(true) ==> RunFrom(kind, limits, evs, i).writes == |limits| - i
    decreases |limits| - i
  {
    if i < |limits| {
      RunFromTrueIff(kind, limits, evs, i + 1);
    }
  }

  /**
   * `flush` answers true exactly when every buffer's write is complete, and then it
   * has written them all; with no buffers it answers true without writing.
   */
  lemma RunTrueIff(kind: ConnKind, limits: seq<nat>, evs: seq<EngineWrite>)
    requires |limits| == |evs|
    ensures Run(kind, limits, evs).result == Ok(true) <==>
      forall i :: 0 <= i < |limits| ==> Complete(limits[i], WriteOutcome(kind, limits[i], evs[i]))
    ensures Run(kind, limits, evs).result == Ok(true) ==> Run(kind, limits, evs).writes == |limits|
  {
    RunFromTrueIff(kind, limits, evs, 0);
  }

  /**
   * The first incomplete write ends the run: after the complete writes of
   * buffers `i` to `k - 1`, the `k`-th write is the last one made, and its failure
   * or its short count decides the result.
   */
  lemma {:induction false} RunFromStopsAtFirstShort(kind: ConnKind, limits: seq<nat>, evs: seq<EngineWrite>, i: nat, k: nat)
    requires |limits| == |evs| && i <= k < |limits|
    requires forall j :: i <= j < k ==> Complete(limits[j], WriteOutcome(kind, limits[j], evs[j]))
    requires !Complete(limits[k], WriteOutcome(kind, limits[k], evs[k]))
    ensures RunFrom(kind, limits, evs, i).writes == k - i + 1
    ensures RunFrom(kind, limits, evs, i).result ==
      if WriteOutcome(kind, limits[k], evs[k]).Err? then Err(WriteOutcome(kind, limits[k], evs[k]).exc) else Ok(false)
    decreases k - i
  {
    if i < k {
      RunFromStopsAtFirstShort(kind, limits, evs, i + 1, k);
    }
  }

  /** The first incomplete write ends `flush`: it is the last write made, and later buffers are not written. */
  lemma RunStopsAtFirstShort(kind: ConnKind, limits: seq<nat>, evs: seq<EngineWrite>, k: nat)
    requires |limits| == |evs| && k < |limits|
    requires forall i :: 0 <= i < k ==> Complete(limits[i], WriteOutcome(kind, limits[i], evs[i]))
    requires !Complete(limits[k], WriteOutcome(kind, limits[k], evs[k]))
    ensures Run(kind, limits, evs).writes == k + 1
    ensures Run(kind, limits, evs).result ==
      if WriteOutcome(kind, limits[k], evs[k]).Err? then Err(WriteOutcome(kind, limits[k], evs[k]).exc) else Ok(false)
  {
    RunFromStopsAtFirstShort(kind, limits, evs, 0, k);
  }

  /**
   * The count is compared with the buffer's limit, not with its remaining bytes:
   * a native connection that takes every remaining byte of a first buffer whose
   * position is past 0 still makes `flush` answer false after that one write.
   */
  lemma ComparedWithLimit(kind: ConnKind, limits: seq<nat>, evs: seq<EngineWrite>, position: nat)
    requires |limits| == |evs| && 0 < |limits|
    requires !kind.Collecting? && 0 < position <= limits[0]
    requires evs[0] == Wrote(limits[0] - position)
    ensures Run(kind, limits, evs) == FlushRun(Ok(false), 1)
  {
  }

  /** A run that follows `k` complete writes. */
  function After(k: nat, f: FlushRun): (g: FlushRun)
    ensures g.result == f.result && g.writes == f.writes + k
  {
    FlushRun(f.result, f.writes + k)
  }

  /** The limits of a list of buffers. */
  function Limits(bs: seq<ByteBuffer>): (ls: seq<nat>)
    reads bs
    ensures |ls| == |bs| && forall i :: 0 <= i < |bs| ==> ls[i] == bs[i].limit
  {
    if bs == [] then [] else [bs[0].limit] + Limits(bs[1..])
  }

  /** The positions of a list of buffers. */
  function Positions(bs: seq<ByteBuffer>): (ps: seq<nat>)
    reads bs
    ensures |ps| == |bs| && forall i :: 0 <= i < |bs| ==> ps[i] == bs[i].position
  {
    if bs == [] then [] else [bs[0].position] + Positions(bs[1..])
  }

  /**
   * Every buffer is still well-formed with its original limit and, when `samePositions`
   * holds, its original position.
   */
  ghost predicate Intact(bs: seq<ByteBuffer>, limits: seq<nat>, positions: seq<nat>, samePositions: bool)
    reads bs
  {
    |limits| == |positions| == |bs| &&
    forall j :: 0 <= j < |bs| ==>
      bs[j].position <= bs[j].limit <= bs[j].data.Length && bs[j].limit == limits[j] &&
      (samePositions ==> bs[j].position == positions[j])
  }

  /**
   * Since `before`, the connection has been offered exactly `n` more writes, and
   * it has not been read from: its read count and received bytes are still
   * `readCalls` and `received`.
   */
  ghost predicate Extended(c: Connection, before: seq<seq<Byte>>, readCalls: nat, received: seq<Byte>, n: nat)
    reads c
  {
    |c.offered| == |before| + n && before <= c.offered &&
    c.readCalls == readCalls && c.received == received
  }

  class NgrokEndpoint {
    const conn: Connection

    constructor(conn: Connection)
      ensures this.conn == conn
    {
      this.conn := conn;
    }

    /** `fill(buffer)`: exactly one `conn.read(buffer)`, whose answer is returned unchanged. */
    method Fill(buffer: ByteBuffer, ev: EngineRead) returns (r: Result<int>)
      requires buffer.Valid()
      requires ev.ReadBytes? ==> |ev.bytes| <= buffer.data.Length
      modifies conn, buffer, buffer.data
      ensures buffer.Valid()
      ensures r == ReadOutcome(conn.kind, ev)
      ensures conn.readCalls == old(conn.readCalls) + 1 && conn.offered == old(conn.offered)
      ensures r.Ok? && !conn.kind.Collecting? ==>
        buffer.position == 0 && buffer.limit == |ev.bytes| && buffer.Unread() == ev.bytes &&
        buffer.data[|ev.bytes|..] == old(buffer.data[|ev.bytes|..]) &&
        conn.received == old(conn.received) + ev.bytes
      ensures !(r.Ok? && !conn.kind.Collecting?) ==>
        buffer.position == old(buffer.position) && buffer.limit == old(buffer.limit) &&
        buffer.data[..] == old(buffer.data[..]) && conn.received == old(conn.received)
    {
      r := conn.Read(buffer, ev);
    }

    /** One step of `flush`: the write of `buffers[i]`. */
    method WriteAt(buffers: seq<ByteBuffer>, i: nat, ev: EngineWrite, ghost limits: seq<nat>, ghost positions: seq<nat>)
      returns (sz: Result<int>)
      requires i < |buffers| && Intact(buffers, limits, positions, !conn.kind.Collecting?)
      modifies conn, buffers[i]
      ensures Intact(buffers, limits, positions, !conn.kind.Collecting?)
      ensures sz == WriteOutcome(conn.kind, limits[i], ev)
      ensures Extended(conn, old(conn.offered), old(conn.readCalls), old(conn.received), 1)
      ensures !conn.kind.Collecting? ==> conn.offered == old(conn.offered) + [buffers[i].data[..limits[i]]]
    {
      sz := conn.Write(buffers[i], ev);
    }

    /**
     * `flush(buffers...)`: one `conn.write` per buffer in argument order, stopping
     * at the first write that fails or reports fewer bytes than that buffer's limit
     * (its limit, not its remaining count). The `i`-th write made is answered by `evs[i]`.
     * The bytes each write hands to a native connection are stated by `WriteAt`.
     */
    method Flush(buffers: seq<ByteBuffer>, evs: seq<EngineWrite>) returns (r: Result<bool>)
      requires |evs| == |buffers|
      requires forall i :: 0 <= i < |buffers| ==> buffers[i].Valid()
      modifies conn, buffers
      ensures r == Run(conn.kind, old(Limits(buffers)), evs).result
      ensures Intact(buffers, old(Limits(buffers)), old(Positions(buffers)), !conn.kind.Collecting?)
      ensures Extended(conn, old(conn.offered), old(conn.readCalls), old(conn.received),
                       Run(conn.kind, old(Limits(buffers)), evs).writes)
    {
      ghost var limits := Limits(buffers);
      ghost var positions := Positions(buffers);
      ghost var before := conn.offered;
      var i := 0;
      r := Ok(true);
      while i < |buffers|
        invariant 0 <= i <= |buffers|
        invariant Intact(buffers, limits, positions, !conn.kind.Collecting?)
        invariant Run(conn.kind, limits, evs) == After(i, RunFrom(conn.kind, limits, evs, i))
        invariant Extended(conn, before, old(conn.readCalls), old(conn.received), i)
      {
        var sz := WriteAt(buffers, i, evs[i], limits, positions);
        assert Extended(conn, before, old(conn.readCalls), old(conn.received), i + 1);
        if sz.Err? {
          r := Err(sz.exc);
          break;
        }
        if sz.value < buffers[i].limit {
          r := Ok(false);
          break;
        }
        i := i + 1;
      }
    }
  }
}
