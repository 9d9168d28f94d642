/**
 * Concrete runs of the stream adapters that pin down how the code behaves
 * where its test or its documentation expect something else.
 */
module StreamScenarios {
  import opened Exceptions
  import opened Nio
  import opened Connections
  import opened Streams
  import NativeGlue

  /**
   * One round of the output-stream chunking test on a fresh 8-byte stream over the
   * collecting connection, `write(data, low, high - low)`. When the slice fits,
   * exactly `data[low..high)` reaches the connection in one write and nothing is
   * left behind. `ChunkingRow` runs the rounds on one reused stream.
   */
  method ChunkRound(data: seq<Byte>, low: int, high: int) returns (delivered: seq<Byte>, retained: seq<Byte>)
    requires 0 <= low <= high <= |data| && high - low <= 8
    ensures delivered == data[low..high]
    ensures retained == []
  {
    var conn := new Connection.CollectingConnection();
    var os := new ConnectionOutputStream(conn, 8);
    var r := os.WriteBytes(data, low, high - low, Wrote(0));
    delivered := conn.offered[0];
    retained := os.Retained();
  }

  /**
   * One row of the chunking test on a single reused 8-byte stream: for `high` from
   * `low` on, `write(data, low, high - low)`, stopping at the first exception. Every
   * slice of up to 8 bytes is delivered whole and leaves the stream empty for the
   * next round; the 9-byte slice is BufferOverflowException. With the test's 32
   * bytes and `low` 0, the test therefore throws at its tenth write.
   */
  method ChunkingRow(data: seq<Byte>, low: nat) returns (r: Outcome, delivered: seq<seq<Byte>>)
    requires low <= |data|
    ensures |delivered| == Min(|data| - low, 9)
    ensures forall k :: 0 <= k < |delivered| ==> delivered[k] == data[low..low + k]
    ensures r == (if |data| - low > 9 then Fail(BufferOverflow) else Pass)
  {
    var conn := new Connection.CollectingConnection();
    var os := new ConnectionOutputStream(conn, 8);
    var high := low;
    r := Pass;
    while high < |data|
      invariant low <= high <= |data| && high - low <= 9 && r == Pass
      invariant os.connection == conn && conn.kind.Collecting?
      invariant fresh(os.buffer) && fresh(os.buffer.data)
      invariant os.Valid() && os.buffer.data.Length == 8 && os.buffer.limit == 8 && os.Retained() == []
      invariant |conn.offered| == high - low
      invariant forall k :: 0 <= k < |conn.offered| ==> conn.offered[k] == data[low..low + k]
    {
      var w := os.WriteBytes(data, low, high - low, Wrote(0));
      if w.Fail? {
        r := w;
        break;
      }
      high := high + 1;
    }
    delivered := conn.offered;
  }

  /** The same round with a slice longer than the buffer: the write overflows and the connection is never called. */
  method OversizedRound(data: seq<Byte>, low: int, high: int) returns (r: Outcome, writes: nat)
    requires 0 <= low <= high <= |data| && high - low > 8
    ensures r == Fail(BufferOverflow)
    ensures writes == 0
  {
    var conn := new Connection.CollectingConnection();
    var os := new ConnectionOutputStream(conn, 8);
    r := os.WriteBytes(data, low, high - low, Wrote(0));
    writes := |conn.offered|;
  }

  /** A zero-length write on an empty stream still calls `connection.write`, with no bytes. */
  method EmptyWrite(data: seq<Byte>) returns (writes: seq<seq<Byte>>)
    ensures writes == [[]]
  {
    var conn := new Connection.CollectingConnection();
    var os := new ConnectionOutputStream(conn, 8);
    var r := os.WriteBytes(data, 0, 0, Wrote(0));
    writes := conn.offered;
  }

  /**
   * Two writes over a native connection whose engine takes every byte: the second
   * write resends the bytes of the first, because a native write leaves the cursor
   * at 0 and `compact` then keeps everything.
   */
  method NativeResend(first: seq<Byte>, second: seq<Byte>) returns (writes: seq<seq<Byte>>)
    requires |first| + |second| <= 1024
    ensures writes == [first, first + second]
  {
    var conn := new Connection.NativeConnection("remote");
    var os := new ConnectionOutputStream(conn, 1024);
    var r1 := os.WriteBytes(first, 0, |first|, Wrote(|first|));
    assert first[0..|first|] == first && os.Retained() == first;
    var r2 := os.WriteBytes(second, 0, |second|, Wrote(|first| + |second|));
    assert second[0..|second|] == second;
    writes := conn.offered;
  }

  /** A native read of zero bytes is the "closed" IOException, not the -1 the documentation promises. */
  method NoEndOfStream(bufferSize: nat) returns (r: Result<int>)
    ensures r == Err(IOException(NativeGlue.Closed))
  {
    var conn := new Connection.NativeEndpointConnection("remote", "https");
    var s := new ConnectionInputStream(conn, bufferSize);
    r := s.ReadByte(ReadBytes([]));
  }

  /** The data byte 0xFF reads as -1, the value documented for the end of the stream. */
  method ByteFFReadsAsMinusOne(bufferSize: nat) returns (r: Result<int>)
    requires bufferSize >= 1
    ensures r == Ok(-1)
  {
    var conn := new Connection.NativeConnection("remote");
    var s := new ConnectionInputStream(conn, bufferSize);
    r := s.ReadByte(ReadBytes([0xFF]));
  }

  /**
   * A refill that fails leaves the buffer cleared, so the next read finds
   * "remaining" bytes (the zeros of the fresh buffer), returns one of them and
   * does not call the connection again.
   */
  method StaleAfterFailedRefill(bufferSize: nat, reason: string, ev: EngineRead) returns (first: Result<int>, second: Result<int>, readCalls: nat)
    requires bufferSize >= 1
    requires ev.ReadBytes? ==> |ev.bytes| <= bufferSize
    ensures first == Err(IOException(reason))
    ensures second == Ok(0)
    ensures readCalls == 1
  {
    var conn := new Connection.NativeConnection("remote");
    var s := new ConnectionInputStream(conn, bufferSize);
    first := s.ReadByte(ReadFails(reason));
    assert s.buffer.Unread()[0] == 0;
    second := s.ReadByte(ev);
    readCalls := conn.readCalls;
  }

  /** `read(b, off, len)` hands back at most `len` bytes of one chunk and keeps the rest for the next call. */
  method PartialRead(chunk: seq<Byte>, len: nat) returns (n: Result<int>, got: seq<Byte>, left: seq<Byte>)
    requires 0 < |chunk| <= 1024 && len <= |chunk|
    ensures n == Ok(len)
    ensures got == chunk[..len] && left == chunk[len..]
  {
    var conn := new Connection.NativeConnection("remote");
    var s := new ConnectionInputStream(conn, 1024);
    var b := new Byte[len];
    n := s.ReadInto(b, 0, len, ReadBytes(chunk));
    got := b[..];
    left := s.buffer.Unread();
  }
}
