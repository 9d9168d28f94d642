/**
 * The byte-stream adapters over a connection: `ConnectionInputStream` keeps a
 * direct buffer in read mode and refills it with one `connection.read` when it
 * runs dry; `ConnectionOutputStream` keeps a direct buffer in write mode and
 * hands it to `connection.write` after every write call.
 */
module Streams {
  import opened Exceptions
  import opened Nio
  import opened Connections

  function Min(a: int, b: int): int
  {
    if a <= b then a else b
  }

  /**
   * What a drained input buffer holds unread once `prepare` has cleared it and
   * asked the connection for more: the chunk a native connection delivered, or,
   * when the connection left the buffer alone, every byte of the cleared buffer.
   */
  ghost function Refill(kind: ConnKind, ev: EngineRead, cleared: seq<Byte>): Result<seq<Byte>>
  {
    match ReadOutcome(kind, ev)
    case Err(e) => Err(e)
    case Ok(_) => Ok(if ev.ReadBytes? && !kind.Collecting? then ev.bytes else cleared)
  }

  /** A refill the connection itself filled: a native read that delivered a chunk. */
  predicate NativeRefill(kind: ConnKind, ev: EngineRead)
  {
    !kind.Collecting? && ReadOutcome(kind, ev).Ok?
  }

  /** The bytes a refill hands to the connection's record of what it received. */
  function Delivered(kind: ConnKind, ev: EngineRead): (d: seq<Byte>)
    ensures NativeRefill(kind, ev) ==> ev.ReadBytes? && d == ev.bytes != []
    ensures !NativeRefill(kind, ev) ==> d == []
  {
    if NativeRefill(kind, ev) then ev.bytes else []
  }

  class ConnectionInputStream {
    const connection: Connection
    const buffer: ByteBuffer
    /** Every byte handed to callers so far. */
    ghost var returned: seq<Byte>
    /** Every chunk this stream's refills obtained, concatenated. */
    ghost var fetched: seq<Byte>
    /** Set once a refill left bytes in the buffer that the connection did not deliver. */
    ghost var stale: bool

    /** While no refill has gone wrong, no byte is lost or duplicated. */
    ghost predicate Valid()
      reads this, buffer, buffer.data
    {
      buffer.Valid() && (!stale ==> returned + buffer.Unread() == fetched)
    }

    /** The engine never delivers more than the direct buffer holds. */
    predicate Fits(ev: EngineRead)
    {
      ev.ReadBytes? ==> |ev.bytes| <= buffer.data.Length
    }

    /** The bytes the next read call works on: the unread ones, or those a refill provides. */
    ghost function Available(ev: EngineRead): Result<seq<Byte>>
      reads this, buffer, buffer.data
      requires Valid()
    {
      if buffer.HasRemaining() then Ok(buffer.Unread()) else Refill(connection.kind, ev, buffer.data[..])
    }

    /** The buffer starts flipped: empty, so the first read refills. */
    constructor(connection: Connection, bufferSize: nat)
      ensures this.connection == connection && fresh(buffer) && fresh(buffer.data)
      ensures Valid() && buffer.data.Length == bufferSize
      ensures buffer.position == 0 && buffer.limit == 0 && !buffer.HasRemaining()
      ensures buffer.data[..] == seq(bufferSize, _ => 0)
      ensures returned == [] && fetched == [] && !stale
    {
      this.connection := connection;
      buffer := new ByteBuffer.AllocateDirect(bufferSize);
      returned, fetched, stale := [], [], false;
      new;
      buffer.Flip();
    }

    /** `prepare()`: nothing while bytes remain; otherwise clear and one `connection.read`. */
    method Prepare(ev: EngineRead) returns (r: Outcome)
      requires Valid() && Fits(ev)
      modifies this, buffer, buffer.data, connection
      ensures Valid() && returned == old(returned)
      ensures old(buffer.HasRemaining()) ==> r == Pass && unchanged(buffer, buffer.data, connection)
      ensures old(buffer.HasRemaining()) ==> fetched == old(fetched) && stale == old(stale)
      ensures !old(buffer.HasRemaining()) ==>
        connection.readCalls == old(connection.readCalls) + 1 &&
        connection.received == old(connection.received) + Delivered(connection.kind, ev) &&
        fetched == old(fetched) + Delivered(connection.kind, ev) &&
        stale == (old(stale) || !NativeRefill(connection.kind, ev))
      ensures connection.offered == old(connection.offered)
      ensures match old(Available(ev))
        case Err(e) =>
          r == Fail(e) && buffer.position == 0 && buffer.limit == buffer.data.Length &&
          buffer.data[..] == old(buffer.data[..])
        case Ok(a) => r == Pass && buffer.Unread() == a
    {
      if buffer.HasRemaining() {
        return Pass;
      }
      buffer.Clear();
      var n := connection.Read(buffer, ev);
      if n.Ok? && !connection.kind.Collecting? {
        fetched := fetched + ev.bytes;
        r := Pass;
      } else {
        stale := true;
        r := if n.Err? then Fail(n.exc) else Pass;
      }
    }

    /**
     * `read()`: the next byte, sign-extended as Java widens a `byte`. There is no
     * end-of-stream case: a native read of 0 bytes is the IOException "closed" from
     * the connection, and `get` throws BufferUnderflowException only when nothing is
     * at hand after the refill, which takes a zero-capacity buffer.
     */
    method ReadByte(ev: EngineRead) returns (r: Result<int>)
      requires Valid() && Fits(ev)
      modifies this, buffer, buffer.data, connection
      ensures Valid()
      ensures connection.readCalls == old(connection.readCalls) + (if old(buffer.HasRemaining()) then 0 else 1)
      ensures connection.received ==
        old(connection.received) + (if old(buffer.HasRemaining()) then [] else Delivered(connection.kind, ev))
      ensures old(buffer.HasRemaining()) ==> fetched == old(fetched) && stale == old(stale)
      ensures !old(buffer.HasRemaining()) ==>
        fetched == old(fetched) + Delivered(connection.kind, ev) &&
        stale == (old(stale) || !NativeRefill(connection.kind, ev))
      ensures connection.offered == old(connection.offered)
      ensures match old(Available(ev))
        case Err(e) =>
          r == Err(e) && buffer.position == 0 && buffer.limit == buffer.data.Length &&
          buffer.data[..] == old(buffer.data[..]) && returned == old(returned)
        case Ok(a) =>
          if a == [] then r == Err(BufferUnderflow) && buffer.Unread() == [] && returned == old(returned)
          else r == Ok(Signed(a[0])) && buffer.Unread() == a[1..] && returned == old(returned) + [a[0]]
    {
      var p := Prepare(ev);
      if p.Fail? {
        return Err(p.exc);
      }
      ghost var a := buffer.Unread();
      var g := buffer.Get();
      if g.Err? {
        return Err(g.exc);
      }
      assert g.value == a[0] && buffer.Unread() == a[1..];
      returned := returned + [g.value];
      assert returned + buffer.Unread() == old(returned) + a;
      r := Ok(Signed(g.value));
    }

    /**
     * `read(b, off, len)`: at most `len` of the bytes at hand, never more than one
     * refill, no loop to fill `len`; a range outside `b` is IndexOutOfBoundsException
     * after the refill.
     */
    method ReadInto(b: array<Byte>, off: int, len: int, ev: EngineRead) returns (r: Result<int>)
      requires Valid() && Fits(ev) && b != buffer.data
      modifies this, buffer, buffer.data, connection, b
      ensures Valid()
      ensures connection.readCalls == old(connection.readCalls) + (if old(buffer.HasRemaining()) then 0 else 1)
      ensures connection.received ==
        old(connection.received) + (if old(buffer.HasRemaining()) then [] else Delivered(connection.kind, ev))
      ensures old(buffer.HasRemaining()) ==> fetched == old(fetched) && stale == old(stale)
      ensures !old(buffer.HasRemaining()) ==>
        fetched == old(fetched) + Delivered(connection.kind, ev) &&
        stale == (old(stale) || !NativeRefill(connection.kind, ev))
      ensures connection.offered == old(connection.offered)
      ensures r.Ok? ==> 0 <= r.value <= len && r.value <= buffer.data.Length
      ensures match old(Available(ev))
        case Err(e) =>
          r == Err(e) && b[..] == old(b[..]) && buffer.position == 0 && buffer.limit == buffer.data.Length &&
          buffer.data[..] == old(buffer.data[..]) && returned == old(returned)
        case Ok(a) =>
          var n := Min(len, |a|);
          if FromIndexSizeOk(off, n, b.Length) then
            r == Ok(n) && b[..] == old(b[..])[..off] + a[..n] + old(b[..])[off + n..] &&
            buffer.Unread() == a[n..] && returned == old(returned) + a[..n]
          else
            r == Err(IndexOutOfBounds) && b[..] == old(b[..]) && buffer.Unread() == a && returned == old(returned)
    {
      var p := Prepare(ev);
      if p.Fail? {
        return Err(p.exc);
      }
      r := Take(b, off, len);
    }

    /** The copy half of `read(b, off, len)`: at most `len` of the unread bytes go to `b` at `off`. */
    method Take(b: array<Byte>, off: int, len: int) returns (r: Result<int>)
      requires Valid() && b != buffer.data
      modifies this, buffer, b
      ensures Valid() && buffer.data[..] == old(buffer.data[..])
      ensures fetched == old(fetched) && stale == old(stale)
      ensures r.Ok? ==> 0 <= r.value <= len && r.value <= buffer.data.Length
      ensures var a := old(buffer.Unread());
        var n := Min(len, |a|);
        if FromIndexSizeOk(off, n, b.Length) then
          r == Ok(n) && b[..] == old(b[..])[..off] + a[..n] + old(b[..])[off + n..] &&
          buffer.Unread() == a[n..] && returned == old(returned) + a[..n]
        else
          r == Err(IndexOutOfBounds) && b[..] == old(b[..]) && buffer.Unread() == a && returned == old(returned)
    {
      ghost var a := buffer.Unread();
      ghost var start := buffer.position;
      var n := Min(len, buffer.Remaining());
      assert 0 <= n ==> buffer.data[start..start + n] == a[..n];
      var g := buffer.GetBytes(b, off, n);
      if g.Fail? {
        return Err(g.exc);
      }
      assert buffer.Unread() == a[n..];
      returned := returned + a[..n];
      assert returned + buffer.Unread() == old(returned) + a;
      r := Ok(n);
    }
  }

  /** How many of the `n` flushed bytes a connection's write moves the cursor past. */
  function Consumed(kind: ConnKind, n: nat): (c: nat)
    ensures c <= n
    ensures kind.Collecting? ==> c == n
    ensures !kind.Collecting? ==> c == 0
  {
    if kind.Collecting? then n else 0
  }

  class ConnectionOutputStream {
    const connection: Connection
    const buffer: ByteBuffer

    ghost predicate Valid()
      reads this, buffer
    {
      buffer.Valid()
    }

    /** The bytes waiting in the buffer, in write mode: everything before the cursor. */
    function Retained(): seq<Byte>
      reads this, buffer, buffer.data
      requires Valid()
    {
      buffer.data[..buffer.position]
    }

    /**
     * The state `flush` leaves after writing `pending`: on a failed write the buffer
     * stays flipped over `pending`; otherwise `compact` keeps exactly the bytes the
     * connection did not consume, at the front, and reopens the whole buffer.
     */
    ghost predicate Flushed(pending: seq<Byte>, ev: EngineWrite, r: Outcome)
      reads this, buffer, buffer.data
      requires Valid()
    {
      match WriteOutcome(connection.kind, |pending|, ev)
      case Err(e) =>
        r == Fail(e) && buffer.position == 0 && buffer.limit == |pending| && buffer.data[..|pending|] == pending
      case Ok(_) =>
        r == Pass && buffer.limit == buffer.data.Length &&
        Retained() == pending[Consumed(connection.kind, |pending|)..]
    }

    /** A fresh direct buffer of `bufferSize` bytes, empty and in write mode. */
    constructor(connection: Connection, bufferSize: nat)
      ensures this.connection == connection && fresh(buffer) && fresh(buffer.data)
      ensures Valid() && buffer.data.Length == bufferSize
      ensures buffer.limit == bufferSize && Retained() == []
    {
      this.connection := connection;
      buffer := new ByteBuffer.AllocateDirect(bufferSize);
    }

    /** `flush()`: flip, one `connection.write`, compact. */
    method Flush(ev: EngineWrite) returns (r: Outcome)
      requires Valid()
      modifies buffer, buffer.data, connection
      ensures Valid()
      ensures connection.offered == old(connection.offered) + [old(Retained())]
      ensures connection.readCalls == old(connection.readCalls) && connection.received == old(connection.received)
      ensures Flushed(old(Retained()), ev, r)
    {
      ghost var pending := Retained();
      buffer.Flip();
      var w := connection.Write(buffer, ev);
      if w.Err? {
        return Fail(w.exc);
      }
      buffer.Compact();
      r := Pass;
    }

    /** `write(b)`: the low eight bits of `b` are buffered, then flushed. */
    method WriteByte(x: int, ev: EngineWrite) returns (r: Outcome)
      requires Valid()
      modifies buffer, buffer.data, connection
      ensures Valid()
      ensures connection.readCalls == old(connection.readCalls) && connection.received == old(connection.received)
      ensures old(buffer.position) >= old(buffer.limit) ==>
        r == Fail(BufferOverflow) && connection.offered == old(connection.offered) &&
        buffer.position == old(buffer.position) && buffer.limit == old(buffer.limit) && buffer.data[..] == old(buffer.data[..])
      ensures old(buffer.position) < old(buffer.limit) ==>
        connection.offered == old(connection.offered) + [old(Retained()) + [LowByte(x)]] &&
        Flushed(old(Retained()) + [LowByte(x)], ev, r)
    {
      var p := buffer.Put(LowByte(x));
      if p.Fail? {
        return p;
      }
      assert Retained() == old(Retained()) + [LowByte(x)];
      r := Flush(ev);
    }

    /**
     * `write(b, off, len)`: the slice is buffered in one `put`, then flushed. There is
     * no chunking: a slice longer than the free space is BufferOverflowException and
     * nothing reaches the connection.
     */
    method WriteBytes(b: seq<Byte>, off: int, len: int, ev: EngineWrite) returns (r: Outcome)
      requires Valid()
      modifies buffer, buffer.data, connection
      ensures Valid()
      ensures connection.readCalls == old(connection.readCalls) && connection.received == old(connection.received)
      ensures !FromIndexSizeOk(off, len, |b|) || len > old(buffer.limit - buffer.position) ==>
        r == Fail(if !FromIndexSizeOk(off, len, |b|) then IndexOutOfBounds else BufferOverflow) &&
        connection.offered == old(connection.offered) &&
        buffer.position == old(buffer.position) && buffer.limit == old(buffer.limit) && buffer.data[..] == old(buffer.data[..])
      ensures FromIndexSizeOk(off, len, |b|) && len <= old(buffer.limit - buffer.position) ==>
        connection.offered == old(connection.offered) + [old(Retained()) + b[off..off + len]] &&
        Flushed(old(Retained()) + b[off..off + len], ev, r)
    {
      var p := buffer.PutBytes(b, off, len);
      if p.Fail? {
        return p;
      }
      assert Retained() == old(Retained()) + b[off..off + len];
      r := Flush(ev);
    }
  }
}
