/**
 * The part of `java.nio.ByteBuffer` that the stream adapters rely on: a
 * fixed-capacity array of bytes with a cursor (`position`) and an end of
 * valid data (`limit`), and the operations flip, clear, compact, put, get,
 * position(int) and limit(int) with their documented exceptions.
 */
module Nio {
  import opened Exceptions

  /** An octet, held as its unsigned value. */
  type Byte = b: int | 0 <= b < 256

  /** The narrowing cast `(byte) x`: the octet whose value is congruent to `x` modulo 256. */
  function LowByte(x: int): (b: Byte)
    ensures (x - b) % 256 == 0
    ensures 0 <= x < 256 ==> b == x
  {
    x % 256
  }

  /** The value of a Java (signed) `byte` widened to `int`: two's complement sign extension. */
  function Signed(b: Byte): (v: int)
    ensures -128 <= v < 128
    ensures LowByte(v) == b
    ensures (v < 0) <==> (b >= 128)
  {
    if b < 128 then b else b - 256
  }

  /** Narrowing undoes widening on every value a Java `byte` can hold. */
  lemma SignedOfLowByte(x: int)
    requires -128 <= x < 128
    ensures Signed(LowByte(x)) == x
  {
  }

  /** `Objects.checkFromIndexSize(off, len, length)`: the sub-range [off, off + len) lies inside [0, length). */
  predicate FromIndexSizeOk(off: int, len: int, length: int)
  {
    0 <= off && 0 <= len && off + len <= length
  }

  class ByteBuffer {
    const data: array<Byte>
    var position: nat
    var limit: nat

    /** The invariant of every Java buffer (no mark is modelled). */
    ghost predicate Valid()
      reads this
    {
      position <= limit <= data.Length
    }

    /** The bytes between the cursor and the limit: what the next gets return. */
    function Unread(): (s: seq<Byte>)
      reads this, data
      requires Valid()
      ensures |s| == limit - position
    {
      data[position..limit]
    }

    /** `buffer.remaining()`. */
    function Remaining(): nat
      reads this
      requires Valid()
    {
      limit - position
    }

    /** `buffer.hasRemaining()`. */
    predicate HasRemaining()
      reads this
    {
      position < limit
    }

    /** `ByteBuffer.allocateDirect(capacity)`: zero-filled, in write mode over the whole array. */
    constructor AllocateDirect(capacity: nat)
      ensures Valid() && fresh(data)
      ensures data.Length == capacity && position == 0 && limit == capacity
      ensures data[..] == seq(capacity, _ => 0)
    {
      data := new Byte[capacity](_ => 0);
      position, limit := 0, capacity;
    }

    /** `flip()`: the bytes written so far become the bytes to read. */
    method Flip()
      requires Valid()
      modifies this
      ensures Valid()
      ensures limit == old(position) && position == 0
    {
      limit := position;
      position := 0;
    }

    /** `clear()`: back to write mode over the whole array; the bytes stay where they are. */
    method Clear()
      requires Valid()
      modifies this
      ensures Valid()
      ensures position == 0 && limit == data.Length
    {
      position := 0;
      limit := data.Length;
    }

    /** `compact()`: the unread bytes move to the front and writing resumes after them. */
    method Compact()
      requires Valid()
      modifies this, data
      ensures Valid()
      ensures position == old(limit - position) && limit == data.Length
      ensures data[..] == old(data[position..limit]) + old(data[..])[old(limit - position)..]
    {
      var p, n := position, limit - position;
      ghost var before := data[..];
      var i := 0;
      while i < n
        invariant 0 <= i <= n
        invariant forall j :: 0 <= j < i ==> data[j] == before[p + j]
        invariant forall j :: i <= j < data.Length ==> data[j] == before[j]
      {
        data[i] := data[p + i];
        i := i + 1;
      }
      position, limit := n, data.Length;
      assert data[..] == before[p..p + n] + before[n..];
    }

    /** `put(b)`: one byte at the cursor, or BufferOverflowException when the cursor is at the limit. */
    method Put(b: Byte) returns (r: Outcome)
      requires Valid()
      modifies this, data
      ensures Valid() && limit == old(limit)
      ensures old(position) < old(limit) ==>
        r == Pass && position == old(position) + 1 && data[..] == old(data[..])[old(position) := b]
      ensures old(position) >= old(limit) ==>
        r == Fail(BufferOverflow) && position == old(position) && data[..] == old(data[..])
    {
      if position >= limit {
        return Fail(BufferOverflow);
      }
      data[position] := b;
      position := position + 1;
      r := Pass;
    }

    /**
     * `put(src, off, len)`: the index check first (IndexOutOfBoundsException), then
     * BufferOverflowException when fewer than `len` bytes fit, and only then the copy.
     */
    method PutBytes(src: seq<Byte>, off: int, len: int) returns (r: Outcome)
      requires Valid()
      modifies this, data
      ensures Valid() && limit == old(limit)
      ensures !FromIndexSizeOk(off, len, |src|) ==>
        r == Fail(IndexOutOfBounds) && position == old(position) && data[..] == old(data[..])
      ensures FromIndexSizeOk(off, len, |src|) && len > old(limit - position) ==>
        r == Fail(BufferOverflow) && position == old(position) && data[..] == old(data[..])
      ensures FromIndexSizeOk(off, len, |src|) && len <= old(limit - position) ==>
        r == Pass && position == old(position) + len &&
        data[..] == old(data[..])[..old(position)] + src[off..off + len] + old(data[..])[old(position) + len..]
    {
      if !FromIndexSizeOk(off, len, |src|) {
        return Fail(IndexOutOfBounds);
      }
      if len > limit - position {
        return Fail(BufferOverflow);
      }
      var p := position;
      ghost var before := data[..];
      var i := 0;
      while i < len
        invariant 0 <= i <= len
        invariant position == p && limit == old(limit)
        invariant forall j :: p <= j < p + i ==> data[j] == src[off + j - p]
        invariant forall j :: 0 <= j < data.Length && !(p <= j < p + i) ==> data[j] == before[j]
      {
        data[p + i] := src[off + i];
        i := i + 1;
      }
      position := p + len;
      assert data[..] == before[..p] + src[off..off + len] + before[p + len..];
      r := Pass;
    }

    /** `get()`: the byte at the cursor, or BufferUnderflowException when none remains. */
    method Get() returns (r: Result<Byte>)
      requires Valid()
      modifies this
      ensures Valid() && limit == old(limit)
      ensures old(position) < old(limit) ==> r == Ok(data[old(position)]) && position == old(position) + 1
      ensures old(position) >= old(limit) ==> r == Err(BufferUnderflow) && position == old(position)
    {
      if position >= limit {
        return Err(BufferUnderflow);
      }
      r := Ok(data[position]);
      position := position + 1;
    }

    /**
     * `get(dst, off, len)`: the index check first (IndexOutOfBoundsException), then
     * BufferUnderflowException when fewer than `len` bytes remain, and only then the copy.
     */
    method GetBytes(dst: array<Byte>, off: int, len: int) returns (r: Outcome)
      requires Valid() && dst != data
      modifies this, dst
      ensures Valid() && limit == old(limit)
      ensures !FromIndexSizeOk(off, len, dst.Length) ==>
        r == Fail(IndexOutOfBounds) && position == old(position) && dst[..] == old(dst[..])
      ensures FromIndexSizeOk(off, len, dst.Length) && len > old(limit - position) ==>
        r == Fail(BufferUnderflow) && position == old(position) && dst[..] == old(dst[..])
      ensures FromIndexSizeOk(off, len, dst.Length) && len <= old(limit - position) ==>
        r == Pass && position == old(position) + len &&
        dst[..] == old(dst[..])[..off] + data[old(position)..old(position) + len] + old(dst[..])[off + len..]
    {
      if !FromIndexSizeOk(off, len, dst.Length) {
        return Fail(IndexOutOfBounds);
      }
      if len > limit - position {
        return Fail(BufferUnderflow);
      }
      var p := position;
      ghost var before := dst[..];
      var i := 0;
      while i < len
        invariant 0 <= i <= len
        invariant position == p && limit == old(limit)
        invariant forall j :: off <= j < off + i ==> dst[j] == data[p + j - off]
        invariant forall j :: 0 <= j < dst.Length && !(off <= j < off + i) ==> dst[j] == before[j]
      {
        dst[off + i] := data[p + i];
        i := i + 1;
      }
      position := p + len;
      assert dst[..] == before[..off] + data[p..p + len] + before[off + len..];
      r := Pass;
    }

    /** `position(n)`: IllegalArgumentException unless 0 <= n <= limit. */
    method SetPosition(n: int) returns (r: Outcome)
      requires Valid()
      modifies this
      ensures Valid() && limit == old(limit)
      ensures 0 <= n <= old(limit) ==> r == Pass && position == n
      ensures !(0 <= n <= old(limit)) ==> r == Fail(IllegalArgument) && position == old(position)
    {
      if n < 0 || n > limit {
        return Fail(IllegalArgument);
      }
      position := n;
      r := Pass;
    }

    /** `limit(n)`: IllegalArgumentException unless 0 <= n <= capacity; a cursor past the new limit is pulled back to it. */
    method SetLimit(n: int) returns (r: Outcome)
      requires Valid()
      modifies this
      ensures Valid()
      ensures 0 <= n <= data.Length ==>
        r == Pass && limit == n && position == (if old(position) > n then n else old(position))
      ensures !(0 <= n <= data.Length) ==>
        r == Fail(IllegalArgument) && limit == old(limit) && position == old(position)
    {
      if n < 0 || n > data.Length {
        return Fail(IllegalArgument);
      }
      limit := n;
      if position > n {
        position := n;
      }
      r := Pass;
    }
  }
}
