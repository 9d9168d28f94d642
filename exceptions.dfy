/**
 * Java's exceptions, `null` and `java.util.Optional`, as values.
 *
 * Every operation of the model that can throw returns a `Result` (or an
 * `Outcome` when the Java method is `void`), so that the error paths are
 * part of each contract instead of being excluded by a precondition.
 */
module Exceptions {

  /** The exceptions thrown by, or propagated through, the modelled code. */
  datatype Exc =
    | IOException(message: string)        // java.io.IOException, also raised by the native glue
    | BufferOverflow                      // java.nio.BufferOverflowException
    | BufferUnderflow                     // java.nio.BufferUnderflowException
    | IndexOutOfBounds                    // Objects.checkFromIndexSize in bulk put/get
    | IllegalArgument                     // java.lang.IllegalArgumentException (its message is not modelled)
    | NullPointer                         // Objects.requireNonNull, Optional.of(null)
    | NumberFormat(input: string)         // Integer.parseInt on a malformed or too large number
    | ArrayIndexOutOfBounds(index: int)   // indexing a Java array outside its bounds
    | ClassCast                           // a failed reference cast
    | SocketException(message: string)    // java.net.SocketException
    | NoSuchElement                       // Optional.get on an empty Optional
    | RuntimeException(message: string)   // java.lang.RuntimeException

  /** The value a Java method returns, or the exception it throws. */
  datatype Result<+T> = Ok(value: T) | Err(exc: Exc)

  /** A `void` Java method: it returns normally or throws. */
  datatype Outcome = Pass | Fail(exc: Exc)

  /** `java.util.Optional`: `Optional.empty()` or `Optional.of(x)`. */
  datatype Optional<+T> = Empty | Of(get: T)

  /** A Java reference that may be `null`. */
  datatype Nullable<+T> = Null | NonNull(ref: T)

  /** `Objects.requireNonNull(x)`. */
  function RequireNonNull<T>(x: Nullable<T>): (r: Result<T>)
    ensures r.Ok? <==> x.NonNull?
    ensures r.Ok? ==> x == NonNull(r.value)
    ensures r.Err? ==> r.exc == NullPointer
  {
    match x
    case Null => Err(NullPointer)
    case NonNull(v) => Ok(v)
  }

  /** `Optional.ofNullable(x)`: `null` becomes the empty Optional. */
  function OfNullable<T>(x: Nullable<T>): (r: Optional<T>)
    ensures r.Empty? <==> x.Null?
    ensures r.Of? ==> x == NonNull(r.get)
  {
    match x
    case Null => Empty
    case NonNull(v) => Of(v)
  }

  /** `Optional.of(x)`: a null argument throws. */
  function OptionalOf<T>(x: Nullable<T>): (r: Result<Optional<T>>)
    ensures r.Ok? <==> x.NonNull?
    ensures r.Ok? ==> r.value == Of(x.ref)
    ensures r.Err? ==> r.exc == NullPointer
  {
    match x
    case Null => Err(NullPointer)
    case NonNull(v) => Ok(Of(v))
  }
}
