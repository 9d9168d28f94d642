# ngrok-java: the byte-stream adapter and its surroundings, in Dafny

This project models the Java side of the ngrok agent SDK for Java and proves properties of the model. The model covers:

- **Buffers.** A connection delivers and accepts data one chunk at a time through a `java.nio.ByteBuffer`. The module `Nio` models that buffer: an array with a `position` and a `limit`. It has the operations the SDK uses: `flip`, `clear`, `compact`, single and bulk `put`/`get` with their overflow, underflow and index errors, `position(n)` and `limit(n)`.
- **Connections.** `Connections` models the three native connection classes and the collecting connection of the output-stream test. They share one cursor contract:
  - a native `read` leaves the chunk at `[0, sz)` with position 0 and limit `sz`;
  - a native `write` hands over `src[0..limit)` and leaves the cursor alone;
  - the collecting connection takes `src[position..limit)` and moves the position to the limit.
- **Streams.** `Streams` models `ConnectionInputStream` and `ConnectionOutputStream`. Both are classes whose methods update the buffer in place. Ghost fields record what the input stream has fetched and returned, and whether a refill left stale bytes. The connection's own fields record every read call, the bytes it received and what every `write` call offered.
- **Addresses.** `Addresses` models `Connection.inetAddress()`: Java's `String.split(":")`, `Integer.parseInt` and the port-range check of `InetSocketAddress`.
- **Sockets.** `Sockets` models the `java.net` front end: the server sockets' closed-check and `accept`, the socket implementations' `accept`, and `ConnectionSocketImpl`.
- **Jetty.** `Jetty` models the Jetty end point's `fill` and its `flush` loop.
- **Native glue.** `NativeGlue` models the pure decision rules of the Rust JNI glue (`lib.rs`):
  - the layout of exception messages;
  - a zero-byte read becoming "closed";
  - a write being sliced to `limit`;
  - the TLS certificate/key pairing;
  - the names of edge types;
  - the default session metadata;
  - the end of the connection stream in `accept`.
- **Builders.**
  - `Builders` models the listener builders (metadata, endpoint, HTTP, TLS, TCP and edge), by composition instead of Java's subclass chain.
  - `Http` models the HTTP option types.
  - `Tunnels` models the older tunnel builders.
  - `ProxyProtos` models the PROXY-protocol enum.
- **Small rules.** `Runtime` models the native-library name rule and the log-level dispatch. `NgrokErrors` models the two exception types that format their own text.

## How the model is built

- **Java exceptions.** Every operation that can throw returns `Result`, or `Outcome` when the Java method is `void`. The error paths are therefore part of the contracts, and no precondition excludes the null argument or the malformed input the code handles. A few parameter types do exclude inputs on which Java throws: a negative buffer size, a null byte array and a null log level. The repository passes only non-negative literals: 1024 in `ConnectionSocketImpl.java:33,44` and 8 in the output-stream test, and the native side always sends a level. "## Left out" lists these cases.
- **Null and `Optional`.** Java's `null` is `Nullable`, and `java.util.Optional` is `Optional`.
- **Outside answers.** The engine behind the native methods, the listeners and the session are not modelled. What they answer is a parameter:
  - an `EngineRead` or `EngineWrite` for one native read or write;
  - an `EngineNext` for one `accept`;
  - a listener handle for a session request.
- **Engine read size.** A native read is assumed never to deliver more bytes than the direct buffer holds. This is stated as a precondition on the engine's answer.
- **Setters and `State()`.** Each builder's setters state the builder's whole new state through a ghost `State()` snapshot. For example, `State() == old(State()).(allowCidr := old(allowCidr) + [x])` says that exactly one field changed.

### Where the code and its tests or documentation disagree

The model follows the code. Each of these disagreements is stated as the code behaves:

- **IPv6 addresses.** `inetAddress` splits on every colon, so "[2a00:23c8:…:395e]:64440" takes "23c8" as its port and throws `NumberFormatException` (`Addresses.Ipv6TestCaseAsWritten`). The connection test expects the unbracketed host and port 64440. That expectation is the rule "split at the last colon and strip the brackets" (`Addresses.LastColonAddress`). The test's case is proved under that rule (`Addresses.Ipv6TestCaseLastColon`). Both rules are proved to agree on single-colon addresses whose host is not bracketed (`Addresses.SingleColonAgreement`).
- **Output chunking.** The output-stream test writes slices of up to 31 bytes through an 8-byte stream. `write(b, off, len)` does no chunking, so such a slice is `BufferOverflowException` and nothing is written (`StreamScenarios.OversizedRound`). The test's expectation holds for slices that fit (`StreamScenarios.ChunkRound`). On the test's one reused stream, the first row stops at its tenth write, the 9-byte slice (`StreamScenarios.ChunkingRow`).
- **End of stream.** `read()` is documented to return -1 at the end of the stream. The code has no such case: a native read of zero bytes is the IOException "closed" (`StreamScenarios.NoEndOfStream`). A data byte 0xFF reads as -1 (`StreamScenarios.ByteFFReadsAsMinusOne`).
- **Native resend.** A native `write` never advances the buffer's position, so `compact` keeps every byte. The next write sends those bytes again (`StreamScenarios.NativeResend`).
- **Stale buffer.** A refill whose read throws leaves the input buffer cleared. The next read then returns stale bytes without calling the connection (`StreamScenarios.StaleAfterFailedRefill`).

## Model

| member | source | states |
|---|---|---|
| Exceptions.RequireNonNull | ngrok-java/src/main/java/com/ngrok/EndpointBuilder.java:58 | `Objects.requireNonNull` succeeds exactly on a non-null argument and returns it; null is NullPointerException |
| Exceptions.OfNullable | ngrok-java/src/main/java/com/ngrok/EndpointBuilder.java:69 | `Optional.ofNullable` is empty exactly for null and otherwise holds the argument |
| Exceptions.OptionalOf | ngrok-java/src/main/java/com/ngrok/MetadataBuilder.java:22 | `Optional.of` holds a non-null argument and throws NullPointerException on null |
| Nio.LowByte | ngrok-java/src/main/java/com/ngrok/net/ConnectionOutputStream.java:36 | `(byte) b` keeps the value modulo 256, and keeps 0..255 unchanged |
| Nio.Signed | ngrok-java/src/main/java/com/ngrok/net/ConnectionInputStream.java:56 | a byte widened to `int` lies in -128..127, narrows back to the same byte, and is negative exactly when its top bit is set |
| Nio.SignedOfLowByte | ngrok-java/src/main/java/com/ngrok/net/ConnectionInputStream.java:56 | widening undoes narrowing on every value a Java `byte` holds |
| Nio.ByteBuffer.AllocateDirect | ngrok-java/src/main/java/com/ngrok/net/ConnectionOutputStream.java:25 | a fresh zero-filled buffer of the given capacity, position 0 and limit at capacity |
| Nio.ByteBuffer.Flip | ngrok-java/src/main/java/com/ngrok/net/ConnectionOutputStream.java:62 | the limit becomes the old position and the position 0 |
| Nio.ByteBuffer.Clear | ngrok-java/src/main/java/com/ngrok/net/ConnectionInputStream.java:43 | position 0 and limit at capacity; the bytes stay |
| Nio.ByteBuffer.Compact | ngrok-java/src/main/java/com/ngrok/net/ConnectionOutputStream.java:64 | the unread bytes move to index 0 and the rest of the array is untouched; position is their count and limit the capacity |
| Nio.ByteBuffer.Put | ngrok-java/src/main/java/com/ngrok/net/ConnectionOutputStream.java:36 | stores one byte at the cursor and advances it, or BufferOverflowException with nothing changed when the cursor is at the limit |
| Nio.ByteBuffer.PutBytes | ngrok-java/src/main/java/com/ngrok/net/ConnectionOutputStream.java:50 | index check, then overflow check, then the copy of `src[off..off+len)` at the cursor; on either error nothing changes |
| Nio.ByteBuffer.Get | ngrok-java/src/main/java/com/ngrok/net/ConnectionInputStream.java:56 | the byte at the cursor and the cursor advanced, or BufferUnderflowException with the cursor unchanged |
| Nio.ByteBuffer.GetBytes | ngrok-java/src/main/java/com/ngrok/net/ConnectionInputStream.java:74 | index check, then underflow check, then the next `len` bytes copied to `dst[off..off+len)` and nothing else of `dst` changed |
| Nio.ByteBuffer.SetPosition | ngrok-java-native/src/main/java/com/ngrok/NativeConnection.java:31 | sets the position when it lies in 0..limit, otherwise IllegalArgumentException and no change |
| Nio.ByteBuffer.SetLimit | ngrok-java-native/src/main/java/com/ngrok/NativeConnection.java:32 | sets the limit when it lies in 0..capacity and pulls a later position back to it, otherwise IllegalArgumentException and no change |
| NativeGlue.NgrokExc | ngrok-java-native/src/lib.rs:290-295 | an engine error with a code reads "code", a blank line, then the message; one without a code is just the message |
| NativeGlue.AcceptExc | ngrok-java-native/src/lib.rs:301-310 | a transport error keeps the inner error's text and any other non-reconnect error its display text |
| NativeGlue.ReconnectLikeNgrokExc | ngrok-java-native/src/lib.rs:303-306 | a failed reconnect is reported exactly as `ngrok_exc` reports the same engine error |
| NativeGlue.ReadNative | ngrok-java-native/src/lib.rs:1440-1444 | a read succeeds exactly with a positive count, which is returned; zero bytes is the IOException "closed"; an I/O error keeps its text |
| NativeGlue.WriteNative | ngrok-java-native/src/lib.rs:1461-1464 | the engine's write count is returned unchanged; an I/O error keeps its text |
| NativeGlue.WriteSlice | ngrok-java-native/src/lib.rs:1460 | the engine is handed exactly the first `limit` bytes of the whole direct buffer |
| NativeGlue.TlsTermination | ngrok-java-native/src/lib.rs:482-496 | both cert and key set the termination; neither sets nothing; exactly one is the "requires both terminationCertPEM and terminationKeyPEM" error |
| NativeGlue.EdgeTypeName | ngrok-java-native/src/lib.rs:1346-1351 | every edge type is named one of "HTTPS", "TLS", "TCP" or "", and only Undefined gets "" |
| NativeGlue.EdgeTypeNameInjective | ngrok-java-native/src/lib.rs:1346-1351 | distinct edge types get distinct names |
| NativeGlue.SessionMetadata | ngrok-java-native/src/lib.rs:748-752 | the session is built with the builder's metadata, or "" when it has none |
| NativeGlue.AcceptResult | ngrok-java-native/src/lib.rs:1095-1108 | accept succeeds exactly when the engine yields a connection and returns it; the end of the stream is "could not get next conn"; an error goes through `accept_exc_err` |
| Connections.ReadOutcome | ngrok-java-native/src/main/java/com/ngrok/NativeConnection.java:29-34 | a native read returns the chunk's size, which is positive, or "closed" for an empty chunk; the collecting connection returns 0 |
| Connections.WriteOutcome | ngrok-java-native/src/main/java/com/ngrok/NativeConnection.java:54-56 | a native write returns the engine's count or its error; the collecting connection returns the source's limit |
| Connections.Connection.NativeConnection | ngrok-java-native/src/main/java/com/ngrok/NativeConnection.java:17-19 | the remote address is stored unchanged and nothing has been read or written |
| Connections.Connection.NativeEndpointConnection | ngrok-java-native/src/main/java/com/ngrok/NativeEndpointConnection.java:16-19 | the remote address and protocol are stored unchanged |
| Connections.Connection.NativeEdgeConnection | ngrok-java-native/src/main/java/com/ngrok/NativeEdgeConnection.java:16-20 | the remote address, edge type and passthrough flag are stored unchanged |
| Connections.Connection.CollectingConnection | ngrok-java/src/test/java/com/ngrok/net/ConnectionOutputStreamTest.java:40-42 | the test connection's remote address is "local" |
| Connections.Connection.Read | ngrok-java-native/src/main/java/com/ngrok/NativeEndpointConnection.java:31-36 | one read call; on a native success the chunk sits at [0, sz) with position 0 and limit sz and the rest of the array is kept; otherwise the buffer is untouched |
| Connections.Connection.Write | ngrok-java-native/src/main/java/com/ngrok/NativeEdgeConnection.java:48-50 | a native write offers `src[0..limit)` and leaves position and limit alone; the collecting connection takes `src[position..limit)` and moves the position to the limit |
| Streams.ConnectionInputStream.constructor | ngrok-java/src/main/java/com/ngrok/net/ConnectionInputStream.java:25-29 | a fresh buffer of `bufferSize` bytes with no unread bytes, so the first read refills |
| Streams.ConnectionInputStream.Prepare | ngrok-java/src/main/java/com/ngrok/net/ConnectionInputStream.java:38-45 | while bytes remain nothing is touched; otherwise exactly one `connection.read`, after which the unread bytes are the refill's, or the buffer is left cleared when the read throws; the connection's received bytes and the stream's fetched bytes grow by exactly the delivered chunk, and the stream turns stale exactly when no native chunk arrived |
| Streams.ConnectionInputStream.ReadByte | ngrok-java/src/main/java/com/ngrok/net/ConnectionInputStream.java:54-57 | the next available byte, sign-extended, consumed and appended to what was returned; never -1 for end of stream: a native 0-byte read is the IOException "closed", and BufferUnderflowException only arises when nothing is at hand after the refill (a zero-capacity buffer); at most one connection read; the connection's received bytes and the stream's fetched bytes grow only by a delivered chunk, and the stream turns stale exactly when a refill brought no native chunk |
| Streams.ConnectionInputStream.ReadInto | ngrok-java/src/main/java/com/ngrok/net/ConnectionInputStream.java:70-76 | returns n = min(len, available) with 0 <= n <= len and n <= bufferSize, copies exactly the next n bytes to `b[off..off+n)`, keeps the rest buffered; at most one connection read and no loop; the connection's received bytes and the stream's fetched bytes grow only by a delivered chunk, and the stream turns stale exactly when a refill brought no native chunk; while not stale, no byte is lost or duplicated |
| Streams.ConnectionInputStream.Take | ngrok-java/src/main/java/com/ngrok/net/ConnectionInputStream.java:73-75 | the copy step: min(len, remaining) unread bytes go to `b` at `off`, or IndexOutOfBoundsException with nothing moved; the fetched bytes and the stale flag are unchanged |
| Streams.Consumed | ngrok-java-native/src/main/java/com/ngrok/NativeEndpointConnection.java:41-43 | a native write consumes none of the flushed bytes; the collecting connection consumes all |
| Streams.ConnectionOutputStream.constructor | ngrok-java/src/main/java/com/ngrok/net/ConnectionOutputStream.java:23-26 | a fresh buffer of `bufferSize` bytes, empty and in write mode |
| Streams.ConnectionOutputStream.Flush | ngrok-java/src/main/java/com/ngrok/net/ConnectionOutputStream.java:61-65 | one `connection.write` offered exactly the retained bytes; afterwards the buffer holds exactly the bytes the connection did not consume, at the front, and the limit is the capacity |
| Streams.ConnectionOutputStream.WriteByte | ngrok-java/src/main/java/com/ngrok/net/ConnectionOutputStream.java:35-38 | the low 8 bits are appended to the retained bytes and one write offers them all; a full buffer is BufferOverflowException before any write |
| Streams.ConnectionOutputStream.WriteBytes | ngrok-java/src/main/java/com/ngrok/net/ConnectionOutputStream.java:49-52 | the slice is appended and one write offers retained + slice; a bad range or a slice larger than the free space fails with no write and nothing changed |
| StreamScenarios.ChunkRound | ngrok-java/src/test/java/com/ngrok/net/ConnectionOutputStreamTest.java:24-34 | through an 8-byte stream over the collecting connection, a slice of at most 8 bytes is delivered exactly and nothing is kept |
| StreamScenarios.ChunkingRow | ngrok-java/src/test/java/com/ngrok/net/ConnectionOutputStreamTest.java:24-34 | one row of the test on one reused 8-byte stream: each slice of up to 8 bytes is delivered whole and leaves the stream empty; the 9-byte slice is BufferOverflowException, so the row ends after min(rest, 9) writes |
| StreamScenarios.OversizedRound | ngrok-java/src/main/java/com/ngrok/net/ConnectionOutputStream.java:50 | a slice longer than the 8-byte buffer is BufferOverflowException and the connection is never written |
| StreamScenarios.EmptyWrite | ngrok-java/src/main/java/com/ngrok/net/ConnectionOutputStream.java:49-52 | a zero-length write on an empty stream still makes one write, offering no bytes |
| StreamScenarios.NativeResend | ngrok-java/src/main/java/com/ngrok/net/ConnectionOutputStream.java:61-65 | over a native connection the second write resends the first write's bytes before the new ones |
| StreamScenarios.NoEndOfStream | ngrok-java/src/main/java/com/ngrok/net/ConnectionInputStream.java:50-57 | a zero-byte native refill makes `read()` throw the IOException "closed" instead of returning -1 |
| StreamScenarios.ByteFFReadsAsMinusOne | ngrok-java/src/main/java/com/ngrok/net/ConnectionInputStream.java:54-57 | the data byte 0xFF reads as -1 |
| StreamScenarios.StaleAfterFailedRefill | ngrok-java/src/main/java/com/ngrok/net/ConnectionInputStream.java:38-45 | after a refill that throws, the next read returns a stale byte of the cleared buffer and the connection is read only once |
| StreamScenarios.PartialRead | ngrok-java/src/main/java/com/ngrok/net/ConnectionInputStream.java:70-76 | `read(b, 0, len)` on one chunk returns len, gives its first len bytes and keeps the rest buffered |
| Addresses.Fields | ngrok-java/src/main/java/com/ngrok/Connection.java:37 | splitting on ':' gives at least one field and no field contains a colon |
| Addresses.DropTrailingEmpty | ngrok-java/src/main/java/com/ngrok/Connection.java:37 | `split` drops only trailing empty fields and keeps a prefix of the fields |
| Addresses.ParseInt | ngrok-java/src/main/java/com/ngrok/Connection.java:38 | `Integer.parseInt` succeeds only on an optional sign followed by at least one digit and nothing else; the value fits in 32 bits and is negative only after a '-'; every failure is NumberFormatException naming the input |
| Addresses.ParseNegativeDecimal | ngrok-java/src/main/java/com/ngrok/Connection.java:38 | "-" before the digits of n gives -n for every n down to the `int` minimum |
| Addresses.ParsePlusDecimal | ngrok-java/src/main/java/com/ngrok/Connection.java:38 | "+" before the digits of a non-negative `int` gives that number back |
| Addresses.ParseDecimal | ngrok-java/src/main/java/com/ngrok/Connection.java:38 | parsing the decimal text of any non-negative `int` gives the number back |
| Addresses.NewInetSocketAddress | ngrok-java/src/main/java/com/ngrok/Connection.java:38 | a port in 0..65535 gives that host and port, any other port is IllegalArgumentException |
| Addresses.InetAddress | ngrok-java/src/main/java/com/ngrok/Connection.java:36-39 | a success has a port in range and a host that is exactly the text before the first colon; an address with no colon is ArrayIndexOutOfBoundsException |
| Addresses.InetAddressFields | ngrok-java/src/main/java/com/ngrok/Connection.java:37-38 | the host is the first field and the port is parsed from the second; anything after the next colon is ignored |
| Addresses.LaterFieldsIgnored | ngrok-java/src/main/java/com/ngrok/Connection.java:37-38 | appending further colon-separated fields never changes the result |
| Addresses.InetAddressRoundTrip | ngrok-java/src/main/java/com/ngrok/Connection.java:36-39 | a colon-free host joined to a printed in-range port parses back to that host and port |
| Addresses.Ipv4TestCase | ngrok-java/src/test/java/com/ngrok/ConnectionTest.java:17-21 | "4.3.2.1:8000" gives host "4.3.2.1" and port 8000 |
| Addresses.Ipv6TestCaseAsWritten | ngrok-java/src/test/java/com/ngrok/ConnectionTest.java:23-27 | as written, the bracketed IPv6 address is NumberFormatException on "23c8", not what the test expects |
| Addresses.LastColonAddress | ngrok-java/src/test/java/com/ngrok/ConnectionTest.java:23-27 | the test's rule: the port follows the last colon; successes have an in-range port; no colon is ArrayIndexOutOfBoundsException |
| Addresses.BracketedRoundTrip | ngrok-java/src/test/java/com/ngrok/ConnectionTest.java:23-27 | under the test's rule a bracketed host, colons included, and a printed port come back without the brackets |
| Addresses.Ipv6TestCaseLastColon | ngrok-java/src/test/java/com/ngrok/ConnectionTest.java:23-27 | under the test's rule the IPv6 case gives the unbracketed host and port 64440 |
| Addresses.SingleColonAgreement | ngrok-java/src/main/java/com/ngrok/Connection.java:37-38 | on single-colon addresses with an unbracketed host the code's rule and the test's rule agree whenever either succeeds |
| Sockets.Listener.Accept | ngrok-java-native/src/lib.rs:1095-1108 | one accept call, answered by the native accept mapping |
| Sockets.ConnectionSocketImpl.constructor | ngrok-java/src/main/java/com/ngrok/net/ConnectionSocketImpl.java:15 | a new implementation has no connection, no address and port 0 |
| Sockets.ConnectionSocketImpl.SetConnection | ngrok-java/src/main/java/com/ngrok/net/ConnectionSocketImpl.java:17-23 | the connection is stored first; address and port come from `inetAddress` on success and keep their old values when it throws |
| Sockets.ConnectionSocketImpl.GetInputStream | ngrok-java/src/main/java/com/ngrok/net/ConnectionSocketImpl.java:32-34 | every call gives a new input stream over the same connection with its own empty 1024-byte buffer |
| Sockets.ConnectionSocketImpl.GetOutputStream | ngrok-java/src/main/java/com/ngrok/net/ConnectionSocketImpl.java:43-45 | every call gives a new output stream over the same connection with its own empty 1024-byte buffer |
| Sockets.ConnectionSocket.constructor | ngrok-java/src/main/java/com/ngrok/net/ConnectionSocket.java:16-18 | a new socket wraps a new, unbound implementation |
| Sockets.ListenerSocketImpl.constructor | ngrok-java-17/src/main/java/com/ngrok/net/ListenerSocketImpl.java:21-23 | the listener is fixed at construction |
| Sockets.ListenerSocketImpl.Accept | ngrok-java-17/src/main/java/com/ngrok/net/ListenerSocketImpl.java:32-35 | a foreign implementation is ClassCastException before the listener is touched; otherwise one `listener.accept()`, whose error leaves the target unchanged and whose connection is bound by `setConnection` |
| Sockets.ListenerServerSocket.constructor | ngrok-java-17/src/main/java/com/ngrok/net/ListenerServerSocket.java:20-22 | wires a new listener implementation around the given listener, open |
| Sockets.ListenerServerSocket.Accept | ngrok-java-17/src/main/java/com/ngrok/net/ListenerServerSocket.java:32-38 | closed: "Socket is closed" without touching the listener; open: one accept; on success a fresh socket bound to exactly that connection with its parsed address and port |
| Sockets.TunnelSocketImpl.constructor | ngrok-java/src/main/java/com/ngrok/net/TunnelSocketImpl.java:20-22 | the tunnel is fixed at construction |
| Sockets.TunnelSocketImpl.Accept | ngrok-java/src/main/java/com/ngrok/net/TunnelSocketImpl.java:31-34 | a foreign implementation is ClassCastException before the tunnel is touched; otherwise one `tunnel.accept()`, bound by `setConnection` or propagated with the target unchanged |
| Sockets.TunnelServerSocket.constructor | ngrok-java/src/main/java/com/ngrok/net/TunnelServerSocket.java:20-22 | wires a new tunnel implementation around the given tunnel, open |
| Sockets.TunnelServerSocket.Accept | ngrok-java/src/main/java/com/ngrok/net/TunnelServerSocket.java:32-38 | closed: "Socket is closed" without touching the tunnel; open: one accept and a fresh socket bound to that connection |
| Jetty.RunFrom | ngrok-jetty/src/main/java/com/ngrok/jetty/NgrokEndpoint.java:73-79 | the reference run of the flush loop from one buffer on makes at most one write per remaining buffer |
| Jetty.Run | ngrok-jetty/src/main/java/com/ngrok/jetty/NgrokEndpoint.java:72-80 | a whole flush makes at most one write per buffer |
| Jetty.RunFromTrueIff | ngrok-jetty/src/main/java/com/ngrok/jetty/NgrokEndpoint.java:73-79 | from any buffer on, the run answers true exactly when every later write is complete, and then writes all of them |
| Jetty.RunTrueIff | ngrok-jetty/src/main/java/com/ngrok/jetty/NgrokEndpoint.java:73-79 | flush answers true exactly when every buffer's write reports at least its limit, and then every buffer was written; no buffers gives true |
| Jetty.RunFromStopsAtFirstShort | ngrok-jetty/src/main/java/com/ngrok/jetty/NgrokEndpoint.java:75-76 | from any buffer on, the first incomplete write is the last one made and decides the result |
| Jetty.RunStopsAtFirstShort | ngrok-jetty/src/main/java/com/ngrok/jetty/NgrokEndpoint.java:75-76 | the first short or failed write ends flush with false or that error, and later buffers are not written |
| Jetty.ComparedWithLimit | ngrok-jetty/src/main/java/com/ngrok/jetty/NgrokEndpoint.java:75 | the count is compared with the limit, not the remaining bytes: taking every remaining byte of a buffer whose position is past 0 still answers false |
| Jetty.NgrokEndpoint.constructor | ngrok-jetty/src/main/java/com/ngrok/jetty/NgrokEndpoint.java:24-29 | the connection is fixed at construction |
| Jetty.NgrokEndpoint.Fill | ngrok-jetty/src/main/java/com/ngrok/jetty/NgrokEndpoint.java:60-62 | exactly one `conn.read`, whose answer is returned unchanged; after a native chunk the buffer holds it at [0, sz) with position 0 and limit sz, otherwise the buffer is untouched; the connection's record of received bytes grows by exactly the chunk |
| Jetty.NgrokEndpoint.WriteAt | ngrok-jetty/src/main/java/com/ngrok/jetty/NgrokEndpoint.java:74 | one write of the i-th buffer; a native connection is offered its bytes up to its limit and every buffer keeps its limit and position |
| Jetty.NgrokEndpoint.Flush | ngrok-jetty/src/main/java/com/ngrok/jetty/NgrokEndpoint.java:72-80 | the result and the number of writes are those of the reference run; the buffers keep their limits (and, on native connections, their positions); the connection is not read |
| ProxyProtos.Version | ngrok-java/src/main/java/com/ngrok/ProxyProto.java:7-9 | versions lie in 0..2 and only None has version 0 |
| ProxyProtos.DeclaredOnce | ngrok-java/src/main/java/com/ngrok/ProxyProto.java:6-9 | every constant is declared exactly once |
| ProxyProtos.VersionIsDeclarationIndex | ngrok-java/src/main/java/com/ngrok/ProxyProto.java:7-9 | None is 0, V1 is 1 and V2 is 2: each version is the constant's declaration index |
| ProxyProtos.VersionInjective | ngrok-java/src/main/java/com/ngrok/ProxyProto.java:7-9 | distinct constants carry distinct versions |
| ProxyProtos.DeclarationOrderIsVersionOrder | ngrok-java/src/main/java/com/ngrok/ProxyProto.java:7-9 | declaration order is version order |
| Http.SchemeName | ngrok-java/src/main/java/com/ngrok/Http.java:12-14 | the scheme names are exactly "HTTP" and "HTTPS" |
| Http.NewHeader | ngrok-java/src/main/java/com/ngrok/Http.java:39-42 | a header is built exactly when name and value are non-null, holding them; otherwise NullPointerException |
| Http.NewBasicAuth | ngrok-java/src/main/java/com/ngrok/Http.java:80-83 | built exactly when user name and password are non-null, holding them |
| Http.NewWebhookVerification | ngrok-java/src/main/java/com/ngrok/Http.java:370-373 | built exactly when provider and secret are non-null, holding them |
| Http.AppendNonNull | ngrok-java/src/main/java/com/ngrok/Http.java:147 | a non-null item goes at the end of the list; null is NullPointerException |
| Http.OAuth.constructor | ngrok-java/src/main/java/com/ngrok/Http.java:114-124 | the provider is stored, there is no client and the three lists are empty |
| Http.OAuth.New | ngrok-java/src/main/java/com/ngrok/Http.java:123-125 | a null provider is NullPointerException and no object; otherwise a fresh object in its initial state |
| Http.OAuth.Client | ngrok-java/src/main/java/com/ngrok/Http.java:134-138 | the id is stored before the secret is checked, so a null secret throws with the new id beside the old secret; on success the client is configured |
| Http.OAuth.AllowEmail | ngrok-java/src/main/java/com/ngrok/Http.java:146-149 | appends to the e-mail list only; null throws and changes nothing |
| Http.OAuth.AllowDomain | ngrok-java/src/main/java/com/ngrok/Http.java:157-160 | appends to the domain list only; null throws and changes nothing |
| Http.OAuth.Scope | ngrok-java/src/main/java/com/ngrok/Http.java:168-171 | appends to the scope list only; null throws and changes nothing |
| Http.OIDC.constructor | ngrok-java/src/main/java/com/ngrok/Http.java:247-262 | issuer and client are stored and the three lists are empty |
| Http.OIDC.New | ngrok-java/src/main/java/com/ngrok/Http.java:259-263 | any null argument is NullPointerException; otherwise a fresh object in its initial state |
| Http.OIDC.AllowEmail | ngrok-java/src/main/java/com/ngrok/Http.java:271-274 | appends to the e-mail list only; null throws and changes nothing |
| Http.OIDC.AllowDomain | ngrok-java/src/main/java/com/ngrok/Http.java:282-285 | appends to the domain list only; null throws and changes nothing |
| Http.OIDC.Scope | ngrok-java/src/main/java/com/ngrok/Http.java:293-296 | appends to the scope list only; null throws and changes nothing |
| Builders.MetadataBuilder.constructor | ngrok-java/src/main/java/com/ngrok/MetadataBuilder.java:12-13 | metadata and forwards-to start empty |
| Builders.MetadataBuilder.Metadata | ngrok-java/src/main/java/com/ngrok/MetadataBuilder.java:21-24 | stores `Optional.of(x)` and returns the same builder, touching only that field; null throws and keeps the old value |
| Builders.MetadataBuilder.ForwardsTo | ngrok-java/src/main/java/com/ngrok/MetadataBuilder.java:39-42 | stores `Optional.of(x)` and returns the same builder, touching only that field; null throws and keeps the old value |
| Builders.EndpointBuilder.constructor | ngrok-java/src/main/java/com/ngrok/EndpointBuilder.java:14-17 | empty CIDR lists, PROXY protocol None (so version 0), no policy |
| Builders.EndpointBuilder.AllowCidr | ngrok-java/src/main/java/com/ngrok/EndpointBuilder.java:30-33 | appends one entry, null included, at the end of the allow list; nothing else changes |
| Builders.EndpointBuilder.DenyCidr | ngrok-java/src/main/java/com/ngrok/EndpointBuilder.java:46-49 | appends one entry, null included, at the end of the deny list; nothing else changes |
| Builders.EndpointBuilder.ProxyProto | ngrok-java/src/main/java/com/ngrok/EndpointBuilder.java:57-60 | stores a non-null setting; null throws and keeps the previous one |
| Builders.EndpointBuilder.Policy | ngrok-java/src/main/java/com/ngrok/EndpointBuilder.java:68-71 | null clears the policy, any other value is stored; the last call wins |
| Builders.EndpointBuilder.ProxyProtoVersion | ngrok-java/src/main/java/com/ngrok/EndpointBuilder.java:105-107 | the version of the stored setting, 0 exactly for None |
| Builders.HttpBuilder.constructor | ngrok-java/src/main/java/com/ngrok/HttpBuilder.java:20-88 | everything unset or empty, both flags false, no circuit breaker |
| Builders.HttpBuilder.Scheme | ngrok-java/src/main/java/com/ngrok/HttpBuilder.java:97-109 | stores the scheme as given; `hasScheme` holds exactly when it is non-null, so null clears it |
| Builders.HttpBuilder.SchemeName | ngrok-java/src/main/java/com/ngrok/HttpBuilder.java:116-118 | the scheme's name when one is set, NullPointerException otherwise |
| Builders.HttpBuilder.Domain | ngrok-java/src/main/java/com/ngrok/HttpBuilder.java:126-138 | stores a non-null domain; null throws and keeps the old one; `hasDomain` afterwards holds exactly when it held before or the domain was given |
| Builders.HttpBuilder.MutualTlsCa | ngrok-java/src/main/java/com/ngrok/HttpBuilder.java:155-158 | stores a non-null CA; null throws and changes nothing |
| Builders.HttpBuilder.Compression | ngrok-java/src/main/java/com/ngrok/HttpBuilder.java:174-177 | switches compression on and is idempotent |
| Builders.HttpBuilder.WebsocketTcpConversion | ngrok-java/src/main/java/com/ngrok/HttpBuilder.java:193-196 | switches the conversion on and is idempotent |
| Builders.HttpBuilder.CircuitBreaker | ngrok-java/src/main/java/com/ngrok/HttpBuilder.java:214-226 | a circuit breaker is present from then on |
| Builders.HttpBuilder.GetCircuitBreaker | ngrok-java/src/main/java/com/ngrok/HttpBuilder.java:233-235 | succeeds exactly when a breaker is present, NoSuchElementException otherwise |
| Builders.HttpBuilder.AddRequestHeader | ngrok-java/src/main/java/com/ngrok/HttpBuilder.java:244-247 | one header at the end of the request-header list only; a null name or value throws and changes nothing |
| Builders.HttpBuilder.AddResponseHeader | ngrok-java/src/main/java/com/ngrok/HttpBuilder.java:265-268 | one header at the end of the response-header list only; a null name or value throws and changes nothing |
| Builders.HttpBuilder.RemoveRequestHeader | ngrok-java/src/main/java/com/ngrok/HttpBuilder.java:285-288 | the name goes at the end of its own list; null throws and changes nothing |
| Builders.HttpBuilder.RemoveResponseHeader | ngrok-java/src/main/java/com/ngrok/HttpBuilder.java:305-308 | the name goes at the end of its own list; null throws and changes nothing |
| Builders.HttpBuilder.BasicAuthOptions | ngrok-java/src/main/java/com/ngrok/HttpBuilder.java:325-328 | stores the options as given, null included, and nothing else |
| Builders.HttpBuilder.OAuthOptions | ngrok-java/src/main/java/com/ngrok/HttpBuilder.java:336-339 | stores that very OAuth object, null included, and nothing else |
| Builders.HttpBuilder.OidcOptions | ngrok-java/src/main/java/com/ngrok/HttpBuilder.java:347-350 | stores that very OIDC object, null included, and nothing else |
| Builders.HttpBuilder.WebhookVerification | ngrok-java/src/main/java/com/ngrok/HttpBuilder.java:359-362 | stores the verification as given, null included, and nothing else |
| Builders.HttpBuilder.Listen | ngrok-java/src/main/java/com/ngrok/HttpBuilder.java:401-403 | one HTTP listen request on the session and its answer returned; a null session is NullPointerException |
| Builders.HttpBuilder.Forward | ngrok-java/src/main/java/com/ngrok/HttpBuilder.java:406-408 | one HTTP forward request with the URL on the session and its answer returned |
| Builders.TlsBuilder.constructor | ngrok-java/src/main/java/com/ngrok/TlsBuilder.java:15-32 | no domain, CA or termination, which the native pairing check accepts as "no termination" |
| Builders.TlsBuilder.Domain | ngrok-java/src/main/java/com/ngrok/TlsBuilder.java:40-43 | stores `Optional.of(d)`; null throws and keeps the old domain |
| Builders.TlsBuilder.MutualTlsCa | ngrok-java/src/main/java/com/ngrok/TlsBuilder.java:51-54 | stores a non-null CA; null throws and changes nothing |
| Builders.TlsBuilder.Termination | ngrok-java/src/main/java/com/ngrok/TlsBuilder.java:63-67 | both non-null sets both and the native side then terminates with them; a null cert changes nothing; a null key throws after the cert is stored, which the native side refuses exactly when no key was set before |
| Builders.TlsBuilder.Listen | ngrok-java/src/main/java/com/ngrok/TlsBuilder.java:106-108 | one TLS listen request on the session and its answer returned |
| Builders.TlsBuilder.Forward | ngrok-java/src/main/java/com/ngrok/TlsBuilder.java:111-113 | one TLS forward request with the URL on the session and its answer returned |
| Builders.TcpBuilder.constructor | ngrok-java/src/main/java/com/ngrok/TcpBuilder.java:15-27 | no remote address |
| Builders.TcpBuilder.RemoteAddress | ngrok-java/src/main/java/com/ngrok/TcpBuilder.java:35-38 | stores `Optional.of(a)`, the last call winning; null throws and keeps it |
| Builders.TcpBuilder.Listen | ngrok-java/src/main/java/com/ngrok/TcpBuilder.java:50-52 | one TCP listen request on the session and its answer returned |
| Builders.TcpBuilder.Forward | ngrok-java/src/main/java/com/ngrok/TcpBuilder.java:55-57 | one TCP forward request with the URL on the session and its answer returned |
| Builders.PutLabel | ngrok-java/src/main/java/com/ngrok/EdgeBuilder.java:31 | both arguments are checked before the put; a put maps the key to the value, adds only that key and keeps every other entry |
| Builders.PutLabelLastWins | ngrok-java/src/main/java/com/ngrok/EdgeBuilder.java:30-33 | labelling a key twice keeps only the second value |
| Builders.EdgeBuilder.constructor | ngrok-java/src/main/java/com/ngrok/EdgeBuilder.java:17-21 | no labels |
| Builders.EdgeBuilder.Label | ngrok-java/src/main/java/com/ngrok/EdgeBuilder.java:30-33 | inserts or overwrites the key; a null key or value throws and the map is unchanged |
| Builders.EdgeBuilder.Listen | ngrok-java/src/main/java/com/ngrok/EdgeBuilder.java:45-47 | one edge listen request on the session and its answer returned |
| Builders.EdgeBuilder.Forward | ngrok-java/src/main/java/com/ngrok/EdgeBuilder.java:50-52 | one edge forward request with the URL on the session and its answer returned |
| Tunnels.ProxyProtoVersion | ngrok-java/src/main/java/com/ngrok/AgentTunnel.java:140-142 | 0 for a null setting, otherwise the constant's version |
| Tunnels.HasProxyProtoIffVersion | ngrok-java/src/main/java/com/ngrok/AgentTunnel.java:131-142 | `hasProxyProto` holds exactly when the version is not 0, that is for V1 and V2; null and None both give false and 0 |
| Tunnels.TunnelBuilder.constructor | ngrok-java/src/main/java/com/ngrok/AgentTunnel.java:57-60 | empty lists, null PROXY protocol and forwards-to |
| Tunnels.TunnelBuilder.AllowCidr | ngrok-java/src/main/java/com/ngrok/AgentTunnel.java:75-78 | appends one entry, null included, to the allow list only |
| Tunnels.TunnelBuilder.DenyCidr | ngrok-java/src/main/java/com/ngrok/AgentTunnel.java:100-103 | appends one entry, null included, to the deny list only |
| Tunnels.TunnelBuilder.ProxyProto | ngrok-java/src/main/java/com/ngrok/AgentTunnel.java:121-124 | stores the setting as given, null included |
| Tunnels.TunnelBuilder.ForwardsTo | ngrok-java/src/main/java/com/ngrok/AgentTunnel.java:150-162 | stores the target as given; `hasForwardsTo` holds exactly when it is non-null, so null clears it |
| Tunnels.NewLabel | ngrok-java/src/main/java/com/ngrok/LabeledTunnel.java:40-43 | a label is built exactly when name and value are non-null; otherwise NullPointerException |
| Tunnels.LabeledTunnelBuilder.constructor | ngrok-java/src/main/java/com/ngrok/LabeledTunnel.java:68 | no labels |
| Tunnels.LabeledTunnelBuilder.Label | ngrok-java/src/main/java/com/ngrok/LabeledTunnel.java:77-80 | inserts or overwrites the key; a null key or value throws and the map is unchanged |
| Tunnels.LabeledTunnelBuilder.GetLabels | ngrok-java/src/main/java/com/ngrok/LabeledTunnel.java:87-91 | one label per key of the map, each with that key's value, no key twice and every key present; the map is only read |
| Tunnels.LabelsOf | ngrok-java/src/main/java/com/ngrok/LabeledTunnel.java:88-90 | the labels of the given keys, in the order of the keys |
| Runtime.LowerChar | ngrok-java-native/src/main/java/com/ngrok/Runtime.java:28 | an ASCII capital becomes its small letter, every other character is kept |
| Runtime.Lower | ngrok-java-native/src/main/java/com/ngrok/Runtime.java:28 | lower-casing keeps the length and lowers each character |
| Runtime.Libname | ngrok-java-native/src/main/java/com/ngrok/Runtime.java:26-37 | for the lower-cased name: "nix" or "nux" gives the .so; otherwise "win" the .dll; otherwise "mac" the .dylib; otherwise "unknown OS: " + the lower-cased name, each in both directions |
| Runtime.LinuxGetsTheSharedObject | ngrok-java-native/src/main/java/com/ngrok/Runtime.java:29-30 | "Linux" gives "libngrok_java.so" |
| Runtime.WindowsGetsTheDll | ngrok-java-native/src/main/java/com/ngrok/Runtime.java:31-32 | "Windows 11" gives "ngrok_java.dll" |
| Runtime.MacGetsTheDylib | ngrok-java-native/src/main/java/com/ngrok/Runtime.java:33-34 | "Mac OS X" gives "libngrok_java.dylib" |
| Runtime.DarwinGetsTheDll | ngrok-java-native/src/main/java/com/ngrok/Runtime.java:31-34 | because "win" is tested before "mac", "Darwin" gives the Windows library |
| Runtime.UnknownSystem | ngrok-java-native/src/main/java/com/ngrok/Runtime.java:36 | "SunOS" is refused with "unknown OS: sunos" |
| Runtime.LevelNamed | ngrok-java-native/src/main/java/com/ngrok/Runtime.java:116-121 | a recognised name selects the level of exactly that name |
| Runtime.LevelNamedInverse | ngrok-java-native/src/main/java/com/ngrok/Runtime.java:116-121 | each level is selected by its own upper-case name and by no other string |
| Runtime.Log | ngrok-java-native/src/main/java/com/ngrok/Runtime.java:115-124 | a recognised level logs at that level with "[{}] {}" over target and message; any other goes to debug with "{}: [{}] {}" over level, target and message |
| Runtime.KnownLevelText | ngrok-java-native/src/main/java/com/ngrok/Runtime.java:106-121 | a recognised level shows "[target] message" at that level |
| Runtime.OtherLevelText | ngrok-java-native/src/main/java/com/ngrok/Runtime.java:122 | any other level string shows "level: [target] message" at debug; lower-case "info" is such a string |
| Runtime.FormatRenders | ngrok-java-native/src/main/java/com/ngrok/Runtime.java:106 | the format "[{}] {}" renders as "[target] message" |
| Runtime.FallbackRenders | ngrok-java-native/src/main/java/com/ngrok/Runtime.java:122 | the format "{}: [{}] {}" renders as "level: [target] message" |
| NgrokErrors.Str | ngrok-java/src/main/java/com/ngrok/Error.java:10 | `%s` writes a string as it is and null as "null" |
| NgrokErrors.NewError | ngrok-java/src/main/java/com/ngrok/Error.java:9-13 | the fields are the arguments and the text is the code, ": ", then the message |
| NgrokErrors.ErrorGettersGiveArguments | ngrok-java/src/main/java/com/ngrok/Error.java:15-21 | `getMessage` and `getErrorCode` give the arguments back, and `getMessage` never gives the exception text |
| NgrokErrors.ErrorTextInjective | ngrok-java/src/main/java/com/ngrok/Error.java:10 | for codes of one length, equal texts mean equal codes and equal messages |
| NgrokErrors.NewNgrokException | ngrok-java/src/main/java/com/ngrok/NgrokException.java:9-13 | the fields are the arguments and the text is the code, a blank line, then the details |
| NgrokErrors.NgrokExceptionGettersGiveArguments | ngrok-java/src/main/java/com/ngrok/NgrokException.java:15-21 | `getCode` and `getDetails` give the arguments back |
| NgrokErrors.SameLayoutAsCodedEngineError | ngrok-java-native/src/lib.rs:292 | an NgrokException's text equals the IOException text the glue makes for a coded engine error with the same code and message |
| NgrokErrors.ErrorAndNgrokExceptionLayoutsDiffer | ngrok-java/src/main/java/com/ngrok/Error.java:10 | for the same two strings the `Error` and `NgrokException` texts always differ |

## Left out

- Jetty.NgrokEndpoint.Flush: does not state the bytes each native write carries, because that clause costs the solver too much over a whole list of buffers. `Jetty.NgrokEndpoint.WriteAt` states them for each write.
- Connections.Connection.Write: the collecting connection's `data.put(src)` into its 1024-byte store is not modelled. The model keeps a list of the slices offered instead and always answers `limit`, so the BufferOverflowException of a full store is not represented.
- Streams.ConnectionInputStream.constructor: the buffer size is a `nat`, so `allocateDirect`'s IllegalArgumentException for a negative size is not represented.
- Streams.ConnectionOutputStream.constructor: the buffer size is a `nat`, so `allocateDirect`'s IllegalArgumentException for a negative size is not represented.
- Streams.ConnectionInputStream.ReadInto: the target array is never null, so the NullPointerException `get(b, off, n)` throws for a null array is not represented.
- Streams.ConnectionOutputStream.WriteBytes: the source bytes are never null, so the NullPointerException `put(b, off, len)` throws for a null array is not represented.
- Runtime.Log: the level is never null, so the NullPointerException of `switch (level)` on null is not represented.
- Addresses.ParseInt: accepts only ASCII digits, while `Integer.parseInt` also accepts other Unicode decimal digits.
- Addresses.InetAddress: host names are kept as text. Name resolution by `InetSocketAddress` is not modelled.
- Runtime.Lower: lower-cases ASCII letters only, while `toLowerCase(Locale.ENGLISH)` also maps other Unicode letters.
- Runtime.Log: renders `{}` placeholders only. SLF4J's escaped `\{}` is not modelled.
- Builders.HttpBuilder.CircuitBreaker: models the presence of the circuit breaker only, not its `double` value (floating point).
- Builders.HttpBuilder.WebhookVerification: is declared to return `MetadataBuilder`. It returns the same object, and the model returns the builder itself.
- Builders.EdgeBuilder: `getLabels` returns an unmodifiable view of the map. The model reads the `labels` field directly, so aliasing through that view is not represented.
- The engine, the Tokio runtime and the native methods (`readNative`, `writeNative`, `accept`, `close`) are parameters or are not modelled. This includes closing connections, sockets, listeners and sessions.
- Concurrency: the model is sequential, so the native side's locks and the engine's asynchrony are not represented.
- The JDK's `ServerSocket.implAccept`, `isClosed` and `close` are not modelled. Closed is a plain flag, and closing never reaches the listener.
- `AbstractSocketImpl`: every other socket operation throws `UnsupportedOperationException`. These operations are not modelled.
- Jetty's end-point lifecycle is not modelled: `onOpen`, the scheduler in `needsFillInterest`, and `onIncompleteFlush` and `getTransport`, which both throw.
- Plain getters are not modelled as members. This covers `getRemoteAddr`, `getProto`, `getEdgeType`, `isPassthroughTls`, the builders' `get…`/`is…` and the tunnels' `getProto`/`getUrl`. Each returns a field that the constructors' and setters' contracts already state.
- The `Tunnel.Builder` metadata of the older tunnel API is not modelled. The `EndpointTunnel.Builder` rules are the same as `AgentTunnel.Builder`'s, so `Tunnels.TunnelBuilder` models both.
- The native stubs (`NativeSession`, the native listeners, forwarders and tunnels) are not modelled. Neither are the library loader's file handling and `System.load`.
- The JNI getters that copy builder settings into the engine's builders are not modelled, apart from the TLS termination pairing and the session metadata default.
