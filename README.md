# go-tcp in Dafny

This project models the core of go-tcp, a line-echo TCP server written in Go that comes in two variants.

- The **raw server** (`RawTCPServer`) runs on a listener and connections built directly from system calls (`CustomListener`, `CustomConn`).
- The **standard server** (`TCPServer`) runs on the standard library's `net.Listen`.

Both servers keep the same state:

- a `running` flag;
- a registry that maps the text of each connection's remote address to the connection.

Both accept connections in a loop and serve each one with the same line protocol:

- read a line;
- trim its white space;
- answer `Server received: <line>`;
- stop after `quit`.

Everything that touches the operating system or the clock becomes a parameter: system calls, reads, writes, deadlines and accept results. Concurrency becomes a sequence of events:

- `Stop` racing the accept loop;
- `Close` racing the listener's blocked `accept(2)`.

Modules, one per source component:

- `Net`: bytes, IPv4 socket addresses, TCP addresses and their decimal text (`TCPAddr.String()`, `%d`).
- `Text`: `strings.TrimSpace` and `strings.ToLower` as the handler uses them.
- `RawConn`: `CustomConn`, a class whose descriptor is released at most once. A ghost counter `releases` is tied to `closed`.
- `RawListener`:
  - the `NewCustomListener` setup ladder, with a trace of the system calls it issues;
  - the `CustomListener` class, whose unbuffered hand-off channel is a one-place slot;
  - one iteration of its accept loop.
- `Registry`: what a run of `sync.Map.Store` calls leaves.
- `Lifecycle`: `acceptConnections`, shared by both servers. `Run` is its specification: the outcome, the events consumed and the flag afterwards.
- `Protocol`: `handleConnection`'s loop. `Session` is the specification; `Serve` is the imperative loop proved against it. The module also covers the splitting of a byte stream into `ReadString('\n')` results.
- `RawServer`, `StdServer`: the two server classes. Each method is proved against `Run`, `Registry.StoreAll` and `Session`.

Notes on behaviour the proofs bring out:

- The raw listener only accepts IP literals. A host name such as `localhost` fails with `invalid IP address` once the socket exists. `localhost` is the address both example programs pass (`RawListener.LocalhostIsRefused`).
- `CustomListener.Accept` never returns an error. So with the raw listener, the accept-error branch of `acceptConnections` can never be taken; the model keeps that branch as written, since the same loop serves the standard listener (`RawServer.NeverFatal`).
- A raw connection has no remote address only when the peer is not IPv4. `acceptConnections` then calls `String()` on a nil interface and panics. The model returns `Crashed` in that case. An `AF_INET` socket never produces such a peer.
- The keep-alive block of the raw handler (internal/server/tcp.go:103-110) only runs for a `*net.TCPConn`. Raw connections are `*CustomConn`, so that block never runs, and the raw handler is modelled by the same `Session` as the standard one.
- `CustomConn`'s deadline setters always return nil. So for raw connections the events `ReadDeadlineRefused` and `WriteDeadlineRefused` never occur; they are there for the standard server.
- `CustomConn.Read` returns the count of `read(2)`, which is -1 on failure, and `bufio` panics on a negative count. So on a raw connection every read error ends the handler through that panic and its `recover`. The deadlines are never set, so `Timeout` never occurs either; the responses written and the cleanup are the same as for `Failed`, which is how the model treats them.
- The handler's deferred cleanup deletes by key. It therefore removes whatever connection is registered under its peer's address, even if a later connection with the same key replaced it (`HandleConnection` contracts, `Registry.StoreAllEntry`).

## Model

| member | source | states |
|---|---|---|
| Net.To4 | internal/listener/listener.go:44 | the 4-byte form exists exactly for a 4-byte address or a 16-byte address with the IPv4-mapped prefix, and is its last four bytes |
| Net.BoundBytes | internal/listener/listener.go:43-44 | the bound address bytes are the IPv4 form of the parsed address, or all zero when it has none (copying a nil slice copies nothing) |
| Net.SockaddrToAddr | internal/listener/listener.go:89-97 | an IPv4 socket address gives the TCP address with the same four bytes and port; every other family gives no address |
| Net.NatToString | internal/server/tcp.go:82 | the decimal text of a number is non-empty, all digits, and without a leading zero |
| Net.IntToString | internal/server/std.go:41 | the `%d` text of an integer is non-empty and starts with `-` exactly when the integer is negative |
| Net.NatToStringInjective | internal/server/tcp.go:82 | distinct numbers have distinct decimal texts (through `ParseNatToString`, the text reads back as the number) |
| Net.IntToStringInjective | internal/server/std.go:41 | distinct integers have distinct `%d` texts |
| Net.AddrStringInjective | internal/server/tcp.go:82 | two IPv4 endpoints with the same `host:port` text are the same endpoint |
| Text.TrimLeftSpec | internal/server/tcp.go:129 | left trimming drops exactly the leading white space, and the rest does not start with white space |
| Text.TrimRightSpec | internal/server/tcp.go:129 | right trimming drops exactly the trailing white space, and the rest does not end with white space |
| Text.TrimSpaceSpec | internal/server/tcp.go:129 | the trimmed message is a slice of the line, white space only around it, and neither starts nor ends with white space |
| Text.TrimSpaceOf | internal/server/std.go:120 | white space, a core without white-space ends, then white space, trims to exactly that core |
| Text.TrimSpaceIdempotent | internal/server/tcp.go:129 | trimming an already trimmed message changes nothing |
| Text.ToLower | internal/server/tcp.go:149 | lower-casing keeps the length and lowers every character on its own |
| Text.IsQuitExactly | internal/server/tcp.go:149 | the quit test accepts exactly the four letters q, u, i, t in any case (U+0130 also counts as the i) and nothing else |
| RawConn.Conn.constructor | internal/listener/conn.go:21-27 | a new connection is open, has released nothing, and holds exactly the given descriptor and addresses (constants that no method changes) |
| RawConn.Conn.Read | internal/listener/conn.go:30-32 | reading passes the descriptor's `read(2)` result through and neither checks nor changes `closed` |
| RawConn.Conn.Write | internal/listener/conn.go:35-37 | writing passes the descriptor's `write(2)` result through and neither checks nor changes `closed` |
| RawConn.Conn.Close | internal/listener/conn.go:40-50 | the first call closes and releases the descriptor once, returning `close(2)`'s result; later calls return nil and release nothing |
| RawConn.Conn.SetDeadline | internal/listener/conn.go:63-65 | always returns nil and changes nothing |
| RawConn.Conn.SetReadDeadline | internal/listener/conn.go:68-70 | always returns nil and changes nothing |
| RawConn.Conn.SetWriteDeadline | internal/listener/conn.go:73-75 | always returns nil and changes nothing |
| RawConn.CloseRepeatedly | internal/listener/conn.go:44-49 | over any sequence of `Close` calls the descriptor is released at most once, and only the first call can report an error |
| RawListener.LocalhostIsRefused | internal/listener/listener.go:36-40 | a listener for `localhost` fails with `invalid IP address` once socket creation and socket options succeed |
| RawListener.OpenSocket | internal/listener/listener.go:21-56 | socket, setsockopt, parse, bind, listen in that order; the first failure gives its exact error; after socket creation every failure closes the socket exactly once, as the last call; success closes nothing and binds the requested port and IPv4 bytes |
| RawListener.NewCustomListener | internal/listener/listener.go:21-67 | on success an open listener with the new socket and bound address; otherwise the setup error and no listener; the socket is closed exactly on failure |
| RawListener.Listener.constructor | internal/listener/listener.go:58-62 | a new listener is open, holds the socket and address, and nothing waits in the hand-off |
| RawListener.Listener.Close | internal/listener/listener.go:76-86 | idempotent: the first call closes the socket once and returns `close(2)`'s result; repeats return nil and close nothing |
| RawListener.Listener.Accept | internal/listener/listener.go:70-73 | receives the handed-over connection and never returns an error |
| RawListener.Listener.AcceptStep | internal/listener/listener.go:99-124 | a closed listener exits; an accept error retries while open and exits once a racing `Close` closed it; an accepted descriptor becomes a fresh open connection with the IPv4 peer (or none) as remote address and `Addr()` as local address, handed over |
| Registry.StoreAllEntry | internal/server/tcp.go:82 | after a run of stores a key is present iff it was present or stored; it maps to the connection stored last under it; unstored keys keep their connection |
| Lifecycle.Ending | internal/server/tcp.go:70-80 | the loop goes round again exactly after a connection with a key or a `net.Error` |
| Lifecycle.RunSpec | internal/server/tcp.go:67-86 | every consumed event but the last lets the loop go round; the last decides the outcome; the loop is still accepting iff every event let it go round; the flag is cleared iff it stopped; a stopped loop consumes nothing |
| Lifecycle.FirstEndingDecides | internal/server/std.go:68-87 | the first event that ends the loop decides the outcome: a stop returns nil even when `Accept` failed meanwhile, a non-network error is returned, `net.Error`s are skipped |
| Lifecycle.StoreStep | internal/server/std.go:83 | one more accepted connection with a key is stored under it; any other event leaves the registry alone |
| Lifecycle.StoredKeys | internal/server/tcp.go:82 | the loop registers only connections it accepted, each under its own key |
| Protocol.Serve | internal/server/tcp.go:112-153 | the handler loop produces exactly the transcript `Session` specifies |
| Protocol.Replies | internal/server/tcp.go:138 | there is one response per line |
| Protocol.SessionWritesReplies | internal/server/tcp.go:119-147 | whatever the read and write results, the handler writes exactly `Server received: <trimmed line>` for the first lines it read, one per line, in order, and nothing else |
| Protocol.QuitEndsSession | internal/server/tcp.go:149-152 | a quit line gets its response and then the handler stops |
| Protocol.WriteErrorEndsSession | internal/server/tcp.go:139-147 | a failed or timed-out write ends the handler before the quit test |
| Protocol.FinishedSessionIgnoresMore | internal/server/std.go:103-144 | once the handler has returned, further input and write results change nothing |
| Protocol.HelloExample | internal/server/tcp.go:138 | the line `hello` is answered with exactly `Server received: hello` and a newline |
| Protocol.QuitExample | internal/server/std.go:120-143 | `  QUIT  ` is answered trimmed and then ends the session |
| Protocol.Split | internal/server/tcp.go:119 | a stream read line by line gives complete lines and then the unterminated rest with the end-of-stream error |
| Protocol.SplitDelivers | internal/server/tcp.go:119 | the pieces read put back together are the stream |
| Protocol.SplitLinesTerminated | internal/server/tcp.go:119 | every complete line read ends with its only terminator |
| Protocol.EchoStream | internal/server/std.go:110-143 | a stream with no quit line whose writes succeed gets one response per complete line, in order, none for the unterminated rest, and ends disconnected |
| RawServer.NeverFatal | internal/server/tcp.go:70-80 | on the only events the raw listener can produce (accepted connections and a stop between iterations), the accept loop never returns an accept error |
| RawServer.KeysDistinguishPeers | internal/server/tcp.go:82 | two raw connections share a registry key exactly when they have the same peer |
| RawServer.RawTCPServer.constructor | internal/server/tcp.go:27-38 | a new server is running, has no listener and no connections |
| RawServer.RawTCPServer.Start | internal/server/tcp.go:40-50 | a setup failure is returned as `failed to start server: <error>` and changes nothing; otherwise a fresh open listener on the requested port and address with an empty hand-off slot, followed by the accept loop |
| RawServer.RawTCPServer.Stop | internal/server/tcp.go:52-65 | always clears the flag; without a listener it returns nil and touches nothing; otherwise every registered connection is closed (its descriptor released at most once), the listener is closed with its hand-off slot untouched, and the listener's close result is returned |
| RawServer.RawTCPServer.AcceptConnections | internal/server/tcp.go:67-86 | the loop ends as `Run` says, and the registry is the old one with every accepted connection stored under its remote address, in order |
| RawServer.RawTCPServer.Iteration | internal/server/tcp.go:69-83 | one pass: store the accepted connection under its address or panic without one; skip a `net.Error`; return any other error; a stop returns nil |
| RawServer.RawTCPServer.HandleConnection | internal/server/tcp.go:88-154 | the session of `Session` is served, then the connection is always closed (released at most once) and its key deleted; without a remote address the handler panics after closing it |
| RawServer.CloseAll | internal/server/tcp.go:56-61 | every registered connection is closed, each releasing its descriptor at most once |
| StdServer.ListenAddressInjective | internal/server/std.go:41 | for a host without a colon, the listen address `host:port` determines host and port |
| StdServer.NeverCrashes | internal/server/std.go:83 | the standard accept loop never panics |
| StdServer.TCPServer.constructor | internal/server/std.go:26-37 | a new server is running, has no listener and no connections |
| StdServer.TCPServer.Start | internal/server/std.go:40-51 | listens on `address + ":" + port`; a failure is returned as `failed to start server: <error>` and changes nothing; otherwise the accept loop runs |
| StdServer.TCPServer.Stop | internal/server/std.go:53-66 | always clears the flag; without a listener it returns nil and closes nothing; otherwise closes every registered connection once and returns the listener's close result |
| StdServer.TCPServer.AcceptConnections | internal/server/std.go:68-87 | the loop ends as `Run` says, and the registry is the old one with every accepted connection stored under its remote address, in order |
| StdServer.TCPServer.Iteration | internal/server/std.go:70-84 | one pass: store the accepted connection; skip a `net.Error`; return any other error; a stop returns nil |
| StdServer.TCPServer.HandleConnection | internal/server/std.go:89-145 | the session of `Session` is served, then the connection is closed once and its key deleted |
| StdServer.CloseAll | internal/server/std.go:57-62 | every registered connection is closed exactly once |

## Left out

- System calls (`socket`, `setsockopt`, `bind`, `listen`, `accept`, `read`, `write`, `close`), `net.Listen` and the standard connections are outside the model. Their outcomes are parameters, and the standard connection and listener keep only their remote address text and a count of `Close` calls.
- The following are concurrency, and the model is sequential: goroutines, the `RWMutex` locks, `sync.Map`'s thread safety and `atomic.Bool`. Races appear only as the `Lifecycle.AcceptEvent` stop events and `RawListener.AcceptOutcome.ClosedWhileBlocked`.
- The unlocked read of `closed` at internal/listener/listener.go:110 is a data race. It is modelled as reading the value a racing `Close` left.
- `RawListener.Listener.AcceptStep` models one iteration of `acceptLoop`, not the goroutine that repeats it. The unbuffered channel is a one-place slot filled by the loop and emptied by `Accept`, and `Accept` on an empty slot returns no connection instead of blocking.
- Deadlines, `time.Now()`, durations and keep-alive periods are outside the model. A timeout is an abstract read or write outcome.
- `bufio.Reader` is outside the model. The handler sees the results of `ReadString('\n')`, and `Protocol.Split` models them for a stream that ends.
- `net.ParseIP` is a parameter. The model assumes only that a successful parse has an IP-literal text (hexadecimal digits, dots and colons).
- Text is a sequence of characters, not UTF-8 bytes, so invalid UTF-8 in a request is outside the model.
- Text.ToLower: lowers only the characters whose lower case is ASCII (A-Z, U+0130 and U+212A) and leaves every other character unchanged. The `quit` test is still exact, because no other character lowers to an ASCII letter.
- RawServer.RawTCPServer.Stop: the contract does not state that the connections are closed before the listener. The body closes them in that order.
- StdServer.TCPServer.Stop: the contract does not state that the connections are closed before the listener. The body closes them in that order.
- RawServer.RawTCPServer.Start: the contract gives the listener's setup error but not the system-call trace. The trace is `RawListener.OpenSocket`'s.
- Logging (pkg/logger/logger.go is not part of this model) is left out, as are the command-line and example programs, apart from the `localhost` address they pass.
- `recover()` only logs. The model keeps what follows it: the cleanup runs on every exit path.
- Std's `TCPAddr.String()` text is a constant of each standard connection, and IPv6 formatting is not modelled.
