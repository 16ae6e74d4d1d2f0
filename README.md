# dusnet in Dafny

A model of the core of dusnet, a small TCP server framework written in Go. The model covers:

- the packet and its length-prefixed binary frame:
  - a 4-byte id, a 2-byte type and a 4-byte length, all big-endian, then the body;
- the default codec that writes and reads such frames;
- the connection and the connection registry:
  - ids from a wrapping 64-bit counter;
  - a pool from id to connection;
  - removal that marks a connection dead and closes it;
- the handlers:
  - the route handler, which decodes one packet per round and dispatches it by packet id;
  - the ping, sync and rpc child handlers;
  - the child-handler table;
  - the handler builder;
- the server:
  - its default construction;
  - the per-connection session, which runs rounds until one fails and then removes the connection;
  - `Stop`, which tears down every live connection and returns at the first close error.

Modules follow the Go packages:

| Module | Contents |
|---|---|
| `Status` | Errors, outcomes and options. |
| `Binary` | Fixed-width unsigned integers and their big-endian bytes. |
| `Packets` | The packet. |
| `Codecs` | The frame format and the codec. |
| `Connections` | The connection, the registry and `connect.New`. |
| `Handlers` | The handlers, the table and the builder. |
| `Servers` | The server. |

Each part takes the form of its source:

- The packet, the connection, the registry, the handlers, the handler table and the server are classes. Their methods update fields in place.
- The frame format is a set of pure functions with proved round trips:
  - `EncodeSpec` writes a frame;
  - `ParseFrame` reads one from the front of a stream.
- A session's whole run is specified by the function `Serve`. `Serve` repeats `Cycle`, which is the specification of one `HandleMsg0` round.
- The imperative session loop is proved to produce exactly `Serve`'s bytes read, bytes written and outcome.

## How the model reads the environment

The network is not modelled as such:

- An accepted socket becomes a `Connections.Socket` value:
  - the remote host;
  - the bytes the peer will send;
  - whether `Close` and `Write` will fail.
- A `Conn` reads from and appends to sequences.
- A read of n bytes either takes n bytes or fails and takes nothing.
- `connect.New` receives the result of the accept as an `Option<Socket>`. `None` stands for a failed accept.
- The child-handler table is a global map in Go. Here it is a `HandlerTable` object passed to the route handler.

## Notes on the code

- `RemoveConnBySrcHost` keeps the last match its iteration over the unordered pool meets, so which of several connections with the same host is removed is not determined. The model removes some matching connection.
- `GenConnID` increments a `uint64` counter, which wraps: the model counts modulo 2^64.
- `Encode` writes the packet's own `Length` when it is nonzero, without checking it against the body. Only a zero length is filled in with the body size.
- The session removes its connection only when the accept produced one. A nil connection fails its first round and nothing is removed.

## Model

| member | source | states |
|---|---|---|
| Binary.ReadBE16OfBE16 | codec/zcodec.go:39-40 | The big-endian type field is 2 bytes, and reading it back gives the value written. |
| Binary.BE16OfReadBE16 | codec/zcodec.go:84 | Any 2 bytes are the big-endian encoding of the value read from them. |
| Binary.ReadBE32OfBE32 | codec/zcodec.go:33-34 | The big-endian id and length fields are 4 bytes, and reading them back gives the value written. |
| Binary.BE32OfReadBE32 | codec/zcodec.go:69 | Any 4 bytes are the big-endian encoding of the value read from them. |
| Packets.LazyLengthIdempotent | packet/zpacket.go:54-59 | Filling in the lazy length a second time changes nothing. |
| Packets.LazyLength | packet/zpacket.go:54-59 | The effect of `GetBodyLen` on a packet: only the length changes. A zero length becomes the body size (truncated to 32 bits). A nonzero length is kept. |
| Packets.Packet.GetType | packet/zpacket.go:26-28 | The packet's type field. |
| Packets.Packet.GetID | packet/zpacket.go:34-36 | The packet's id field. |
| Packets.Packet.GetData | packet/zpacket.go:38-40 | The packet's body. |
| Packets.Packet.GetHeadLen | packet/zpacket.go:50-52 | One less than the 10-byte head, whatever the packet holds. |
| Packets.Packet.constructor | codec/zcodec.go:61 | A new packet is all zero with an empty body. |
| Packets.Packet.SetType | packet/zpacket.go:30-32 | The type becomes `u`; no other field changes. |
| Packets.Packet.SetID | packet/zpacket.go:42-44 | The id becomes `v`; no other field changes. |
| Packets.Packet.SetData | packet/zpacket.go:46-48 | The body becomes `bytes`; no other field changes. |
| Packets.Packet.GetBodyLen | packet/zpacket.go:54-59 | Returns the length after filling it in lazily from the body size; the packet keeps that length. |
| Codecs.ParseFrame | codec/zcodec.go:60-115 | Never consumes more than the input. A success has a nonzero id, a defined type and a body of exactly `length` bytes, and consumes head plus body. |
| Codecs.FrameFields | codec/zcodec.go:31-58 | A frame followed by anything is 10 + body bytes of head and body. Its first 10 bytes read back as id, type and length, followed by the body. |
| Codecs.DecodeOfFrame | codec/zcodec.go:60-115 | Decoding a well-formed frame followed by any bytes yields exactly its id, type, length and body and consumes only that frame. |
| Codecs.FrameOfDecode | codec/zcodec.go:60-115 | Conversely, whatever decodes successfully is, in its consumed prefix, exactly the frame of the decoded fields. |
| Codecs.EncodeDecodeRoundTrip | codec/zcodec.go:31-115 | Encoding a packet with a defined type, a nonzero id and a length of 0 or the body size, then decoding, gives back the packet with the length set to the body size. |
| Codecs.EncodeSpecLayout | codec/zcodec.go:31-58 | An encoded packet is a 10-byte head plus the body. It holds the big-endian id at bytes 0-3 and the type at bytes 4-5. When the length was 0, bytes 6-9 hold the body size. |
| Codecs.ZeroIdRejected | codec/zcodec.go:74-76 | Any input whose first 4 bytes read as id 0 is rejected after those 4 bytes, whatever follows (even nothing). |
| Codecs.UndefinedTypeRejected | codec/zcodec.go:89-91 | Any input with a nonzero id followed by a type outside 1234..1236 is rejected after 6 bytes, naming the type, whatever follows. |
| Codecs.WholeFrameAccepted | codec/zcodec.go:106-114 | After a nonzero id and a defined type, a body as long as the announced length is read whole: decoding yields the head's fields and that body, consuming exactly head and body. |
| Codecs.TruncatedBodyRejected | codec/zcodec.go:106-112 | A stream that ends inside the body fails the read after the 10-byte head. |
| Codecs.PingFrameBytes | codec/zcodec.go:31-58 | A packet for id 1000 of type 1234 with body "ping" encodes to these 14 bytes, whether its length is given as 4 or left at 0. |
| Codecs.HeadLenShortOfHeader | packet/zpacket.go:50-52 | `GetHeadLen` reports 9, one less than the 10-byte head every frame carries. |
| Codecs.Codec.Encode | codec/zcodec.go:31-58 | Writes `EncodeSpec` of the packet as it was. The packet keeps the lazily filled-in length. |
| Codecs.Codec.Decode | codec/zcodec.go:60-115 | Consumes exactly what `ParseFrame` consumes from the connection. Returns its error, or a fresh packet holding its value. |
| Codecs.Default | codec/zcodec.go:24-26 | The default codec, the only codec there is; what it does is stated on `Codec.Encode` and `Codec.Decode`. |
| Connections.Conn.constructor | connect/connection.go:110-114 | A new connection is alive, not closed, with an empty output. It carries its id and the socket's host, input and failure modes. |
| Connections.Conn.Read | connect/connection.go:86-89 | Takes the next n bytes when there are that many. Otherwise fails and takes nothing. |
| Connections.Conn.Write | connect/connection.go:91-94 | Appends the bytes to the output, or fails and writes nothing. |
| Connections.Conn.Close | connect/connection.go:119-121 | Closes the connection, or fails and leaves it as it was. |
| Connections.Conn.SetAlive | connect/connection.go:64-66 | Sets the alive flag. |
| Connections.ConnectionMgr.constructor | connect/connection.go:56-62 | A new registry has counter 0 and an empty pool. |
| Connections.ConnectionMgr.GenConnID | connect/connection.go:51-54 | Increments the 64-bit counter, wrapping, and returns the new value. |
| Connections.ConnectionMgr.AddConn | connect/connection.go:131-143 | A live connection is stored under its id, and lookup then finds it. A nil or dead connection leaves the pool as it was. |
| Connections.ConnectionMgr.GetConnByID | connect/connection.go:145-152 | Non-nil exactly when the id is in the pool, and then the pooled connection. |
| Connections.ConnectionMgr.All | connect/connection.go:154-161 | Every pooled connection exactly once, each stored under its own id. |
| Connections.ConnectionMgr.GetConnBySrcHost | connect/connection.go:163-176 | Empty for the empty host. Otherwise exactly the pooled connections with that remote host, without repeats. |
| Connections.ConnectionMgr.RemoveConnByID | connect/connection.go:178-186 | An unknown id is a no-op returning Ok. Otherwise the pooled connection is removed as `doRemoveConn` does. |
| Connections.ConnectionMgr.DoRemoveConn | connect/connection.go:188-199 | A live connection is marked dead and closed. If closing fails, the error is returned and the entry stays (still dead). A dead connection is deleted without closing. |
| Connections.ConnectionMgr.RemoveConnBySrcHost | connect/connection.go:201-216 | With no match, Ok and nothing changes. Otherwise one connection with that host is removed as by `doRemoveConn`, and all others are unchanged. |
| Connections.New | connect/connection.go:101-117 | A failed accept gives nil and leaves the registry alone. Otherwise it gives a fresh live connection numbered by the next counter value and stored in the pool. |
| Connections.RemoveTwice | connect/connection.go:178-199 | Removing an id twice: the second removal always succeeds and the id is gone. The first can fail only with a close error. |
| Connections.FreshRegistryIds | connect/connection.go:51-62 | A fresh registry hands out ids 1, then 2. |
| Handlers.PongBytes | handler/ping1000Handler.go:13-18 | The pong for id i is i's 4 bytes, type 0, length 4 and "pong". For id 1000 these are 14 fixed bytes. |
| Handlers.PongNotDecodable | handler/ping1000Handler.go:15-17 | Decoding a pong always fails: with type 0 undefined after 6 bytes, or as a zero id after 4 bytes when the ping's id was 0. |
| Handlers.Respond | handler/ping1000Handler.go:13-18 | A child's reply: only a ping handler on a failing connection fails, with the write error. Exactly a ping handler on a working connection writes, and what it writes is the pong for the packet's id. Sync and rpc (handler/sync2000Handler.go:12-15, handler/rpc3000Handler.go:12-15) succeed silently. |
| Handlers.Cycle | handler/zhandler.go:59-77 | One round never consumes more than the input. A successful round was on a live connection, decoded a whole packet and consumed exactly that packet. Only an id in the table is dispatched. |
| Handlers.DecodeErrorRound | handler/zhandler.go:64-68 | A decode error is the round's error as it is, after consuming what the decoder read; no child runs and nothing is written. |
| Handlers.RoutedRound | handler/zhandler.go:72-75 | A decoded packet whose id is in the table goes to that child: the round's outcome and output are that child's reply, after consuming exactly the packet. |
| Handlers.CycleWrites | handler/zhandler.go:59-77 | A round on a dead connection fails at once, reading and writing nothing. Any round writes either nothing or, when a ping handler got the packet, the pong for that packet's id. |
| Handlers.UnroutableRound | handler/zhandler.go:72-76 | A well-formed packet whose id has no child handler fails the round with the type and id, after consuming the packet and writing nothing. |
| Handlers.Handler.constructor | handler/router.go:23-30 | A handler of the given kind and codec with no connection. |
| Handlers.Handler.CopyOf | handler/ping1000Handler.go:13 | The value receiver of the ping handler: a copy with the same codec and connection. |
| Handlers.Handler.SetConn | handler/zhandler.go:105-107 | Binds the connection. |
| Handlers.Handler.BindConn | handler/zhandler.go:79-81 | Binds the connection. |
| Handlers.Handler.SetCodec | handler/zhandler.go:83-85 | Sets the codec. |
| Handlers.Handler.Write | handler/zhandler.go:42-52 | Installs the default codec when none is set. Writes the encoded packet to the connection or returns the write error, and fills in the packet's lazy length. |
| Handlers.Handler.HandleMsg | handler/ping1000Handler.go:13-18 | Ping answers with the pong for the packet's id and returns the write outcome. Sync and rpc do nothing and return Ok. Only the output changes. |
| Handlers.Handler.HandleMsg0 | handler/zhandler.go:59-77 | Fails at once with no connection or a dead one. Otherwise it does exactly `Cycle`'s reading, writing and outcome. Only the dispatched child handler is bound to the connection. |
| Handlers.HandlerTable.constructor | handler/router.go:23-30 | The initial table: sync at 2000 without a codec, rpc at 3000 with the default codec. |
| Handlers.HandlerTable.RegisterChildHandler | handler/router.go:15-17 | Stores the handler under the id, replacing any earlier one. |
| Handlers.HandlerTable.AllChildHandlers | handler/router.go:19-21 | The table itself; in a valid table every entry is a child handler, never the route handler. |
| Handlers.StartupTable | main.go:23-26 | After registering the ping handler, the table routes 1000, 2000 and 3000 to ping, sync and rpc. |
| Handlers.Builder.Codec | handler/zhandler.go:87-90 | Sets the codec on the built handler and returns the same builder. |
| Handlers.Builder.Conn | handler/zhandler.go:100-103 | Binds the connection on the built handler and returns the same builder. |
| Handlers.Builder.Build | handler/zhandler.go:92-94 | The handler the builder wraps, not a copy, so what `Codec` and `Conn` set on it shows in the result. |
| Handlers.RouteBuilder | handler/zhandler.go:96-98 | A builder around a fresh route handler with no codec and no connection. |
| Servers.Serve | server/zserver.go:74-91 | A session always ends in failure and never consumes more than its input. |
| Servers.ServeStep | server/zserver.go:75-89 | A failed round ends the session with that round's result. A successful one is followed by the session on the rest of the input. |
| Servers.ProgressAtStart | server/zserver.go:74-75 | Before any round the session's result is all still to come. |
| Servers.ServeAdvance | server/zserver.go:75-89 | Running one more round keeps the session's total. It either moves the split point forward or, on failure, fixes the session's outcome and the totals consumed and written. |
| Servers.SilentWithoutPing | server/zserver.go:74-91 | A session writes nothing unless some id routes to a ping handler. |
| Servers.DeadSession | server/zserver.go:76-88 | A session on a dead connection reads nothing, writes nothing and fails with "not alive". |
| Servers.PingSession | main.go:23-26 | With the startup table, one ping for 1000 is answered by the 14-byte pong. The session then ends when the stream runs dry. |
| Servers.ClientSession | client/main.go:25-45 | The demo client's packet (type 1234, a 36-byte body with its length, id 1000, 2000 or 3000) is 46 bytes. Under the startup table the session answers id 1000 with the pong and writes nothing for 2000 and 3000; it then ends when the client closes. |
| Servers.UnroutableSession | server/zserver.go:76-88 | A packet for the unregistered id 4000 ends the session, consuming it and writing nothing. |
| Servers.StopOutcome | server/zserver.go:113-125 | Connects the per-connection facts of the stop loop with `Stop`'s promise: Ok exactly when no live connection fails to close, and then every connection is handled. On failure there is one failing connection, and every other one is handled or untouched. |
| Servers.Server.Default | server/zserver.go:31-40 | The default server: a fresh route handler with the default codec and no connection, and a fresh empty registry. |
| Servers.Server.Session | server/zserver.go:74-91 | With no connection, the registry and its connections are left as they were. Otherwise the input consumed and the output written are exactly `Serve`'s. A connection in the pool is then removed: dead, closed unless closing failed, and deleted unless closing failed. Nothing else in the pool changes. |
| Servers.Server.SessionOn | server/zserver.go:75-88 | The same for an accepted (non-nil) connection: `Serve`'s bytes, then removal by id. |
| Servers.Server.ServeRounds | server/zserver.go:75-89 | The loop of rounds reads and writes exactly what `Serve` says and returns `Serve`'s outcome, the error of the round that ended it. The connection's flags are untouched. |
| Servers.Server.RunRound | server/zserver.go:76-77 | One round after k rounds: the round is `Cycle` on the rest of the input, and the totals advance by it. |
| Servers.Server.Stop | server/zserver.go:113-125 | Ok exactly when no live connection's close fails. Then every live connection is dead, closed and out of the pool, and every dead one is untouched. Otherwise it returns the close error with one connection dead, unclosed and still pooled, and each other connection handled or untouched. The pool only shrinks. |
| Servers.Server.StopLoop | server/zserver.go:116-123 | After the loop every listed connection is handled, or the loop stopped at one whose close failed with the rest untouched. |
| Servers.Server.StopAt | server/zserver.go:117-122 | One pass: a live connection is removed by id (handled) or its close fails; a dead one is left alone. No other connection changes. |
| Servers.PingScenario | main.go:23-33 | The default server with the startup table, given a ping packet for 1000 with body "ping", writes the 14-byte pong. It then ends the session with the connection dead, closed and removed. |
| Servers.StartupServer | main.go:23-27 | The setup of `startServer`: the table with the ping handler registered at 1000 (with the default codec) beside sync and rpc, the default server, and one accepted live connection carrying a ping packet for the given id, registered under its id. |
| Servers.UnroutableScenario | server/zserver.go:74-91 | The same server given a packet for id 4000 writes nothing, then removes the connection. |

## Left out

- Concurrency is not modelled:
  - the `sync.Map` pool is a map;
  - sessions run one at a time;
  - the unsynchronised counter increment in `GenConnID` and the local `idLock` in `connect.New` have no effect here;
  - the route handler shared between sessions is modelled, but not interleavings between sessions.
- `server.Start`'s address resolution, listener and accept loop, and its goroutines are not modelled. The model keeps the body of one session goroutine (`Servers.Server.Session`) and `connect.New` applied to one accept result.
- Logging, `printServerEnv`, and the `main` and client processes are not modelled. `startServer`'s setup is `Servers.StartupServer`; the frame the client sends is the subject of `Servers.ClientSession`.
- `server.New` with a caller-supplied handler and registry is not modelled. Only `Default` is.
- Connection address getters and ports, `GetID`, `Alive`, the socket's local host, and the connection timestamps are not modelled. `Conn` keeps its id and remote host as constants.
- `SetID` on a connection is not modelled: the id is fixed at creation, which is the only way the code sets it.
- Servers.Serve: the end of the connection's input stands for the peer closing the connection, and then the next read fails. A peer that keeps the connection open and sends nothing makes `conn.Read` block for ever (connect/connection.go:86-88 sets no deadline). A session never ends then. `Serve` always ending in failure relies on a finite input.
- Handlers.Handler.HandleMsg0 requires a codec. A route handler built without `.Codec(...)` makes Go panic at handler/zhandler.go:64. The model does not cover that panic: `Servers.Server.Default` always installs the default codec.
- Handlers.Handler.Write requires a connection. With none, Go panics at handler/zhandler.go:51. It is reached only through a child handler that `HandleMsg0` has just bound to a live connection.
- Codecs.Codec.Decode leaves out the `binary.Read` error branches (codec/zcodec.go:69-73, 84-88, 100-104): decoding a fixed-width integer from a full buffer of its own size cannot fail.
- Codecs.TruncatedBodyRejected holds under the all-or-nothing read of this model. In Go, a peer that sends part of the body and then closes gives a short read without error on the first `Read`. The body is then returned padded with zero bytes, not rejected.
- Connections.Conn.Read: a short read that fills only part of the buffer is not modelled, so a read takes all n bytes or fails and takes nothing.
- Connections.Conn.Write: a failed write that has already sent part of the buffer is not modelled. Go's `Write` can return n < len(b) together with its error. In the model a write appends all the bytes or fails and writes nothing.
- Connections.Conn.Read and Connections.Conn.Write on a closed connection succeed in the model. Only connections the registry has already marked dead are closed, so no session reads them again.
- Codecs.Codec.Encode is total: the error paths of `binary.Write` into an in-memory buffer cannot be taken for these field types.
- Handlers.Handler.HandleMsg0: the debug log's call to `GetBodyLen` is left out. After a successful decode the length already equals the body size, so the call changes nothing.
- Servers.Server.Session: the error from removing the connection is only logged by the source, and the model discards it too.
- Connections.ConnectionMgr.RemoveConnBySrcHost removes some connection with that host. It does not say which, because the code keeps the last match of an iteration over an unordered map.
- Connections.ConnectionMgr.All returns the pool's connections in no particular order, as `sync.Map.Range` does.
- The logger package is not part of this model.

## Findings

| source | as written | input that shows it | evidently intended | confidence | as-written member | corrected member |
|---|---|---|---|---|---|---|
| packet/zpacket.go:50-52 | `GetHeadLen` returns 9 | any packet: its encoded head is id (4) + type (2) + length (4) = 10 bytes | 10, the size of the head the codec writes and reads | medium, not executed (nothing in the repository calls `GetHeadLen`) | Codecs.HeadLenShortOfHeader | Codecs.EncodeSpecLayout |
