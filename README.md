# sev: the write queue and connection state machine, in Dafny

sev is a small C library of callback-driven TCP connections on top of libev.
An application calls `sev_send(conn, data, len)`; the library keeps a copy
in a per-connection FIFO of heap buffers. Each buffer has a cursor, `start`.
Whenever the socket becomes writable, the library sends from the head
buffer's cursor, advances the cursor by the number of bytes `send` took, and
frees the buffer once it has been sent completely. The per-connection flag
`writing` says whether the write watcher is started. It is set by the first
send and cleared when the queue runs empty. Reads deliver each `recv`
result to the user's read callback. End of stream closes the connection.
Close calls the close callback, closes the socket, stops the watchers and
frees every buffer still queued.

The design exists in two layouts, and both are modelled:

- the newer one, where a stream (`struct sev_stream`, sev/sev.c) drives a
  separate queue object (`struct sev_queue`, sev_queue.c);
- the older one, where a client (`struct sev_client`, sev.c) holds the
  buffer list inline.

Modules, leaves first:

| file | module | models |
|---|---|---|
| bytes.dfy | `Bytes` | octets, and byte runs laid end to end (`Flatten`) |
| queue_model.dfy | `QueueModel` | a queue as a value: a list of `Chunk(data, start)`, its pending bytes, and the effect of sending `n` bytes from the head (`Advanced`) |
| machine.dfy | `Machine` | one connection as a value (queue, `writing`, read/write watcher flags, ghost histories of send arguments and of bytes sent), its invariant, one step function per operation, the calls each step makes (`Effect`), and replays of whole event sequences |
| sev_queue.dfy | `SevQueue` | sev_queue.c: classes `Buffer` and `Queue` |
| listener.dfy | `Listener` | `struct sev_server` and its initialisation (the same in both layouts) |
| ports.dfy | `Ports` | 16-bit port numbers and network byte order |
| sev_stream.dfy | `SevStream` | sev/sev.c: class `Stream` over a `Queue` |
| sev_legacy.dfy | `SevLegacy` | sev.c: class `Client` with the list inline |

Each method of `Stream` and `Client` is proved to be one step of
`Machine`. Its `ensures` says that the new `View()` and the returned calls
are exactly what the machine's step function gives for the old view. The
properties of the steps are proved once, as lemmas of `Machine`, and they
carry over to both classes:

- the invariant holds: `writing` is set exactly when the queue is non-empty,
  and the write watcher is started exactly when `writing` is set;
- every cursor stays within its buffer;
- the queue holds copies of the latest send arguments, in call order;
- the bytes handed to `send`, followed by the bytes still queued, are all
  send arguments concatenated in call order;
- each buffer is released once, in order;
- the close sequence is fixed.

The environment appears as inputs:

- the results of `socket`, `bind`, `listen`, `accept`, `send` and `recv`
  are parameters of the methods;
- libev watchers are two booleans per connection;
- the user's callbacks are "is set" flags on the server;
- the calls the model records (into libev, libc and the callbacks) form a
  returned list of `Effect` values, in the order the code makes them. The
  `ev_io_start` calls that start the read watcher of a new connection
  (sev/sev.c:170) and the accept watcher (sev/sev.c:215) are not in that
  list: they appear only as the flags `readWatch` and `watching`.

The example programs call an API that the library sources do not have.
example/client.c:55-69 opens a stream with `sev_connect`, sets per-stream
`read_cb`/`close_cb` and runs `sev_loop`. example/example.c:51 compares the
result of `sev_send` with -1, while the library declares `sev_send` as `void`
(sev/sev.c:230). The model follows the library code: `sev_send` always queues
and returns nothing, and close frees the connection. In the model, a closed
connection is no longer `Valid()`, and no operation accepts it again.

The older layout's sev.c uses fields of `struct sev_client` that sev.h does
not declare: `w_read`, `w_write`, `writing` and `head`. The model follows
the fields that sev.c uses.

## Model

| member | source | states |
|---|---|---|
| QueueModel.Fresh | sev_queue.c:30-38 | a new buffer is well formed, nothing of it is sent, and its unsent bytes are exactly the data copied in |
| QueueModel.Unsent | sev/sev.c:60-61 | the bytes `send` is offered are the buffer's data after the cursor; there are `len - start` of them, and the sent prefix followed by them is the whole buffer |
| QueueModel.PendingAppend | sev_queue.c:79-83 | linking a buffer at the tail keeps every cursor in bounds and appends its unsent bytes after all bytes already pending |
| QueueModel.Advanced | sev/sev.c:70-73 | after `send` took `n` bytes of the head, the head is dropped exactly when it is then fully sent; otherwise the list keeps its length |
| QueueModel.AdvancedKeepsData | sev/sev.c:70-73 | sending touches no buffer's data: the contents afterwards are the contents before, less the head once finished, and every buffer behind the head is the same buffer |
| QueueModel.AdvancedKeepsOrder | sev/sev.c:70-73 | after `send` took `n` bytes of the head, every cursor is still within its buffer, and the `n` bytes sent followed by what is pending afterwards are what was pending before |
| SevQueue.Buffer.constructor | sev_queue.c:30-38 | `sev_buffer_new` gives `start == 0`, `len` as asked, and data equal to the first `len` bytes of the caller's array |
| SevQueue.AdvanceFirst | sev/sev.c:70 | `buffer->start += n` moves the head's cursor by `n` and leaves every other buffer of the list as it was |
| SevQueue.Queue.constructor | sev_queue.c:46-51 | `sev_queue_new` gives an empty list |
| SevQueue.Queue.Head | sev_queue.c:67-70 | `sev_queue_head` is null exactly when the list is empty, and otherwise it is the oldest buffer |
| SevQueue.Queue.FreeHead | sev_queue.c:72-77 | `sev_queue_free_head` (on a non-empty list only) removes exactly the first buffer and keeps the rest in order |
| SevQueue.Queue.AdvanceHead | sev/sev.c:70 | advancing the head's cursor changes only the head's `start` |
| SevQueue.Queue.Consume | sev/sev.c:70-75 | the queue side of a successful send: the head is freed exactly when its cursor reaches `len`, the new list is `Advanced(old list, n)`, and `empty` tells whether the list is now empty |
| SevQueue.Queue.PushBack | sev_queue.c:79-83 | `sev_queue_push_back` adds exactly one fresh buffer at the tail, holding a copy of the caller's bytes with cursor 0; earlier buffers are unchanged and in order |
| SevQueue.Queue.Free | sev_queue.c:53-65 | `sev_queue_free` visits and releases every buffer once, head first (the released data are the queue's contents in order), and leaves the list empty |
| SevQueue.PushCopy | sev_queue.c:35-36 | a queued buffer keeps the bytes the caller passed even after the caller overwrites its array |
| SevQueue.PushAll | sev_queue.c:79-83 | pushing a sequence of runs one after another leaves a queue whose contents are those runs in push order |
| SevQueue.DrainAll | sev_queue.c:67-77 | taking `sev_queue_head` and `sev_queue_free_head` until the head is null yields the buffers' data oldest first |
| SevQueue.PushThenDrain | sev_queue.c:67-83 | FIFO: any runs pushed through scratch arrays, then drained with head/free_head, come out exactly as pushed |
| Machine.Accepted | sev/sev.c:168-180 | the state `accept_cb` sets up (read watcher started, write watcher not, `writing == 0`, empty queue) satisfies the connection invariant |
| Machine.Recv | sev/sev.c:103-118 | a negative `recv` result is an error, zero is end of stream, and a positive `n` (at most 2047) delivers exactly the first `n` bytes of the receive buffer |
| Machine.Send | sev/sev.c:230-238 | `sev_send` always queues a copy: the contents and the send history are extended by the argument, `writing` is set, the read watcher and the sent bytes are untouched, and the write watcher is started exactly when `writing` was clear |
| Machine.Write | sev/sev.c:56-81 | a -1 result is a no-op; otherwise the send history and the read watcher are untouched, and `writing` and the write watcher are cleared exactly when this write finishes the last buffer |
| Machine.CloseEffects | sev/sev.c:83-98 | the close sequence: the close callback first exactly when set, then close the socket, stop the read watcher, stop the write watcher exactly when `writing`, one release per queued buffer, and freeing the connection last; its length counts these |
| Machine.ReadEffects | sev/sev.c:100-119 | the three outcomes of a read: no call on a `recv` error, the close sequence at end of stream, and otherwise one read callback with the received bytes if a read callback is set, none if not |
| Machine.Releases | sev_queue.c:53-65 | the free loop makes one release per buffer, the head's first |
| Machine.SendKeepsInv | sev/sev.c:230-238 | `sev_send` keeps the invariant, appends its argument to the queue's contents and to the send history, leaves the sent bytes alone, releases nothing, and starts the write watcher exactly when the queue was empty |
| Machine.SendKeepsOrder | sev/sev.c:230-238 | after a send, the bytes sent followed by the bytes pending are still all send arguments concatenated in call order |
| Machine.SendKeepsMirror | sev/sev.c:230-238 | after a send, the queue still holds copies of the latest send arguments in call order, with only the head partly sent |
| Machine.SendInv | sev/sev.c:230-238 | `sev_send` keeps the connection invariant |
| Machine.SendMatchesWatchers | sev/sev.c:234-237 | the watcher call a send makes leaves the watchers started exactly as its flags say |
| Machine.WriteInv | sev/sev.c:56-81 | a write-readiness event keeps the invariant, so `stream_write` never meets an empty queue |
| Machine.WriteTakesNext | sev/sev.c:63-70 | on -1 nothing changes at all (queue, cursor, `writing`, watchers, no calls); otherwise the bytes `send` took are the next `n` pending bytes, and the send history is untouched |
| Machine.WriteReleases | sev/sev.c:72-80 | a write releases the head buffer exactly when it is fully sent, stops the write watcher exactly when that was the last buffer, and the released data followed by what is still queued is the queue before |
| Machine.WriteKeepsOrder | sev/sev.c:56-81 | after a write every cursor is within its buffer, and the bytes sent followed by the bytes pending are still all send arguments in call order |
| Machine.WriteKeepsQueueMirror | sev/sev.c:72-80 | after a write the queue still holds copies of the latest send arguments, in call order, with only the head partly sent |
| Machine.WriteKeepsWatchers | sev/sev.c:75-79 | after a write, `writing` and the write watcher are on exactly when the queue is non-empty |
| Machine.WriteKeepsMirror | sev/sev.c:72-80 | after a write the queue still mirrors the latest send arguments, and `writing` and the write watcher are on exactly when the queue is non-empty |
| Machine.WriteMatchesWatchers | sev/sev.c:75-79 | the watcher calls a write makes leave the watchers started exactly as its flags say |
| Machine.ReleasesOnly | sev_queue.c:53-65 | releasing the queued buffers touches no watcher and releases exactly the queue's buffers, in order |
| Machine.CloseStopsWatchers | sev/sev.c:85-95 | the close calls before the buffers are freed stop both watchers (given that the write watcher is started exactly when `writing` is set) and release nothing |
| Machine.CloseStopsEveryWatcher | sev/sev.c:83-98 | on a connection with the invariant, close leaves no watcher started: the read watcher always stopped, the write watcher stopped exactly when `writing` |
| Machine.CloseReleasesQueue | sev/sev.c:83-98 | close releases every queued buffer exactly once, oldest first, and the last thing it does is free the connection |
| Machine.CloseCallsBackOnce | sev/sev.c:85-86 | the close callback, when set, is called exactly once and before everything else; when not set it is never called |
| Machine.SendKeeps | sev/sev.c:230-238 | a send keeps the invariant, extends the send history by its argument, accounts for every buffer (released followed by queued is queued before followed by the argument), and its watcher calls match the flags |
| Machine.WriteKeeps | sev/sev.c:56-81 | the same for a write-readiness event, which adds no argument |
| Machine.DeliverKeepsInv | sev/sev.c:128-129 | every event that can reach a live connection (a send call, or a write event while the write watcher is started) keeps all of the above |
| Machine.RunReaches | sev/sev.c:56-81 | after any sequence of sends and write events from a fresh connection, the invariant holds, the send history is the send arguments, and released buffers followed by queued buffers are exactly the send arguments |
| Machine.RunKeepsOrder | sev/sev.c:56-81 | strict FIFO over any run (with `sev_send` at sev/sev.c:230-238): the bytes handed to `send` followed by the bytes still queued equal all send arguments concatenated in call order; the write watcher is on only with a non-empty queue; the watcher flags are what the reactor calls made them |
| Machine.LifetimeReleasesEachBufferOnce | sev/sev.c:42-52 | closing after any run releases every buffer ever queued exactly once, in send order, and leaves no watcher started |
| Listener.Server.Init | sev.c:188-222 | `sev_server_init` (also `sev_listen`, sev/sev.c:189-223) returns -1 exactly when `socket`, `bind` or `listen` returns -1, and then leaves the struct untouched; otherwise it returns 0 with the accept watcher started, `sd` set and every callback and the user data field unset |
| Ports.Swap | sev/sev.c:202 | `htons` on a little-endian host swaps the two octets of the port |
| Ports.PeerPortAsWrittenIsSwapped | sev/sev.c:162 | the port `accept_cb` records for a peer on port 80 is 20480 |
| Ports.PeerPort | sev/sev.c:162 | the corrected peer port, in host order, is the value whose network-order form is the one `accept` filled in |
| Ports.PeerPortRecoversPort | sev/sev.c:162 | the corrected peer port is the port the peer actually used |
| SevStream.Stream.constructor | sev/sev.c:160-180 | a new stream is valid and in the accepted state: read watcher started, write watcher not, `writing == 0`, empty queue |
| SevStream.Stream.Send | sev/sev.c:230-238 | `sev_send` is exactly the machine's send step (copy queued, watcher started on 0 to 1 only), and the stream stays valid |
| SevStream.Stream.Enqueue | sev/sev.c:230-238 | the body of `sev_send` performs the machine's send step on the stream's fields and queue |
| SevStream.Stream.Write | sev/sev.c:56-81 | `stream_write` with send result `n` is exactly the machine's write step, and the stream stays valid |
| SevStream.Stream.Transmit | sev/sev.c:56-81 | the body of `stream_write` performs the machine's write step: nothing on -1, cursor advanced by `n`, head freed when finished, watcher stopped when the queue empties |
| SevStream.Stream.Read | sev/sev.c:100-119 | `stream_read` makes exactly the calls of the three outcomes: none on error, the close sequence on end of stream, one read callback with exactly the `n` received bytes otherwise; the stream is unchanged unless closed |
| SevStream.Stream.Close | sev/sev.c:83-98 | `stream_close`/`sev_close` makes exactly the fixed close sequence and leaves no watcher started and the stream dead |
| SevStream.Stream.Free | sev/sev.c:42-52 | `sev_stream_free` releases every queued buffer in order, then the stream |
| SevStream.Accept | sev/sev.c:135-185 | nothing on an `accept` failure; otherwise a fresh valid stream in the accepted state with the accepted descriptor, its port recorded as `sin_port` holds it, unconverted (see Findings), and the open callback exactly when it is set |
| SevLegacy.Client.constructor | sev.c:160-179 | a new client is valid and in the accepted state with an empty inline list |
| SevLegacy.Client.Send | sev.c:229-238 | `sev_send` is exactly the machine's send step, and the client stays valid |
| SevLegacy.Client.Enqueue | sev.c:229-238 | the body of `sev_send`: a new buffer with a copy of the bytes at the tail of the list, watcher started on 0 to 1 only |
| SevLegacy.Client.LinkTail | sev.c:231-232 | `STAILQ_INSERT_TAIL` adds the buffer after the last one and changes no other buffer |
| SevLegacy.Client.Write | sev.c:55-81 | `client_write` with send result `n` is exactly the machine's write step, and the client stays valid |
| SevLegacy.Client.Transmit | sev.c:55-81 | the body of `client_write`: nothing on -1, cursor advanced by `n`, first buffer unlinked and freed when finished, `writing` cleared and watcher stopped when the list empties |
| SevLegacy.Client.AdvanceCursor | sev.c:69 | `buffer->start += n` moves the first buffer's cursor and nothing else |
| SevLegacy.Client.UnlinkFirst | sev.c:72-73 | `STAILQ_REMOVE_HEAD` drops exactly the first buffer and keeps the rest in order |
| SevLegacy.Client.Read | sev.c:100-119 | `client_read` makes exactly the calls of the three outcomes, and the client is unchanged unless closed |
| SevLegacy.Client.Close | sev.c:83-98 | `client_close`/`sev_close` makes exactly the fixed close sequence and leaves no watcher started and the client dead |
| SevLegacy.Client.Free | sev.c:35-51 | `sev_client_free` walks the inline list and releases every buffer once, in order, then the client |
| SevLegacy.Accept | sev.c:135-184 | nothing on an `accept` failure; otherwise a fresh valid client in the accepted state with the accepted descriptor, its port recorded as `sin_port` holds it, unconverted (see Findings), and the open callback exactly when it is set |

## Left out

- Socket calls (`socket`, `bind`, `listen`, `accept`, `send`, `recv`, `close`), `fcntl`, `setsockopt` and `perror` are operating-system I/O. Only their results enter the model, as method parameters. The result of `close(sd)` is ignored by the code, so the model has only the `CloseSocket` call.
- `inet_ntop` is not modelled: the peer's address text is a parameter of `Accept`.
- libev is not modelled. The watchers are the flags `readWatch`/`writeWatch`, and `ev_io_start`/`ev_io_stop` are recorded as `StartWrite`, `StopWrite` and `StopRead`.
- The `stream_cb`/`client_cb` dispatch on `revents` is not modelled. This covers the `EV_ERROR` return, and a write followed by a read in one callback. The model has one method per readiness event instead.
- User callbacks are recorded as calls, not run. A callback that itself calls `sev_send` or `sev_close`, re-entering the connection, is not modelled.
- The static receive buffer shared by all connections is not modelled. Each read is given its own `buf` array, so aliasing between connections is not captured.
- `malloc` failure is not modelled: the code never checks for it.
- SevStream.Stream.Write, SevLegacy.Client.Write: `send` returns `ssize_t`, which the code stores in an `int`. The model takes `n` as an unbounded integer, so truncation of results above 2^31 is not captured.
- SevStream.Stream.Free, SevLegacy.Client.Free: freeing the watchers, the address string and the connection is one `ReleaseStream` call, and use after free is ruled out only by `live` turning false.
- The listening socket leaked when `bind` or `listen` fails is a resource leak with no visible state, so it is not modelled.
- sev_udp.c is not part of this model: it holds direct `recvfrom`/`sendto` pass-throughs with no state.
- The example programs (example.c, example/example.c, example/client.c) are not part of this model. They are demo programs, and some use an API the library sources do not have.
- The opaque user-data fields are not modelled, except that `Listener.Server.Init` clears the server's one.
- `Listener.Server.Init` does not model the accept watcher object itself, only whether it is started (`watching`).

## Findings

| source | as written | input that shows it | evidently intended | confidence | as-written member | corrected member |
|---|---|---|---|---|---|---|
| sev/sev.c:162 (also sev.c:162) | `accept_cb` stores `addr.sin_port`, which is in network byte order, as the peer's port without `ntohs` | a peer connecting from port 80 on a little-endian host: `sin_port` holds 0x5000, so the recorded port is 20480 | the port in host order, `ntohs(addr.sin_port)`. The examples print the field as a port number (example/example.c:36-37, example.c:10), and the server side does use `htons` (sev/sev.c:202). | medium, not executed | Ports.PeerPortAsWrittenIsSwapped | Ports.PeerPortRecoversPort |
