/**
 * sev.c: the older layout, where each connection (`struct sev_client`)
 * holds its list of pending buffers inline (`STAILQ_HEAD head`) instead of a
 * separate queue object. It runs the same `Machine` as the newer stream.
 */
module SevLegacy {
  import opened Bytes
  import opened QueueModel
  import opened Machine
  import opened SevQueue
  import opened Listener
  import opened Ports

  /**
   * `struct sev_client`. `head` is the inline list, oldest buffer first, and
   * `chunks` its value. The other fields are as in the newer stream.
   */
  class Client {
    const sd: int
    const server: Server
    const ip: seq<char>
    const port: u16
    var head: seq<Buffer>
    var writing: bool
    var readWatch: bool
    var writeWatch: bool
    ghost var chunks: seq<Chunk>
    ghost var sends: seq<seq<byte>>
    ghost var writes: seq<seq<byte>>
    ghost var live: bool
    ghost var Repr: set<object>

    /**
     * The client owns every buffer on its list (`Repr` holds the buffers),
     * each once, and `chunks` is their value.
     */
    ghost predicate Owns()
      reads this`head, this`chunks, this`Repr, Repr
    {
      this !in Repr
      && (forall i :: 0 <= i < |head| ==> head[i] in Repr && head[i].Valid())
      && (forall i, j :: 0 <= i < j < |head| ==> head[i] != head[j])
      && chunks == ChunksOf(head) && AllWellFormed(chunks)
    }

    /** A live client: owned structure and the machine invariant of its view. */
    ghost predicate Valid()
      reads this, Repr
    {
      Owns() && live && Inv(View())
    }

    ghost function View(): State
      reads this
    {
      State(chunks, writing, readWatch, writeWatch, sends, writes)
    }

    /** The initialisation in `accept_cb`: read watcher started, write watcher not, empty list. */
    constructor (sd: int, server: Server, ip: seq<char>, port: u16)
      ensures Valid() && Repr == {} && View() == Accepted()
      ensures this.sd == sd && this.server == server && this.ip == ip && this.port == port
    {
      this.sd := sd;
      this.server := server;
      this.ip := ip;
      this.port := port;
      head := [];
      writing := false;
      readWatch := true;
      writeWatch := false;
      chunks := [];
      sends := [];
      writes := [];
      live := true;
      new;
      Repr := {};
      assert View() == Accepted();
    }

    /**
     * `sev_send`: one send step of the machine, which keeps the connection
     * invariant. The step itself is `Enqueue`.
     */
    method Send(src: array<byte>, len: nat) returns (effects: seq<Effect>)
      requires Valid() && len <= src.Length
      modifies this, Repr
      ensures Valid() && fresh(Repr - old(Repr))
      ensures Step(View(), effects) == Machine.Send(old(View()), old(src[..len]))
    {
      ghost var s0 := View();
      effects := Enqueue(src, len);
      SendInv(s0, old(src[..len]));
    }

    /**
     * The body of `sev_send`: a new buffer holding a copy of the first `len`
     * bytes of `src` goes at the tail of the list, and the write watcher is
     * started if `writing` was not set.
     */
    method Enqueue(src: array<byte>, len: nat) returns (effects: seq<Effect>)
      requires Owns() && live && len <= src.Length
      modifies this, Repr
      ensures Owns() && live && fresh(Repr - old(Repr))
      ensures Step(View(), effects) == Machine.Send(old(View()), old(src[..len]))
    {
      ghost var s0 := View();
      ghost var data := src[..len];
      var buffer := new Buffer(src, len);
      LinkTail(buffer);
      sends := sends + [data];
      assert View() == s0.(queue := s0.queue + [Fresh(data)], sends := s0.sends + [data]);
      if !writing {
        writeWatch := true;
        writing := true;
        effects := [StartWrite];
      } else {
        effects := [];
      }
    }

    /**
     * `client_write`, when the write watcher fires and `send` on the first
     * buffer's unsent bytes returns `n`: one step of the machine, which keeps
     * the connection invariant. The step itself is `Transmit`.
     */
    method Write(n: int) returns (effects: seq<Effect>)
      requires Valid() && writeWatch && CanWrite(View(), n)
      modifies this, Repr
      ensures Valid() && Repr == old(Repr)
      ensures Step(View(), effects) == Machine.Write(old(View()), n)
    {
      ghost var s0 := View();
      effects := Transmit(n);
      WriteInv(s0, n);
    }

    /**
     * The body of `client_write`: nothing on -1; else the first buffer's
     * cursor moves by `n`; once it is fully sent it is unlinked and freed,
     * and if the list is then empty `writing` is cleared and the write
     * watcher stopped.
     */
    method Transmit(n: int) returns (effects: seq<Effect>)
      requires Owns() && live && CanWrite(View(), n)
      modifies this, Repr
      ensures Owns() && live && Repr == old(Repr)
      ensures Step(View(), effects) == Machine.Write(old(View()), n)
    {
      ChunksOfAt(head, 0);
      var buffer := head[0];
      if n == -1 {
        return [];
      }
      ghost var s0 := View();
      ghost var step := Machine.Write(s0, n);
      WriteFields(s0, n);
      ghost var sent := Unsent(s0.queue[0])[..n];
      AdvanceCursor(n);
      effects := [];
      if buffer.start == buffer.len {
        UnlinkFirst();
        effects := [ReleaseBuffer(buffer.data)];
        if head == [] {
          writing := false;
          writeWatch := false;
          effects := effects + [StopWrite];
        }
      }
      writes := writes + [sent];
      assert chunks == step.next.queue;
      assert View() == step.next;
    }

    /** `STAILQ_INSERT_TAIL`: link a new buffer after the last one. */
    method LinkTail(buffer: Buffer)
      requires Owns() && buffer.Valid() && buffer !in Repr
      modifies this`head, this`chunks, this`Repr
      ensures Owns() && Repr == old(Repr) + {buffer}
      ensures head == old(head) + [buffer] && chunks == old(chunks) + [buffer.View()]
    {
      ChunksOfAppend(head, buffer);
      head := head + [buffer];
      chunks := chunks + [buffer.View()];
      Repr := Repr + {buffer};
    }

    /** `buffer->start += n` on the first buffer of the list. */
    method AdvanceCursor(n: nat)
      requires Owns() && head != [] && n <= head[0].len - head[0].start
      modifies this`chunks, head[0]
      ensures Owns() && head[0].start == old(head[0].start) + n
      ensures chunks == [old(chunks[0]).(start := old(head[0].start) + n)] + old(chunks)[1..]
    {
      ChunksOfAt(head, 0);
      AdvanceFirst(head, n);
      chunks := [head[0].View()] + chunks[1..];
    }

    /** `STAILQ_REMOVE_HEAD` then `sev_buffer_free`: unlink and drop the first buffer. */
    method UnlinkFirst()
      requires Owns() && head != []
      modifies this`head, this`chunks
      ensures Owns() && head == old(head)[1..] && chunks == old(chunks)[1..]
    {
      head := head[1..];
      chunks := chunks[1..];
    }

    /**
     * `client_read`, when the read watcher fires and `recv` returned `n`
     * after filling `buf`: nothing on error, close on end of stream, else
     * the read callback with the `n` bytes received.
     */
    method Read(n: int, buf: array<byte>) returns (effects: seq<Effect>)
      requires Valid() && buf.Length == BufSize && n <= BufSize - 1
      modifies this, Repr
      ensures effects == ReadEffects(old(View()), old(server.readCb), old(server.closeCb), Recv(n, old(buf[..BufSize - 1])))
      ensures n != 0 ==> Valid() && Repr == old(Repr) && View() == old(View())
      ensures n == 0 ==> !live && !readWatch && !writeWatch
    {
      ghost var received := Recv(n, buf[..BufSize - 1]);
      if n < 0 {
        return [];
      }
      if n == 0 {
        effects := Close();
        return;
      }
      assert buf[..BufSize - 1][..n] == buf[..n];
      if server.readCb {
        effects := [ReadCb(buf[..n])];
      } else {
        effects := [];
      }
    }

    /**
     * `client_close` (and `sev_close`, which only calls it): the close
     * callback if set, close the socket, stop the read watcher, stop the
     * write watcher only if `writing`, then free the client.
     */
    method Close() returns (effects: seq<Effect>)
      requires Owns() && live && WatchersAgree(View())
      modifies this, Repr
      ensures !live && !readWatch && !writeWatch
      ensures effects == CloseEffects(old(View()), old(server.closeCb))
    {
      ghost var s0 := View();
      effects := if server.closeCb then [CloseCb] else [];
      effects := effects + [CloseSocket, StopRead];
      readWatch := false;
      if writing {
        writeWatch := false;
        effects := effects + [StopWrite];
      }
      var freed := Free();
      effects := effects + freed;
    }

    /**
     * `sev_client_free`: walk the list from the first buffer, freeing each
     * one after reading its successor, reset the list, then free the client.
     */
    method Free() returns (effects: seq<Effect>)
      requires Owns() && live
      modifies this
      ensures !live && head == [] && chunks == []
      ensures effects == Releases(Contents(old(chunks))) + [ReleaseStream]
      ensures writing == old(writing) && readWatch == old(readWatch) && writeWatch == old(writeWatch)
    {
      ContentsOfBuffers(head);
      ghost var all := DataOf(head);
      assert Contents(chunks) == all;
      var released := [];
      var rest := head;
      while rest != []
        invariant released + DataOf(rest) == all
      {
        assert DataOf(rest) == [rest[0].data] + DataOf(rest[1..]);
        released := released + [rest[0].data];
        rest := rest[1..];
      }
      assert released == all;
      head := [];
      chunks := [];
      live := false;
      effects := Releases(released) + [ReleaseStream];
    }
  }

  /**
   * `accept_cb`, given the result of `accept` and the peer address it
   * filled in: nothing on -1; else a client in its initial state, and the
   * open callback if the server has one. The port is recorded as `sin_port`
   * holds it, in network byte order (see `Ports.PeerPortAsWritten`).
   */
  method Accept(server: Server, acceptResult: int, ip: seq<char>, wirePort: u16)
    returns (client: Client?, effects: seq<Effect>)
    ensures acceptResult == -1 <==> client == null
    ensures client != null ==> fresh(client) && client.Repr == {} && client.Valid() && client.View() == Accepted()
    ensures client != null ==> client.sd == acceptResult && client.server == server
    ensures client != null ==> client.port == PeerPortAsWritten(wirePort) == wirePort
    ensures effects == if acceptResult == -1 || !server.openCb then [] else [OpenCb]
  {
    if acceptResult == -1 {
      return null, [];
    }
    client := new Client(acceptResult, server, ip, PeerPortAsWritten(wirePort));
    effects := if server.openCb then [OpenCb] else [];
  }
}
