/**
 * sev/sev.c: one accepted connection, `struct sev_stream`, over a separate
 * write queue object. Each operation is one step of the `Machine` model:
 * the new `View()` and the calls it makes (`effects`) are exactly what the
 * machine's step function gives for the old view.
 */
module SevStream {
  import opened Bytes
  import opened QueueModel
  import opened Machine
  import opened SevQueue
  import opened Listener
  import opened Ports

  /**
   * `struct sev_stream`. `readWatch`/`writeWatch` stand for the started state
   * of the libev watchers `w_read`/`w_write`; `sends` and `writes` are the
   * ghost histories of send arguments and of bytes taken by `send`. `live`
   * turns false when the stream is freed.
   */
  class Stream {
    const sd: int
    const server: Server
    const remoteAddress: seq<char>
    const remotePort: u16
    const queue: Queue
    var writing: bool
    var readWatch: bool
    var writeWatch: bool
    ghost var sends: seq<seq<byte>>
    ghost var writes: seq<seq<byte>>
    ghost var live: bool
    ghost var Repr: set<object>

    /** The stream owns its queue and the queue's buffers, and nothing else owns the stream. */
    ghost predicate Owns()
      reads this, Repr
    {
      this in Repr && queue in Repr && queue.Repr <= Repr && this !in queue.Repr
      && queue.Valid()
    }

    /** A live stream: owned structure and the machine invariant of its view. */
    ghost predicate Valid()
      reads this, Repr
    {
      Owns() && live && Inv(View())
    }

    ghost function View(): State
      reads this, queue
    {
      State(queue.View(), writing, readWatch, writeWatch, sends, writes)
    }

    /** The initialisation in `accept_cb`: read watcher started, write watcher not, empty queue. */
    constructor (sd: int, server: Server, remoteAddress: seq<char>, remotePort: u16)
      ensures Valid() && fresh(Repr) && View() == Accepted()
      ensures this.sd == sd && this.server == server
      ensures this.remoteAddress == remoteAddress && this.remotePort == remotePort
    {
      this.sd := sd;
      this.server := server;
      this.remoteAddress := remoteAddress;
      this.remotePort := remotePort;
      writing := false;
      readWatch := true;
      writeWatch := false;
      sends := [];
      writes := [];
      live := true;
      queue := new Queue();
      new;
      Repr := {this} + queue.Repr;
      assert View() == Accepted();
    }

    /**
     * `sev_send`: one send step of the machine, which keeps the connection
     * invariant. The step itself is `Enqueue`.
     */
    method Send(src: array<byte>, len: nat) returns (effects: seq<Effect>)
      requires Valid() && len <= src.Length
      modifies Repr
      ensures Valid() && fresh(Repr - old(Repr))
      ensures Step(View(), effects) == Machine.Send(old(View()), old(src[..len]))
    {
      ghost var s0 := View();
      effects := Enqueue(src, len);
      SendInv(s0, old(src[..len]));
    }

    /**
     * The body of `sev_send`: queue a copy of the first `len` bytes of
     * `src`, and start the write watcher if `writing` was not set.
     */
    method Enqueue(src: array<byte>, len: nat) returns (effects: seq<Effect>)
      requires Owns() && live && len <= src.Length
      modifies Repr
      ensures Owns() && live && fresh(Repr - old(Repr))
      ensures Step(View(), effects) == Machine.Send(old(View()), old(src[..len]))
    {
      ghost var data := src[..len];
      ghost var s0 := View();
      queue.PushBack(src, len);
      Repr := Repr + queue.Repr;
      sends := sends + [data];
      assert View() == s0.(queue := s0.queue + [Fresh(data)], sends := s0.sends + [data]);
      if !writing {
        writeWatch := true;
        writing := true;
        effects := [StartWrite];
      } else {
        effects := [];
      }
    }

    /**
     * `stream_write`, when the write watcher fires and `send` on the head
     * buffer's unsent bytes returns `n`: one step of the machine, which
     * keeps the connection invariant. The step itself is `Transmit`.
     */
    method Write(n: int) returns (effects: seq<Effect>)
      requires Valid() && writeWatch && CanWrite(View(), n)
      modifies Repr
      ensures Valid() && Repr == old(Repr)
      ensures Step(View(), effects) == Machine.Write(old(View()), n)
    {
      ghost var s0 := View();
      effects := Transmit(n);
      WriteInv(s0, n);
    }

    /**
     * The body of `stream_write`: nothing on -1; else the head's cursor
     * moves by `n`, the head is freed once fully sent, and the write
     * watcher is stopped when the queue runs empty.
     */
    method Transmit(n: int) returns (effects: seq<Effect>)
      requires Owns() && live && CanWrite(View(), n)
      modifies Repr
      ensures Owns() && live && Repr == old(Repr)
      ensures Step(View(), effects) == Machine.Write(old(View()), n)
    {
      var buffer := queue.Head();
      if n == -1 {
        return [];
      }
      ghost var s0 := View();
      ghost var step := Machine.Write(s0, n);
      WriteFields(s0, n);
      ghost var sent := Unsent(s0.queue[0])[..n];
      var data := buffer.data;
      var done, empty := queue.Consume(n);
      effects := [];
      if done {
        effects := [ReleaseBuffer(data)];
        if empty {
          writing := false;
          writeWatch := false;
          effects := effects + [StopWrite];
        }
      }
      writes := writes + [sent];
      assert View() == step.next;
    }

    /**
     * `stream_read`, when the read watcher fires and `recv` returned `n`
     * after filling `buf`: nothing on error, close on end of stream, else
     * the read callback with the `n` bytes received.
     */
    method Read(n: int, buf: array<byte>) returns (effects: seq<Effect>)
      requires Valid() && buf.Length == BufSize && n <= BufSize - 1
      modifies Repr
      ensures effects == ReadEffects(old(View()), old(server.readCb), old(server.closeCb), Recv(n, old(buf[..BufSize - 1])))
      ensures n != 0 ==> Valid() && Repr == old(Repr) && View() == old(View())
      ensures n == 0 ==> !live && !readWatch && !writeWatch
    {
      ghost var received := Recv(n, buf[..BufSize - 1]);
      if n < 0 {
        return [];
      }
      if n == 0 {
        effects := Close();
        return;
      }
      assert buf[..BufSize - 1][..n] == buf[..n];
      if server.readCb {
        effects := [ReadCb(buf[..n])];
      } else {
        effects := [];
      }
    }

    /**
     * `stream_close` (and `sev_close`, which only calls it): the close
     * callback if set, close the socket, stop the read watcher, stop the
     * write watcher only if `writing`, then free the stream.
     */
    method Close() returns (effects: seq<Effect>)
      requires Owns() && live && WatchersAgree(View())
      modifies Repr
      ensures !live && !readWatch && !writeWatch
      ensures effects == CloseEffects(old(View()), old(server.closeCb))
    {
      ghost var s0 := View();
      effects := if server.closeCb then [CloseCb] else [];
      effects := effects + [CloseSocket, StopRead];
      readWatch := false;
      if writing {
        writeWatch := false;
        effects := effects + [StopWrite];
      }
      assert queue.View() == s0.queue;
      var freed := Free();
      effects := effects + freed;
    }

    /** `sev_stream_free`: free every queued buffer, the queue, then the stream itself. */
    method Free() returns (effects: seq<Effect>)
      requires Owns() && live
      modifies Repr
      ensures !live && !queue.live && queue.buffers == []
      ensures effects == Releases(Contents(old(queue.View()))) + [ReleaseStream]
      ensures writing == old(writing) && readWatch == old(readWatch) && writeWatch == old(writeWatch)
    {
      var released := queue.Free();
      live := false;
      effects := Releases(released) + [ReleaseStream];
    }
  }

  /**
   * `accept_cb`, given the result of `accept` and the peer address it
   * filled in: nothing on -1; else a stream in its initial state, and the
   * open callback if the server has one. The port is recorded as `sin_port`
   * holds it, in network byte order (see `Ports.PeerPortAsWritten`).
   */
  method Accept(server: Server, acceptResult: int, remoteAddress: seq<char>, wirePort: u16)
    returns (stream: Stream?, effects: seq<Effect>)
    ensures acceptResult == -1 <==> stream == null
    ensures stream != null ==> fresh(stream.Repr) && stream.Valid() && stream.View() == Accepted()
    ensures stream != null ==> stream.sd == acceptResult && stream.server == server
    ensures stream != null ==> stream.remotePort == PeerPortAsWritten(wirePort) == wirePort
    ensures effects == if acceptResult == -1 || !server.openCb then [] else [OpenCb]
  {
    if acceptResult == -1 {
      return null, [];
    }
    stream := new Stream(acceptResult, server, remoteAddress, PeerPortAsWritten(wirePort));
    effects := if server.openCb then [OpenCb] else [];
  }
}
