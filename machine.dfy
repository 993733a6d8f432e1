/**
 * The write/read/close state machine of one connection, as values.
 *
 * Both layouts of the library (the stream over a separate queue object, and
 * the older client with the list stored inline) run this same machine; their
 * classes state each operation as one step of it.
 */
module Machine {
  import opened Bytes
  import opened QueueModel

  /** Size of the static receive buffer; one `recv` asks for `BufSize - 1` bytes. */
  const BufSize: nat := 2048

  datatype Option<T> = None | Some(value: T)

  /** The calls a connection makes into the reactor, libc and the user's callbacks. */
  datatype Effect =
    | StartWrite                        // ev_io_start on the write watcher
    | StopWrite                         // ev_io_stop on the write watcher
    | StopRead                          // ev_io_stop on the read watcher
    | OpenCb                            // the server's open callback
    | ReadCb(data: seq<byte>)           // the server's read callback, with the bytes received
    | CloseCb                           // the server's close callback
    | CloseSocket                       // close(sd)
    | ReleaseBuffer(data: seq<byte>)    // sev_buffer_free of a queued buffer
    | ReleaseStream                     // free of the watchers, the address and the connection

  /**
   * One live connection. `writing` is the connection's own flag, `readWatch`
   * and `writeWatch` say whether the reactor's watchers are started. `sends`
   * (every argument of a send call, in call order) and `writes` (the bytes
   * each successful `send` syscall took) are history, kept for the proofs.
   */
  datatype State = State(
    queue: seq<Chunk>,
    writing: bool,
    readWatch: bool,
    writeWatch: bool,
    sends: seq<seq<byte>>,
    writes: seq<seq<byte>>)

  /** Write interest is on exactly when there is something to write. */
  predicate WatchersAgree(s: State)
  {
    s.readWatch && s.writing == (s.queue != []) && s.writeWatch == s.writing
  }

  /**
   * The queued buffers are copies of the latest send arguments, in call
   * order; only the head may be partly sent.
   */
  predicate QueueMirrorsSends(s: State)
  {
    AllWellFormed(s.queue)
    && |s.queue| <= |s.sends|
    && Contents(s.queue) == s.sends[|s.sends| - |s.queue|..]
    && (forall i :: 1 <= i < |s.queue| ==> s.queue[i].start == 0)
  }

  /** The bytes sent so far, then the bytes still queued, are all bytes ever passed to send. */
  predicate InOrder(s: State)
    requires AllWellFormed(s.queue)
  {
    Flatten(s.writes) + Pending(s.queue) == Flatten(s.sends)
  }

  /** The invariant of a live connection. */
  predicate Inv(s: State)
  {
    WatchersAgree(s) && QueueMirrorsSends(s) && InOrder(s)
  }

  /** A connection as `accept_cb` leaves it: read watcher started, write watcher not, queue empty. */
  function Accepted(): (s: State)
    ensures Inv(s)
  {
    State([], false, true, false, [], [])
  }

  /** The state after an operation, and the calls it made, in order. */
  datatype Step = Step(next: State, effects: seq<Effect>)

  /** `sev_send`: always queue a copy; start the write watcher unless `writing` is already set. */
  function Send(s: State, data: seq<byte>): (r: Step)
    ensures Contents(r.next.queue) == Contents(s.queue) + [data] && r.next.sends == s.sends + [data]
    ensures r.next.writing && r.next.readWatch == s.readWatch
    ensures StartWrite in r.effects <==> !s.writing
    ensures r.next.writes == s.writes
  {
    ContentsAppend(s.queue, Fresh(data));
    var queued := s.(queue := s.queue + [Fresh(data)], sends := s.sends + [data]);
    if s.writing then Step(queued, [])
    else Step(queued.(writing := true, writeWatch := true), [StartWrite])
  }

  /** What the oracle `send` result `n` may be for the head buffer: -1 or at most its unsent length. */
  predicate CanWrite(s: State, n: int)
  {
    s.queue != [] && AllWellFormed(s.queue) && -1 <= n <= |Unsent(s.queue[0])|
  }

  /**
   * One write-readiness event, given that `send` returned `n`: on -1 nothing
   * changes; otherwise the head's cursor advances by `n`, the head is
   * released once fully sent, and the write watcher is stopped when the
   * queue runs empty.
   */
  function Write(s: State, n: int): (r: Step)
    requires CanWrite(s, n)
    ensures n == -1 ==> r == Step(s, [])
    ensures r.next.sends == s.sends && r.next.readWatch == s.readWatch
    ensures var emptied := n >= 0 && |s.queue| == 1 && n == |Unsent(s.queue[0])|;
            r.next.writing == (s.writing && !emptied) && r.next.writeWatch == (s.writeWatch && !emptied)
  {
    if n == -1 then Step(s, [])
    else
      var head := s.queue[0];
      var t := s.(queue := Advanced(s.queue, n), writes := s.writes + [Unsent(head)[..n]]);
      if head.start + n < |head.data| then Step(t, [])
      else if |s.queue| > 1 then Step(t, [ReleaseBuffer(head.data)])
      else Step(t.(writing := false, writeWatch := false), [ReleaseBuffer(head.data), StopWrite])
  }

  /** What one `recv` into the scratch buffer amounts to. */
  datatype Received = RecvError | PeerClosed | Data(bytes: seq<byte>)

  /**
   * `recv` returned `n` and left `scratch` in the receive buffer: a negative
   * result is an error, zero is an orderly shutdown by the peer, otherwise the
   * first `n` bytes of the buffer were received.
   */
  function Recv(n: int, scratch: seq<byte>): (r: Received)
    requires |scratch| == BufSize - 1 && n <= |scratch|
    ensures r.RecvError? <==> n < 0
    ensures r.PeerClosed? <==> n == 0
    ensures r.Data? <==> n > 0
    ensures r.Data? ==> |r.bytes| == n <= BufSize - 1 && r.bytes == scratch[..n]
  {
    if n < 0 then RecvError else if n == 0 then PeerClosed else Data(scratch[..n])
  }

  /** The release of each of the buffers holding `datas`, in order, as the free loop walks the list. */
  function Releases(datas: seq<seq<byte>>): (r: seq<Effect>)
    ensures |r| == |datas| && (datas != [] ==> r[0] == ReleaseBuffer(datas[0]))
  {
    if datas == [] then [] else [ReleaseBuffer(datas[0])] + Releases(datas[1..])
  }

  /**
   * The fixed close sequence: the close callback if set, close the socket,
   * stop the read watcher, stop the write watcher only if `writing`, release
   * every queued buffer, release the connection.
   */
  function CloseEffects(s: State, hasCloseCb: bool): (r: seq<Effect>)
    ensures |r| == (if hasCloseCb then 1 else 0) + 3 + (if s.writing then 1 else 0) + |s.queue|
    ensures r[0] == CloseCb <==> hasCloseCb
    ensures var k := if hasCloseCb then 1 else 0;
            r[k] == CloseSocket && r[k + 1] == StopRead && (r[k + 2] == StopWrite <==> s.writing)
    ensures r[|r| - 1] == ReleaseStream
  {
    (if hasCloseCb then [CloseCb] else [])
    + [CloseSocket, StopRead]
    + (if s.writing then [StopWrite] else [])
    + Releases(Contents(s.queue))
    + [ReleaseStream]
  }

  /** A read-readiness event: nothing on error, close on end of stream, else one read callback. */
  function ReadEffects(s: State, hasReadCb: bool, hasCloseCb: bool, r: Received): (es: seq<Effect>)
    ensures r.RecvError? ==> es == []
    ensures r.PeerClosed? ==> es == CloseEffects(s, hasCloseCb)
    ensures r.Data? ==> |es| == (if hasReadCb then 1 else 0) && forall e :: e in es ==> e == ReadCb(r.bytes)
  {
    match r
    case RecvError => []
    case PeerClosed => CloseEffects(s, hasCloseCb)
    case Data(bytes) => if hasReadCb then [ReadCb(bytes)] else []
  }

  /** The watcher states, read then write, after the reactor call `e`. */
  function Watch(w: (bool, bool), e: Effect): (bool, bool)
  {
    match e
    case StartWrite => (w.0, true)
    case StopWrite => (w.0, false)
    case StopRead => (false, w.1)
    case _ => w
  }

  /** The watcher states after the reactor calls in `es`, in order. */
  function Watchers(w: (bool, bool), es: seq<Effect>): (bool, bool)
    decreases |es|
  {
    if es == [] then w else Watchers(Watch(w, es[0]), es[1..])
  }

  /** The data of every released buffer, in release order. */
  function Released(es: seq<Effect>): seq<seq<byte>>
  {
    if es == [] then []
    else (if es[0].ReleaseBuffer? then [es[0].data] else []) + Released(es[1..])
  }

  // ---------------------------------------------------------------- lemmas

  lemma {:induction false} WatchersConcat(w: (bool, bool), a: seq<Effect>, b: seq<Effect>)
    ensures Watchers(w, a + b) == Watchers(Watchers(w, a), b)
    decreases |a|
  {
    if a != [] {
      assert (a + b)[1..] == a[1..] + b;
      WatchersConcat(Watch(w, a[0]), a[1..], b);
    } else {
      assert a + b == b;
    }
  }

  lemma WatchersCons(w: (bool, bool), e: Effect, rest: seq<Effect>)
    ensures Watchers(w, [e] + rest) == Watchers(Watch(w, e), rest)
  {
    assert ([e] + rest)[1..] == rest;
  }

  lemma {:induction false} ReleasedConcat(a: seq<Effect>, b: seq<Effect>)
    ensures Released(a + b) == Released(a) + Released(b)
  {
    if a != [] {
      assert (a + b)[1..] == a[1..] + b;
      ReleasedConcat(a[1..], b);
    } else {
      assert a + b == b;
    }
  }

  /** Releasing buffers touches no watcher, and releases exactly the queue's buffers in order. */
  lemma {:induction false} ReleasesOnly(datas: seq<seq<byte>>, w: (bool, bool))
    ensures Watchers(w, Releases(datas)) == w
    ensures Released(Releases(datas)) == datas
  {
    if datas != [] {
      ReleasesOnly(datas[1..], w);
    }
  }

  /** `sev_send` keeps the invariant, and starts the write watcher exactly when the queue was empty. */
  lemma SendKeepsInv(s: State, data: seq<byte>)
    requires Inv(s)
    ensures Inv(Send(s, data).next)
    ensures Send(s, data).next.sends == s.sends + [data]
    ensures Send(s, data).next.writes == s.writes
    ensures Contents(Send(s, data).next.queue) == Contents(s.queue) + [data]
    ensures Send(s, data).effects == if s.queue == [] then [StartWrite] else []
    ensures Released(Send(s, data).effects) == []
  {
    ReleasedNone(Send(s, data).effects);
    SendKeepsOrder(s, data);
    SendKeepsMirror(s, data);
  }

  lemma SendKeepsOrder(s: State, data: seq<byte>)
    requires AllWellFormed(s.queue) && InOrder(s)
    ensures AllWellFormed(Send(s, data).next.queue) && InOrder(Send(s, data).next)
  {
    var t := Send(s, data).next;
    assert t.queue == s.queue + [Fresh(data)] && t.sends == s.sends + [data] && t.writes == s.writes;
    PendingAppend(s.queue, Fresh(data));
    assert (s.sends + [data])[..|s.sends|] == s.sends;
    assert Flatten(t.sends) == Flatten(s.sends) + data;
  }

  lemma SendKeepsMirror(s: State, data: seq<byte>)
    requires QueueMirrorsSends(s)
    ensures QueueMirrorsSends(Send(s, data).next)
    ensures Contents(Send(s, data).next.queue) == Contents(s.queue) + [data]
  {
    var t := Send(s, data).next;
    assert t.queue == s.queue + [Fresh(data)] && t.sends == s.sends + [data];
    assert Contents(t.queue) == Contents(s.queue) + [data];
    assert t.sends[|t.sends| - |t.queue|..] == s.sends[|s.sends| - |s.queue|..] + [data];
  }

  /**
   * The invariant alone: the first `ensures` of `SendKeepsInv`, kept as its own lemma so
   * that callers carry a narrow context, which keeps their proofs cheap.
   */
  lemma SendInv(s: State, data: seq<byte>)
    requires Inv(s)
    ensures Inv(Send(s, data).next)
  {
    SendKeepsInv(s, data);
  }

  /** A write-readiness event keeps the invariant. */
  lemma WriteInv(s: State, n: int)
    requires Inv(s) && CanWrite(s, n)
    ensures Inv(Write(s, n).next)
  {
    if n >= 0 {
      WriteKeepsOrder(s, n);
      WriteKeepsMirror(s, n);
    }
  }

  /** A successful write step, field by field. */
  lemma WriteFields(s: State, n: nat)
    requires CanWrite(s, n)
    ensures var head := s.queue[0];
            var done := head.start + n == |head.data|;
            var stop := done && |s.queue| == 1;
            Write(s, n) == Step(
              State(Advanced(s.queue, n), s.writing && !stop, s.readWatch, s.writeWatch && !stop,
                    s.sends, s.writes + [Unsent(head)[..n]]),
              (if done then [ReleaseBuffer(head.data)] else []) + (if stop then [StopWrite] else []))
  {
  }

  /**
   * On -1 a write-readiness event changes nothing; otherwise `send` took the
   * next `n` unsent bytes of the queue. Either way the record of sends is
   * untouched.
   */
  lemma WriteTakesNext(s: State, n: int)
    requires CanWrite(s, n)
    ensures Write(s, n).next.sends == s.sends
    ensures n == -1 ==> Write(s, n) == Step(s, [])
    ensures n >= 0 ==> Write(s, n).next.writes == s.writes + [Pending(s.queue)[..n]]
  {
    if n >= 0 {
      var head := s.queue[0];
      WriteFields(s, n);
      assert Pending(s.queue) == Unsent(head) + Pending(s.queue[1..]);
      assert Pending(s.queue)[..n] == Unsent(head)[..n];
    }
  }

  /**
   * A write releases the head buffer exactly when it finishes sending it,
   * and then the released data and the queue left behind make up the queue
   * before.
   */
  lemma WriteReleases(s: State, n: int)
    requires CanWrite(s, n)
    ensures n >= 0 ==>
              (Released(Write(s, n).effects) == if n == |Unsent(s.queue[0])| then [s.queue[0].data] else [])
    ensures StopWrite in Write(s, n).effects <==> n >= 0 && n == |Unsent(s.queue[0])| && |s.queue| == 1
    ensures Released(Write(s, n).effects) + Contents(Write(s, n).next.queue) == Contents(s.queue)
  {
    if n >= 0 {
      var head := s.queue[0];
      var t := Write(s, n).next;
      var es := Write(s, n).effects;
      if head.start + n == |head.data| {
        assert es[0] == ReleaseBuffer(head.data) && es[1..] == (if |s.queue| > 1 then [] else [StopWrite]);
        assert Released(es[1..]) == [];
        assert t.queue == s.queue[1..];
        assert Contents(s.queue) == [head.data] + Contents(t.queue);
      } else {
        assert Contents(t.queue) == Contents(s.queue);
      }
    }
  }

  lemma WriteKeepsOrder(s: State, n: nat)
    requires CanWrite(s, n) && InOrder(s)
    ensures AllWellFormed(Write(s, n).next.queue) && InOrder(Write(s, n).next)
  {
    var run := Unsent(s.queue[0])[..n];
    var q := Advanced(s.queue, n);
    AdvancedKeepsOrder(s.queue, n);
    FlattenSnoc(s.writes, run, Pending(q), Pending(s.queue), Flatten(s.sends));
    assert Write(s, n).next.writes == s.writes + [run];
    assert Write(s, n).next.queue == q;
  }

  /** Moving `run` from the front of the pending bytes to the end of the written runs changes nothing overall. */
  lemma FlattenSnoc(written: seq<seq<byte>>, run: seq<byte>, rest: seq<byte>, pending: seq<byte>, total: seq<byte>)
    requires run + rest == pending && Flatten(written) + pending == total
    ensures Flatten(written + [run]) + rest == total
  {
    assert (written + [run])[..|written|] == written;
  }

  lemma WriteKeepsMirror(s: State, n: nat)
    requires Inv(s) && CanWrite(s, n)
    ensures QueueMirrorsSends(Write(s, n).next) && WatchersAgree(Write(s, n).next)
  {
    WriteKeepsQueueMirror(s, n);
    WriteKeepsWatchers(s, n);
  }

  /** After a write the queue still holds copies of the latest send arguments, only the head partly sent. */
  lemma WriteKeepsQueueMirror(s: State, n: nat)
    requires QueueMirrorsSends(s) && CanWrite(s, n)
    ensures QueueMirrorsSends(Write(s, n).next)
  {
    var head := s.queue[0];
    var q := Advanced(s.queue, n);
    var k := |s.sends| - |s.queue|;
    WriteFields(s, n);
    assert Write(s, n).next.queue == q && Write(s, n).next.sends == s.sends;
    AdvancedKeepsOrder(s.queue, n);
    AdvancedKeepsData(s.queue, n);
    var d := |s.queue| - |q|;
    assert s.sends[k..][d..] == s.sends[k + d..];
  }

  /** After a write, `writing` and the write watcher are still on exactly when the queue is non-empty. */
  lemma WriteKeepsWatchers(s: State, n: nat)
    requires WatchersAgree(s) && CanWrite(s, n)
    ensures WatchersAgree(Write(s, n).next)
  {
    var head := s.queue[0];
    if head.start + n < |head.data| {
      assert Write(s, n).next.queue != [];
    }
  }

  /** The watcher call a send makes leaves the watchers as its flags say. */
  lemma SendMatchesWatchers(s: State, data: seq<byte>)
    ensures Watchers((s.readWatch, s.writeWatch), Send(s, data).effects)
         == (Send(s, data).next.readWatch, Send(s, data).next.writeWatch)
  {
    WatchersCons((s.readWatch, s.writeWatch), StartWrite, []);
  }

  /** The watcher calls a write makes leave the watchers as its flags say. */
  lemma WriteMatchesWatchers(s: State, n: int)
    requires CanWrite(s, n)
    ensures Watchers((s.readWatch, s.writeWatch), Write(s, n).effects)
         == (Write(s, n).next.readWatch, Write(s, n).next.writeWatch)
  {
    if n >= 0 {
      var head := s.queue[0];
      var w := (s.readWatch, s.writeWatch);
      if head.start + n == |head.data| {
        var released := ReleaseBuffer(head.data);
        WatchersCons(w, released, []);
        WatchersCons(w, released, [StopWrite]);
        WatchersCons(w, StopWrite, []);
      }
    }
  }

  /**
   * Given the invariant, the close sequence leaves no watcher started: the
   * read watcher is always stopped and `writing` tells exactly whether the
   * write watcher still needs stopping.
   */
  lemma CloseStopsEveryWatcher(s: State, hasCloseCb: bool)
    requires Inv(s)
    ensures Watchers((s.readWatch, s.writeWatch), CloseEffects(s, hasCloseCb)) == (false, false)
  {
    var w := (s.readWatch, s.writeWatch);
    var stops := CloseStops(hasCloseCb, s.writing);
    var tail := Releases(Contents(s.queue)) + [ReleaseStream];
    assert CloseEffects(s, hasCloseCb) == stops + tail;
    CloseStopsWatchers(w, hasCloseCb, s.writing);
    WatchersConcat(w, stops, tail);
    WatchersConcat((false, false), Releases(Contents(s.queue)), [ReleaseStream]);
    ReleasesOnly(Contents(s.queue), (false, false));
    WatchersCons((false, false), ReleaseStream, []);
  }

  /** Close releases every queued buffer exactly once, oldest first, and then the connection. */
  lemma CloseReleasesQueue(s: State, hasCloseCb: bool)
    ensures Released(CloseEffects(s, hasCloseCb)) == Contents(s.queue)
    ensures CloseEffects(s, hasCloseCb)[|CloseEffects(s, hasCloseCb)| - 1] == ReleaseStream
  {
    var stops := CloseStops(hasCloseCb, s.writing);
    var rel := Releases(Contents(s.queue));
    assert CloseEffects(s, hasCloseCb) == (stops + rel) + [ReleaseStream];
    ReleasesOnly(Contents(s.queue), (false, false));
    CloseStopsWatchers((false, s.writing), hasCloseCb, s.writing);
    ReleasedConcat(stops, rel);
    ReleasedConcat(stops + rel, [ReleaseStream]);
    ReleasedNone([ReleaseStream]);
  }

  /** The close callback, when set, is called once and before anything else; otherwise never. */
  lemma CloseCallsBackOnce(s: State, hasCloseCb: bool)
    ensures hasCloseCb ==> CloseEffects(s, hasCloseCb)[0] == CloseCb && CloseCb !in CloseEffects(s, hasCloseCb)[1..]
    ensures !hasCloseCb ==> CloseCb !in CloseEffects(s, hasCloseCb)
  {
    var stops: seq<Effect> := [CloseSocket, StopRead] + (if s.writing then [StopWrite] else []);
    var rest := stops + Releases(Contents(s.queue)) + [ReleaseStream];
    assert CloseEffects(s, hasCloseCb) == (if hasCloseCb then [CloseCb] else []) + rest;
    ReleasesHaveNoCallback(Contents(s.queue));
    assert CloseCb !in stops;
  }

  lemma {:induction false} ReleasedNone(es: seq<Effect>)
    requires forall i :: 0 <= i < |es| ==> !es[i].ReleaseBuffer?
    ensures Released(es) == []
  {
    if es != [] {
      ReleasedNone(es[1..]);
    }
  }

  /** The part of the close sequence before the buffers are released. */
  function CloseStops(hasCloseCb: bool, writing: bool): seq<Effect>
  {
    (if hasCloseCb then [CloseCb] else []) + [CloseSocket, StopRead] + (if writing then [StopWrite] else [])
  }

  /** It stops both watchers, provided the write watcher is started exactly when `writing` is set. */
  lemma CloseStopsWatchers(w: (bool, bool), hasCloseCb: bool, writing: bool)
    requires w.1 == writing
    ensures Watchers(w, CloseStops(hasCloseCb, writing)) == (false, false)
    ensures Released(CloseStops(hasCloseCb, writing)) == []
  {
    var last: seq<Effect> := if writing then [StopWrite] else [];
    var after := [CloseSocket] + ([StopRead] + last);
    assert CloseStops(hasCloseCb, writing) == (if hasCloseCb then [CloseCb] + after else after);
    WatchersCons(w, CloseCb, after);
    WatchersCons(w, CloseSocket, [StopRead] + last);
    WatchersCons(w, StopRead, last);
    WatchersCons((false, w.1), StopWrite, []);
    assert ([CloseCb] + after)[1..] == after;
    assert after[1..] == [StopRead] + last && ([StopRead] + last)[1..] == last;
    assert last != [] ==> last[1..] == [];
    ReleasedNone(CloseStops(hasCloseCb, writing));
  }

  lemma {:induction false} ReleasesHaveNoCallback(datas: seq<seq<byte>>)
    ensures CloseCb !in Releases(datas)
  {
    if datas != [] {
      ReleasesHaveNoCallback(datas[1..]);
    }
  }

  // ------------------------------------------------------------ whole runs

  /** What the reactor and the user do to a connection: a send call, or a write-readiness event whose `send` returned `n`. */
  datatype Event = SendCall(data: seq<byte>) | Writable(n: int)

  /** The send argument an event contributes, if any. */
  function SendArg(e: Event): seq<seq<byte>>
  {
    if e.SendCall? then [e.data] else []
  }

  /** The arguments of the send calls among `evs`, in order. */
  function SendArgs(evs: seq<Event>): seq<seq<byte>>
  {
    if evs == [] then [] else SendArgs(evs[..|evs| - 1]) + SendArg(evs[|evs| - 1])
  }

  /**
   * One event on connection `s`. A write-readiness event is only delivered
   * while the write watcher is started; `None` when the event could not
   * happen (no watcher, or a `send` result outside -1..unsent).
   */
  function Deliver(s: State, e: Event): Option<Step>
  {
    match e
    case SendCall(data) => Some(Send(s, data))
    case Writable(n) => if s.writeWatch && CanWrite(s, n) then Some(Write(s, n)) else None
  }

  /** Replay `evs` on a freshly accepted connection, collecting the calls made. */
  function Run(evs: seq<Event>): Option<Step>
  {
    if evs == [] then Some(Step(Accepted(), []))
    else
      match Run(evs[..|evs| - 1])
      case None => None
      case Some(prior) =>
        match Deliver(prior.next, evs[|evs| - 1])
        case None => None
        case Some(step) => Some(Step(step.next, prior.effects + step.effects))
  }

  /**
   * A step from `s` that passed the send arguments `args` keeps the
   * invariant; the buffers it released, followed by those still queued, are
   * those queued before followed by `args`; its reactor calls leave the
   * watchers as the flags say.
   */
  predicate Keeps(s: State, args: seq<seq<byte>>, step: Step)
  {
    Inv(step.next)
    && step.next.sends == s.sends + args
    && Released(step.effects) + Contents(step.next.queue) == Contents(s.queue) + args
    && Watchers((s.readWatch, s.writeWatch), step.effects) == (step.next.readWatch, step.next.writeWatch)
  }

  lemma SendKeeps(s: State, data: seq<byte>)
    requires Inv(s)
    ensures Keeps(s, [data], Send(s, data))
  {
    SendKeepsInv(s, data);
    SendMatchesWatchers(s, data);
  }

  lemma WriteKeeps(s: State, n: int)
    requires Inv(s) && CanWrite(s, n)
    ensures Keeps(s, [], Write(s, n))
  {
    assert s.sends + [] == s.sends;
    assert Contents(s.queue) + [] == Contents(s.queue);
    WriteTakesNext(s, n);
    WriteInv(s, n);
    WriteReleases(s, n);
    WriteMatchesWatchers(s, n);
  }

  /** Every event that can happen to a live connection keeps it live, in order and with its watchers right. */
  lemma DeliverKeepsInv(s: State, e: Event)
    requires Inv(s) && Deliver(s, e).Some?
    ensures Keeps(s, SendArg(e), Deliver(s, e).value)
  {
    match e
    case SendCall(data) =>
      SendKeeps(s, data);
    case Writable(n) =>
      WriteKeeps(s, n);
  }

  /**
   * What holds after a run whose send arguments were `args`: the invariant;
   * the history of send arguments is `args`; the buffers released so far
   * followed by those still queued are exactly `args`; the watcher flags are
   * what the reactor calls made them, starting from a started read watcher
   * and a stopped write watcher.
   */
  predicate Reached(args: seq<seq<byte>>, st: Step)
  {
    Inv(st.next)
    && st.next.sends == args
    && Released(st.effects) + Contents(st.next.queue) == args
    && Watchers((true, false), st.effects) == (st.next.readWatch, st.next.writeWatch)
  }

  lemma ReachedExtends(args: seq<seq<byte>>, prior: Step, more: seq<seq<byte>>, step: Step)
    requires Reached(args, prior) && Keeps(prior.next, more, step)
    ensures Reached(args + more, Step(step.next, prior.effects + step.effects))
  {
    var s := prior.next;
    WatchersChain(prior.effects, step.effects, (s.readWatch, s.writeWatch), (step.next.readWatch, step.next.writeWatch));
    ReleasedChain(prior.effects, step.effects, Contents(s.queue), Contents(step.next.queue), args, more);
  }

  lemma WatchersChain(a: seq<Effect>, b: seq<Effect>, mid: (bool, bool), last: (bool, bool))
    requires Watchers((true, false), a) == mid && Watchers(mid, b) == last
    ensures Watchers((true, false), a + b) == last
  {
    WatchersConcat((true, false), a, b);
  }

  lemma ReleasedChain(a: seq<Effect>, b: seq<Effect>, queued: seq<seq<byte>>, left: seq<seq<byte>>,
                      args: seq<seq<byte>>, more: seq<seq<byte>>)
    requires Released(a) + queued == args && Released(b) + left == queued + more
    ensures Released(a + b) + left == args + more
  {
    ReleasedConcat(a, b);
    calc {
      Released(a + b) + left;
      Released(a) + (Released(b) + left);
      Released(a) + (queued + more);
      (Released(a) + queued) + more;
    }
  }

  lemma {:induction false} RunReaches(evs: seq<Event>)
    requires Run(evs).Some?
    ensures Reached(SendArgs(evs), Run(evs).value)
  {
    if evs != [] {
      var before := evs[..|evs| - 1];
      var e := evs[|evs| - 1];
      RunReaches(before);
      var prior := Run(before).value;
      var step := Deliver(prior.next, e).value;
      assert Run(evs).value == Step(step.next, prior.effects + step.effects);
      DeliverKeepsInv(prior.next, e);
      ReachedExtends(SendArgs(before), prior, SendArg(e), step);
    }
  }

  /**
   * Over any run: the invariant holds, so a write event never meets an empty
   * queue; the bytes handed to `send` followed by the bytes still queued are
   * the concatenation of all send arguments in call order; the buffers
   * released so far followed by those still queued are exactly the send
   * arguments; the watcher flags are what the reactor calls made them.
   */
  lemma RunKeepsOrder(evs: seq<Event>)
    requires Run(evs).Some?
    ensures Inv(Run(evs).value.next)
    ensures Run(evs).value.next.writeWatch ==> Run(evs).value.next.queue != []
    ensures Flatten(Run(evs).value.next.writes) + Pending(Run(evs).value.next.queue) == Flatten(SendArgs(evs))
    ensures Released(Run(evs).value.effects) + Contents(Run(evs).value.next.queue) == SendArgs(evs)
    ensures Watchers((true, false), Run(evs).value.effects)
         == (Run(evs).value.next.readWatch, Run(evs).value.next.writeWatch)
  {
    RunReaches(evs);
  }

  /**
   * Closing after any run releases every buffer ever queued exactly once, in
   * send order, and leaves no watcher started.
   */
  lemma LifetimeReleasesEachBufferOnce(evs: seq<Event>, hasCloseCb: bool)
    requires Run(evs).Some?
    ensures Released(Run(evs).value.effects + CloseEffects(Run(evs).value.next, hasCloseCb)) == SendArgs(evs)
    ensures Watchers((true, false), Run(evs).value.effects + CloseEffects(Run(evs).value.next, hasCloseCb))
         == (false, false)
  {
    var st := Run(evs).value;
    RunKeepsOrder(evs);
    CloseStopsEveryWatcher(st.next, hasCloseCb);
    CloseReleasesQueue(st.next, hasCloseCb);
    ReleasedConcat(st.effects, CloseEffects(st.next, hasCloseCb));
    WatchersConcat((true, false), st.effects, CloseEffects(st.next, hasCloseCb));
  }
}
