/**
 * sev_queue.c: the outbound write queue, a singly linked tail queue of heap
 * buffers. Each buffer owns a copy of one send argument and a cursor
 * `start` at its first unsent byte.
 */
module SevQueue {
  import opened Bytes
  import opened QueueModel

  /** `struct sev_buffer`: `len` bytes of `data`, of which the first `start` were sent. */
  class Buffer {
    const len: nat
    const data: seq<byte>
    var start: nat

    ghost predicate Valid()
      reads this
    {
      |data| == len && start <= len
    }

    ghost function View(): Chunk
      reads this
    {
      Chunk(data, start)
    }

    /** `sev_buffer_new`: a private copy of the first `len` bytes of `src`, nothing sent yet. */
    constructor (src: array<byte>, len: nat)
      requires len <= src.Length
      ensures Valid() && this.len == len && View() == Fresh(src[..len])
    {
      this.len := len;
      data := src[..len];
      start := 0;
    }
  }

  /** The buffers of a list, as values, in list order. */
  ghost function ChunksOf(bs: seq<Buffer>): (r: seq<Chunk>)
    reads bs
    ensures |r| == |bs|
  {
    if bs == [] then [] else [bs[0].View()] + ChunksOf(bs[1..])
  }

  /** Each element of `ChunksOf(bs)` is the view of the buffer at that place. */
  lemma {:induction false} ChunksOfAt(bs: seq<Buffer>, i: nat)
    requires i < |bs|
    ensures ChunksOf(bs)[i] == bs[i].View()
    decreases i
  {
    if i > 0 {
      ChunksOfAt(bs[1..], i - 1);
    }
  }

  /** Linking one more buffer at the tail adds its view at the end. */
  lemma {:induction false} ChunksOfAppend(bs: seq<Buffer>, b: Buffer)
    ensures ChunksOf(bs + [b]) == ChunksOf(bs) + [b.View()]
  {
    if bs != [] {
      assert (bs + [b])[1..] == bs[1..] + [b];
      ChunksOfAppend(bs[1..], b);
    } else {
      assert [b][1..] == [];
    }
  }

  /**
   * The data of each buffer of a list, in list order; `data` never changes after creation.
   * This is `QueueModel.Contents` over buffers. It is kept apart because it reads only
   * `const` fields, so facts about it survive a loop's heap changes and stay cheap to prove.
   */
  function DataOf(bs: seq<Buffer>): (r: seq<seq<byte>>)
    ensures |r| == |bs| && forall i :: 0 <= i < |bs| ==> r[i] == bs[i].data
  {
    if bs == [] then [] else [bs[0].data] + DataOf(bs[1..])
  }

  lemma DataOfAppend(bs: seq<Buffer>, b: Buffer)
    ensures DataOf(bs + [b]) == DataOf(bs) + [b.data]
  {
    assert forall i :: 0 <= i < |bs| ==> (bs + [b])[i] == bs[i];
  }

  /** The contents of a list of buffers are the data they were created with. */
  lemma {:induction false} ContentsOfBuffers(bs: seq<Buffer>)
    ensures Contents(ChunksOf(bs)) == DataOf(bs)
  {
    if bs != [] {
      ContentsOfBuffers(bs[1..]);
    }
  }

  /**
   * `buffer->start += n` on the first of a list of distinct buffers: its
   * cursor moves by `n`; every other buffer keeps its view.
   */
  method AdvanceFirst(bs: seq<Buffer>, n: nat)
    requires bs != [] && (forall i, j :: 0 <= i < j < |bs| ==> bs[i] != bs[j])
    requires forall i :: 0 <= i < |bs| ==> bs[i].Valid()
    requires n <= bs[0].len - bs[0].start
    modifies bs[0]
    ensures forall i :: 0 <= i < |bs| ==> bs[i].Valid()
    ensures bs[0].start == old(bs[0].start) + n
    ensures ChunksOf(bs) == [old(bs[0].View()).(start := old(bs[0].start) + n)] + old(ChunksOf(bs))[1..]
  {
    var first := bs[0];
    assert forall k :: 1 <= k < |bs| ==> bs[k] != first;
    ghost var rest := ChunksOf(bs[1..]);
    assert old(ChunksOf(bs))[1..] == rest;
    first.start := first.start + n;
    assert ChunksOf(bs[1..]) == rest;
  }

  /**
   * `struct sev_queue`: the list `buffers`, head first. `Repr` is every
   * object the queue has owned; `live` is false once the queue is freed.
   */
  class Queue {
    var buffers: seq<Buffer>
    ghost var chunks: seq<Chunk>
    ghost var Repr: set<object>
    ghost var live: bool

    /** Every buffer is valid, owned by the queue, and on the list once. */
    ghost predicate Valid()
      reads this, Repr
    {
      this in Repr && live
      && (forall i :: 0 <= i < |buffers| ==> buffers[i] in Repr && buffers[i].Valid())
      && (forall i, j :: 0 <= i < j < |buffers| ==> buffers[i] != buffers[j])
      && chunks == ChunksOf(buffers) && AllWellFormed(chunks)
    }

    /** The list as values, head first; `Valid()` ties it to the buffers. */
    ghost function View(): seq<Chunk>
      reads this
    {
      chunks
    }

    /** `sev_queue_new`: an empty list. */
    constructor ()
      ensures Valid() && fresh(Repr) && View() == []
    {
      buffers := [];
      chunks := [];
      Repr := {this};
      live := true;
    }

    /** `sev_queue_head`: the oldest buffer still queued, or null exactly when the queue is empty. */
    method Head() returns (b: Buffer?)
      requires Valid()
      ensures b == null <==> buffers == []
      ensures b != null ==> b == buffers[0] && b.View() == View()[0]
    {
      if buffers == [] {
        b := null;
      } else {
        b := buffers[0];
      }
    }

    /**
     * `sev_queue_free_head`: unlink the head buffer and free it. The list
     * must not be empty (STAILQ_REMOVE_HEAD on an empty list is undefined).
     */
    method FreeHead()
      requires Valid() && buffers != []
      modifies this
      ensures Valid() && Repr == old(Repr)
      ensures buffers == old(buffers)[1..] && View() == old(View())[1..]
    {
      buffers := buffers[1..];
      chunks := chunks[1..];
    }

    /**
     * `buffer->start += n` on the head buffer, as `stream_write` does after
     * `send` took `n` bytes: the head's cursor moves, all else stays.
     */
    method AdvanceHead(n: nat)
      requires Valid() && buffers != [] && n <= buffers[0].len - buffers[0].start
      modifies this, buffers[0]
      ensures Valid() && Repr == old(Repr) && buffers == old(buffers)
      ensures buffers[0].start == old(buffers[0].start) + n
      ensures View() == [old(View())[0].(start := old(buffers[0].start) + n)] + old(View())[1..]
    {
      AdvanceFirst(buffers, n);
      chunks := [buffers[0].View()] + chunks[1..];
    }

    /**
     * The queue side of a successful `send` of `n` bytes from the head
     * buffer, as `stream_write` performs it: advance the head's cursor, free
     * the head with `sev_queue_free_head` once fully sent, and look at the
     * new head. `done` says the head was freed, `empty` that nothing is left.
     */
    method Consume(n: nat) returns (done: bool, empty: bool)
      requires Valid() && buffers != [] && n <= buffers[0].len - buffers[0].start
      modifies this, buffers[0]
      ensures Valid() && Repr == old(Repr)
      ensures done <==> old(buffers[0].start) + n == old(buffers[0].len)
      ensures View() == Advanced(old(View()), n)
      ensures empty <==> View() == []
    {
      var buffer := Head();
      AdvanceHead(n);
      done := buffer.start == buffer.len;
      if done {
        FreeHead();
      }
      var next := Head();
      empty := next == null;
    }

    /**
     * `sev_queue_push_back`: link a fresh copy of the first `len` bytes of
     * `src` at the tail; every earlier buffer stays as it was, in order.
     */
    method PushBack(src: array<byte>, len: nat)
      requires Valid() && len <= src.Length
      modifies this
      ensures Valid() && fresh(Repr - old(Repr))
      ensures View() == old(View()) + [Fresh(src[..len])]
      ensures |buffers| == |old(buffers)| + 1 && buffers[..|old(buffers)|] == old(buffers)
      ensures fresh(buffers[|buffers| - 1]) && buffers[|buffers| - 1].data == src[..len]
    {
      var buffer := new Buffer(src, len);
      ChunksOfAppend(buffers, buffer);
      buffers := buffers + [buffer];
      chunks := chunks + [buffer.View()];
      Repr := Repr + {buffer};
    }

    /**
     * `sev_queue_free`: walk the list from the head, freeing each buffer
     * once, then reset the list and free the queue. `released` lists the
     * data of the buffers in the order they were freed.
     */
    method Free() returns (released: seq<seq<byte>>)
      requires Valid()
      modifies this
      ensures released == Contents(old(View()))
      ensures buffers == [] && !live
    {
      var i := 0;
      released := [];
      while i < |buffers|
        invariant 0 <= i <= |buffers|
        invariant released == DataOf(buffers)[..i]
      {
        released := released + [buffers[i].data];
        i := i + 1;
      }
      ContentsOfBuffers(buffers);
      buffers := [];
      chunks := [];
      live := false;
    }
  }

  /**
   * FIFO order and copying, from the caller's side: push copies of `runs`
   * through scratch arrays that the caller overwrites after every push, then
   * drain with head/free_head; the buffers come out as they were pushed.
   */
  method PushThenDrain(runs: seq<seq<byte>>) returns (drained: seq<seq<byte>>)
    ensures drained == runs
  {
    var q := PushAll(runs);
    drained := DrainAll(q);
  }

  /** Push a copy of every run, in order. */
  method PushAll(runs: seq<seq<byte>>) returns (q: Queue)
    ensures q.Valid() && fresh(q) && Contents(q.View()) == runs
  {
    q := new Queue();
    var k := 0;
    while k < |runs|
      invariant 0 <= k <= |runs|
      invariant q.Valid() && fresh(q)
      invariant |q.View()| == k && forall i :: 0 <= i < k ==> q.View()[i].data == runs[i]
    {
      PushCopy(q, runs[k]);
      k := k + 1;
    }
    assert Contents(q.View()) == runs;
  }

  /**
   * A caller's `sev_queue_push_back` from its own array, which it then
   * overwrites: the queue keeps the bytes as they were at the call.
   */
  method PushCopy(q: Queue, run: seq<byte>)
    requires q.Valid()
    modifies q
    ensures q.Valid() && q.View() == old(q.View()) + [Fresh(run)]
  {
    var scratch := new byte[|run|](i requires 0 <= i < |run| => run[i]);
    assert scratch[..|run|] == run;
    q.PushBack(scratch, |run|);
    ghost var pushed := q.View();
    Scribble(scratch);
    assert q.View() == pushed;
  }

  /** The caller reuses its array: every byte is overwritten. */
  method Scribble(a: array<byte>)
    modifies a
    ensures forall i :: 0 <= i < a.Length ==> a[i] == 0
  {
    forall i | 0 <= i < a.Length {
      a[i] := 0;
    }
  }

  /** Take every buffer off the head of `q`, in turn, until `sev_queue_head` is null. */
  method DrainAll(q: Queue) returns (drained: seq<seq<byte>>)
    requires q.Valid()
    modifies q
    ensures drained == Contents(old(q.View()))
  {
    ghost var all := q.buffers;
    drained := [];
    var b := q.Head();
    while b != null
      invariant q.Valid() && q.Repr == old(q.Repr)
      invariant b == null <==> q.buffers == []
      invariant b != null ==> b == q.buffers[0]
      invariant |drained| <= |all| && q.buffers == all[|drained|..]
      invariant forall i :: 0 <= i < |drained| ==> drained[i] == all[i].data
      decreases |q.buffers|
    {
      drained := drained + [b.data];
      q.FreeHead();
      b := q.Head();
    }
    ContentsOfBuffers(all);
  }
}
