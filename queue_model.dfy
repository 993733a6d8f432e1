/**
 * The value seen in a write queue: a list of buffers, oldest first, each a
 * copy of the bytes passed to one send call and a cursor `start` at the first
 * byte not yet handed to the socket.
 */
module QueueModel {
  import opened Bytes

  /** One `struct sev_buffer`: `data` holds `len` bytes, `start` is the cursor. */
  datatype Chunk = Chunk(data: seq<byte>, start: nat)

  /** The cursor never passes the end of the buffer. */
  predicate WellFormed(c: Chunk)
  {
    c.start <= |c.data|
  }

  predicate AllWellFormed(q: seq<Chunk>)
  {
    forall i :: 0 <= i < |q| ==> WellFormed(q[i])
  }

  /** A buffer as `sev_buffer_new` creates it from `data`. */
  function Fresh(data: seq<byte>): (c: Chunk)
    ensures WellFormed(c) && Unsent(c) == data
  {
    Chunk(data, 0)
  }

  /** The bytes of `c` that are still to be sent. */
  function Unsent(c: Chunk): (r: seq<byte>)
    requires WellFormed(c)
    ensures |r| == |c.data| - c.start
    ensures c.data[..c.start] + r == c.data
  {
    c.data[c.start..]
  }

  /** All bytes still queued, in the order they will be sent. */
  function Pending(q: seq<Chunk>): (r: seq<byte>)
    requires AllWellFormed(q)
  {
    if q == [] then [] else Unsent(q[0]) + Pending(q[1..])
  }

  /** The data of every buffer in the list, oldest first. */
  function Contents(q: seq<Chunk>): (r: seq<seq<byte>>)
    ensures |r| == |q| && forall i :: 0 <= i < |q| ==> r[i] == q[i].data
  {
    if q == [] then [] else [q[0].data] + Contents(q[1..])
  }

  lemma ContentsAppend(q: seq<Chunk>, c: Chunk)
    ensures Contents(q + [c]) == Contents(q) + [c.data]
  {
    assert forall i :: 0 <= i < |q| ==> (q + [c])[i] == q[i];
  }

  lemma ContentsTail(q: seq<Chunk>)
    requires q != []
    ensures Contents(q[1..]) == Contents(q)[1..]
  {
  }

  /** Appending a buffer at the tail appends its unsent bytes to the pending bytes. */
  lemma {:induction false} PendingAppend(q: seq<Chunk>, c: Chunk)
    requires AllWellFormed(q) && WellFormed(c)
    ensures AllWellFormed(q + [c])
    ensures Pending(q + [c]) == Pending(q) + Unsent(c)
  {
    if q != [] {
      assert (q + [c])[1..] == q[1..] + [c];
      PendingAppend(q[1..], c);
    }
  }

  /**
   * The list after `n` more bytes of the head buffer have been sent: the
   * head's cursor moves by `n` and the head is dropped once it reaches the
   * end (`buffer->start += n`, then `sev_queue_free_head` when `start == len`).
   */
  function Advanced(q: seq<Chunk>, n: nat): (r: seq<Chunk>)
    requires q != [] && AllWellFormed(q) && n <= |Unsent(q[0])|
    ensures |r| == |q| - 1 <==> q[0].start + n == |q[0].data|
    ensures |r| == |q| - 1 || |r| == |q|
  {
    var moved := q[0].(start := q[0].start + n);
    if moved.start == |moved.data| then q[1..] else [moved] + q[1..]
  }

  /**
   * Sending `n` bytes of the head keeps the stream order: the bytes sent,
   * then the bytes still pending afterwards, are the bytes pending before.
   * The cursor stays within its buffer.
   */
  lemma {:induction false} AdvancedKeepsOrder(q: seq<Chunk>, n: nat)
    requires q != [] && AllWellFormed(q) && n <= |Unsent(q[0])|
    ensures AllWellFormed(Advanced(q, n))
    ensures Unsent(q[0])[..n] + Pending(Advanced(q, n)) == Pending(q)
  {
    var moved := q[0].(start := q[0].start + n);
    var rest := q[1..];
    assert AllWellFormed(rest);
    assert Pending(q) == Unsent(q[0]) + Pending(rest);
    if moved.start < |moved.data| {
      var r := [moved] + rest;
      assert r[1..] == rest;
      assert Pending(r) == Unsent(moved) + Pending(rest);
      assert Unsent(q[0]) == Unsent(q[0])[..n] + Unsent(moved);
    } else {
      assert Unsent(q[0])[..n] == Unsent(q[0]);
    }
  }

  /**
   * Sending from the head touches no buffer's data: the list afterwards
   * holds the data of the list before, less the head once it is finished,
   * and every buffer behind the head is the same buffer as before.
   */
  lemma AdvancedKeepsData(q: seq<Chunk>, n: nat)
    requires q != [] && AllWellFormed(q) && n <= |Unsent(q[0])|
    ensures var d := |q| - |Advanced(q, n)|;
            Contents(Advanced(q, n)) == Contents(q)[d..]
            && forall i :: 1 <= i < |Advanced(q, n)| ==> Advanced(q, n)[i] == q[i + d]
  {
    var r := Advanced(q, n);
    var moved := q[0].(start := q[0].start + n);
    assert q == [q[0]] + q[1..];
    ContentsCons(q[0], q[1..]);
    if moved.start == |moved.data| {
      assert r == q[1..];
    } else {
      assert r == [moved] + q[1..];
      ContentsCons(moved, q[1..]);
    }
  }

  lemma ContentsCons(c: Chunk, t: seq<Chunk>)
    ensures Contents([c] + t) == [c.data] + Contents(t)
  {
    assert ([c] + t)[1..] == t;
  }
}
