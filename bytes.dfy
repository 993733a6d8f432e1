/** Octets and runs of octets, as they pass through `char` buffers and `send`. */
module Bytes {

  /** One octet of a `char *` buffer. */
  newtype byte = x: int | 0 <= x < 256

  /** The runs of `runs` laid end to end, first run first. */
  function Flatten(runs: seq<seq<byte>>): (r: seq<byte>)
  {
    if runs == [] then [] else Flatten(runs[..|runs| - 1]) + runs[|runs| - 1]
  }

  /** Flattening distributes over concatenation of run lists. */
  lemma {:induction false} FlattenConcat(a: seq<seq<byte>>, b: seq<seq<byte>>)
    ensures Flatten(a + b) == Flatten(a) + Flatten(b)
  {
    if b != [] {
      calc {
        Flatten(a + b);
        { assert (a + b)[..|a + b| - 1] == a + b[..|b| - 1]; }
        Flatten(a + b[..|b| - 1]) + b[|b| - 1];
        { FlattenConcat(a, b[..|b| - 1]); }
        Flatten(a) + Flatten(b[..|b| - 1]) + b[|b| - 1];
      }
    } else {
      assert a + b == a;
    }
  }
}
