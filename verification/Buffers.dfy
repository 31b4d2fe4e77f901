/**
 The bytes of a datagram as the sources hold them, in several buffers.
 */
module Buffers {

  function Concat<T>(buffers: seq<seq<T>>): seq<T> {
    if buffers == [] then [] else buffers[0] + Concat(buffers[1..])
  }

  lemma {:induction false} ConcatNext<T>(buffers: seq<seq<T>>, more: seq<T>)
    ensures Concat(buffers + [more]) == Concat(buffers) + more
  {
    if buffers == [] {
      assert [more][1..] == [];
    } else {
      ConcatNext(buffers[1..], more);
      assert (buffers + [more])[1..] == buffers[1..] + [more];
    }
  }
}
