/**
 Both ends together: what one peer's compressor makes of a datagram's buffers, the other
 peer's decompressor turns back into the bytes of those buffers.
 */
module Compression {
  import opened Words
  import opened Buffers
  import opened RangeCoderSpec
  import opened RoundTrip
  import opened RangeCoderPool

  /** Compresses into `wire` and, if that succeeded, decompresses into `outData`. */
  method Carry(sender: RangeCoder, receiver: RangeCoder, inBuffers: seq<seq<byte>>, inLimit: nat,
        wire: array<byte>, wireLimit: nat, outData: array<byte>, outLimit: nat)
    returns (compressed: nat, received: nat)
    requires sender.symbols.Length == POOL_SIZE && receiver.symbols.Length == POOL_SIZE
    requires wireLimit <= wire.Length && outLimit <= outData.Length && wire != outData
    requires forall b :: 1 <= b < |inBuffers| ==> inBuffers[b] != []
    modifies sender, sender.symbols, receiver, receiver.symbols, wire, outData
    ensures compressed > 0 ==>
              if |Concat(inBuffers)| <= outLimit then
                received == |Concat(inBuffers)| && outData[..received] == Concat(inBuffers)
              else received == 0
    ensures compressed == 0 ==> received == 0 && outData[..] == old(outData[..])
  {
    hide Stream, Unstream, Concat;
    compressed := sender.Compress(inBuffers, inLimit, wire, wireLimit);
    received := 0;
    if compressed > 0 {
      StreamRoundTrip(Concat(inBuffers), outLimit);
      var modelled: bool;
      received, modelled := receiver.Decompress(wire[..compressed], outData, outLimit);
    }
  }
}
