/** Compression of datagrams between two hosts: what the one compresses the other gets back. */
module Compression {
  import opened Bytes
  import opened Codec
  import opened SymbolPool
  import opened ContextModel
  import C = Compress
  import D = Decompress

  /** The buffers of a datagram go out compressed if that makes them shorter; at the other end they are
      decompressed into unpacked, and the datagram is dropped if that gives nothing.  The two buffers packed and
      unpacked are the packetData of the two hosts. */
  method Carry(sender: RangeCoder?, receiver: RangeCoder?, inBuffers: seq<seq<byte>>, packed: array<byte>,
               unpacked: array<byte>)
    returns (compressed: bool, delivered: bool, received: seq<byte>)
    requires sender != null ==> sender.symbols.Length == POOL && sender.symbols as object != packed
    requires receiver != null ==> receiver.symbols.Length == POOL && receiver.symbols as object != unpacked
    requires forall k | 0 < k < |inBuffers| :: inBuffers[k] != []
    requires |C.Concat(inBuffers)| <= packed.Length
    requires packed != unpacked
    requires sender != null && receiver != null ==> sender != receiver && sender.symbols != receiver.symbols
    modifies sender, receiver, if sender == null then {} else {sender.symbols},
             if receiver == null then {} else {receiver.symbols}, packed, unpacked
    ensures var msg := C.Concat(inBuffers);
            && (compressed <==> sender != null && |Stream(msg)| < |msg|)
            && (delivered <==> !compressed || (receiver != null && |msg| <= unpacked.Length))
            && (delivered ==> received == msg)
  {
    ghost var msg := C.Concat(inBuffers);
    var originalSize := |C.Concat(inBuffers)|;
    RoundTrip(msg, unpacked.Length);
    if msg != [] { StreamNotEmpty(msg); }
    hide Stream, C.Concat, Decode;
    var compressedSize := C.Compress(sender, inBuffers, originalSize, packed, originalSize);
    compressed := 0 < compressedSize < originalSize;
    if !compressed { return false, true, C.Concat(inBuffers); }
    var unpackedSize, offModel := D.Decompress(receiver, packed[..compressedSize], unpacked, unpacked.Length);
    delivered, received := unpackedSize > 0, unpacked[..unpackedSize];
  }
}
