/** The datagram a host assembles for one peer: its commands, its buffers and its size. */
module Datagram {
  /** ENET_PROTOCOL_MAXIMUM_PACKET_COMMANDS, ENET_BUFFER_MAXIMUM and ENET_PROTOCOL_MAXIMUM_MTU. */
  const MAX_COMMANDS: nat := 32
  const MAX_BUFFERS: nat := 1 + 2 * MAX_COMMANDS
  const MAX_MTU: nat := 4096

  /** sizeof (ENetProtocolHeader) */
  const HEADER: nat := 4

  const ACKNOWLEDGE: nat := 1
  const DISCONNECT: nat := 4
  const PING: nat := 5
  const SEND_RELIABLE: nat := 6
  const SEND_FRAGMENT: nat := 8
  const SEND_UNSEQUENCED: nat := 9

  /** commandSizes: the sizes of the packed structures of protocol.h, by command number. */
  function CommandSize(code: nat): (size: nat)
    ensures size <= 48
  {
    match code
    case 1 => 8
    case 2 => 48
    case 3 => 44
    case 4 => 8
    case 5 => 4
    case 6 => 6
    case 7 => 8
    case 8 => 24
    case 9 => 8
    case 10 => 12
    case 11 => 16
    case 12 => 24
    case _ => 0
  }

  function Total(lengths: seq<nat>): nat {
    if lengths == [] then 0 else Total(lengths[..|lengths| - 1]) + lengths[|lengths| - 1]
  }

  lemma TotalPlus(lengths: seq<nat>, n: nat)
    ensures Total(lengths + [n]) == Total(lengths) + n
  {
    assert (lengths + [n])[..|lengths|] == lengths;
  }

  /** commandCount, the lengths of buffers [1..bufferCount), packetSize and continueSending. */
  class Datagram {
    var commandCount: nat
    var lengths: seq<nat>
    var packetSize: nat
    var continueSending: bool

    /** The size is that of the header and the buffers together, and never above the peer's mtu. */
    predicate Assembled(mtu: nat)
      reads this`commandCount, this`lengths, this`packetSize
    {
      && packetSize == HEADER + Total(lengths) <= mtu
      && commandCount <= MAX_COMMANDS && |lengths| <= 2 * commandCount
      && (commandCount == 0 ==> lengths == [])
    }

    constructor ()
      ensures commandCount == 0 && lengths == [] && packetSize == HEADER && continueSending
    {
      commandCount, lengths, packetSize, continueSending := 0, [], HEADER, true;
    }

    /** What send_outgoing_commands does before it turns to a peer. */
    method Begin()
      modifies this`commandCount, this`lengths, this`packetSize
      ensures commandCount == 0 && lengths == [] && packetSize == HEADER
    {
      commandCount, lengths, packetSize := 0, [], HEADER;
    }

    method Append(mtu: nat, size: nat)
      requires Assembled(mtu) && commandCount < MAX_COMMANDS && packetSize + size <= mtu
      modifies this`commandCount, this`lengths, this`packetSize
      ensures Assembled(mtu) && commandCount == old(commandCount) + 1 && lengths == old(lengths) + [size]
    {
      TotalPlus(lengths, size);
      lengths, packetSize, commandCount := lengths + [size], packetSize + size, commandCount + 1;
    }

    method AppendWithData(mtu: nat, size: nat, length: nat)
      requires Assembled(mtu) && commandCount < MAX_COMMANDS && packetSize + size + length <= mtu
      modifies this`commandCount, this`lengths, this`packetSize
      ensures Assembled(mtu) && commandCount == old(commandCount) + 1 && lengths == old(lengths) + [size, length]
    {
      TotalPlus(lengths, size);
      TotalPlus(lengths + [size], length);
      assert lengths + [size] + [length] == lengths + [size, length];
      lengths, packetSize, commandCount := lengths + [size, length], packetSize + size + length, commandCount + 1;
    }
  }
}
