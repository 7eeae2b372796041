/** Numbers that more than one part of the library goes by. */
module Constants {
  /** 2^32: the width of enet_uint32. */
  const WORD: nat := 0x1_0000_0000

  /** 2^16: the width of a sequence number. */
  const SPAN: nat := 0x1_0000

  /** ENET_PEER_RELIABLE_WINDOWS, ENET_PEER_RELIABLE_WINDOW_SIZE and ENET_PEER_FREE_RELIABLE_WINDOWS. */
  const WINDOWS: nat := 16
  const WINDOW_SIZE: nat := 0x1000
  const FREE_WINDOWS: nat := 8

  /** ENET_PEER_PACKET_THROTTLE_SCALE */
  const THROTTLE_SCALE: nat := 32
}
