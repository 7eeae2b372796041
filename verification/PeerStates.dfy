/** ENetPeerState, in the order of its values. */
module PeerStates {
  datatype PeerState =
    | Disconnected | Connecting | AcknowledgingConnect | ConnectionPending | ConnectionSucceeded
    | Connected | DisconnectLater | Disconnecting | AcknowledgingDisconnect | Zombie

  function Rank(s: PeerState): nat {
    match s
    case Disconnected => 0
    case Connecting => 1
    case AcknowledgingConnect => 2
    case ConnectionPending => 3
    case ConnectionSucceeded => 4
    case Connected => 5
    case DisconnectLater => 6
    case Disconnecting => 7
    case AcknowledgingDisconnect => 8
    case Zombie => 9
  }
}
