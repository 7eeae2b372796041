/** The send loop of a host over all its peers. */
module Host {
  import opened Clock
  import opened PeerStates
  import opened Datagram
  import opened Peer

  /** A host's peers, each of them a different one. */
  predicate Distinct(peers: seq<Peer>) {
    forall i, j | 0 <= i < j < |peers| :: peers[i] != peers[j]
  }

  ghost predicate AllValid(peers: seq<Peer>)
    reads peers
  {
    forall i | 0 <= i < |peers| :: peers[i].Valid()
  }

  /** What every peer may still send at this time. */
  ghost function AllPending(peers: seq<Peer>, now: time): (s: seq<nat>)
    reads peers
    ensures |s| == |peers|
  {
    seq(|peers|, i requires 0 <= i < |peers| reads peers => peers[i].Pending(now))
  }

  lemma {:induction false} TotalUpdated(s: seq<nat>, t: seq<nat>, i: nat)
    requires i < |s| == |t| && t == s[i := t[i]]
    ensures Total(t) == Total(s) - s[i] + t[i]
    decreases |s|
  {
    var n := |s| - 1;
    if i < n {
      TotalUpdated(s[..n], t[..n], i);
    } else {
      assert s[..n] == t[..n];
    }
  }

  datatype Result = Idle | Event | Failed

  /** The peer is not in use, or has nothing left that it could send now. */
  ghost predicate Resting(peer: Peer)
    reads peer
  {
    peer.state == Disconnected || peer.state == Zombie || peer.Spent()
  }

  ghost predicate AllResting(peers: seq<Peer>, n: nat)
    reads peers
  {
    n <= |peers| && forall i | 0 <= i < n :: Resting(peers[i])
  }

  /** enet_protocol_send_outgoing_commands, at one service time.  It ends because every pass that asks
      for another has put into a datagram something that will not be sent again at this time, and not before
      every peer has sent what it can. */
  method SendOutgoing(peers: seq<Peer>, d: Datagram, now: time, event: bool, checkForTimeouts: bool)
    returns (result: Result)
    requires Distinct(peers) && AllValid(peers)
    modifies peers, d
    ensures AllValid(peers) && Total(AllPending(peers, now)) <= old(Total(AllPending(peers, now)))
    ensures result == Event ==> event
    ensures result == Idle ==> !d.continueSending && AllResting(peers, |peers|)
  {
    hide Total, AllPending, AllValid, Distinct, AllResting;
    d.continueSending := true;
    while d.continueSending
      invariant d.continueSending || AllResting(peers, |peers|)
      invariant AllValid(peers) && Total(AllPending(peers, now)) <= old(Total(AllPending(peers, now)))
      decreases Total(AllPending(peers, now)), d.continueSending
    {
      ghost var before := Total(AllPending(peers, now));
      d.continueSending := false;
      var i := 0;
      NoneResting(peers);
      while i < |peers|
        invariant d.continueSending || AllResting(peers, i)
        invariant 0 <= i <= |peers| && AllValid(peers) && Total(AllPending(peers, now)) <= before
        invariant d.continueSending ==> Total(AllPending(peers, now)) < before
      {
        var turn := TurnOf(peers, i, d, now, event, checkForTimeouts);
        if turn == Reported { return Event; }
        if turn == Made && d.commandCount > 0 {
          var delivered := SendDatagram(peers, i, d, now);
          if !delivered { return Failed; }
        }
        i := i + 1;
      }
    }
    result := Idle;
  }

  lemma NoneResting(peers: seq<Peer>)
    ensures AllResting(peers, 0)
  {
  }

  /** A peer's turn leaves the other peers as they are. */
  method TurnOf(peers: seq<Peer>, i: nat, d: Datagram, now: time, event: bool, checkForTimeouts: bool)
    returns (turn: Turned)
    requires Distinct(peers) && AllValid(peers) && i < |peers|
    modifies peers[i], d
    ensures AllValid(peers) && (turn == Made ==> d.Assembled(peers[i].mtu)) && (turn == Reported ==> event)
    ensures Total(AllPending(peers, now)) <= old(Total(AllPending(peers, now)))
    ensures d.continueSending ==>
              old(d.continueSending) || Total(AllPending(peers, now)) < old(Total(AllPending(peers, now)))
    ensures d.continueSending || (old(AllResting(peers, i)) ==> AllResting(peers, i + 1))
    ensures old(d.continueSending) ==> d.continueSending
  {
    hide Total, Resting, Peer.Valid, Peer.Pending, Peer.Spent;
    ghost var pending := AllPending(peers, now);
    turn := peers[i].Turn(d, now, event, checkForTimeouts);
    forall j | 0 <= j < |peers| && j != i ensures AllPending(peers, now)[j] == pending[j] && peers[j].Valid() {
      assert peers[j] != peers[i];
    }
    TotalUpdated(pending, AllPending(peers, now), i);
    RestingIs(peers[i]);
  }

  lemma RestingIs(peer: Peer)
    ensures Resting(peer) <==> peer.state == Disconnected || peer.state == Zombie || peer.Spent()
  {
  }

  /** The datagram goes out, or the socket fails; the unreliable packets in it are done with. */
  method SendDatagram(peers: seq<Peer>, i: nat, d: Datagram, now: time) returns (delivered: bool)
    requires Distinct(peers) && AllValid(peers) && i < |peers| && d.Assembled(peers[i].mtu)
    modifies peers[i]
    ensures AllValid(peers) && peers[i].sentUnreliableCommands == []
    ensures AllPending(peers, now) == old(AllPending(peers, now))
    ensures forall n: nat | old(AllResting(peers, n)) :: AllResting(peers, n)
  {
    ghost var pending := AllPending(peers, now);
    peers[i].ForgetUnreliable(now);
    forall j | 0 <= j < |peers| && j != i ensures AllPending(peers, now)[j] == pending[j] && peers[j].Valid() {
      assert peers[j] != peers[i];
    }
    assert AllPending(peers, now) == pending;
    var sent: bool := *;
    delivered := sent;
  }
}
