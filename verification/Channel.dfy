/** The two ends of a channel as objects the source updates in place; what the methods compute are
    the functions of ReliableChannel.dfy and Messages.dfy. */
module Channel {
  import opened Bytes
  import opened Bitmap
  import opened Constants
  import opened Windows
  import opened Messages
  import opened ReliableChannel

  /** ENetChannel, receiving side, with the packets it has handed to dispatchedCommands. */
  class IncomingChannel {
    const q: Layout
    const lim: Limits
    var incomingReliableSequenceNumber: nat
    var incomingReliableCommands: seq<Incoming>
    var dispatchedCommands: seq<seq<byte>>

    ghost function State(): Receiver
      reads this
    {
      Receiver(incomingReliableSequenceNumber, incomingReliableCommands, dispatchedCommands)
    }

    constructor (q: Layout, lim: Limits)
      requires Proper(q)
      ensures this.q == q && this.lim == lim && State() == FRESH
    {
      this.q, this.lim := q, lim;
      incomingReliableSequenceNumber, incomingReliableCommands, dispatchedCommands := 0, [], [];
    }

    /** enet_peer_dispatch_incoming_reliable_commands: walks the commands that are due, then moves
        them to the dispatched list in one piece. */
    method DispatchReliable()
      modifies this`incomingReliableSequenceNumber, this`incomingReliableCommands, this`dispatchedCommands
      ensures State() == Dispatch(old(State()))
    {
      hide Dispatch, Moved, Packets;
      ghost var r := State();
      MovedNothing(r);
      var current := 0;
      while current < |incomingReliableCommands|
        invariant 0 <= current <= |r.queue| && incomingReliableCommands == r.queue && dispatchedCommands == r.dispatched
        invariant Dispatch(Moved(r, incomingReliableSequenceNumber, current)) == Dispatch(r)
        invariant current == 0 ==> incomingReliableSequenceNumber == r.current
      {
        MovedOne(r, incomingReliableSequenceNumber, current);
        var command := incomingReliableCommands[current];
        if command.remaining > 0 || command.number != (incomingReliableSequenceNumber + 1) % 0x1_0000 { break; }
        incomingReliableSequenceNumber := command.number;
        if command.fragmentCount > 0 {
          incomingReliableSequenceNumber := (incomingReliableSequenceNumber + command.fragmentCount - 1) % 0x1_0000;
        }
        current := current + 1;
      }
      MovedAll(r, incomingReliableSequenceNumber, current);
      assert Dispatch(r) == Moved(r, incomingReliableSequenceNumber, current);
      if current == 0 { return; }
      dispatchedCommands := dispatchedCommands + Packets(incomingReliableCommands[..current]);
      incomingReliableCommands := incomingReliableCommands[current..];
    }

    /** The search loops, from the back of the queue. */
    method SearchReliable(s: nat) returns (p: Place)
      ensures p == Find(State(), s)
    {
      var i := |incomingReliableCommands|;
      while i > 0
        invariant 0 <= i <= |incomingReliableCommands|
        invariant Search(incomingReliableCommands, s, incomingReliableSequenceNumber, i) == Find(State(), s)
      {
        var number := incomingReliableCommands[i - 1].number;
        if s >= incomingReliableSequenceNumber {
          if number < incomingReliableSequenceNumber {
            i := i - 1;
            continue;
          }
        } else if number >= incomingReliableSequenceNumber {
          break;
        }
        if number <= s {
          if number < s { break; }
          return Taken(i - 1);
        }
        i := i - 1;
      }
      p := Gap(i);
    }

    /** enet_peer_queue_incoming_command for SEND_RELIABLE and SEND_FRAGMENT. */
    method QueueReliable(leaving: bool, s: nat, data: seq<byte>, fragmentCount: nat) returns (queued: Queued)
      requires Proper(q)
      modifies this`incomingReliableSequenceNumber, this`incomingReliableCommands, this`dispatchedCommands
      ensures (State(), queued) == Enqueue(q, old(State()), leaving, s, data, fragmentCount)
    {
      hide Dispatch, Search, InWindow;
      WindowTestIs(q, s, incomingReliableSequenceNumber);
      if leaving { return Dropped; }
      var reliableWindow, currentWindow := s / q.size, incomingReliableSequenceNumber / q.size;
      if s < incomingReliableSequenceNumber { reliableWindow := reliableWindow + q.windows; }
      if reliableWindow < currentWindow || reliableWindow >= currentWindow + q.free - 1 { return Dropped; }
      if s == incomingReliableSequenceNumber { return Dropped; }
      var place := SearchReliable(s);
      if place.Taken? { return Dropped; }
      var command := Incoming(s, fragmentCount, fragmentCount, Zeros(Words(fragmentCount)), data);
      incomingReliableCommands :=
        incomingReliableCommands[..place.at] + [command] + incomingReliableCommands[place.at..];
      DispatchReliable();
      queued := At(place.at);
    }

    /** enet_protocol_handle_send_reliable, the peer being connected. */
    method HandleSendReliable(leaving: bool, s: nat, data: seq<byte>)
      requires Proper(q)
      modifies this`incomingReliableSequenceNumber, this`incomingReliableCommands, this`dispatchedCommands
      ensures State() == HandleReliable(q, lim, old(State()), leaving, s, data)
    {
      if |data| > lim.packetSize { return; }
      var _ := QueueReliable(leaving, s, data, 0);
    }

    /** enet_protocol_handle_send_fragment, the peer being connected. */
    method HandleSendFragment(leaving: bool, c: Command)
      requires Proper(q) && c.SendFragment? && c.number < SPAN && c.start < SPAN
      modifies this`incomingReliableSequenceNumber, this`incomingReliableCommands, this`dispatchedCommands
      ensures State() == HandleFragment(q, lim, old(State()), leaving, c)
    {
      hide Dispatch, Search, InWindow, TakeFragment, Matches;
      WindowTestIs(q, c.start, incomingReliableSequenceNumber);
      if |c.data| > lim.packetSize { return; }
      var startWindow, currentWindow := c.start / q.size, incomingReliableSequenceNumber / q.size;
      if c.start < incomingReliableSequenceNumber { startWindow := startWindow + q.windows; }
      if startWindow < currentWindow || startWindow >= currentWindow + q.free - 1 { return; }
      if c.count > lim.fragments || c.index >= c.count || c.total > lim.packetSize
         || c.offset >= c.total || |c.data| > c.total - c.offset { return; }
      ghost var r := State();
      var place := SearchReliable(c.start);
      if place.Taken? {
        if !Matches(incomingReliableCommands[place.at], c) { return; }
        StoreFragment(place.at, c);
      } else {
        var before, fill := |incomingReliableCommands|, seq(c.total, _ => 0);
        var queued := QueueReliable(leaving, c.start, fill, c.count);
        if queued.Dropped? { return; }
        EnqueueKeepsPlace(q, r, leaving, c.start, fill, c.count);
        NewMatches(lim, c, fill);
        StoreFragment(queued.at - (before + 1 - |incomingReliableCommands|), c);
      }
    }

    /** The part of it that stores the bytes and counts the fragment, once. */
    method StoreFragment(at: nat, c: Command)
      requires at < |incomingReliableCommands| && Matches(incomingReliableCommands[at], c)
      requires c.index < c.count && c.offset + |c.data| <= c.total
      modifies this`incomingReliableSequenceNumber, this`incomingReliableCommands, this`dispatchedCommands
      ensures State() == TakeFragment(old(State()), at, c)
    {
      TakeFragmentIs(State(), at, c);
      hide Dispatch, TakeFragment, Marked, WithBit, Mask, Meets, Or;
      var command := incomingReliableCommands[at];
      if !Meets(command.fragments[c.index / 32], Mask(c.index % 32)) {
        MarkedIs(command, c.index, c.offset, c.data);
        command := command.(
          remaining := if command.remaining == 0 then 0 else command.remaining - 1,
          fragments := command.fragments[c.index / 32 := Or(command.fragments[c.index / 32], Mask(c.index % 32))],
          data := command.data[..c.offset] + c.data + command.data[c.offset + |c.data|..]);
        incomingReliableCommands := incomingReliableCommands[at := command];
        if command.remaining == 0 { DispatchReliable(); }
      }
    }
  }

  lemma TakeFragmentIs(r: Receiver, at: nat, c: Command)
    requires at < |r.queue| && Matches(r.queue[at], c) && c.index < c.count && c.offset + |c.data| <= c.total
    ensures TakeFragment(r, at, c) ==
            if Bit(r.queue[at].fragments, c.index) then r
            else
              var e := Marked(r.queue[at], c.index, c.offset, c.data);
              var r' := r.(queue := r.queue[at := e]);
              if e.remaining == 0 then Dispatch(r') else r'
  {
    assert r.queue[at := r.queue[at]] == r.queue;
  }

  function Packets(queue: seq<Incoming>): seq<seq<byte>> {
    seq(|queue|, i requires 0 <= i < |queue| => queue[i].data)
  }

  /** The receiver once the first n commands of its queue have been moved. */
  ghost function Moved(r: Receiver, current: nat, n: nat): Receiver
    requires n <= |r.queue|
  {
    Receiver(current, r.queue[n..], r.dispatched + Packets(r.queue[..n]))
  }

  lemma MovedNothing(r: Receiver)
    ensures Moved(r, r.current, 0) == r
  {
    assert r.dispatched + [] == r.dispatched;
  }

  /** One round of the loop, in the words of the source. */
  lemma MovedOne(r: Receiver, current: nat, n: nat)
    requires n < |r.queue|
    ensures var e := r.queue[n];
            Dispatch(Moved(r, current, n)) ==
            if e.remaining > 0 || e.number != (current + 1) % 0x1_0000 then Moved(r, current, n)
            else if e.fragmentCount > 0
            then Dispatch(Moved(r, (e.number + e.fragmentCount - 1) % 0x1_0000, n + 1))
            else Dispatch(Moved(r, e.number, n + 1))
  {
    var m, e := Moved(r, current, n), r.queue[n];
    OneMorePacket(r, n);
    assert m.queue[0] == e;
    hide Dispatch;
  }

  lemma OneMorePacket(r: Receiver, n: nat)
    requires n < |r.queue|
    ensures r.dispatched + Packets(r.queue[..n]) + [r.queue[n].data] == r.dispatched + Packets(r.queue[..n + 1])
    ensures r.queue[n..][1..] == r.queue[n + 1..]
  {
    assert Packets(r.queue[..n]) + [r.queue[n].data] == Packets(r.queue[..n + 1]);
  }

  lemma MovedAll(r: Receiver, current: nat, n: nat)
    requires n <= |r.queue|
    ensures n == |r.queue| ==> Dispatch(Moved(r, current, n)) == Moved(r, current, n)
    ensures Moved(r, current, n) == Receiver(current, r.queue[n..], r.dispatched + Packets(r.queue[..n]))
  {
  }
}
