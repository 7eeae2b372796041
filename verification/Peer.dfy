/** The sending half of ENetPeer: its queues, and the loops of protocol.c that move commands between
    them and into the datagram being assembled. */
module Peer {
  import opened Clock
  import opened Constants
  import opened Queues
  import opened Ledger
  import opened Datagram
  import opened PeerStates

  /** ENET_PEER_PACKET_THROTTLE_COUNTER, the defaults enet_peer_reset goes back to, and the channel of
      commands that belong to none. */
  const THROTTLE_COUNTER: nat := 7
  const DEFAULT_MTU: nat := 1400
  const DEFAULT_ROUND_TRIP_TIME: time := 500
  const MAX_WINDOW_SIZE: nat := 32768
  const MAX_CHANNELS: nat := 255
  const NO_CHANNEL: nat := 0xFF

  /** ENetAcknowledgement; disconnect tells what it acknowledges. */
  datatype Acknowledgement = Acknowledgement(channel: nat, number: nat, sentTime: time, disconnect: bool)

  /** ENetOutgoingCommand of an unreliable command. */
  datatype Loose = Loose(code: nat, packet: bool, offset: nat, length: nat, number: nat, unreliable: nat)

  datatype Outcome = Held | NoRoom | Sent

  /** The counts that sending reliable commands changes. */
  datatype Counts = Counts(commands: nat, size: nat, going: bool, inTransit: nat)

  datatype Turned = Unused | GivenUp | Reported | Made

  class Peer {
    var channels: seq<InUse>
    var outgoingReliableCommands: seq<Outgoing>
    var sentReliableCommands: seq<Outgoing>
    var reliableDataInTransit: nat
    var nextTimeout: time
    var earliestTimeout: time
    var roundTripTime: time
    var roundTripTimeVariance: time
    var timeoutLimit: time
    var patience: Patience
    var mtu: nat
    var windowSize: nat
    var packetThrottle: nat
    var packetThrottleCounter: nat
    var state: PeerState
    var acknowledgements: seq<Acknowledgement>
    var outgoingUnreliableCommands: seq<Loose>
    var sentUnreliableCommands: seq<Loose>
    var outgoingReliableSequenceNumber: nat
    var lastReceiveTime: time
    var pingInterval: time

    /** For each window, the mask that the source gets by a shift of more than the width, which C leaves undefined. */
    var wrapMasks: seq<bv16>

    /** What reset queues have left in reliableDataInTransit. */
    ghost var stale: nat

    function Account(): Book
      reads this
    {
      Book(channels, outgoingReliableCommands, sentReliableCommands, reliableDataInTransit, nextTimeout)
    }

    /** enet_protocol_remove_sent_reliable_command. */
    method RemoveSentReliable(number: nat, channelID: nat) returns (code: nat)
      requires Balanced(Account(), stale) && number < WINDOWS * WINDOW_SIZE
      modifies this`channels, this`outgoingReliableCommands, this`sentReliableCommands,
               this`reliableDataInTransit, this`nextTimeout
      ensures (Account(), code) == Acknowledge(old(Account()), stale, number, channelID)
      ensures Balanced(Account(), stale)
    {
      ghost var b := Account();
      AcknowledgeBalanced(b, stale, number, channelID);
      AccountShape(b, stale, number, channelID);
      AcknowledgeIs(b, stale, number, channelID);
      hide Balanced, Shaped, AckSent, AckRetried, RetriedFirst, Acknowledge, Find;
      var i := SearchSent(number, channelID);
      if i < |sentReliableCommands| {
        code := sentReliableCommands[i].code;
        TakeSent(i);
      } else {
        var k := SearchRetried(number, channelID);
        if k == |outgoingReliableCommands| { return 0; }
        code := outgoingReliableCommands[k].code;
        TakeRetried(k);
      }
    }

    /** The rest of it, for a command in flight. */
    method TakeSent(i: nat)
      requires Shaped(Account()) && i < |sentReliableCommands|
      requires reliableDataInTransit >= PacketLength()(sentReliableCommands[i])
      modifies this`channels, this`sentReliableCommands, this`reliableDataInTransit, this`nextTimeout
      ensures Account() == AckSent(old(Account()), i)
    {
      AckSentIs(Account(), i);
      hide AckSent, Released, Without, FrontDeadline;
      var command := sentReliableCommands[i];
      Release(command.channel, command.number);
      sentReliableCommands := Without(sentReliableCommands, i);
      if command.packet { reliableDataInTransit := reliableDataInTransit - command.length; }
      UpdateTimeout();
    }

    /** And for one that awaits retransmission, whose data is not in flight. */
    method TakeRetried(k: nat)
      requires Shaped(Account()) && k < |outgoingReliableCommands|
      modifies this`channels, this`outgoingReliableCommands, this`nextTimeout
      ensures Account() == AckRetried(old(Account()), k)
    {
      AckRetriedIs(Account(), k);
      hide AckRetried, Released, Without, FrontDeadline;
      Release(outgoingReliableCommands[k].channel, outgoingReliableCommands[k].number);
      outgoingReliableCommands := Without(outgoingReliableCommands, k);
      UpdateTimeout();
    }

    method UpdateTimeout()
      modifies this`nextTimeout
      ensures nextTimeout == FrontDeadline(sentReliableCommands, old(nextTimeout))
    {
      if sentReliableCommands == [] { return; }
      nextTimeout := Plus(sentReliableCommands[0].sentTime, sentReliableCommands[0].timeout);
    }

    /** Its first loop, over the commands in flight. */
    method SearchSent(number: nat, channelID: nat) returns (i: nat)
      ensures i == Find(sentReliableCommands, number, channelID, 0)
    {
      i := 0;
      while i < |sentReliableCommands|
        invariant 0 <= i <= |sentReliableCommands|
        invariant Find(sentReliableCommands, number, channelID, 0) == Find(sentReliableCommands, number, channelID, i)
      {
        if sentReliableCommands[i].number == number && sentReliableCommands[i].channel == channelID { return; }
        i := i + 1;
      }
    }

    /** Its second, which gives up at the first command never sent. */
    method SearchRetried(number: nat, channelID: nat) returns (k: nat)
      requires RetriedFirst(outgoingReliableCommands)
      ensures var f := Find(outgoingReliableCommands, number, channelID, 0);
              k == if f < |outgoingReliableCommands| && outgoingReliableCommands[f].attempts > 0 then f
                   else |outgoingReliableCommands|
    {
      k := 0;
      while k < |outgoingReliableCommands|
        invariant 0 <= k <= |outgoingReliableCommands|
        invariant Find(outgoingReliableCommands, number, channelID, 0) ==
                  Find(outgoingReliableCommands, number, channelID, k)
      {
        if outgoingReliableCommands[k].attempts < 1 {
          ghost var f := Find(outgoingReliableCommands, number, channelID, k);
          assert f < |outgoingReliableCommands| ==> outgoingReliableCommands[f].attempts == 0;
          return |outgoingReliableCommands|;
        }
        if outgoingReliableCommands[k].number == number && outgoingReliableCommands[k].channel == channelID { return; }
        k := k + 1;
      }
    }

    /** The window count of the acknowledged command. */
    method Release(channelID: nat, number: nat)
      requires number < WINDOWS * WINDOW_SIZE
      requires channelID < |channels| ==> |channels[channelID].counts| == WINDOWS
      modifies this`channels
      ensures channels == Released(old(channels), channelID, number)
    {
      if channelID < |channels| {
        var c, w := channels[channelID], number / WINDOW_SIZE;
        if c.counts[w] > 0 {
          c := c.(counts := c.counts[w := c.counts[w] - 1]);
          if c.counts[w] == 0 { c := c.(used := Drop(c.used, WindowBit(w))); }
          channels := channels[channelID := c];
        }
      }
    }

    /** enet_protocol_check_timeouts, up to telling the host that the peer is gone.  It has dealt with
        the first k commands in flight, with all of them unless the peer is given up. */
    method CheckTimeouts(now: time) returns (dead: bool, ghost k: nat)
      requires Balanced(Account(), stale)
      modifies this`outgoingReliableCommands, this`sentReliableCommands, this`reliableDataInTransit,
               this`nextTimeout, this`earliestTimeout
      ensures Balanced(Account(), stale)
      ensures (dead, earliestTimeout) == Scan(now, patience, old(earliestTimeout), old(sentReliableCommands))
      ensures DealtWith(now, old(sentReliableCommands), old(outgoingReliableCommands), k, sentReliableCommands,
                        outgoingReliableCommands)
      ensures !dead ==> k == |old(sentReliableCommands)|
    {
      ghost var all, queue, earliest := sentReliableCommands, outgoingReliableCommands, earliestTimeout;
      var i: nat, insertPosition: nat := 0, 0;
      dead, k := false, 0;
      assert Checking(now, all, queue, earliest, k, i, insertPosition, dead);
      hide *;
      while !dead && i < |sentReliableCommands|
        invariant Checking(now, all, queue, earliest, k, i, insertPosition, dead)
        decreases !dead, Unchecked(all, k)
      {
        dead, k, i, insertPosition := CheckOne(now, k, i, insertPosition, all, queue, earliest);
      }
    }

    /** Where the loop stands: k of all the commands in flight have been dealt with. */
    ghost predicate Checking(now: time, all: seq<Outgoing>, queue: seq<Outgoing>, earliest: time, k: nat, i: nat,
                             insertPosition: nat, dead: bool)
      reads this
    {
      && Checked(now, all, queue, k, i, insertPosition, sentReliableCommands, outgoingReliableCommands)
      && Balanced(Account(), stale) && SentUpTo(outgoingReliableCommands, insertPosition)
      && Scan(now, patience, earliest, all) ==
         if dead then (true, earliestTimeout) else ScanFrom(now, patience, earliestTimeout, all, k)
    }

    /** One round of the loop. */
    method CheckOne(now: time, ghost k: nat, i: nat, insertPosition: nat, ghost all: seq<Outgoing>,
                    ghost queue: seq<Outgoing>, ghost earliest: time)
      returns (dead: bool, ghost k': nat, i': nat, insertPosition': nat)
      requires Checking(now, all, queue, earliest, k, i, insertPosition, false) && i < |sentReliableCommands|
      modifies this`outgoingReliableCommands, this`sentReliableCommands, this`reliableDataInTransit,
               this`nextTimeout, this`earliestTimeout
      ensures Checking(now, all, queue, earliest, k', i', insertPosition', dead)
      ensures dead || Unchecked(all, k') < Unchecked(all, k)
    {
      OneChecked(now, patience, earliestTimeout, all, queue, k, i, insertPosition, sentReliableCommands,
                 outgoingReliableCommands);
      hide Checked, Balanced, SentUpTo, Scan, ScanFrom, Difference, GivesUp, Earliest, Doubled, Insert, Without;
      dead, k', i', insertPosition' := false, k, i, insertPosition;
      if Difference(now, sentReliableCommands[i].sentTime) < sentReliableCommands[i].timeout {
        i', k' := i + 1, k + 1;
      } else {
        dead := Expire(i, insertPosition, now);
        if !dead { insertPosition', k' := insertPosition + 1, k + 1; }
      }
    }

    /** A command has timed out: the peer is given up, or the command goes back to the queue. */
    method Expire(i: nat, insertPosition: nat, now: time) returns (dead: bool)
      requires Balanced(Account(), stale) && i < |sentReliableCommands|
               && SentUpTo(outgoingReliableCommands, insertPosition)
      modifies this`outgoingReliableCommands, this`sentReliableCommands, this`reliableDataInTransit,
               this`nextTimeout, this`earliestTimeout
      ensures Balanced(Account(), stale)
      ensures earliestTimeout == Earliest(old(earliestTimeout), old(sentReliableCommands)[i])
      ensures dead == GivesUp(now, patience, earliestTimeout, old(sentReliableCommands)[i])
      ensures sentReliableCommands == if dead then old(sentReliableCommands) else Without(old(sentReliableCommands), i)
      ensures outgoingReliableCommands ==
              if dead then old(outgoingReliableCommands)
              else Insert(old(outgoingReliableCommands), insertPosition, Doubled(old(sentReliableCommands)[i]))
      ensures !dead ==> SentUpTo(outgoingReliableCommands, insertPosition + 1)
    {
      assert insertPosition <= |outgoingReliableCommands|;
      hide *;
      dead := Overdue(sentReliableCommands[i], now);
      if !dead { MoveBack(i, insertPosition); }
    }

    /** The test whether the peer is to be given up for a command that timed out. */
    method Overdue(command: Outgoing, now: time) returns (dead: bool)
      modifies this`earliestTimeout
      ensures earliestTimeout == Earliest(old(earliestTimeout), command)
      ensures dead == GivesUp(now, patience, earliestTimeout, command)
    {
      if earliestTimeout == 0 || Clock.Less(command.sentTime, earliestTimeout) { earliestTimeout := command.sentTime; }
      dead := earliestTimeout != 0
              && (Difference(now, earliestTimeout) >= patience.maximum
                  || (command.timeout >= command.timeoutLimit && Difference(now, earliestTimeout) >= patience.minimum));
    }

    /** A command that timed out goes back to the queue. */
    method MoveBack(i: nat, insertPosition: nat)
      requires Balanced(Account(), stale) && i < |sentReliableCommands|
               && SentUpTo(outgoingReliableCommands, insertPosition)
      modifies this`outgoingReliableCommands, this`sentReliableCommands, this`reliableDataInTransit, this`nextTimeout
      ensures Balanced(Account(), stale)
      ensures sentReliableCommands == Without(old(sentReliableCommands), i)
      ensures outgoingReliableCommands ==
              Insert(old(outgoingReliableCommands), insertPosition, Doubled(old(sentReliableCommands)[i]))
      ensures SentUpTo(outgoingReliableCommands, insertPosition + 1)
    {
      ghost var b := Account();
      RetryBalanced(b, stale, i, insertPosition);
      FrontKept(b, stale, i);
      assert SentUpTo(Retry(b, i, insertPosition).outgoing, insertPosition + 1) by {
        InsertLength(b.outgoing, insertPosition, Doubled(b.sent[i]));
      }
      hide Balanced, AllSent, Insert, SentUpTo;
      var command := sentReliableCommands[i];
      if command.packet { reliableDataInTransit := reliableDataInTransit - command.length; }
      sentReliableCommands := Without(sentReliableCommands, i);
      outgoingReliableCommands := Insert(outgoingReliableCommands, insertPosition, Doubled(command));
      if i == 0 && sentReliableCommands != [] { UpdateTimeout(); }
      assert Account() == Retry(b, i, insertPosition);
    }

    // ----- sending -----

    /** The timeout and its limit that a command gets when it is first sent. */
    function FirstTimeout(): time
      reads this`roundTripTime, this`roundTripTimeVariance
    {
      (roundTripTime + 4 * roundTripTimeVariance) % WORD
    }

    function FirstLimit(): time
      reads this`roundTripTime, this`roundTripTimeVariance, this`timeoutLimit
    {
      timeoutLimit * FirstTimeout() % WORD
    }

    /** How much data may be in flight: the throttled window, but at least one datagram. */
    function Window(): nat
      reads this`packetThrottle, this`windowSize, this`mtu
    {
      var size := packetThrottle * windowSize / THROTTLE_SCALE;
      if size > mtu then size else mtu
    }

    predicate Roomy()
      reads this
    {
      HEADER + 48 <= mtu <= MAX_MTU && AllFit(mtu, outgoingReliableCommands)
    }

    ghost predicate Ready(d: Datagram)
      reads this, d
    {
      Balanced(Account(), stale) && Roomy() && d.Assembled(mtu)
    }

    function Gates(): Gate
      reads this`channels, this`wrapMasks
    {
      Gate(channels, wrapMasks)
    }

    function Count(d: Datagram): Counts
      reads this`reliableDataInTransit, d`commandCount, d`packetSize, d`continueSending
    {
      Counts(d.commandCount, d.packetSize, d.continueSending, reliableDataInTransit)
    }

    /** A command goes out: the end of the loop of send_reliable_outgoing_commands. */
    method Transmit(d: Datagram, i: nat, now: time)
      requires Balanced(Account(), stale) && i < |outgoingReliableCommands|
      requires d.Assembled(mtu) && d.commandCount < MAX_COMMANDS
      requires d.packetSize + Total(Lengths(outgoingReliableCommands[i])) <= mtu
      modifies this`channels, this`outgoingReliableCommands, this`sentReliableCommands,
               this`reliableDataInTransit, this`nextTimeout, d`commandCount, d`lengths, d`packetSize
      ensures Account() == Send(old(Account()), i, now, old(FirstTimeout()), old(FirstLimit()))
      ensures Balanced(Account(), stale)
      ensures outgoingReliableCommands == Without(old(outgoingReliableCommands), i) && |channels| == old(|channels|)
      ensures Grown(old(Gates()), Gates())
      ensures sentReliableCommands ==
              old(sentReliableCommands) + [Stamped(old(outgoingReliableCommands)[i], now, old(FirstTimeout()),
                                                   old(FirstLimit()))]
      ensures var e := old(outgoingReliableCommands)[i];
              reliableDataInTransit == old(reliableDataInTransit) + if e.packet then e.length else 0
      ensures FirstTimeout() == old(FirstTimeout()) && FirstLimit() == old(FirstLimit())
      ensures d.Assembled(mtu) && d.commandCount == old(d.commandCount) + 1
      ensures d.lengths == old(d.lengths) + Lengths(old(outgoingReliableCommands)[i])
    {
      hide Balanced, Send, FirstTimeout, FirstLimit;
      Put(d, outgoingReliableCommands[i]);
      Depart(i, now);
    }

    method Depart(i: nat, now: time)
      requires Balanced(Account(), stale) && i < |outgoingReliableCommands|
      modifies this`channels, this`outgoingReliableCommands, this`sentReliableCommands,
               this`reliableDataInTransit, this`nextTimeout
      ensures Account() == Send(old(Account()), i, now, old(FirstTimeout()), old(FirstLimit()))
      ensures Balanced(Account(), stale)
      ensures outgoingReliableCommands == Without(old(outgoingReliableCommands), i) && |channels| == old(|channels|)
      ensures Grown(old(Gates()), Gates())
      ensures sentReliableCommands ==
              old(sentReliableCommands) + [Stamped(old(outgoingReliableCommands)[i], now, old(FirstTimeout()),
                                                   old(FirstLimit()))]
      ensures var e := old(outgoingReliableCommands)[i];
              reliableDataInTransit == old(reliableDataInTransit) + if e.packet then e.length else 0
      ensures FirstTimeout() == old(FirstTimeout()) && FirstLimit() == old(FirstLimit())
    {
      ghost var b := Account();
      SendBalanced(b, stale, i, now, FirstTimeout(), FirstLimit());
      SendIs(b, i, now, FirstTimeout(), FirstLimit());
      assert Shaped(b);
      hide Balanced, Shaped, Numbered, Without, Send, FirstTimeout, FirstLimit, Plus, Noted, Stamped, PacketLength;
      var command := Stamp(outgoingReliableCommands[i], now);
      NoteWindow(outgoingReliableCommands[i]);
      if sentReliableCommands == [] { nextTimeout := Plus(now, command.timeout); }
      outgoingReliableCommands := Without(outgoingReliableCommands, i);
      sentReliableCommands := sentReliableCommands + [command];
      if command.packet { reliableDataInTransit := reliableDataInTransit + command.length; }
    }

    method Stamp(command: Outgoing, now: time) returns (stamped: Outgoing)
      ensures stamped == Stamped(command, now, FirstTimeout(), FirstLimit())
    {
      stamped := command.(attempts := command.attempts + 1);
      if stamped.timeout == 0 { stamped := stamped.(timeout := FirstTimeout(), timeoutLimit := FirstLimit()); }
      stamped := stamped.(sentTime := now);
    }

    /** The command, and the part of the packet it carries, become buffers of the datagram. */
    method Put(d: Datagram, command: Outgoing)
      requires d.Assembled(mtu) && d.commandCount < MAX_COMMANDS
      requires d.packetSize + Total(Lengths(command)) <= mtu
      modifies d`commandCount, d`lengths, d`packetSize
      ensures d.Assembled(mtu) && d.commandCount == old(d.commandCount) + 1
      ensures d.lengths == old(d.lengths) + Lengths(command)
    {
      LengthsTotal(command);
      hide Total;
      if command.packet {
        d.AppendWithData(mtu, CommandSize(command.code), command.length);
      } else {
        d.Append(mtu, CommandSize(command.code));
      }
    }

    method NoteWindow(command: Outgoing)
      requires command.number < WINDOWS * WINDOW_SIZE
      requires command.channel < |channels| ==> |channels[command.channel].counts| == WINDOWS
      modifies this`channels
      ensures channels == Noted(old(channels), command) && |channels| == old(|channels|)
      ensures Grown(old(Gates()), Gates())
    {
      NotedGrown(channels, command, wrapMasks);
      hide Grown;
      if command.channel < |channels| && command.attempts < 1 {
        var c, w := channels[command.channel], command.number / WINDOW_SIZE;
        channels := channels[command.channel := InUse(c.counts[w := c.counts[w] + 1], With(c.used, WindowBit(w)))];
      }
    }

    /** enet_protocol_send_reliable_outgoing_commands.  moved are the commands that went out.  Of those that stay, the
        first `looked` wait for a window or for data in flight to arrive, and the others for another datagram. */
    method SendReliableOutgoing(d: Datagram, now: time)
      returns (canPing: bool, ghost moved: seq<Outgoing>, ghost looked: nat)
      requires Ready(d)
      modifies this`channels, this`outgoingReliableCommands, this`sentReliableCommands,
               this`reliableDataInTransit, this`nextTimeout, d
      ensures Ready(d)
      ensures Merged(old(outgoingReliableCommands), outgoingReliableCommands, moved)
      ensures sentReliableCommands == old(sentReliableCommands)
              + AllStamped(moved, now, old(FirstTimeout()), old(FirstLimit()))
      ensures d.lengths == old(d.lengths) + AllLengths(moved) && d.commandCount == old(d.commandCount) + |moved|
      ensures d.continueSending ==> old(d.continueSending) || d.commandCount > 0
      ensures reliableDataInTransit <= old(reliableDataInTransit) || reliableDataInTransit <= Window()
      ensures reliableDataInTransit == old(reliableDataInTransit) + Sum(moved, PacketLength())
      ensures |channels| == old(|channels|)
      ensures looked <= |outgoingReliableCommands|
              && AllWithheld(outgoingReliableCommands[..looked], Gates(), reliableDataInTransit, Window())
      ensures looked < |outgoingReliableCommands| ==>
                d.continueSending && d.packetSize <= mtu && Full(d, outgoingReliableCommands[looked])
      ensures AllMayGo(old(outgoingReliableCommands), |channels|, old(reliableDataInTransit), Window(),
                       old(d.lengths), old(d.commandCount), mtu) ==>
                outgoingReliableCommands == [] && moved == old(outgoingReliableCommands)
      ensures canPing ==> moved == [] && NoControl(outgoingReliableCommands, |channels|)
      ensures !canPing ==> moved != [] || d.continueSending
      ensures old(d.continueSending) ==> d.continueSending
    {
      hide *;
      var windowExceeded, windowWrap, outcome := false, false, Held;
      var i := 0;
      canPing := true;
      ghost var b := Begun(Start(outgoingReliableCommands, sentReliableCommands, d.lengths, |channels|), now,
                           FirstTimeout(), FirstLimit(), reliableDataInTransit, d.commandCount, d.continueSending);
      ghost var p := b.start;
      Begins(d, b);
      while i < |outgoingReliableCommands| && outcome != NoRoom
        invariant Looping(d, b, p, i, canPing, windowWrap, windowExceeded, outcome != NoRoom)
        decreases |p.all| - p.done, outcome != NoRoom
      {
        outcome, windowWrap, windowExceeded, p := LoopStep(d, now, b, p, i, canPing, windowWrap, windowExceeded);
        canPing := canPing && outcome == Held;
        if outcome == Held { i := i + 1; }
      }
      moved, looked := p.moved, i;
      Looped(d, b, p, i, canPing, windowWrap, windowExceeded, outcome != NoRoom);
      LoopedHeld(d, b, p, i, canPing, windowWrap, windowExceeded, outcome != NoRoom);
      LoopedEmpty(d, b, p, i, canPing, windowWrap, windowExceeded, outcome != NoRoom);
    }

    /** Where the loop stands. */
    ghost predicate Positioned(d: Datagram, p: Progress, i: nat, canPing: bool, wrap: bool, exceeded: bool, now: time,
                               t: time, l: time)
      reads this, d
    {
      && Ready(d) && Shows(p, d, i, canPing) && On(p, now, t, l) && t == FirstTimeout() && l == FirstLimit()
      && HeldSo(outgoingReliableCommands, i, Gates(), reliableDataInTransit, Window(), wrap, exceeded)
    }

    /** What it has done since it began with b; room tells that it has not come to a command that finds no room. */
    ghost predicate Tallied(d: Datagram, b: Begun, p: Progress, i: nat, canPing: bool, room: bool)
      reads this, d
    {
      && TalliedAs(b, p, Count(d), Window(), mtu, canPing, room)
      && (!room ==> Stuck(d, i))
    }

    /** The invariant of the loop. */
    ghost predicate Looping(d: Datagram, b: Begun, p: Progress, i: nat, canPing: bool, wrap: bool, exceeded: bool,
                            room: bool)
      reads this, d
    {
      && Positioned(d, p, i, canPing, wrap, exceeded, b.now, b.timeout, b.limit)
      && Tallied(d, b, p, i, canPing, room)
    }

    lemma Begins(d: Datagram, b: Begun)
      requires Ready(d)
      requires b == Begun(Start(outgoingReliableCommands, sentReliableCommands, d.lengths, |channels|), b.now,
                          FirstTimeout(), FirstLimit(), reliableDataInTransit, d.commandCount, d.continueSending)
      ensures Looping(d, b, b.start, 0, true, false, false, true)
      ensures b.start.all == outgoingReliableCommands && b.start.sent0 == sentReliableCommands
      ensures b.start.lengths0 == d.lengths && b.start.n == |channels|
    {
      StartHolds(outgoingReliableCommands, sentReliableCommands, d.lengths, |channels|, b.now, b.timeout, b.limit);
      NothingHeld(outgoingReliableCommands, Gates(), reliableDataInTransit, Window());
      SumNone(PacketLength());
      hide Ready, On, HeldSo, Sum, Window, FirstTimeout, FirstLimit;
    }

    method LoopStep(d: Datagram, now: time, ghost b: Begun, ghost p: Progress, i: nat, canPing: bool, windowWrap: bool,
                    windowExceeded: bool)
      returns (outcome: Outcome, wrap: bool, exceeded: bool, ghost p': Progress)
      requires Looping(d, b, p, i, canPing, windowWrap, windowExceeded, true) && i < |outgoingReliableCommands|
      requires b.now == now
      modifies this`channels, this`outgoingReliableCommands, this`sentReliableCommands,
               this`reliableDataInTransit, this`nextTimeout, d
      ensures Looping(d, b, p', if outcome == Held then i + 1 else i, canPing && outcome == Held, wrap, exceeded,
                      outcome != NoRoom)
      ensures |p'.all| == |p.all| && p.done < |p.all| && p'.done == p.done + if outcome == NoRoom then 0 else 1
    {
      ghost var c := Count(d);
      hide Positioned, Full, TalliedAs, Went, Window, Count;
      outcome, wrap, exceeded, p' := Step(d, i, now, canPing, windowWrap, windowExceeded, p, b.timeout, b.limit);
      StillTallied(b, p, p', outcome, c, Count(d), Window(), mtu, canPing);
    }

    /** What holds when it has ended. */
    lemma Looped(d: Datagram, b: Begun, p: Progress, i: nat, canPing: bool, wrap: bool, exceeded: bool, room: bool)
      requires Looping(d, b, p, i, canPing, wrap, exceeded, room) && (room ==> i >= |outgoingReliableCommands|)
      ensures Ready(d) && Merged(b.start.all, outgoingReliableCommands, p.moved) && |channels| == b.start.n
      ensures sentReliableCommands == b.start.sent0 + AllStamped(p.moved, b.now, b.timeout, b.limit)
      ensures d.lengths == b.start.lengths0 + AllLengths(p.moved)
      ensures canPing ==> p.moved == [] && NoControl(outgoingReliableCommands, |channels|)
    {
      PositionIs(d, p, i, canPing, wrap, exceeded, b.now, b.timeout, b.limit);
      ShownIs(p, outgoingReliableCommands, sentReliableCommands, d.lengths, |channels|, i, canPing);
      SameIs(p, b.start);
      hide *;
      Finished(p, b.now, b.timeout, b.limit);
    }

    lemma LoopedHeld(d: Datagram, b: Begun, p: Progress, i: nat, canPing: bool, wrap: bool, exceeded: bool, room: bool)
      requires Looping(d, b, p, i, canPing, wrap, exceeded, room) && (room ==> i >= |outgoingReliableCommands|)
      ensures i <= |outgoingReliableCommands|
              && AllWithheld(outgoingReliableCommands[..i], Gates(), reliableDataInTransit, Window())
      ensures d.packetSize <= mtu && d.commandCount == b.count + |p.moved|
      ensures i < |outgoingReliableCommands| ==> d.continueSending && Full(d, outgoingReliableCommands[i])
      ensures d.continueSending ==> b.continueSending || d.commandCount > 0
      ensures b.continueSending ==> d.continueSending
      ensures reliableDataInTransit <= b.inTransit || reliableDataInTransit <= Window()
      ensures reliableDataInTransit == b.inTransit + Sum(p.moved, PacketLength())
      ensures !canPing ==> p.moved != [] || d.continueSending
    {
      PositionIs(d, p, i, canPing, wrap, exceeded, b.now, b.timeout, b.limit);
      HeldAll(outgoingReliableCommands, i, Gates(), reliableDataInTransit, Window(), wrap, exceeded);
      hide Positioned, HeldSo, AllWithheld, Full, Sum, Window, Ready, On;
    }

    lemma LoopedEmpty(d: Datagram, b: Begun, p: Progress, i: nat, canPing: bool, wrap: bool, exceeded: bool, room: bool)
      requires Looping(d, b, p, i, canPing, wrap, exceeded, room) && (room ==> i >= |outgoingReliableCommands|)
      ensures AllMayGo(b.start.all, |channels|, b.inTransit, Window(), b.start.lengths0, b.count, mtu) ==>
                outgoingReliableCommands == [] && p.moved == b.start.all
    {
      hide *;
      LoopedHeld(d, b, p, i, canPing, wrap, exceeded, room);
      Looped(d, b, p, i, canPing, wrap, exceeded, room);
      ReadyIs(d);
      GatesAre();
      if i < |outgoingReliableCommands| { FullIs(d, outgoingReliableCommands[i]); }
      AllGoIf(b.start.all, outgoingReliableCommands, p.moved, i, Gates(), b.inTransit, Window(), mtu,
              b.start.lengths0, d.lengths, b.count, d.commandCount);
    }

    lemma GatesAre()
      ensures Gates().channels == channels
    {
    }

    lemma ReadyIs(d: Datagram)
      requires Ready(d)
      ensures HEADER + Total(d.lengths) == d.packetSize <= mtu <= MAX_MTU && |d.lengths| <= 2 * d.commandCount
    {
    }

    lemma FullIs(d: Datagram, e: Outgoing)
      requires d.packetSize <= mtu
      ensures Full(d, e) <==> FullFor(mtu - d.packetSize, d.commandCount, |d.lengths|, e)
    {
    }

    /** The loop's variables are what p says. */
    ghost predicate Shows(p: Progress, d: Datagram, i: nat, canPing: bool)
      reads this, d
    {
      Shown(p, outgoingReliableCommands, sentReliableCommands, d.lengths, |channels|, i, canPing)
    }

    method Step(d: Datagram, i: nat, now: time, canPing: bool, windowWrap: bool, windowExceeded: bool,
                ghost p: Progress, ghost t: time, ghost l: time)
      returns (outcome: Outcome, wrap: bool, exceeded: bool, ghost p': Progress)
      requires Positioned(d, p, i, canPing, windowWrap, windowExceeded, now, t, l) && i < |outgoingReliableCommands|
      modifies this`channels, this`outgoingReliableCommands, this`sentReliableCommands,
               this`reliableDataInTransit, this`nextTimeout, d
      ensures Positioned(d, p', if outcome == Held then i + 1 else i, canPing && outcome == Held, wrap, exceeded, now,
                         t, l)
      ensures p.i < |p.queue| && Went(outcome, p, p', old(Count(d)), Count(d), Window(), mtu)
      ensures outcome == NoRoom ==> Stuck(d, i)
    {
      ghost var queue, sent, lengths, c := outgoingReliableCommands, sentReliableCommands, d.lengths, Count(d);
      PositionIs(d, p, i, canPing, windowWrap, windowExceeded, now, t, l);
      hide *;
      outcome, wrap, exceeded := Round(d, i, now, windowWrap, windowExceeded);
      p' := Next(p, outcome, now, t, l);
      Onward(d, p, outcome, queue, sent, lengths, i, canPing, wrap, exceeded, now, t, l, c);
    }

    lemma Onward(d: Datagram, p: Progress, outcome: Outcome, queue: seq<Outgoing>, sent: seq<Outgoing>,
                 lengths: seq<nat>, i: nat, canPing: bool, wrap: bool, exceeded: bool, now: time, t: time, l: time,
                 c: Counts)
      requires Shown(p, queue, sent, lengths, |channels|, i, canPing) && i < |queue| && On(p, now, t, l)
      requires Ready(d) && t == FirstTimeout() && l == FirstLimit()
      requires Offered(outcome, i, queue, sent, lengths, outgoingReliableCommands, sentReliableCommands, d.lengths,
                       now, t, l)
      requires outcome == Held ==> !Control(queue[i], |channels|)
      requires Tells(outcome, queue[i], c, Count(d), Window(), mtu)
      requires HeldSo(outgoingReliableCommands, if outcome == Held then i + 1 else i, Gates(),
                      reliableDataInTransit, Window(), wrap, exceeded)
      ensures p.i < |p.queue| && Went(outcome, p, Next(p, outcome, now, t, l), c, Count(d), Window(), mtu)
      ensures Positioned(d, Next(p, outcome, now, t, l), if outcome == Held then i + 1 else i,
                         canPing && outcome == Held, wrap, exceeded, now, t, l)
    {
      hide *;
      OneStep(p, outcome, queue, sent, lengths, outgoingReliableCommands, sentReliableCommands, d.lengths,
              |channels|, i, canPing, now, t, l, c, Count(d), Window(), mtu);
      IsPositioned(d, Next(p, outcome, now, t, l), if outcome == Held then i + 1 else i, canPing && outcome == Held,
                   wrap, exceeded, now, t, l);
    }

    lemma PositionIs(d: Datagram, p: Progress, i: nat, canPing: bool, wrap: bool, exceeded: bool, now: time, t: time,
                     l: time)
      requires Positioned(d, p, i, canPing, wrap, exceeded, now, t, l)
      ensures Ready(d) && On(p, now, t, l) && t == FirstTimeout() && l == FirstLimit()
              && p.queue == outgoingReliableCommands
      ensures Shown(p, outgoingReliableCommands, sentReliableCommands, d.lengths, |channels|, i, canPing) && p.i == i
      ensures HeldSo(outgoingReliableCommands, i, Gates(), reliableDataInTransit, Window(), wrap, exceeded)
    {
      hide Ready, On, HeldSo, FirstTimeout, FirstLimit;
    }

    lemma IsPositioned(d: Datagram, p: Progress, i: nat, canPing: bool, wrap: bool, exceeded: bool, now: time, t: time,
                       l: time)
      requires Ready(d) && On(p, now, t, l) && t == FirstTimeout() && l == FirstLimit()
      requires Shown(p, outgoingReliableCommands, sentReliableCommands, d.lengths, |channels|, i, canPing)
      requires HeldSo(outgoingReliableCommands, i, Gates(), reliableDataInTransit, Window(), wrap, exceeded)
      ensures Positioned(d, p, i, canPing, wrap, exceeded, now, t, l)
    {
      hide Ready, On, HeldSo, FirstTimeout, FirstLimit;
    }

    /** One round of the loop, and what the commands it has passed wait for. */
    method Round(d: Datagram, i: nat, now: time, windowWrap: bool, windowExceeded: bool)
      returns (outcome: Outcome, wrap: bool, exceeded: bool)
      requires Ready(d) && i < |outgoingReliableCommands|
      requires HeldSo(outgoingReliableCommands, i, Gates(), reliableDataInTransit, Window(), windowWrap,
                      windowExceeded)
      modifies this`channels, this`outgoingReliableCommands, this`sentReliableCommands,
               this`reliableDataInTransit, this`nextTimeout, d
      ensures Ready(d) && |channels| == old(|channels|)
      ensures outcome == Held ==> !Control(old(outgoingReliableCommands)[i], |channels|)
      ensures Offered(outcome, i, old(outgoingReliableCommands), old(sentReliableCommands), old(d.lengths),
                      outgoingReliableCommands, sentReliableCommands, d.lengths,
                      now, old(FirstTimeout()), old(FirstLimit()))
      ensures Tells(outcome, old(outgoingReliableCommands)[i], old(Count(d)), Count(d), Window(), mtu)
      ensures HeldSo(outgoingReliableCommands, if outcome == Held then i + 1 else i, Gates(), reliableDataInTransit,
                     Window(), wrap, exceeded)
      ensures outcome == NoRoom ==> Stuck(d, i)
    {
      ghost var queue, sent, lengths := outgoingReliableCommands, sentReliableCommands, d.lengths;
      ghost var t, l, inTransit, gates := FirstTimeout(), FirstLimit(), reliableDataInTransit, Gates();
      hide *;
      outcome, wrap, exceeded := Offer(d, i, now, windowWrap, windowExceeded);
      OfferedQueue(outcome, i, queue, sent, lengths, outgoingReliableCommands, sentReliableCommands, d.lengths, now, t,
                   l);
      HeldNext(queue, outgoingReliableCommands, i, outcome, gates, Gates(), inTransit, reliableDataInTransit, Window(),
               windowWrap, windowExceeded, wrap, exceeded);
    }

    /** What becomes of the command looked at. */
    method Offer(d: Datagram, i: nat, now: time, windowWrap: bool, windowExceeded: bool)
      returns (outcome: Outcome, wrap: bool, exceeded: bool)
      requires Ready(d) && i < |outgoingReliableCommands|
      modifies this`channels, this`outgoingReliableCommands, this`sentReliableCommands,
               this`reliableDataInTransit, this`nextTimeout, d
      ensures Ready(d) && |channels| == old(|channels|)
      ensures outcome == Held ==> !Control(old(outgoingReliableCommands)[i], |channels|)
      ensures Offered(outcome, i, old(outgoingReliableCommands), old(sentReliableCommands), old(d.lengths),
                      outgoingReliableCommands, sentReliableCommands, d.lengths,
                      now, old(FirstTimeout()), old(FirstLimit()))
      ensures Tells(outcome, old(outgoingReliableCommands)[i], old(Count(d)), Count(d), Window(), mtu)
      ensures outcome == Held ==>
                var e := old(outgoingReliableCommands)[i]; (e.channel < |channels| && wrap) || (e.packet && exceeded)
      ensures wrap ==> windowWrap || (outcome == Held && Blocked(old(outgoingReliableCommands)[i], old(Gates())))
      ensures exceeded ==>
                windowExceeded || (outcome == Held && Exceeds(old(outgoingReliableCommands)[i],
                                                              old(reliableDataInTransit), Window()))
      ensures outcome == NoRoom ==> Stuck(d, i)
      ensures GoneThrough(outcome, old(Gates()), Gates())
    {
      ghost var queue, sent, lengths := outgoingReliableCommands, sentReliableCommands, d.lengths;
      OfferedIs(i, queue, sent, lengths, now, FirstTimeout(), FirstLimit());
      hide *;
      var held;
      held, wrap, exceeded := HeldBack(outgoingReliableCommands[i], windowWrap, windowExceeded);
      outcome := Held;
      ItWentThrough(outcome, Gates());
      if !held { outcome := Admit(d, i, now); }
    }

    /** Its end, for a command that need not wait. */
    method Admit(d: Datagram, i: nat, now: time) returns (outcome: Outcome)
      requires Ready(d) && i < |outgoingReliableCommands|
      requires var e := outgoingReliableCommands[i]; e.packet ==> reliableDataInTransit + e.length <= Window()
      modifies this`channels, this`outgoingReliableCommands, this`sentReliableCommands,
               this`reliableDataInTransit, this`nextTimeout, d
      ensures outcome != Held && Ready(d) && |channels| == old(|channels|)
      ensures Offered(outcome, i, old(outgoingReliableCommands), old(sentReliableCommands), old(d.lengths),
                      outgoingReliableCommands, sentReliableCommands, d.lengths,
                      now, old(FirstTimeout()), old(FirstLimit()))
      ensures Tells(outcome, old(outgoingReliableCommands)[i], old(Count(d)), Count(d), Window(), mtu)
      ensures outcome == NoRoom ==> Stuck(d, i)
      ensures GoneThrough(outcome, old(Gates()), Gates())
    {
      var command, queue := outgoingReliableCommands[i], outgoingReliableCommands;
      OfferedIs(i, queue, sentReliableCommands, d.lengths, now, FirstTimeout(), FirstLimit());
      RoomFor(d, command);
      hide *;
      ghost var c, gates := Count(d), Gates();
      if Full(d, command) {
        Refuse(d, i);
        outcome := NoRoom;
        ItWentThrough(outcome, gates);
      } else {
        Transmit(d, i, now);
        outcome := Sent;
        ItWentThrough(outcome, gates);
        ItLeft(d, command, c);
      }
    }

    lemma ItWentThrough(outcome: Outcome, gates: Gate)
      requires if outcome == Sent then Grown(gates, Gates()) else channels == gates.channels && wrapMasks == gates.masks
      ensures GoneThrough(outcome, gates, Gates())
    {
      hide Grown;
    }

    /** The command finds no room: another datagram is needed. */
    method Refuse(d: Datagram, i: nat)
      requires Ready(d) && i < |outgoingReliableCommands| && Full(d, outgoingReliableCommands[i])
      modifies d`continueSending
      ensures Ready(d) && Stuck(d, i)
      ensures Tells(NoRoom, outgoingReliableCommands[i], old(Count(d)), Count(d), Window(), mtu)
    {
      RoomFor(d, outgoingReliableCommands[i]);
      hide Balanced, FullFor, Total, Window;
      d.continueSending := true;
    }

    lemma ItLeft(d: Datagram, e: Outgoing, c: Counts)
      requires Balanced(Account(), stale) && d.Assembled(mtu) && HEADER + 48 <= mtu <= MAX_MTU
      requires AllFit(mtu, outgoingReliableCommands) && d.commandCount == c.commands + 1 && d.continueSending == c.going
      requires reliableDataInTransit == c.inTransit + if e.packet then e.length else 0
      requires e.packet ==> c.inTransit + e.length <= Window()
      ensures Ready(d) && Tells(Sent, e, c, Count(d), Window(), mtu)
    {
      hide Balanced, Total, Window, AllFit;
    }

    lemma StillReady(d: Datagram)
      requires Balanced(Account(), stale) && d.Assembled(mtu) && HEADER + 48 <= mtu <= MAX_MTU
      requires AllFit(mtu, outgoingReliableCommands)
      ensures Ready(d)
    {
    }

    /** Whether the command must wait for a window to be freed or for data in flight to arrive. */
    method HeldBack(command: Outgoing, windowWrap: bool, windowExceeded: bool)
      returns (held: bool, wrap: bool, exceeded: bool)
      requires command.channel < |channels| ==> |channels[command.channel].counts| == WINDOWS
      requires command.number < WINDOWS * WINDOW_SIZE
      ensures held <==> (command.channel < |channels| && wrap) || (command.packet && exceeded)
      ensures !held && command.packet ==> reliableDataInTransit + command.length <= Window()
      ensures !held ==> !Blocked(command, Gates())
      ensures held ==> !Control(command, |channels|)
      ensures wrap ==> windowWrap || (held && Blocked(command, Gates()))
      ensures exceeded ==> windowExceeded || (held && Exceeds(command, reliableDataInTransit, Window()))
    {
      wrap, exceeded := windowWrap, windowExceeded;
      if command.channel < |channels| {
        if !wrap { wrap := Wraps(command); }
        if wrap { return true, wrap, exceeded; }
      }
      if command.packet {
        if !exceeded && reliableDataInTransit + command.length > Window() { exceeded := true; }
        if exceeded { return true, wrap, exceeded; }
      }
      held := false;
    }

    /** Whether a command sent for the first time would open a window too close to those in use.
        The source's last mask is shifted by more than its width: wrapMasks has what it comes to. */
    method Wraps(command: Outgoing) returns (wraps: bool)
      requires command.channel < |channels| && |channels[command.channel].counts| == WINDOWS
      requires command.number < WINDOWS * WINDOW_SIZE
      ensures wraps <==> Blocked(command, Gates())
    {
      wraps := false;
      if command.attempts < 1 && command.number % WINDOW_SIZE == 0 {
        var c, w := channels[command.channel], command.number / WINDOW_SIZE;
        MaskMeans(c.used, w);
        hide Has, FreeMask, HasBit;
        wraps := c.counts[(w + WINDOWS - 1) % WINDOWS] >= WINDOW_SIZE || Has(c.used, FreeMask(w))
                 || (w < |wrapMasks| && Has(c.used, wrapMasks[w]));
      }
    }

    /** No room in the datagram for one more command and its data. */
    predicate Full(d: Datagram, command: Outgoing)
      requires d.packetSize <= mtu
      reads this, d
    {
      FullFor(mtu - d.packetSize, d.commandCount, |d.lengths|, command)
    }

    /** There is no room for the i-th command. */
    predicate Stuck(d: Datagram, i: nat)
      reads this, d
    {
      i < |outgoingReliableCommands| && d.packetSize <= mtu && Full(d, outgoingReliableCommands[i])
    }

    /** A command that fits an empty datagram finds one full only if there is something in it. */
    lemma RoomFor(d: Datagram, command: Outgoing)
      requires d.Assembled(mtu) && mtu <= MAX_MTU && Fits(mtu, command)
      ensures !Full(d, command) ==> d.commandCount < MAX_COMMANDS && d.packetSize + Total(Lengths(command)) <= mtu
      ensures Full(d, command) ==> d.commandCount > 0
    {
      LengthsTotal(command);
      TotalNone();
      hide Total, Lengths;
    }

    // ----- acknowledgements and unreliable commands -----

    /** enet_protocol_send_acknowledgements; acknowledging a disconnect ends the peer. */
    method SendAcknowledgements(d: Datagram) returns (ghost n: nat)
      requires HEADER + 48 <= mtu <= MAX_MTU && d.Assembled(mtu)
      modifies this`acknowledgements, this`state, d
      ensures d.Assembled(mtu)
      ensures n <= |old(acknowledgements)| && acknowledgements == old(acknowledgements)[n..]
      ensures d.lengths == old(d.lengths) + Repeated(CommandSize(ACKNOWLEDGE), n)
              && d.commandCount == old(d.commandCount) + n
      ensures d.continueSending == (old(d.continueSending) || acknowledgements != [])
      ensures acknowledgements != [] ==>
                && d.commandCount > 0
                && (d.commandCount >= MAX_COMMANDS || |d.lengths| + 1 >= MAX_BUFFERS
                    || mtu - d.packetSize < CommandSize(ACKNOWLEDGE))
      ensures state == if Ends(old(acknowledgements)[..n]) then Zombie else old(state)
    {
      hide Total, Repeated, Ends;
      ghost var all := acknowledgements;
      n := 0;
      NoEnds(all);
      NoneRepeated(d.lengths, CommandSize(ACKNOWLEDGE));
      while acknowledgements != []
        invariant n <= |all| && acknowledgements == all[n..] && d.Assembled(mtu)
        invariant d.lengths == old(d.lengths) + Repeated(CommandSize(ACKNOWLEDGE), n)
                  && d.commandCount == old(d.commandCount) + n
        invariant d.continueSending == old(d.continueSending)
        invariant state == if Ends(all[..n]) then Zombie else old(state)
        decreases |acknowledgements|
      {
        if d.commandCount >= MAX_COMMANDS || |d.lengths| + 1 >= MAX_BUFFERS
            || mtu - d.packetSize < CommandSize(ACKNOWLEDGE) {
          TotalNone();
          d.continueSending := true;
          return;
        }
        RepeatedMore(old(d.lengths), CommandSize(ACKNOWLEDGE), n);
        d.Append(mtu, CommandSize(ACKNOWLEDGE));
        OneEnds(all, n);
        if acknowledgements[0].disconnect { state := Zombie; }
        acknowledgements := acknowledgements[1..];
        n := n + 1;
      }
    }

    /** The loop that throws away an unreliable packet: its command and the fragments queued with it. */
    method DropPacket()
      requires outgoingUnreliableCommands != []
      modifies this`outgoingUnreliableCommands
      ensures var all := old(outgoingUnreliableCommands);
              outgoingUnreliableCommands == all[PacketEnd(all, 1)..] && 1 <= PacketEnd(all, 1) <= |all|
    {
      ghost var all, k := outgoingUnreliableCommands, 1;
      var first := outgoingUnreliableCommands[0];
      outgoingUnreliableCommands := outgoingUnreliableCommands[1..];
      while outgoingUnreliableCommands != []
        invariant 1 <= k <= |all| && outgoingUnreliableCommands == all[k..] && PacketEnd(all, 1) == PacketEnd(all, k)
        decreases |outgoingUnreliableCommands|
      {
        if outgoingUnreliableCommands[0].number != first.number
            || outgoingUnreliableCommands[0].unreliable != first.unreliable {
          break;
        }
        outgoingUnreliableCommands := outgoingUnreliableCommands[1..];
        k := k + 1;
      }
    }

    /** enet_protocol_send_unreliable_outgoing_commands, up to the disconnect that may follow.  gone are
        the commands taken from the queue: those dropped by the throttle and those moved. */
    method SendUnreliableOutgoing(d: Datagram) returns (ghost gone: seq<Loose>, ghost dropped: seq<Loose>,
                                                        ghost moved: seq<Loose>)
      requires HEADER + 48 <= mtu <= MAX_MTU && d.Assembled(mtu) && AllLooseFit(mtu, outgoingUnreliableCommands)
      modifies this`outgoingUnreliableCommands, this`sentUnreliableCommands, this`packetThrottleCounter, d
      ensures d.Assembled(mtu)
      ensures old(outgoingUnreliableCommands) == gone + outgoingUnreliableCommands && Merged(gone, dropped, moved)
      ensures Sift(old(outgoingUnreliableCommands), old(packetThrottleCounter), packetThrottle) ==
              Later(moved, dropped, Sift(outgoingUnreliableCommands, packetThrottleCounter, packetThrottle))
      ensures sentUnreliableCommands == old(sentUnreliableCommands) + WithPacket(moved)
      ensures d.lengths == old(d.lengths) + AllLooseLengths(moved) && d.commandCount == old(d.commandCount) + |moved|
      ensures d.continueSending == (old(d.continueSending) || outgoingUnreliableCommands != [])
      ensures outgoingUnreliableCommands != [] ==> d.commandCount > 0 && LooseFull(d, outgoingUnreliableCommands[0])
      ensures AllLooseFit(mtu, outgoingUnreliableCommands)
    {
      ghost var before := Before(outgoingUnreliableCommands, sentUnreliableCommands, d.lengths, packetThrottleCounter,
                                 packetThrottle);
      ghost var parts := Parts([], [], []);
      LooseWhole(before);
      hide LooseAt, AllLooseFit, Merged, WithPacket, AllLooseLengths, Total, Sift, Later;
      while outgoingUnreliableCommands != []
        invariant LooseAt(before, parts, outgoingUnreliableCommands, sentUnreliableCommands, d.lengths,
                          packetThrottleCounter)
        invariant d.Assembled(mtu) && AllLooseFit(mtu, outgoingUnreliableCommands)
        invariant d.commandCount == old(d.commandCount) + |parts.moved| && d.continueSending == old(d.continueSending)
        decreases |outgoingUnreliableCommands|
      {
        var room;
        room, parts := LooseRound(d, before, parts);
        if !room {
          d.continueSending := true;
          break;
        }
      }
      LooseAll(before, parts, outgoingUnreliableCommands, sentUnreliableCommands, d.lengths, packetThrottleCounter);
      gone, dropped, moved := parts.gone, parts.dropped, parts.moved;
    }

    /** One round of its loop, and what it adds to the parts. */
    method LooseRound(d: Datagram, ghost before: Before, ghost parts: Parts) returns (room: bool, ghost parts': Parts)
      requires LooseAt(before, parts, outgoingUnreliableCommands, sentUnreliableCommands, d.lengths,
                       packetThrottleCounter)
      requires before.throttle == packetThrottle && outgoingUnreliableCommands != []
      requires mtu <= MAX_MTU && d.Assembled(mtu) && AllLooseFit(mtu, outgoingUnreliableCommands)
      modifies this`outgoingUnreliableCommands, this`sentUnreliableCommands, this`packetThrottleCounter,
               d`commandCount, d`lengths, d`packetSize
      ensures LooseAt(before, parts', outgoingUnreliableCommands, sentUnreliableCommands, d.lengths,
                      packetThrottleCounter)
      ensures d.Assembled(mtu) && AllLooseFit(mtu, outgoingUnreliableCommands)
      ensures d.commandCount == old(d.commandCount) + |parts'.moved| - |parts.moved|
      ensures !room ==> d.commandCount > 0 && outgoingUnreliableCommands != []
                        && LooseFull(d, outgoingUnreliableCommands[0])
      ensures room ==> |outgoingUnreliableCommands| < |old(outgoingUnreliableCommands)|
    {
      ghost var queue, k := outgoingUnreliableCommands, PacketEnd(outgoingUnreliableCommands, 1);
      LooseNext(mtu, before, parts, queue, sentUnreliableCommands, d.lengths, packetThrottleCounter);
      hide LooseAt, AllLooseFit, WithPacket, Total, LooseLengths, PacketEnd, Drops, CounterAfter;
      var outcome := OfferLoose(d);
      room := outcome != NoRoom;
      if outcome == Held {
        parts' := Parts(parts.gone + queue[..k], parts.dropped + queue[..k], parts.moved);
      } else if outcome == Sent {
        parts' := Parts(parts.gone + [queue[0]], parts.dropped, parts.moved + [queue[0]]);
      } else {
        parts' := parts;
      }
    }

    /** No room in the datagram for one more unreliable command and its data. */
    predicate LooseFull(d: Datagram, e: Loose)
      reads this`mtu, d`commandCount, d`lengths, d`packetSize
    {
      var left: int, size := mtu - d.packetSize, CommandSize(e.code);
      || d.commandCount >= MAX_COMMANDS || |d.lengths| + 2 >= MAX_BUFFERS || left < size
      || (e.packet && left < size + e.length)
    }

    /** One round of its loop: the first command goes, or is held back and dropped, or finds no room. */
    method OfferLoose(d: Datagram) returns (outcome: Outcome)
      requires outgoingUnreliableCommands != [] && mtu <= MAX_MTU && d.Assembled(mtu)
      requires LooseFits(mtu, outgoingUnreliableCommands[0])
      modifies this`outgoingUnreliableCommands, this`sentUnreliableCommands, this`packetThrottleCounter,
               d`commandCount, d`lengths, d`packetSize
      ensures d.Assembled(mtu) && (outcome == NoRoom ==> d.commandCount > 0)
      ensures outcome == NoRoom ==> LooseFull(d, old(outgoingUnreliableCommands)[0])
      ensures var queue := old(outgoingUnreliableCommands);
              outgoingUnreliableCommands ==
              match outcome case NoRoom => queue case Held => queue[PacketEnd(queue, 1)..] case Sent => queue[1..]
      ensures d.lengths == old(d.lengths) + if outcome == Sent
              then LooseLengths(old(outgoingUnreliableCommands)[0]) else []
      ensures d.commandCount == old(d.commandCount) + if outcome == Sent then 1 else 0
      ensures sentUnreliableCommands ==
              old(sentUnreliableCommands) +
              if outcome == Sent then WithPacket([old(outgoingUnreliableCommands)[0]]) else []
      ensures var e := old(outgoingUnreliableCommands)[0];
              && packetThrottleCounter == (if outcome == NoRoom then old(packetThrottleCounter)
                                           else CounterAfter(e, old(packetThrottleCounter)))
              && (outcome != NoRoom ==> (outcome == Held <==> Drops(e, old(packetThrottleCounter), packetThrottle)))
    {
      var command := outgoingUnreliableCommands[0];
      var size := CommandSize(command.code);
      LooseLengthsTotal(command);
      TotalNone();
      hide Total;
      if LooseFull(d, command) { return NoRoom; }
      if command.packet && command.offset == 0 {
        packetThrottleCounter := (packetThrottleCounter + THROTTLE_COUNTER) % THROTTLE_SCALE;
        if packetThrottleCounter > packetThrottle {
          DropPacket();
          return Held;
        }
      }
      outgoingUnreliableCommands := outgoingUnreliableCommands[1..];
      if command.packet {
        d.AppendWithData(mtu, size, command.length);
        sentUnreliableCommands := sentUnreliableCommands + [command];
      } else {
        d.Append(mtu, size);
      }
      outcome := Sent;
    }

    // ----- a peer's turn -----

    /** What holds of a peer between calls. */
    ghost predicate Valid()
      reads this
    {
      && Balanced(Account(), stale)
      && Sound(mtu, outgoingReliableCommands, sentReliableCommands, outgoingUnreliableCommands, |channels|,
               FirstTimeout())
    }

    /** The commands and acknowledgements the peer may still send at this time. */
    ghost function Pending(now: time): nat
      reads this
    {
      Pend(state, |acknowledgements|, outgoingReliableCommands, |outgoingUnreliableCommands|,
           sentReliableCommands, |channels|, now)
    }

    /** enet_peer_reset_queues; it leaves reliableDataInTransit alone. */
    method ResetQueues()
      modifies this`acknowledgements, this`sentReliableCommands, this`sentUnreliableCommands,
          this`outgoingReliableCommands,
               this`outgoingUnreliableCommands, this`channels, this`stale
      ensures acknowledgements == [] && sentReliableCommands == [] && sentUnreliableCommands == []
      ensures outgoingReliableCommands == [] && outgoingUnreliableCommands == [] && channels == []
      ensures stale == reliableDataInTransit
    {
      acknowledgements, sentReliableCommands, sentUnreliableCommands := [], [], [];
      outgoingReliableCommands, outgoingUnreliableCommands, channels := [], [], [];
      stale := reliableDataInTransit;
    }

    /** enet_peer_reset. */
    method Reset()
      modifies this
      ensures Valid() && state == Disconnected && stale == 0 && reliableDataInTransit == 0
    {
      ResetQueues();
      ResetTimes();
      ResetLimits();
      state := Disconnected;
      reliableDataInTransit, outgoingReliableSequenceNumber, stale := 0, 0, 0;
      NothingToFit(mtu);
      DefaultTimeout();
      assert HEADER + 48 <= DEFAULT_MTU <= MAX_MTU;
      hide Balanced, AllFit, AllLooseFit, AllTimed, FirstTimeout, Valid, Roomy;
      IsValid();
    }

    lemma DefaultTimeout()
      ensures roundTripTime == DEFAULT_ROUND_TRIP_TIME && roundTripTimeVariance == 0 ==> FirstTimeout() > 0
    {
    }

    method ResetTimes()
      modifies this`nextTimeout, this`earliestTimeout, this`lastReceiveTime, this`roundTripTime,
               this`roundTripTimeVariance, this`timeoutLimit, this`patience, this`pingInterval
      ensures nextTimeout == 0 && earliestTimeout == 0 && lastReceiveTime == 0
      ensures roundTripTime == DEFAULT_ROUND_TRIP_TIME && roundTripTimeVariance == 0
      ensures timeoutLimit == 32 && patience == Patience(5000, 30000) && pingInterval == 500
    {
      nextTimeout, earliestTimeout, lastReceiveTime := 0, 0, 0;
      roundTripTime, roundTripTimeVariance := DEFAULT_ROUND_TRIP_TIME, 0;
      timeoutLimit, patience, pingInterval := 32, Patience(5000, 30000), 500;
    }

    method ResetLimits()
      modifies this`packetThrottle, this`packetThrottleCounter, this`mtu, this`windowSize
      ensures packetThrottle == THROTTLE_SCALE && packetThrottleCounter == 0
      ensures mtu == DEFAULT_MTU && windowSize == MAX_WINDOW_SIZE
    {
      packetThrottle, packetThrottleCounter := THROTTLE_SCALE, 0;
      mtu, windowSize := DEFAULT_MTU, MAX_WINDOW_SIZE;
    }

    /** enet_peer_queue_outgoing_command for a command without a packet that wants an acknowledgement. */
    method QueueControl(code: nat)
      requires Balanced(Account(), stale) && Roomy()
      modifies this`outgoingReliableSequenceNumber, this`outgoingReliableCommands
      ensures Balanced(Account(), stale) && Roomy()
      ensures outgoingReliableSequenceNumber == (old(outgoingReliableSequenceNumber) + 1) % 0x1_0000
      ensures outgoingReliableCommands ==
              old(outgoingReliableCommands) + [ControlCommand(code, outgoingReliableSequenceNumber)]
    {
      outgoingReliableSequenceNumber := (outgoingReliableSequenceNumber + 1) % 0x1_0000;
      var command := ControlCommand(code, outgoingReliableSequenceNumber);
      QueueBalanced(Account(), stale, command);
      LengthsTotal(command);
      hide Balanced, Total, Lengths;
      outgoingReliableCommands := outgoingReliableCommands + [command];
    }

    /** enet_peer_ping. */
    method Ping()
      requires Balanced(Account(), stale) && Roomy()
      modifies this`outgoingReliableSequenceNumber, this`outgoingReliableCommands
      ensures Balanced(Account(), stale) && Roomy()
      ensures if state == Connected
              then outgoingReliableCommands == old(outgoingReliableCommands)
                  + [ControlCommand(PING, outgoingReliableSequenceNumber)]
              else outgoingReliableCommands == old(outgoingReliableCommands)
    {
      if state != Connected { return; }
      QueueControl(PING);
    }

    /** enet_peer_disconnect of a peer that is connected or to be disconnected later. */
    method Disconnect()
      requires (state == Connected || state == DisconnectLater) && Valid()
      modifies this`acknowledgements, this`sentReliableCommands, this`sentUnreliableCommands,
               this`outgoingReliableCommands, this`outgoingUnreliableCommands, this`channels, this`stale, this`state,
               this`outgoingReliableSequenceNumber
      ensures Valid() && state == Disconnecting && channels == [] && acknowledgements == []
      ensures outgoingReliableCommands == [ControlCommand(DISCONNECT, outgoingReliableSequenceNumber)]
      ensures sentReliableCommands == [] && outgoingUnreliableCommands == [] && sentUnreliableCommands == []
    {
      ResetQueues();
      hide Balanced, Total;
      QueueControl(DISCONNECT);
      state := Disconnecting;
    }

    /** enet_protocol_notify_disconnect; reported tells whether it filled in an event. */
    method NotifyDisconnect(event: bool) returns (reported: bool)
      requires Valid()
      modifies this
      ensures Valid() && (state == Disconnected || state == Zombie)
      ensures reported <==> event && (old(state) == Connecting || Rank(old(state)) >= Rank(ConnectionSucceeded))
      ensures state == Zombie <==> !event && (old(state) == Connecting || Rank(old(state)) >= Rank(ConnectionSucceeded))
    {
      reported := false;
      if state != Connecting && Rank(state) < Rank(ConnectionSucceeded) {
        Reset();
      } else if event {
        Reset();
        reported := true;
      } else {
        state := Zombie;
      }
    }

    /** In the course of a turn: what is pending has gone down by what is in the datagram, or the peer
        has come to its end. */
    ghost predicate Going(d: Datagram, now: time, pending: nat)
      reads this, d
    {
      && Valid() && d.Assembled(mtu) && state != Disconnected
      && if state == Zombie then pending > 0 else Pending(now) + d.commandCount <= pending
    }

    method AcknowledgeTurn(d: Datagram, now: time, ghost pending: nat)
      requires Going(d, now, pending) && state != Zombie
      modifies this`acknowledgements, this`state, d
      ensures Going(d, now, pending) && d.commandCount >= old(d.commandCount)
      ensures d.continueSending ==> old(d.continueSending) || d.commandCount > 0
      ensures acknowledgements == [] || d.continueSending
      ensures state == old(state) || state == Zombie
      ensures old(d.continueSending) ==> d.continueSending
    {
      if acknowledgements == [] { return; }
      hide Balanced, Roomy, AllLooseFit, AllTimed, Total, Repeated, Ends, Owes, FirstTimeout;
      assert HEADER + 48 <= mtu <= MAX_MTU by { RoomyMtu(); }
      ghost var n := SendAcknowledgements(d);
    }

    lemma RoomyMtu()
      requires Roomy()
      ensures HEADER + 48 <= mtu <= MAX_MTU
    {
    }

    /** Every reliable command in the queue waits for a window, or for data in flight to arrive. */
    ghost predicate Served()
      reads this
    {
      AllWithheld(outgoingReliableCommands, Gates(), reliableDataInTransit, Window())
    }

    /** What is in flight was so before or has been sent now. */
    ghost predicate NoneStale(sent: seq<Outgoing>, now: time)
      reads this
    {
      && (sent != [] ==> sentReliableCommands != [])
      && forall e | e in sentReliableCommands :: e in sent || e.sentTime == now
    }

    /** After the reliable commands from queue, with those in sent in flight: what is left waits, and a ping may follow
        only if none of them went or was to go. */
    ghost predicate Tried(d: Datagram, canPing: bool, queue: seq<Outgoing>, sent: seq<Outgoing>, now: time)
      reads this, d
    {
      && (d.continueSending || Served()) && NoneStale(sent, now)
      && if canPing then NoControl(outgoingReliableCommands, |channels|) && outgoingReliableCommands == queue
         else sentReliableCommands != [] || d.continueSending
    }

    lemma TriedIs(d: Datagram, canPing: bool, queue: seq<Outgoing>, sent: seq<Outgoing>, now: time)
      requires Tried(d, canPing, queue, sent, now)
      ensures (d.continueSending || Served()) && NoneStale(sent, now)
      ensures if canPing then NoControl(outgoingReliableCommands, |channels|) && outgoingReliableCommands == queue
              else sentReliableCommands != [] || d.continueSending
    {
      hide Served, NoneStale, NoControl;
    }

    lemma AllServed(looked: nat)
      requires looked == |outgoingReliableCommands|
      requires AllWithheld(outgoingReliableCommands[..looked], Gates(), reliableDataInTransit, Window())
      ensures Served()
    {
      assert outgoingReliableCommands[..looked] == outgoingReliableCommands;
    }

    method ReliableTurn(d: Datagram, now: time, ghost pending: nat) returns (canPing: bool)
      requires Going(d, now, pending)
      modifies this`channels, this`outgoingReliableCommands, this`sentReliableCommands,
               this`reliableDataInTransit, this`nextTimeout, d
      ensures Going(d, now, pending) && d.commandCount >= old(d.commandCount)
      ensures d.continueSending ==> old(d.continueSending) || d.commandCount > 0
      ensures old(d.continueSending) ==> d.continueSending
      ensures Tried(d, canPing, old(outgoingReliableCommands), old(sentReliableCommands), now)
    {
      ghost var queue, sent := outgoingReliableCommands, sentReliableCommands;
      ghost var t, l, count := FirstTimeout(), FirstLimit(), d.commandCount;
      hide *;
      GoingReady(d, now, pending);
      canPing := true;
      if outgoingReliableCommands == [] {
        NothingWaits(d, now);
        return;
      }
      ghost var moved;
      ghost var looked;
      canPing, moved, looked := SendReliableOutgoing(d, now);
      SentOnes(d, canPing, now, queue, sent, moved, looked, t, l);
      SentGoing(d, now, pending, queue, sent, moved, t, l, count);
    }

    /** With no reliable command in the queue there is nothing to do. */
    lemma NothingWaits(d: Datagram, now: time)
      requires outgoingReliableCommands == []
      ensures Tried(d, true, outgoingReliableCommands, sentReliableCommands, now)
    {
    }

    lemma SentOnes(d: Datagram, canPing: bool, now: time, queue: seq<Outgoing>, sent: seq<Outgoing>,
                   moved: seq<Outgoing>, looked: nat, t: time, l: time)
      requires Merged(queue, outgoingReliableCommands, moved)
      requires sentReliableCommands == sent + AllStamped(moved, now, t, l)
      requires looked <= |outgoingReliableCommands|
               && AllWithheld(outgoingReliableCommands[..looked], Gates(), reliableDataInTransit, Window())
      requires looked < |outgoingReliableCommands| ==> d.continueSending
      requires canPing ==> moved == [] && NoControl(outgoingReliableCommands, |channels|)
      requires !canPing ==> moved != [] || d.continueSending
      ensures Tried(d, canPing, queue, sent, now)
    {
      StampedNew(sent, moved, now, t, l);
      if looked == |outgoingReliableCommands| { AllServed(looked); }
      if moved == [] { MergedAlone(queue, outgoingReliableCommands); }
      hide Merged, AllStamped, AllWithheld, Window, NoControl, Served;
    }

    lemma SentGoing(d: Datagram, now: time, pending: nat, queue: seq<Outgoing>, sent: seq<Outgoing>,
                    moved: seq<Outgoing>, t: time, l: time, count: nat)
      requires Ready(d) && state != Disconnected && t == FirstTimeout() && t > 0 && |channels| <= MAX_CHANNELS
      requires Merged(queue, outgoingReliableCommands, moved) && d.commandCount == count + |moved|
      requires sentReliableCommands == sent + AllStamped(moved, now, t, l) && AllFit(mtu, queue) && AllFit(mtu, sent)
      requires AllTimed(sent) && AllLooseFit(mtu, outgoingUnreliableCommands)
      requires if state == Zombie then pending > 0
               else Pend(state, |acknowledgements|, queue, |outgoingUnreliableCommands|, sent, |channels|, now)
                    + count <= pending
      ensures Going(d, now, pending)
    {
      StampedTimed(sent, moved, now, t, l);
      StampedFit(mtu, sent, queue, outgoingReliableCommands, moved, now, t, l);
      if state != Zombie {
        PendSent(state, |acknowledgements|, queue, |outgoingUnreliableCommands|, sent, |channels|, now,
                 outgoingReliableCommands, moved, t, l);
      }
      assert Balanced(Account(), stale) && HEADER + 48 <= mtu <= MAX_MTU && d.Assembled(mtu)
             && AllFit(mtu, outgoingReliableCommands);
      hide *;
      IsValid();
      StillGoing(d, now, pending);
    }

    predicate TimeoutDue(now: time)
      reads this
    {
      sentReliableCommands != [] && !Clock.Less(now, nextTimeout)
    }

    /** Nothing is in flight whose time is up, except what has only just been sent. */
    ghost predicate NoneLate(now: time)
      reads this
    {
      AllFresh(sentReliableCommands, now)
    }

    method TimeoutTurn(d: Datagram, now: time, event: bool, ghost pending: nat) returns (gone: bool, reported: bool)
      requires Going(d, now, pending)
      modifies this
      ensures !gone ==> Going(d, now, pending) && state == old(state) && mtu == old(mtu)
      ensures !gone ==> acknowledgements == old(acknowledgements) && lastReceiveTime == old(lastReceiveTime)
                        && pingInterval == old(pingInterval) && d.continueSending == old(d.continueSending)
      ensures !gone && old(TimeoutDue(now)) ==> NoneLate(now)
      ensures gone ==> Valid() && (state == Disconnected || state == Zombie)
      ensures reported ==> gone && event
    {
      hide *;
      gone, reported := false, false;
      DueIs(now);
      if sentReliableCommands == [] || Clock.Less(now, nextTimeout) { return; }
      gone := ExpireTurn(d, now, pending);
      if gone { reported := NotifyDisconnect(event); }
    }

    method ExpireTurn(d: Datagram, now: time, ghost pending: nat) returns (gone: bool)
      requires Going(d, now, pending)
      modifies this`outgoingReliableCommands, this`sentReliableCommands, this`reliableDataInTransit,
               this`nextTimeout, this`earliestTimeout
      ensures Valid() && (!gone ==> Going(d, now, pending) && NoneLate(now))
    {
      GoingIs(d, now, pending);
      PendingIs(now);
      hide *;
      gone := ExpireQueues(now);
      if !gone {
        PendingIs(now);
        StillGoing(d, now, pending);
      }
    }

    method ExpireQueues(now: time) returns (gone: bool)
      requires Valid()
      modifies this`outgoingReliableCommands, this`sentReliableCommands, this`reliableDataInTransit,
               this`nextTimeout, this`earliestTimeout
      ensures Valid() && (!gone ==> Pending(now) <= old(Pending(now)) && NoneLate(now))
    {
      ghost var queue, sent := outgoingReliableCommands, sentReliableCommands;
      ghost var k;
      hide *;
      SoundIs();
      PendingIs(now);
      gone, k := CheckTimeouts(now);
      StillSound(mtu, queue, sent, k, now, sentReliableCommands, outgoingReliableCommands, outgoingUnreliableCommands,
                 |channels|, FirstTimeout());
      IsSound();
      PendingIs(now);
      if !gone {
        PendDealt(state, |acknowledgements|, queue, |outgoingUnreliableCommands|, sent, |channels|, now, k,
                  sentReliableCommands, outgoingReliableCommands);
        AllInTime(sent, queue, now, k);
      }
    }

    lemma DueIs(now: time)
      ensures TimeoutDue(now) <==> sentReliableCommands != [] && !Clock.Less(now, nextTimeout)
    {
    }

    lemma AllInTime(sent: seq<Outgoing>, queue: seq<Outgoing>, now: time, k: nat)
      requires DealtWith(now, sent, queue, k, sentReliableCommands, outgoingReliableCommands) && k == |sent|
      ensures NoneLate(now)
    {
      InTimeNotLate(sent[..k], now);
      assert sentReliableCommands == InTime(now, sent[..k]);
      hide InTime, Late;
    }

    lemma SoundIs()
      requires Valid()
      ensures Balanced(Account(), stale)
      ensures Sound(mtu, outgoingReliableCommands, sentReliableCommands, outgoingUnreliableCommands, |channels|,
                    FirstTimeout())
    {
    }

    lemma IsSound()
      requires Balanced(Account(), stale)
      requires Sound(mtu, outgoingReliableCommands, sentReliableCommands, outgoingUnreliableCommands, |channels|,
                     FirstTimeout())
      ensures Valid()
    {
    }

    lemma PendingIs(now: time)
      ensures Pending(now) == Pend(state, |acknowledgements|, outgoingReliableCommands, |outgoingUnreliableCommands|,
                                   sentReliableCommands, |channels|, now)
    {
    }

    lemma ValidIs()
      requires Valid()
      ensures Balanced(Account(), stale) && HEADER + 48 <= mtu <= MAX_MTU && |channels| <= MAX_CHANNELS
              && FirstTimeout() > 0
      ensures AllFit(mtu, outgoingReliableCommands) && AllFit(mtu, sentReliableCommands)
      ensures AllLooseFit(mtu, outgoingUnreliableCommands) && AllTimed(sentReliableCommands)
    {
    }

    lemma StillGoing(d: Datagram, now: time, pending: nat)
      requires Valid() && d.Assembled(mtu) && state != Disconnected
      requires if state == Zombie then pending > 0
               else Pend(state, |acknowledgements|, outgoingReliableCommands, |outgoingUnreliableCommands|,
                         sentReliableCommands, |channels|, now) + d.commandCount <= pending
      ensures Going(d, now, pending)
    {
    }

    lemma GoingIs(d: Datagram, now: time, pending: nat)
      requires Going(d, now, pending)
      ensures Valid() && d.Assembled(mtu) && state != Disconnected && Balanced(Account(), stale) && Roomy()
      ensures HEADER + 48 <= mtu <= MAX_MTU && |channels| <= MAX_CHANNELS && FirstTimeout() > 0
      ensures AllFit(mtu, outgoingReliableCommands) && AllFit(mtu, sentReliableCommands)
      ensures AllLooseFit(mtu, outgoingUnreliableCommands) && AllTimed(sentReliableCommands)
      ensures if state == Zombie then pending > 0
              else Pend(state, |acknowledgements|, outgoingReliableCommands, |outgoingUnreliableCommands|,
                        sentReliableCommands, |channels|, now) + d.commandCount <= pending
    {
    }

    lemma GoingReady(d: Datagram, now: time, pending: nat)
      requires Going(d, now, pending)
      ensures Ready(d) && state != Disconnected && FirstTimeout() > 0 && |channels| <= MAX_CHANNELS
      ensures AllFit(mtu, outgoingReliableCommands) && AllFit(mtu, sentReliableCommands)
      ensures AllLooseFit(mtu, outgoingUnreliableCommands) && AllTimed(sentReliableCommands)
      ensures if state == Zombie then pending > 0
              else Pend(state, |acknowledgements|, outgoingReliableCommands, |outgoingUnreliableCommands|,
                        sentReliableCommands, |channels|, now) + d.commandCount <= pending
    {
      hide *;
      GoingIs(d, now, pending);
      StillReady(d);
    }

    lemma IsValid()
      requires Balanced(Account(), stale) && HEADER + 48 <= mtu <= MAX_MTU
      requires AllFit(mtu, outgoingReliableCommands) && AllFit(mtu, sentReliableCommands)
      requires AllLooseFit(mtu, outgoingUnreliableCommands) && AllTimed(sentReliableCommands)
      requires |channels| <= MAX_CHANNELS && FirstTimeout() > 0
      ensures Valid()
    {
    }

    /** The ping of a connected peer that has nothing in flight and has long heard nothing. */
    method PingTurn(d: Datagram, now: time, canPing: bool, ghost pending: nat)
      requires Going(d, now, pending) && (canPing ==> NoControl(outgoingReliableCommands, |channels|))
      requires (d.continueSending || Served()) && (!canPing ==> sentReliableCommands != [] || d.continueSending)
      modifies this`channels, this`outgoingReliableCommands, this`sentReliableCommands, this`reliableDataInTransit,
               this`nextTimeout, this`outgoingReliableSequenceNumber, d
      ensures Going(d, now, pending) && d.commandCount >= old(d.commandCount)
      ensures d.continueSending ==> old(d.continueSending) || d.commandCount > 0
      ensures (d.continueSending || Served()) && (old(d.continueSending) ==> d.continueSending)
      ensures d.continueSending || Heard(now) || d.packetSize + CommandSize(PING) > mtu
      ensures NoneStale(old(sentReliableCommands), now)
    {
      if !(canPing && sentReliableCommands == [] && Difference(now, lastReceiveTime) >= pingInterval
           && d.packetSize + CommandSize(PING) <= mtu) {
        return;
      }
      ghost var queue := outgoingReliableCommands;
      assert |channels| <= MAX_CHANNELS;
      hide Balanced, AllLooseFit, AllTimed, Total, FirstTimeout, Pend, NoControl, AllFit, Difference, Account,
          ControlCommand, AllWithheld, Window, Served;
      Ping();
      if state == Connected {
        PendPing(state, |acknowledgements|, queue, |outgoingUnreliableCommands|, |channels|, now,
                 outgoingReliableSequenceNumber);
        PingIsControl(queue, outgoingReliableSequenceNumber, |channels|);
      }
      ghost var queue1, sent := outgoingReliableCommands, sentReliableCommands;
      var canPing' := ReliableTurn(d, now, pending);
      TriedIs(d, canPing', queue1, sent, now);
    }

    /** Unless a ping is due, or is on its way. */
    ghost predicate Heard(now: time)
      reads this
    {
      state == Connected && Difference(now, lastReceiveTime) >= pingInterval ==> sentReliableCommands != []
    }

    /** The unreliable commands, and the disconnect that was to follow the last of all commands. */
    method UnreliableTurn(d: Datagram, now: time, ghost pending: nat)
      requires Going(d, now, pending) && (d.continueSending || Served())
      modifies this`outgoingUnreliableCommands, this`sentUnreliableCommands, this`packetThrottleCounter,
               this`acknowledgements, this`sentReliableCommands, this`outgoingReliableCommands, this`channels,
               this`stale, this`state, this`outgoingReliableSequenceNumber, d
      ensures Going(d, now, pending) && d.commandCount >= old(d.commandCount) && d.packetSize >= old(d.packetSize)
      ensures d.continueSending ==> old(d.continueSending) || d.commandCount > 0
      ensures d.continueSending || (outgoingUnreliableCommands == [] && (Served() || Departing()))
      ensures acknowledgements == old(acknowledgements) || acknowledgements == []
      ensures Departing() || (state == old(state) && sentReliableCommands == old(sentReliableCommands))
      ensures old(d.continueSending) ==> d.continueSending
    {
      hide *;
      if outgoingUnreliableCommands == [] { return; }
      LooseTurn(d, now, pending);
      if state == DisconnectLater && outgoingReliableCommands == [] && outgoingUnreliableCommands == []
          && sentReliableCommands == [] {
        GoingIs(d, now, pending);
        PendDisconnect(|acknowledgements|, |channels|, now);
        Disconnect();
        StillGoing(d, now, pending);
        Departs();
      }
    }

    /** The peer was to be disconnected once it had sent everything: its DISCONNECT waits for the next call. */
    ghost predicate Departing()
      reads this
    {
      && state == Disconnecting && channels == [] && sentReliableCommands == []
      && outgoingReliableCommands == [ControlCommand(DISCONNECT, outgoingReliableSequenceNumber)]
    }

    lemma Departs()
      requires state == Disconnecting && channels == [] && sentReliableCommands == []
      requires outgoingReliableCommands == [ControlCommand(DISCONNECT, outgoingReliableSequenceNumber)]
      ensures Departing()
    {
    }

    method LooseTurn(d: Datagram, now: time, ghost pending: nat)
      requires Going(d, now, pending) && (d.continueSending || Served())
      modifies this`outgoingUnreliableCommands, this`sentUnreliableCommands, this`packetThrottleCounter, d
      ensures Going(d, now, pending) && d.commandCount >= old(d.commandCount) && d.packetSize >= old(d.packetSize)
      ensures d.continueSending ==> old(d.continueSending) || d.commandCount > 0
      ensures d.continueSending || (outgoingUnreliableCommands == [] && Served())
      ensures old(d.continueSending) ==> d.continueSending
    {
      hide Balanced, AllLooseFit, AllTimed, Total, FirstTimeout, AllFit, Merged, AllLooseLengths, Owes, Sum, Sift,
          Later, AllWithheld, Pend, WithPacket;
      ghost var loose, lengths, size, count := outgoingUnreliableCommands, d.lengths, d.packetSize, d.commandCount;
      GoingIs(d, now, pending);
      ghost var gone, dropped, moved := SendUnreliableOutgoing(d);
      LooseGoing(d, now, pending, loose, gone, dropped, moved, lengths, size, count);
      assert HEADER + Total(lengths) == size;
    }

    lemma LooseGoing(d: Datagram, now: time, pending: nat, loose: seq<Loose>, gone: seq<Loose>, dropped: seq<Loose>,
                     moved: seq<Loose>, lengths: seq<nat>, size: nat, count: nat)
      requires Balanced(Account(), stale) && Roomy() && d.Assembled(mtu) && state != Disconnected && FirstTimeout() > 0
      requires |channels| <= MAX_CHANNELS && AllFit(mtu, sentReliableCommands) && AllTimed(sentReliableCommands)
      requires AllLooseFit(mtu, outgoingUnreliableCommands) && Merged(gone, dropped, moved)
      requires loose == gone + outgoingUnreliableCommands && d.lengths == lengths + AllLooseLengths(moved)
      requires d.commandCount == count + |moved|
      requires if state == Zombie then pending > 0
               else Pend(state, |acknowledgements|, outgoingReliableCommands, |loose|, sentReliableCommands,
                         |channels|, now) + count <= pending
      ensures Going(d, now, pending) && (HEADER + Total(lengths) == size ==> d.packetSize >= size)
    {
      MergedLength(gone, dropped, moved);
      TotalGrows(lengths, AllLooseLengths(moved));
      hide Balanced, AllLooseFit, AllTimed, Total, FirstTimeout, AllFit, Merged, AllLooseLengths, Owes, Sum;
    }

    /** Nothing is left that the peer could send now: no acknowledgement, no unreliable command, and the reliable
        ones wait, for a window or data in flight to arrive, or for the next call. */
    ghost predicate Spent()
      reads this
    {
      acknowledgements == [] && outgoingUnreliableCommands == [] && (Served() || Departing())
    }

    lemma IsSpent()
      requires acknowledgements == [] && outgoingUnreliableCommands == [] && (Served() || Departing())
      ensures Spent()
    {
    }

    /** What one peer's turn in send_outgoing_commands came to: nothing for a peer that is not in
        use, a peer given up, or a datagram. */
    method Turn(d: Datagram, now: time, event: bool, checkForTimeouts: bool) returns (turn: Turned)
      requires Valid()
      modifies this, d
      ensures Valid() && Pending(now) <= old(Pending(now))
      ensures turn == Made ==> d.Assembled(mtu)
      ensures turn == Reported ==> event
      ensures d.continueSending ==> old(d.continueSending) || Pending(now) < old(Pending(now))
      ensures turn == Unused <==> old(state) == Disconnected || old(state) == Zombie
      ensures turn == Unused || turn == GivenUp || turn == Reported ==> state == Disconnected || state == Zombie
      ensures turn == Made && !d.continueSending ==>
                Spent() && (Heard(now) || d.packetSize + CommandSize(PING) > mtu)
      ensures turn == Made && checkForTimeouts && old(TimeoutDue(now)) ==> NoneLate(now)
      ensures old(d.continueSending) ==> d.continueSending
    {
      if state == Disconnected || state == Zombie { return Unused; }
      ghost var pending := Pending(now);
      d.Begin();
      TotalNone();
      hide Balanced, AllLooseFit, AllTimed, Total, FirstTimeout, AllFit, Pend, Account, NoControl;
      hide Served, Departing, NoneLate, NoneStale, TimeoutDue, Heard, Spent;
      AcknowledgeTurn(d, now, pending);
      var gone, reported := false, false;
      if checkForTimeouts { gone, reported := TimeoutTurn(d, now, event, pending); }
      if gone {
        turn := if reported then Reported else GivenUp;
        return;
      }
      SendTurn(d, now, pending);
      turn := Made;
    }

    /** The commands of the turn. */
    method SendTurn(d: Datagram, now: time, ghost pending: nat)
      requires Going(d, now, pending) && (acknowledgements == [] || d.continueSending)
      modifies this`channels, this`outgoingReliableCommands, this`sentReliableCommands, this`reliableDataInTransit,
               this`nextTimeout, this`outgoingReliableSequenceNumber, this`outgoingUnreliableCommands,
               this`sentUnreliableCommands, this`packetThrottleCounter, this`acknowledgements, this`stale, this`state, d
      ensures Going(d, now, pending) && d.commandCount >= old(d.commandCount)
      ensures d.continueSending ==> old(d.continueSending) || d.commandCount > 0
      ensures d.continueSending || (Spent() && (Heard(now) || d.packetSize + CommandSize(PING) > mtu))
      ensures old(NoneLate(now)) ==> NoneLate(now)
      ensures old(d.continueSending) ==> d.continueSending
    {
      FreshIs(now);
      hide *;
      ghost var queue, sent := outgoingReliableCommands, sentReliableCommands;
      var canPing := ReliableTurn(d, now, pending);
      TriedIs(d, canPing, queue, sent, now);
      StillFresh(sent, now);
      ghost var sent1 := sentReliableCommands;
      PingTurn(d, now, canPing, pending);
      StillFresh(sent1, now);
      HeardIs(now);
      UnreliableTurn(d, now, pending);
      HeardIs(now);
      FreshIs(now);
      if Departing() { DepartingIs(now); }
      if !d.continueSending { IsSpent(); }
    }

    lemma FreshIs(now: time)
      ensures NoneLate(now) <==> AllFresh(sentReliableCommands, now)
    {
    }

    lemma StillFresh(sent: seq<Outgoing>, now: time)
      requires NoneStale(sent, now)
      ensures AllFresh(sent, now) ==> AllFresh(sentReliableCommands, now)
    {
    }

    lemma HeardIs(now: time)
      ensures Heard(now) <==>
              (state == Connected && Difference(now, lastReceiveTime) >= pingInterval ==> sentReliableCommands != [])
    {
    }

    lemma DepartingIs(now: time)
      requires Departing()
      ensures Heard(now) && NoneLate(now)
    {
    }

    /** enet_protocol_remove_sent_unreliable_commands. */
    method ForgetUnreliable(now: time)
      requires Valid()
      modifies this`sentUnreliableCommands
      ensures Valid() && Pending(now) == old(Pending(now)) && sentUnreliableCommands == []
      ensures Spent() == old(Spent())
    {
      hide Balanced, AllLooseFit, AllTimed, AllFit, Pend, AllWithheld, Window;
      sentUnreliableCommands := [];
    }
  }

  /** What the search relies on. */
  lemma AccountShape(b: Book, stale: nat, number: nat, channel: nat)
    requires Balanced(b, stale)
    ensures Shaped(b) && (channel < |b.channels| ==> |b.channels[channel].counts| == WINDOWS)
    ensures forall i | 0 <= i < |b.sent| :: b.inTransit >= PacketLength()(b.sent[i])
  {
    forall i | 0 <= i < |b.sent| ensures b.inTransit >= PacketLength()(b.sent[i]) { CoversOne(b, stale, i); }
  }

  lemma AcknowledgeIs(b: Book, stale: nat, number: nat, channel: nat)
    requires Balanced(b, stale)
    ensures RetriedFirst(b.outgoing)
    ensures var i, k := Find(b.sent, number, channel, 0), Find(b.outgoing, number, channel, 0);
            if i < |b.sent| then
              && b.inTransit >= PacketLength()(b.sent[i])
              && Acknowledge(b, stale, number, channel) == (AckSent(b, i), b.sent[i].code)
            else if k < |b.outgoing| && b.outgoing[k].attempts > 0 then
              Acknowledge(b, stale, number, channel) == (AckRetried(b, k), b.outgoing[k].code)
            else Acknowledge(b, stale, number, channel) == (b, 0)
  {
    var i := Find(b.sent, number, channel, 0);
    if i < |b.sent| { CoversOne(b, stale, i); }
  }

  lemma AckSentIs(b: Book, i: nat)
    requires Shaped(b) && i < |b.sent| && b.inTransit >= PacketLength()(b.sent[i])
    ensures var e := b.sent[i];
            var sent := Without(b.sent, i);
            AckSent(b, i) ==
            Book(Released(b.channels, e.channel, e.number), b.outgoing, sent,
                 if e.packet then b.inTransit - e.length else b.inTransit, FrontDeadline(sent, b.nextTimeout))
  {
  }

  lemma AckRetriedIs(b: Book, k: nat)
    requires Shaped(b) && k < |b.outgoing|
    ensures var e := b.outgoing[k];
            AckRetried(b, k) ==
            Book(Released(b.channels, e.channel, e.number), Without(b.outgoing, k), b.sent,
                 b.inTransit, FrontDeadline(b.sent, b.nextTimeout))
  {
  }

  lemma SendIs(b: Book, i: nat, now: time, timeout: time, limit: time)
    requires Shaped(b) && i < |b.outgoing|
    ensures var e := Stamped(b.outgoing[i], now, timeout, limit);
            && Send(b, i, now, timeout, limit) ==
               Book(Noted(b.channels, b.outgoing[i]), Without(b.outgoing, i), b.sent + [e],
                    if e.packet then b.inTransit + e.length else b.inTransit,
                    if b.sent == [] then Plus(now, e.timeout) else b.nextTimeout)
  {
  }

  /** Taking out a command that is not the first leaves the deadline where it was. */
  lemma FrontKept(b: Book, stale: nat, i: nat)
    requires Balanced(b, stale) && 0 <= i < |b.sent|
    ensures b.inTransit >= PacketLength()(b.sent[i])
    ensures 0 < i ==> Without(b.sent, i) != [] && FrontDeadline(Without(b.sent, i), b.nextTimeout) == b.nextTimeout
  {
    CoversOne(b, stale, i);
  }

  /** The first k of all the commands in flight have been checked: i of them stay, the others have
      gone to the front of the queue, up to insertPosition. */
  predicate Checked(now: time, all: seq<Outgoing>, queue0: seq<Outgoing>, k: nat, i: nat, insertPosition: nat,
                    sent: seq<Outgoing>, queue: seq<Outgoing>) {
    && k <= |all| && i == |InTime(now, all[..k])| && insertPosition == |TimedOut(now, all[..k])|
    && sent == InTime(now, all[..k]) + all[k..] && queue == TimedOut(now, all[..k]) + queue0
  }

  function Unchecked(all: seq<Outgoing>, k: nat): nat {
    if k <= |all| then |all| - k else 0
  }

  predicate DealtWith(now: time, all: seq<Outgoing>, queue0: seq<Outgoing>, k: nat, sent: seq<Outgoing>,
                      queue: seq<Outgoing>) {
    && k <= |all| && sent == InTime(now, all[..k]) + all[k..] && queue == TimedOut(now, all[..k]) + queue0
  }

  predicate SentUpTo(s: seq<Outgoing>, n: nat) {
    n <= |s| && AllSent(s[..n])
  }

  function ScanFrom(now: time, p: Patience, earliest: time, all: seq<Outgoing>, k: nat): (bool, time) {
    if k > |all| then (false, earliest) else Scan(now, p, earliest, all[k..])
  }

  lemma OneChecked(now: time, p: Patience, earliest: time, all: seq<Outgoing>, queue0: seq<Outgoing>, k: nat,
                   i: nat, at: nat, sent: seq<Outgoing>, queue: seq<Outgoing>)
    requires Checked(now, all, queue0, k, i, at, sent, queue) && i < |sent|
    ensures k < |all| && at <= |queue|
    ensures var e := sent[i];
            if Difference(now, e.sentTime) < e.timeout
            then && Checked(now, all, queue0, k + 1, i + 1, at, sent, queue)
                 && ScanFrom(now, p, earliest, all, k) == ScanFrom(now, p, earliest, all, k + 1)
            else && Checked(now, all, queue0, k + 1, i, at + 1, Without(sent, i), Insert(queue, at, Doubled(e)))
                 && ScanFrom(now, p, earliest, all, k) ==
                    if GivesUp(now, p, Earliest(earliest, e), e) then (true, Earliest(earliest, e))
                    else ScanFrom(now, p, Earliest(earliest, e), all, k + 1)
  {
    assert all[..k + 1][..k] == all[..k] && all[k..][1..] == all[k + 1..];
    assert sent[i] == all[k];
  }

  // ----- what a command takes up in a datagram -----

  function Lengths(e: Outgoing): seq<nat> {
    if e.packet then [CommandSize(e.code), e.length] else [CommandSize(e.code)]
  }

  predicate Fits(mtu: nat, e: Outgoing) {
    HEADER + Total(Lengths(e)) <= mtu
  }

  predicate AllFit(mtu: nat, s: seq<Outgoing>) {
    forall i | 0 <= i < |s| :: Fits(mtu, s[i])
  }

  lemma LengthsTotal(e: Outgoing)
    ensures Total(Lengths(e)) == CommandSize(e.code) + if e.packet then e.length else 0
  {
    TotalPlus([], CommandSize(e.code));
    TotalPlus([CommandSize(e.code)], e.length);
    assert [] + [CommandSize(e.code)] == [CommandSize(e.code)];
    assert [CommandSize(e.code)] + [e.length] == [CommandSize(e.code), e.length];
  }

  function AllLengths(s: seq<Outgoing>): seq<nat> {
    if s == [] then [] else AllLengths(s[..|s| - 1]) + Lengths(s[|s| - 1])
  }

  /** A command that belongs to no channel and carries no packet, as a ping does. */
  predicate Control(e: Outgoing, channelCount: nat) {
    !e.packet && e.channel >= channelCount
  }

  predicate NoControl(s: seq<Outgoing>, channelCount: nat) {
    forall e | e in s :: !Control(e, channelCount)
  }

  /** Where the sending loop stands: `done` of all the commands have been looked at; of these those
      moved are gone and the others are the first i of the queue.  n is the number of channels. */
  datatype Progress = Progress(
    all: seq<Outgoing>, done: nat, queue: seq<Outgoing>, i: nat, moved: seq<Outgoing>,
    sent0: seq<Outgoing>, sent: seq<Outgoing>, lengths0: seq<nat>, lengths: seq<nat>, n: nat, canPing: bool)

  /** Where the loop began, at what time and with what timeouts. */
  datatype Begun = Begun(start: Progress, now: time, timeout: time, limit: time, inTransit: nat, count: nat,
                         continueSending: bool)

  function Start(queue: seq<Outgoing>, sent: seq<Outgoing>, lengths: seq<nat>, n: nat): Progress {
    Progress(queue, 0, queue, 0, [], sent, sent, lengths, lengths, n, true)
  }

  /** The command looked at stays, or goes. */
  function Next(p: Progress, outcome: Outcome, now: time, t: time, l: time): Progress
    requires p.i < |p.queue|
  {
    match outcome
    case Held => p.(done := p.done + 1, i := p.i + 1)
    case NoRoom => p.(canPing := false)
    case Sent =>
      var e := p.queue[p.i];
      p.(done := p.done + 1, queue := Without(p.queue, p.i), moved := p.moved + [e],
         sent := p.sent + [Stamped(e, now, t, l)], lengths := p.lengths + Lengths(e), canPing := false)
  }

  predicate Shown(p: Progress, queue: seq<Outgoing>, sent: seq<Outgoing>, lengths: seq<nat>, n: nat, i: nat,
                  canPing: bool) {
    p.queue == queue && p.sent == sent && p.lengths == lengths && p.n == n && p.i == i && p.canPing == canPing
  }

  predicate Offered(outcome: Outcome, i: nat, queue: seq<Outgoing>, sent: seq<Outgoing>, lengths: seq<nat>,
                    queue': seq<Outgoing>, sent': seq<Outgoing>, lengths': seq<nat>, now: time, t: time, l: time)
    requires i < |queue|
  {
    if outcome == Sent then
      && queue' == Without(queue, i) && sent' == sent + [Stamped(queue[i], now, t, l)]
      && lengths' == lengths + Lengths(queue[i])
    else queue' == queue && sent' == sent && lengths' == lengths
  }

  lemma OfferedIs(i: nat, queue: seq<Outgoing>, sent: seq<Outgoing>, lengths: seq<nat>, now: time, t: time, l: time)
    requires i < |queue|
    ensures Offered(Held, i, queue, sent, lengths, queue, sent, lengths, now, t, l)
    ensures Offered(NoRoom, i, queue, sent, lengths, queue, sent, lengths, now, t, l)
    ensures Offered(Sent, i, queue, sent, lengths, Without(queue, i), sent + [Stamped(queue[i], now, t, l)],
                    lengths + Lengths(queue[i]), now, t, l)
  {
  }

  lemma ShownIs(p: Progress, queue: seq<Outgoing>, sent: seq<Outgoing>, lengths: seq<nat>, n: nat, i: nat,
                canPing: bool)
    requires Shown(p, queue, sent, lengths, n, i, canPing)
    ensures p.queue == queue && p.i == i && p.n == n && p.sent == sent && p.lengths == lengths && p.canPing == canPing
  {
  }

  lemma SameIs(p: Progress, o: Progress)
    requires Same(p, o)
    ensures p.all == o.all && p.sent0 == o.sent0 && p.lengths0 == o.lengths0 && p.n == o.n
  {
  }

  lemma OfferedQueue(outcome: Outcome, i: nat, queue: seq<Outgoing>, sent: seq<Outgoing>, lengths: seq<nat>,
                     queue': seq<Outgoing>, sent': seq<Outgoing>, lengths': seq<nat>, now: time, t: time, l: time)
    requires i < |queue| && Offered(outcome, i, queue, sent, lengths, queue', sent', lengths', now, t, l)
    ensures queue' == if outcome == Sent then Without(queue, i) else queue
  {
  }

  lemma ShownNext(p: Progress, outcome: Outcome, queue: seq<Outgoing>, sent: seq<Outgoing>, lengths: seq<nat>,
                  queue': seq<Outgoing>, sent': seq<Outgoing>, lengths': seq<nat>,
                  n: nat, i: nat, canPing: bool, now: time, t: time, l: time)
    requires Shown(p, queue, sent, lengths, n, i, canPing) && i < |queue|
    requires Offered(outcome, i, queue, sent, lengths, queue', sent', lengths', now, t, l)
    ensures p.queue == queue && p.i == i && p.n == n
    ensures var p' := Next(p, outcome, now, t, l);
            && Shown(p', queue', sent', lengths', n, if outcome == Held then i + 1 else i, canPing && outcome == Held)
            && Same(p', p) && p'.done == p.done + (if outcome == NoRoom then 0 else 1)
            && |p'.moved| == |p.moved| + if outcome == Sent then 1 else 0
  {
    hide Without, Stamped, Lengths;
  }

  predicate Same(p: Progress, o: Progress) {
    p.all == o.all && p.sent0 == o.sent0 && p.lengths0 == o.lengths0 && p.n == o.n
  }

  predicate On(p: Progress, now: time, t: time, l: time) {
    && p.done <= |p.all| && p.i <= |p.queue| && p.queue[p.i..] == p.all[p.done..]
    && Merged(p.all[..p.done], p.queue[..p.i], p.moved)
    && p.sent == p.sent0 + AllStamped(p.moved, now, t, l) && p.lengths == p.lengths0 + AllLengths(p.moved)
    && (p.canPing ==> p.moved == [] && NoControl(p.queue[..p.i], p.n))
  }

  lemma StartHolds(queue: seq<Outgoing>, sent: seq<Outgoing>, lengths: seq<nat>, n: nat, now: time, t: time, l: time)
    ensures var p := Start(queue, sent, lengths, n);
            On(p, now, t, l) && Same(p, p) && p.done <= |p.all| && p.moved == []
  {
    assert Merged(queue[..0], queue[..0], []);
  }

  lemma Finished(p: Progress, now: time, t: time, l: time)
    requires On(p, now, t, l)
    ensures Merged(p.all, p.queue, p.moved)
    ensures p.sent == p.sent0 + AllStamped(p.moved, now, t, l) && p.lengths == p.lengths0 + AllLengths(p.moved)
    ensures p.canPing && p.i == |p.queue| ==> p.moved == [] && NoControl(p.queue, p.n)
  {
    MergedRest(p.all[..p.done], p.queue[..p.i], p.moved, p.all[p.done..]);
    Rejoined(p.all, p.done);
    Rejoined(p.queue, p.i);
    hide Merged, AllStamped, AllLengths, Control;
  }

  lemma Rejoined<T>(s: seq<T>, i: nat)
    requires i <= |s|
    ensures s[..i] + s[i..] == s && (i == |s| ==> s[..i] == s)
  {
  }

  lemma NextOf(all: seq<Outgoing>, done: nat, queue: seq<Outgoing>, i: nat)
    requires done <= |all| && i < |queue| && queue[i..] == all[done..]
    ensures done < |all| && all[done] == queue[i] && queue[i + 1..] == all[done + 1..]
    ensures all[..done] + [queue[i]] == all[..done + 1] && queue[..i] + [queue[i]] == queue[..i + 1]
  {
    assert queue[i] == queue[i..][0] == all[done..][0] == all[done];
    assert queue[i + 1..] == queue[i..][1..] == all[done..][1..] == all[done + 1..];
  }

  lemma LookedGone(p: Progress, now: time, t: time, l: time)
    requires On(p, now, t, l) && p.i < |p.queue|
    ensures On(Next(p, Sent, now, t, l), now, t, l)
  {
    hide Merged, Without, Stamped, Lengths, Control, NoControl, AllStamped, AllLengths;
    var e, queue' := p.queue[p.i], Without(p.queue, p.i);
    NextOf(p.all, p.done, p.queue, p.i);
    MergedRight(p.all[..p.done], p.queue[..p.i], p.moved, e);
    WithoutParts(p.queue, p.i);
    OneMoved(p.moved, e, now, t, l);
    assert p.sent0 + AllStamped(p.moved, now, t, l) + [Stamped(e, now, t, l)] ==
           p.sent0 + (AllStamped(p.moved, now, t, l) + [Stamped(e, now, t, l)]);
    assert p.lengths0 + AllLengths(p.moved) + Lengths(e) == p.lengths0 + (AllLengths(p.moved) + Lengths(e));
  }

  lemma WithoutParts(s: seq<Outgoing>, i: nat)
    requires i < |s|
    ensures |Without(s, i)| == |s| - 1 && Without(s, i)[..i] == s[..i] && Without(s, i)[i..] == s[i + 1..]
  {
  }

  lemma OneMoved(s: seq<Outgoing>, e: Outgoing, now: time, t: time, l: time)
    ensures AllStamped(s + [e], now, t, l) == AllStamped(s, now, t, l) + [Stamped(e, now, t, l)]
    ensures AllLengths(s + [e]) == AllLengths(s) + Lengths(e)
  {
    assert (s + [e])[..|s|] == s;
  }

  lemma LookedKept(p: Progress, now: time, t: time, l: time)
    requires On(p, now, t, l) && p.i < |p.queue|
    ensures !Control(p.queue[p.i], p.n) ==> On(Next(p, Held, now, t, l), now, t, l)
  {
    NextOf(p.all, p.done, p.queue, p.i);
    MergedLeft(p.all[..p.done], p.queue[..p.i], p.moved, p.queue[p.i]);
    hide Merged, AllStamped, AllLengths, Control;
  }

  /** Whatever becomes of the command the loop looks at, it stays on course. */
  lemma OneLooked(p: Progress, now: time, t: time, l: time)
    requires On(p, now, t, l) && p.i < |p.queue|
    ensures p.done < |p.all|
    ensures !Control(p.queue[p.i], p.n) ==> On(Next(p, Held, now, t, l), now, t, l)
    ensures On(Next(p, NoRoom, now, t, l), now, t, l) && On(Next(p, Sent, now, t, l), now, t, l)
  {
    assert On(Next(p, NoRoom, now, t, l), now, t, l) by { hide Merged, AllStamped, AllLengths, NoControl; }
    assert p.done < |p.all| by { NextOf(p.all, p.done, p.queue, p.i); }
    hide On, Control, Next;
    LookedGone(p, now, t, l);
    LookedKept(p, now, t, l);
  }

  // ----- what stays in the queue -----

  /** No room where so many bytes are left; the last test is on 16 bits. */
  predicate FullFor(left: nat, commandCount: nat, buffers: nat, e: Outgoing) {
    var size := CommandSize(e.code);
    || commandCount >= MAX_COMMANDS || buffers + 2 >= MAX_BUFFERS || left < size
    || (e.packet && left % 0x1_0000 < (size + e.length) % 0x1_0000)
  }

  /** What a command takes up in a datagram. */
  function Bytes(): Outgoing -> nat {
    (e: Outgoing) => CommandSize(e.code) + if e.packet then e.length else 0
  }

  lemma {:induction false} BytesTotal(lengths: seq<nat>, s: seq<Outgoing>)
    ensures Total(lengths + AllLengths(s)) == Total(lengths) + Sum(s, Bytes())
    decreases |s|
  {
    if s == [] {
      assert lengths + AllLengths(s) == lengths;
    } else {
      var n, e := |s| - 1, s[|s| - 1];
      BytesTotal(lengths, s[..n]);
      var before := lengths + AllLengths(s[..n]);
      assert lengths + AllLengths(s) == before + Lengths(e);
      TotalPlus(before, CommandSize(e.code));
      TotalPlus(before + [CommandSize(e.code)], e.length);
      assert e.packet ==> before + Lengths(e) == before + [CommandSize(e.code)] + [e.length];
    }
  }

  /** With nothing that opens a window, with all the data within it and room for all the commands, none stays. */
  lemma AllGo(all: seq<Outgoing>, queue: seq<Outgoing>, moved: seq<Outgoing>, looked: nat, g: Gate, inTransit0: nat,
              window: nat, mtu: nat, lengths0: seq<nat>, lengths: seq<nat>, count0: nat, count: nat)
    requires Merged(all, queue, moved) && looked <= |queue|
    requires AllWithheld(queue[..looked], g, inTransit0 + Sum(moved, PacketLength()), window)
    requires lengths == lengths0 + AllLengths(moved) && count == count0 + |moved| && |lengths| <= 2 * count
    requires HEADER + Total(lengths) <= mtu <= MAX_MTU
    requires looked < |queue| ==> FullFor(mtu - HEADER - Total(lengths), count, |lengths|, queue[looked])
    requires forall e | e in all :: !Opens(e, |g.channels|)
    requires inTransit0 + Sum(all, PacketLength()) <= window
    requires HEADER + Total(lengths0) + Sum(all, Bytes()) <= mtu && count0 + |all| <= MAX_COMMANDS
    ensures queue == [] && moved == all
  {
    hide *;
    MergedLength(all, queue, moved);
    if queue == [] {
      MergedNothing(all, moved);
    } else {
      MergedFrom(all, queue, moved);
      FrontWithin(all, queue, moved, PacketLength());
      FrontWithin(all, queue, moved, Bytes());
      BytesTotal(lengths0, moved);
      FrontNotFull(mtu - HEADER - Total(lengths), count, |lengths|, queue[0]);
      if looked > 0 { FrontHeld(queue, looked, g, inTransit0 + Sum(moved, PacketLength()), window); }
    }
  }

  /** Nothing keeps any of the queue back: no command opens a window, and everything together fits the window and the
      datagram. */
  ghost predicate AllMayGo(all: seq<Outgoing>, n: nat, inTransit: nat, window: nat, lengths: seq<nat>, count: nat,
                           mtu: nat) {
    && (forall e | e in all :: !Opens(e, n)) && inTransit + Sum(all, PacketLength()) <= window
    && HEADER + Total(lengths) + Sum(all, Bytes()) <= mtu && count + |all| <= MAX_COMMANDS
  }

  lemma AllGoIf(all: seq<Outgoing>, queue: seq<Outgoing>, moved: seq<Outgoing>, looked: nat, g: Gate, inTransit0: nat,
                window: nat, mtu: nat, lengths0: seq<nat>, lengths: seq<nat>, count0: nat, count: nat)
    requires Merged(all, queue, moved) && looked <= |queue|
    requires AllWithheld(queue[..looked], g, inTransit0 + Sum(moved, PacketLength()), window)
    requires lengths == lengths0 + AllLengths(moved) && count == count0 + |moved| && |lengths| <= 2 * count
    requires HEADER + Total(lengths) <= mtu <= MAX_MTU
    requires looked < |queue| ==> FullFor(mtu - HEADER - Total(lengths), count, |lengths|, queue[looked])
    ensures AllMayGo(all, |g.channels|, inTransit0, window, lengths0, count0, mtu) ==> queue == [] && moved == all
  {
    if AllMayGo(all, |g.channels|, inTransit0, window, lengths0, count0, mtu) {
      assert (forall e | e in all :: !Opens(e, |g.channels|)) && inTransit0 + Sum(all, PacketLength()) <= window
             && HEADER + Total(lengths0) + Sum(all, Bytes()) <= mtu && count0 + |all| <= MAX_COMMANDS;
      hide *;
      AllGo(all, queue, moved, looked, g, inTransit0, window, mtu, lengths0, lengths, count0, count);
    }
  }

  lemma FrontWithin(all: seq<Outgoing>, queue: seq<Outgoing>, moved: seq<Outgoing>, f: Outgoing -> nat)
    requires Merged(all, queue, moved) && queue != []
    ensures Sum(moved, f) + f(queue[0]) <= Sum(all, f)
  {
    SumMerged(all, queue, moved, f);
    SumMemberOf(queue, 0, f);
  }

  lemma FrontHeld(queue: seq<Outgoing>, looked: nat, g: Gate, inTransit: nat, window: nat)
    requires 0 < looked <= |queue| && AllWithheld(queue[..looked], g, inTransit, window)
    ensures Opens(queue[0], |g.channels|) || inTransit + PacketLength()(queue[0]) > window
  {
    assert Withheld(queue[..looked], 0, g, inTransit, window) && queue[..looked][0] == queue[0];
  }

  lemma FrontNotFull(left: nat, count: nat, buffers: nat, e: Outgoing)
    requires count < MAX_COMMANDS && buffers <= 2 * count && Bytes()(e) <= left <= MAX_MTU
    ensures !FullFor(left, count, buffers, e)
  {
    hide CommandSize;
  }

  lemma {:induction false} SumMemberOf(s: seq<Outgoing>, i: nat, f: Outgoing -> nat)
    requires i < |s|
    ensures f(s[i]) <= Sum(s, f)
    decreases |s|
  {
    if i < |s| - 1 { SumMemberOf(s[..|s| - 1], i, f); }
  }

  /** A command never sent that would be the first of its window. */
  predicate Opens(e: Outgoing, n: nat) {
    e.channel < n && e.attempts < 1 && e.number % WINDOW_SIZE == 0
  }

  /** The channels, and the masks of wrapMasks. */
  datatype Gate = Gate(channels: seq<InUse>, masks: seq<bv16>)

  /** It is held back: the window before is full, or its own or one of the seven that follow is in use, or the last
      mask meets one that is. */
  predicate Blocked(e: Outgoing, g: Gate) {
    Opens(e, |g.channels|) &&
    var c, w := g.channels[e.channel], e.number / WINDOW_SIZE;
    |c.counts| == WINDOWS && w < WINDOWS && (!OpensSafely(c, w) || (w < |g.masks| && Has(c.used, g.masks[w])))
  }

  /** Windows are opened, none is closed: what was blocked still is. */
  ghost predicate Grown(g: Gate, g': Gate) {
    |g'.channels| == |g.channels| && forall e: Outgoing {:trigger Blocked(e, g')} :: Blocked(e, g) ==> Blocked(e, g')
  }

  ghost predicate GoneThrough(outcome: Outcome, g: Gate, g': Gate) {
    if outcome == Sent then Grown(g, g') else g' == g
  }

  lemma SameGrown(g: Gate)
    ensures Grown(g, g)
  {
  }

  lemma WithMore(used: bv16, m: bv16, x: bv16)
    requires Has(used, x)
    ensures Has(With(used, m), x)
  {
  }

  /** A command noted in its window. */
  lemma NotedGrown(channels: seq<InUse>, e: Outgoing, masks: seq<bv16>)
    requires e.number < WINDOWS * WINDOW_SIZE
    requires e.channel < |channels| ==> |channels[e.channel].counts| == WINDOWS
    ensures Grown(Gate(channels, masks), Gate(Noted(channels, e), masks))
  {
    var g, g' := Gate(channels, masks), Gate(Noted(channels, e), masks);
    forall x: Outgoing | Blocked(x, g) ensures Blocked(x, g') { NotedBlocked(channels, e, masks, x); }
    hide Blocked;
  }

  lemma NotedBlocked(channels: seq<InUse>, e: Outgoing, masks: seq<bv16>, x: Outgoing)
    requires e.number < WINDOWS * WINDOW_SIZE
    requires e.channel < |channels| ==> |channels[e.channel].counts| == WINDOWS
    requires Blocked(x, Gate(channels, masks))
    ensures Blocked(x, Gate(Noted(channels, e), masks))
  {
    hide Has, With, WindowBit;
    var c, w := channels[x.channel], x.number / WINDOW_SIZE;
    var c' := Noted(channels, e)[x.channel];
    if c' != c {
      var m := WindowBit(e.number / WINDOW_SIZE);
      if w < |masks| && Has(c.used, masks[w]) {
        WithMore(c.used, m, masks[w]);
      } else if c.counts[(w + WINDOWS - 1) % WINDOWS] < WINDOW_SIZE {
        var v :| w <= v < WINDOWS && v < w + FREE_WINDOWS && HasBit(c.used, v);
        WithMore(c.used, m, WindowBit(v));
        assert HasBit(c'.used, v);
      }
    }
  }

  /** Its data would go past what may be in flight. */
  predicate Exceeds(e: Outgoing, inTransit: nat, window: nat) {
    e.packet && inTransit + e.length > window
  }

  /** Command i is one for a channel, and it or one before it may not open its window, or it has a packet, and its data
      or those of a packet before it would go past the window. */
  predicate Withheld(s: seq<Outgoing>, i: nat, g: Gate, inTransit: nat, window: nat)
    requires i < |s|
  {
    || (s[i].channel < |g.channels| && exists j :: 0 <= j <= i && Blocked(s[j], g))
    || (s[i].packet && exists j :: 0 <= j <= i && Exceeds(s[j], inTransit, window))
  }

  predicate AllWithheld(s: seq<Outgoing>, g: Gate, inTransit: nat, window: nat) {
    forall i | 0 <= i < |s| :: Withheld(s, i, g, inTransit, window)
  }

  /** Where the flags windowWrap and windowExceeded come from, and what they have kept back. */
  predicate HeldSo(queue: seq<Outgoing>, i: nat, g: Gate, inTransit: nat, window: nat, wrap: bool, exceeded: bool) {
    && i <= |queue| && AllWithheld(queue[..i], g, inTransit, window)
    && (wrap ==> exists j :: 0 <= j < i && Blocked(queue[j], g))
    && (exceeded ==> exists j :: 0 <= j < i && Exceeds(queue[j], inTransit, window))
  }

  lemma SumNone<T>(f: T -> nat)
    ensures Sum([], f) == 0
  {
  }

  lemma HeldAll(queue: seq<Outgoing>, i: nat, g: Gate, inTransit: nat, window: nat, wrap: bool, exceeded: bool)
    requires HeldSo(queue, i, g, inTransit, window, wrap, exceeded)
    ensures i <= |queue| && AllWithheld(queue[..i], g, inTransit, window)
  {
  }

  lemma NothingHeld(queue: seq<Outgoing>, g: Gate, inTransit: nat, window: nat)
    ensures HeldSo(queue, 0, g, inTransit, window, false, false)
  {
  }

  lemma HeldMore(queue: seq<Outgoing>, i: nat, g: Gate, inTransit: nat, window: nat, wrap: bool, exceeded: bool,
                 wrap': bool, exceeded': bool)
    requires HeldSo(queue, i, g, inTransit, window, wrap, exceeded) && i < |queue|
    requires (queue[i].channel < |g.channels| && wrap') || (queue[i].packet && exceeded')
    requires wrap' ==> wrap || Blocked(queue[i], g)
    requires exceeded' ==> exceeded || Exceeds(queue[i], inTransit, window)
    ensures HeldSo(queue, i + 1, g, inTransit, window, wrap', exceeded')
  {
    var s, s' := queue[..i], queue[..i + 1];
    SameGrown(g);
    hide Blocked, Grown;
    assert wrap' ==> exists j :: 0 <= j <= i && Blocked(s'[j], g) by {
      if wrap { var j :| 0 <= j < i && Blocked(queue[j], g); assert Blocked(s'[j], g); }
      if wrap' && !wrap { assert Blocked(s'[i], g); }
    }
    assert exceeded' ==> exists j :: 0 <= j <= i && Exceeds(s'[j], inTransit, window) by {
      if exceeded {
        var j :| 0 <= j < i && Exceeds(queue[j], inTransit, window);
        assert Exceeds(s'[j], inTransit, window);
      }
      if exceeded' && !exceeded { assert Exceeds(s'[i], inTransit, window); }
    }
    forall k | 0 <= k < i + 1 ensures Withheld(s', k, g, inTransit, window) {
      if k < i { WithheldLonger(s, s', k, g, g, inTransit, inTransit, window); }
    }
    if wrap' { var j :| 0 <= j <= i && Blocked(s'[j], g); assert Blocked(queue[j], g); }
    if exceeded' {
      var j :| 0 <= j <= i && Exceeds(s'[j], inTransit, window);
      assert Exceeds(queue[j], inTransit, window);
    }
  }

  /** What is held stays so in a longer queue, with more in flight and windows opened. */
  lemma WithheldLonger(s: seq<Outgoing>, s': seq<Outgoing>, k: nat, g: Gate, g': Gate, inTransit: nat, inTransit': nat,
                       window: nat)
    requires k < |s| <= |s'| && inTransit <= inTransit' && Withheld(s, k, g, inTransit, window) && Grown(g, g')
    requires forall j | 0 <= j <= k :: s'[j] == s[j]
    ensures Withheld(s', k, g', inTransit', window)
  {
    hide Blocked;
    if j :| 0 <= j <= k && Blocked(s[j], g) { assert Blocked(s'[j], g'); }
    if j :| 0 <= j <= k && Exceeds(s[j], inTransit, window) { assert Exceeds(s'[j], inTransit', window); }
  }

  lemma HeldStill(queue: seq<Outgoing>, queue': seq<Outgoing>, i: nat, g: Gate, g': Gate, inTransit: nat,
                  inTransit': nat, window: nat, wrap: bool, exceeded: bool)
    requires HeldSo(queue, i, g, inTransit, window, wrap, exceeded) && inTransit <= inTransit' && Grown(g, g')
    requires i <= |queue'| && queue'[..i] == queue[..i]
    ensures HeldSo(queue', i, g', inTransit', window, wrap, exceeded)
  {
    hide Blocked;
    var s := queue[..i];
    forall k | 0 <= k < i ensures Withheld(s, k, g', inTransit', window) {
      WithheldLonger(s, s, k, g, g', inTransit, inTransit', window);
    }
    assert forall j | 0 <= j < i :: queue'[j] == s[j] == queue[j];
    if wrap { var j :| 0 <= j < i && Blocked(queue[j], g); assert Blocked(queue'[j], g'); }
    if exceeded {
      var j :| 0 <= j < i && Exceeds(queue[j], inTransit, window);
      assert Exceeds(queue'[j], inTransit', window);
    }
  }

  /** After one round of the loop. */
  lemma HeldNext(queue: seq<Outgoing>, queue': seq<Outgoing>, i: nat, outcome: Outcome, g: Gate, g': Gate,
                 inTransit: nat, inTransit': nat, window: nat, wrap: bool, exceeded: bool, wrap': bool,
                 exceeded': bool)
    requires HeldSo(queue, i, g, inTransit, window, wrap, exceeded) && i < |queue| && inTransit <= inTransit'
    requires if outcome == Sent then queue' == Without(queue, i) else queue' == queue && inTransit' == inTransit
    requires GoneThrough(outcome, g, g')
    requires outcome == Held ==> (queue[i].channel < |g.channels| && wrap') || (queue[i].packet && exceeded')
    requires wrap' ==> wrap || (outcome == Held && Blocked(queue[i], g))
    requires exceeded' ==> exceeded || (outcome == Held && Exceeds(queue[i], inTransit, window))
    ensures HeldSo(queue', if outcome == Held then i + 1 else i, g', inTransit', window, wrap', exceeded')
  {
    hide Blocked, AllWithheld, Exceeds;
    SameGrown(g);
    if outcome == Held {
      HeldMore(queue, i, g, inTransit, window, wrap, exceeded, wrap', exceeded');
    } else {
      HeldStill(queue, queue', i, g, g', inTransit, inTransit', window, wrap, exceeded);
    }
  }

  /** What has become of the data in flight. */
  lemma MovedMore(p: Progress, outcome: Outcome, now: time, t: time, l: time)
    requires p.i < |p.queue|
    ensures Sum(Next(p, outcome, now, t, l).moved, PacketLength()) ==
            Sum(p.moved, PacketLength()) + if outcome == Sent then PacketLength()(p.queue[p.i]) else 0
  {
    SumMore(p.moved, p.queue[p.i], PacketLength());
    hide Sum, Stamped, Lengths, PacketLength;
  }

  /** What a command, e, does to the counts. */
  predicate Tells(outcome: Outcome, e: Outgoing, c: Counts, c': Counts, window: nat, mtu: nat) {
    && c'.commands == c.commands + (if outcome == Sent then 1 else 0) && c'.size <= mtu
    && (if outcome == NoRoom then c'.going && c'.commands > 0 else c'.going == c.going)
    && c'.inTransit == c.inTransit + (if outcome == Sent then PacketLength()(e) else 0)
    && (c'.inTransit == c.inTransit || c'.inTransit <= window)
  }

  /** What one round does. */
  predicate Went(outcome: Outcome, p: Progress, p': Progress, c: Counts, c': Counts, window: nat, mtu: nat)
    requires p.i < |p.queue|
  {
    && Same(p', p) && p.done < |p.all| && p'.done == p.done + (if outcome == NoRoom then 0 else 1)
    && |p'.moved| == |p.moved| + (if outcome == Sent then 1 else 0)
    && Sum(p'.moved, PacketLength()) ==
       Sum(p.moved, PacketLength()) + (if outcome == Sent then PacketLength()(p.queue[p.i]) else 0)
    && Tells(outcome, p.queue[p.i], c, c', window, mtu)
  }

  /** What all of them have done since b; room tells that none has come to a command that finds no room. */
  predicate TalliedAs(b: Begun, p: Progress, c: Counts, window: nat, mtu: nat, canPing: bool, room: bool) {
    && Same(p, b.start) && c.commands == b.count + |p.moved| && c.size <= mtu
    && (c.inTransit <= b.inTransit || c.inTransit <= window)
    && c.inTransit == b.inTransit + Sum(p.moved, PacketLength())
    && (!canPing ==> p.moved != [] || !room) && (canPing ==> room)
    && if room then c.going == b.continueSending else c.going && c.commands > 0
  }

  lemma StillTallied(b: Begun, p: Progress, p': Progress, outcome: Outcome, c: Counts, c': Counts, window: nat,
                     mtu: nat, canPing: bool)
    requires TalliedAs(b, p, c, window, mtu, canPing, true) && p.i < |p.queue|
    requires Went(outcome, p, p', c, c', window, mtu)
    ensures TalliedAs(b, p', c', window, mtu, canPing && outcome == Held, outcome != NoRoom)
    ensures |p'.all| == |p.all| && p.done < |p.all| && p'.done == p.done + if outcome == NoRoom then 0 else 1
  {
    hide Sum, PacketLength;
  }

  lemma ItWent(outcome: Outcome, p: Progress, p': Progress, c: Counts, c': Counts, window: nat, mtu: nat)
    requires p.i < |p.queue| && Tells(outcome, p.queue[p.i], c, c', window, mtu)
    requires Same(p', p) && p.done < |p.all| && p'.done == p.done + (if outcome == NoRoom then 0 else 1)
    requires |p'.moved| == |p.moved| + (if outcome == Sent then 1 else 0)
    requires Sum(p'.moved, PacketLength()) ==
             Sum(p.moved, PacketLength()) + if outcome == Sent then PacketLength()(p.queue[p.i]) else 0
    ensures Went(outcome, p, p', c, c', window, mtu)
  {
    hide Sum, PacketLength, Tells, Same;
  }

  lemma OneStep(p: Progress, outcome: Outcome, queue: seq<Outgoing>, sent: seq<Outgoing>, lengths: seq<nat>,
                queue': seq<Outgoing>, sent': seq<Outgoing>, lengths': seq<nat>, n: nat, i: nat, canPing: bool,
                now: time, t: time, l: time, c: Counts, c': Counts, window: nat, mtu: nat)
    requires Shown(p, queue, sent, lengths, n, i, canPing) && i < |queue| && On(p, now, t, l)
    requires Offered(outcome, i, queue, sent, lengths, queue', sent', lengths', now, t, l)
    requires (outcome == Held ==> !Control(queue[i], n)) && Tells(outcome, queue[i], c, c', window, mtu)
    ensures p.queue == queue && p.i == i
    ensures var p' := Next(p, outcome, now, t, l);
            && On(p', now, t, l) && Went(outcome, p, p', c, c', window, mtu)
            && Shown(p', queue', sent', lengths', n, if outcome == Held then i + 1 else i, canPing && outcome == Held)
  {
    ShownNext(p, outcome, queue, sent, lengths, queue', sent', lengths', n, i, canPing, now, t, l);
    hide *;
    OneLooked(p, now, t, l);
    MovedMore(p, outcome, now, t, l);
    ItWent(outcome, p, Next(p, outcome, now, t, l), c, c', window, mtu);
  }

  // ----- windows about to be opened -----

  function FreeMask(w: nat): bv16
    requires w < WINDOWS
  {
    0xFF << w
  }

  lemma MaskCovers(used: bv16, w: nat, v: nat)
    requires w <= v < WINDOWS && v < w + FREE_WINDOWS && !Has(used, FreeMask(w))
    ensures !HasBit(used, v)
  {
  }

  function HalfMask(w: nat): bv16
    requires w < WINDOWS
  {
    0xF << w
  }

  lemma MaskHalves(used: bv16, w: nat)
    requires w < WINDOWS && Has(used, FreeMask(w))
    ensures Has(used, HalfMask(w)) || (w + 4 < WINDOWS && Has(used, HalfMask(w + 4)))
  {
  }

  function PairMask(w: nat): bv16
    requires w < WINDOWS
  {
    3 << w
  }

  lemma HalfPairs(used: bv16, w: nat)
    requires w < WINDOWS && Has(used, HalfMask(w))
    ensures Has(used, PairMask(w)) || (w + 2 < WINDOWS && Has(used, PairMask(w + 2)))
  {
  }

  lemma PairMeets(used: bv16, w: nat)
    requires w < WINDOWS && Has(used, PairMask(w))
    ensures HasBit(used, w) || (w + 1 < WINDOWS && HasBit(used, w + 1))
  {
  }

  lemma HalfMeets(used: bv16, w: nat)
    requires w < WINDOWS && Has(used, HalfMask(w))
    ensures exists v | w <= v < WINDOWS && v < w + 4 :: HasBit(used, v)
  {
    hide *;
    HalfPairs(used, w);
    if Has(used, PairMask(w)) { PairMeets(used, w); } else { PairMeets(used, w + 2); }
  }

  lemma MaskMeans(used: bv16, w: nat)
    requires w < WINDOWS
    ensures Has(used, FreeMask(w)) <==> exists v | w <= v < WINDOWS && v < w + FREE_WINDOWS :: HasBit(used, v)
  {
    hide Has, FreeMask, HalfMask, HasBit;
    if Has(used, FreeMask(w)) {
      MaskHalves(used, w);
      if Has(used, HalfMask(w)) { HalfMeets(used, w); } else { HalfMeets(used, w + 4); }
    } else {
      forall v | w <= v < WINDOWS && v < w + FREE_WINDOWS ensures !HasBit(used, v) { MaskCovers(used, w, v); }
    }
  }

  /** The window before is not full, and the next free ones, as far as they go, are not in use. */
  predicate OpensSafely(c: InUse, w: nat)
    requires |c.counts| == WINDOWS && w < WINDOWS
  {
    && c.counts[(w + WINDOWS - 1) % WINDOWS] < WINDOW_SIZE
    && forall v | w <= v < WINDOWS && v < w + FREE_WINDOWS :: !HasBit(c.used, v)
  }

  // ----- acknowledgements -----

  predicate Ends(acknowledgements: seq<Acknowledgement>) {
    exists a :: a in acknowledgements && a.disconnect
  }

  lemma NoEnds(acknowledgements: seq<Acknowledgement>)
    ensures !Ends(acknowledgements[..0])
  {
  }

  lemma OneEnds(acknowledgements: seq<Acknowledgement>, n: nat)
    requires n < |acknowledgements|
    ensures Ends(acknowledgements[..n + 1]) <==> Ends(acknowledgements[..n]) || acknowledgements[n].disconnect
  {
    assert acknowledgements[..n + 1] == acknowledgements[..n] + [acknowledgements[n]];
  }

  function Repeated(size: nat, n: nat): seq<nat> {
    seq(n, _ => size)
  }

  lemma NoneRepeated(lengths: seq<nat>, size: nat)
    ensures lengths + Repeated(size, 0) == lengths
  {
  }

  lemma RepeatedMore(lengths: seq<nat>, size: nat, n: nat)
    ensures lengths + Repeated(size, n) + [size] == lengths + Repeated(size, n + 1)
  {
  }

  lemma TotalNone()
    ensures Total([]) == 0
  {
  }

  // ----- unreliable commands -----

  function LooseLengths(e: Loose): seq<nat> {
    if e.packet then [CommandSize(e.code), e.length] else [CommandSize(e.code)]
  }

  predicate LooseFits(mtu: nat, e: Loose) {
    HEADER + Total(LooseLengths(e)) <= mtu
  }

  predicate AllLooseFit(mtu: nat, s: seq<Loose>) {
    forall i | 0 <= i < |s| :: LooseFits(mtu, s[i])
  }

  function AllLooseLengths(s: seq<Loose>): seq<nat> {
    if s == [] then [] else AllLooseLengths(s[..|s| - 1]) + LooseLengths(s[|s| - 1])
  }

  function WithPacket(s: seq<Loose>): seq<Loose> {
    if s == [] then [] else WithPacket(s[..|s| - 1]) + if s[|s| - 1].packet then [s[|s| - 1]] else []
  }

  /** The end of the run of commands named like the first, searched from k on. */
  function PacketEnd(s: seq<Loose>, k: nat): (n: nat)
    requires 0 < k <= |s|
    ensures k <= n <= |s|
    ensures forall i | k <= i < n :: s[i].number == s[0].number && s[i].unreliable == s[0].unreliable
    ensures n < |s| ==> s[n].number != s[0].number || s[n].unreliable != s[0].unreliable
    decreases |s| - k
  {
    if k == |s| || s[k].number != s[0].number || s[k].unreliable != s[0].unreliable then k else PacketEnd(s, k + 1)
  }

  /** What the throttle makes of a queue: the commands sent, those dropped, and the counter afterwards. */
  datatype Sifted = Sifted(moved: seq<Loose>, dropped: seq<Loose>, counter: nat)

  function Sift(s: seq<Loose>, counter: nat, throttle: nat): (r: Sifted)
    ensures |r.moved| + |r.dropped| == |s|
    decreases |s|
  {
    if s == [] then Sifted([], [], counter)
    else if Drops(s[0], counter, throttle) then
      var k := PacketEnd(s, 1);
      var r := Sift(s[k..], CounterAfter(s[0], counter), throttle);
      r.(dropped := s[..k] + r.dropped)
    else
      var r := Sift(s[1..], CounterAfter(s[0], counter), throttle);
      r.(moved := [s[0]] + r.moved)
  }

  /** packetThrottleCounter moves on with the first command of each packet. */
  function CounterAfter(e: Loose, counter: nat): nat {
    if e.packet && e.offset == 0 then (counter + THROTTLE_COUNTER) % THROTTLE_SCALE else counter
  }

  predicate Drops(e: Loose, counter: nat, throttle: nat) {
    e.packet && e.offset == 0 && CounterAfter(e, counter) > throttle
  }

  /** Some of it now and the rest later. */
  function Later(moved: seq<Loose>, dropped: seq<Loose>, rest: Sifted): Sifted {
    Sifted(moved + rest.moved, dropped + rest.dropped, rest.counter)
  }

  predicate SameNumbers(e: Loose, f: Loose) {
    e.number == f.number && e.unreliable == f.unreliable
  }

  /** A packet that is dropped, its commands being the first m, takes the next packet along exactly if that has
      the same numbers. */
  lemma TakesAlong(s: seq<Loose>, m: nat)
    requires 0 < m <= |s| && forall i | 0 < i < m :: SameNumbers(s[i], s[0])
    ensures PacketEnd(s, 1) >= m
    ensures PacketEnd(s, 1) > m <==> m < |s| && SameNumbers(s[m], s[0])
  {
  }

  /** Unsequenced packets all have the numbers 0 and 0: one that is dropped takes all that follow it along.  The
      concrete case: the second would have been sent. */
  lemma UnsequencedGoTogether(s: seq<Loose>)
    requires s != [] && forall i | 0 <= i < |s| :: s[i].number == 0 && s[i].unreliable == 0
    ensures PacketEnd(s, 1) == |s|
    ensures var e := Loose(SEND_UNSEQUENCED, true, 0, 10, 0, 0);
            && Sift([e, e], 20, 6) == Sifted([], [e, e], 27)
            && Sift([e], CounterAfter(e, 20), 6) == Sifted([e], [], 2)
  {
    var e := Loose(SEND_UNSEQUENCED, true, 0, 10, 0, 0);
    var two := [e, e];
    assert PacketEnd(two, 1) == 2 && Drops(e, 20, 6) && !Drops(e, 27, 6) && CounterAfter(e, 20) == 27;
    assert CounterAfter(e, 27) == 2;
    hide PacketEnd, Drops, CounterAfter;
    assert two[2..] == [] && two[..2] == two && [e][1..] == [];
    assert Sift([], 27, 6) == Sifted([], [], 27) && Sift([], 2, 6) == Sifted([], [], 2);
  }

  /** Packets of one command each, of which no two in a row have the same numbers. */
  predicate Spread(s: seq<Loose>) {
    && (forall i | 0 <= i < |s| :: s[i].packet && s[i].offset == 0)
    && forall i | 0 < i < |s| :: !SameNumbers(s[i], s[i - 1])
  }

  /** Of as many of them in a row as there are steps on the throttle's scale, the throttle lets through one more than
      it stands at, wherever the counter is. */
  lemma ThrottleLetsThrough(s: seq<Loose>, counter: nat, throttle: nat)
    requires Spread(s) && |s| == THROTTLE_SCALE
    ensures |Sift(s, counter, throttle).moved| == if throttle < THROTTLE_SCALE then throttle + 1 else THROTTLE_SCALE
  {
    SiftSpread(s, counter, throttle);
    PassedAll(counter, throttle);
  }

  /** How often the counter stands at v in n steps. */
  function Stands(n: nat, counter: nat, v: nat): nat {
    if n == 0 then 0
    else
      var c := (counter + THROTTLE_COUNTER) % THROTTLE_SCALE;
      (if c == v then 1 else 0) + Stands(n - 1, c, v)
  }

  /** And how often at no more than throttle. */
  function Passed(n: nat, counter: nat, throttle: nat): nat {
    if n == 0 then 0
    else
      var c := (counter + THROTTLE_COUNTER) % THROTTLE_SCALE;
      (if c <= throttle then 1 else 0) + Passed(n - 1, c, throttle)
  }

  lemma {:induction false} SiftSpread(s: seq<Loose>, counter: nat, throttle: nat)
    requires Spread(s)
    ensures |Sift(s, counter, throttle).moved| == Passed(|s|, counter, throttle)
    decreases |s|
  {
    if s != [] {
      assert |s| > 1 ==> !SameNumbers(s[1], s[0]);
      assert PacketEnd(s, 1) == 1;
      assert Spread(s[1..]) by {
        forall i | 0 < i < |s[1..]| ensures !SameNumbers(s[1..][i], s[1..][i - 1]) {
          assert !SameNumbers(s[i + 1], s[i]);
        }
      }
      SiftSpread(s[1..], CounterAfter(s[0], counter), throttle);
    }
  }

  /** The step from which the counter stands at v: 23 is the inverse of the step of 7 on a scale of 32. */
  function StepOf(counter: nat, v: nat): nat {
    ((v + 32 - counter % 32) * 23 + 31) % 32 + 1
  }

  /** In a round of the scale it stands at each value once. */
  lemma {:induction false} StandsOnce(n: nat, counter: nat, v: nat)
    requires n <= THROTTLE_SCALE && v < THROTTLE_SCALE
    ensures Stands(n, counter, v) == if StepOf(counter, v) <= n then 1 else 0
  {
    if n > 0 {
      var c := (counter + THROTTLE_COUNTER) % THROTTLE_SCALE;
      StandsOnce(n - 1, c, v);
      StepBefore(counter, v);
      hide StepOf;
    }
  }

  lemma StepBefore(counter: nat, v: nat)
    requires v < 32
    ensures var c := (counter + 7) % 32;
            && (c == v <==> StepOf(counter, v) == 1)
            && StepOf(c, v) == if StepOf(counter, v) == 1 then 32 else StepOf(counter, v) - 1
  {
    var a, c := counter % 32, (counter + 7) % 32;
    StepShort(a, v, c);
  }

  lemma StepShort(a: nat, v: nat, c: nat)
    requires a < 32 && v < 32 && c < 32 && (c == a + 7 || c == a - 25)
    ensures var x, y := ((v + 32 - a) * 23 + 31) % 32, ((v + 32 - c) * 23 + 31) % 32;
            (c == v <==> x == 0) && y == if x == 0 then 31 else x - 1
  {
    var x, y := (v + 32 - a) * 23 + 31, (v + 32 - c) * 23 + 31;
    var q, r := x / 32, x % 32;
    var k := if c == a + 7 then q - 5 else q + 18;
    assert y == 32 * k + r - 1;
    if r > 0 { Remainder(y, k, r - 1); } else { Remainder(y, k - 1, 31); }
    if c == v { Remainder(x, if c == a + 7 then 29 else 6, 0); }
    if r == 0 { Cancels(v + 32 - c, k - 1); }
  }

  lemma Cancels(d: int, k: int)
    requires 0 < d < 64 && 23 * d == 32 * k
    ensures d == 32
  {
    assert d == 32 * (7 * k - 5 * d);
  }

  lemma Remainder(x: int, q: int, r: int)
    requires x == 32 * q + r && 0 <= r < 32
    ensures x % 32 == r
  {
  }

  lemma {:induction false} PassedSplit(n: nat, counter: nat, throttle: nat)
    ensures Passed(n, counter, throttle) ==
            Stands(n, counter, throttle) + if throttle == 0 then 0 else Passed(n, counter, throttle - 1)
  {
    if n > 0 { PassedSplit(n - 1, (counter + THROTTLE_COUNTER) % THROTTLE_SCALE, throttle); }
  }

  lemma {:induction false} NoneBeyond(n: nat, counter: nat, v: nat)
    requires v >= THROTTLE_SCALE
    ensures Stands(n, counter, v) == 0
  {
    if n > 0 { NoneBeyond(n - 1, (counter + THROTTLE_COUNTER) % THROTTLE_SCALE, v); }
  }

  lemma {:induction false} PassedAll(counter: nat, throttle: nat)
    ensures Passed(THROTTLE_SCALE, counter, throttle) ==
            if throttle < THROTTLE_SCALE then throttle + 1 else THROTTLE_SCALE
  {
    hide Passed, Stands, StepOf;
    PassedSplit(THROTTLE_SCALE, counter, throttle);
    if throttle < THROTTLE_SCALE {
      StandsOnce(THROTTLE_SCALE, counter, throttle);
      StepOfBound(counter, throttle);
    } else {
      NoneBeyond(THROTTLE_SCALE, counter, throttle);
    }
    if throttle > 0 { PassedAll(counter, throttle - 1); }
  }

  lemma StepOfBound(counter: nat, v: nat)
    ensures StepOf(counter, v) <= THROTTLE_SCALE
  {
  }

  lemma LooseLengthsTotal(e: Loose)
    ensures Total(LooseLengths(e)) == CommandSize(e.code) + if e.packet then e.length else 0
  {
    LengthsTotal(Outgoing(0, 0, e.code, e.packet, e.length, 0, 0, 0, 0));
  }

  predicate LooseOn(all: seq<Loose>, queue: seq<Loose>, gone: seq<Loose>, dropped: seq<Loose>, moved: seq<Loose>,
                    sent0: seq<Loose>, sent: seq<Loose>, lengths0: seq<nat>, lengths: seq<nat>) {
    && all == gone + queue && Merged(gone, dropped, moved)
    && sent == sent0 + WithPacket(moved) && lengths == lengths0 + AllLooseLengths(moved)
  }

  lemma LooseMoved(all: seq<Loose>, queue: seq<Loose>, gone: seq<Loose>, dropped: seq<Loose>, moved: seq<Loose>,
                   sent0: seq<Loose>, sent: seq<Loose>, lengths0: seq<nat>, lengths: seq<nat>)
    requires LooseOn(all, queue, gone, dropped, moved, sent0, sent, lengths0, lengths) && queue != []
    ensures LooseOn(all, queue[1..], gone + [queue[0]], dropped, moved + [queue[0]],
                    sent0, sent + WithPacket([queue[0]]), lengths0, lengths + LooseLengths(queue[0]))
  {
    MergedRight(gone, dropped, moved, queue[0]);
    hide Merged, WithPacket, AllLooseLengths, LooseLengths;
    assert gone + queue == gone + [queue[0]] + queue[1..];
  }

  lemma LooseDropped(all: seq<Loose>, queue: seq<Loose>, gone: seq<Loose>, dropped: seq<Loose>, moved: seq<Loose>,
                     sent0: seq<Loose>, sent: seq<Loose>, lengths0: seq<nat>, lengths: seq<nat>, k: nat)
    requires LooseOn(all, queue, gone, dropped, moved, sent0, sent, lengths0, lengths) && k <= |queue|
    ensures LooseOn(all, queue[k..], gone + queue[..k], dropped + queue[..k], moved, sent0, sent + [], lengths0,
                    lengths + [])
  {
    MergedRest(gone, dropped, moved, queue[..k]);
    hide Merged, WithPacket, AllLooseLengths;
    assert gone + queue == gone + queue[..k] + queue[k..];
    assert sent + [] == sent && lengths + [] == lengths;
  }

  /** moved and dropped are what the throttle has made of the commands before queue. */
  predicate Sifting(all: seq<Loose>, counter0: nat, throttle: nat, queue: seq<Loose>, counter: nat,
                    moved: seq<Loose>, dropped: seq<Loose>) {
    Sift(all, counter0, throttle) == Later(moved, dropped, Sift(queue, counter, throttle))
  }

  lemma SiftStep(all: seq<Loose>, counter0: nat, throttle: nat, queue: seq<Loose>, counter: nat,
                 moved: seq<Loose>, dropped: seq<Loose>)
    requires Sifting(all, counter0, throttle, queue, counter, moved, dropped) && queue != []
    ensures var k, c := PacketEnd(queue, 1), CounterAfter(queue[0], counter);
            if Drops(queue[0], counter, throttle) then
              Sifting(all, counter0, throttle, queue[k..], c, moved, dropped + queue[..k])
            else Sifting(all, counter0, throttle, queue[1..], c, moved + [queue[0]], dropped)
  {
    var k, c := PacketEnd(queue, 1), CounterAfter(queue[0], counter);
    if Drops(queue[0], counter, throttle) {
      assert dropped + (queue[..k] + Sift(queue[k..], c, throttle).dropped) ==
             dropped + queue[..k] + Sift(queue[k..], c, throttle).dropped;
    } else {
      assert moved + ([queue[0]] + Sift(queue[1..], c, throttle).moved) ==
             moved + [queue[0]] + Sift(queue[1..], c, throttle).moved;
    }
    hide PacketEnd, Drops, CounterAfter;
  }

  /** What SendUnreliableOutgoing starts from, and what it has taken from the queue. */
  datatype Before = Before(queue: seq<Loose>, sent: seq<Loose>, lengths: seq<nat>, counter: nat, throttle: nat)

  datatype Parts = Parts(gone: seq<Loose>, dropped: seq<Loose>, moved: seq<Loose>)

  predicate LooseAt(b: Before, p: Parts, queue: seq<Loose>, sent: seq<Loose>, lengths: seq<nat>, counter: nat) {
    && LooseOn(b.queue, queue, p.gone, p.dropped, p.moved, b.sent, sent, b.lengths, lengths)
    && Sifting(b.queue, b.counter, b.throttle, queue, counter, p.moved, p.dropped)
  }

  lemma LooseWhole(b: Before)
    ensures LooseAt(b, Parts([], [], []), b.queue, b.sent, b.lengths, b.counter)
  {
    hide Sift;
  }

  lemma LooseAll(b: Before, p: Parts, queue: seq<Loose>, sent: seq<Loose>, lengths: seq<nat>, counter: nat)
    requires LooseAt(b, p, queue, sent, lengths, counter)
    ensures b.queue == p.gone + queue && Merged(p.gone, p.dropped, p.moved)
    ensures sent == b.sent + WithPacket(p.moved) && lengths == b.lengths + AllLooseLengths(p.moved)
    ensures Sift(b.queue, b.counter, b.throttle) == Later(p.moved, p.dropped, Sift(queue, counter, b.throttle))
  {
    hide Sift, Later;
  }

  lemma LooseNext(mtu: nat, b: Before, p: Parts, queue: seq<Loose>, sent: seq<Loose>, lengths: seq<nat>, counter: nat)
    requires LooseAt(b, p, queue, sent, lengths, counter) && queue != [] && AllLooseFit(mtu, queue)
    ensures var k, c := PacketEnd(queue, 1), CounterAfter(queue[0], counter);
            if Drops(queue[0], counter, b.throttle) then
              && LooseAt(b, Parts(p.gone + queue[..k], p.dropped + queue[..k], p.moved), queue[k..], sent + [],
                         lengths + [], c)
              && AllLooseFit(mtu, queue[k..])
            else
              && LooseAt(b, Parts(p.gone + [queue[0]], p.dropped, p.moved + [queue[0]]), queue[1..],
                         sent + WithPacket([queue[0]]), lengths + LooseLengths(queue[0]), c)
              && AllLooseFit(mtu, queue[1..])
    ensures sent + [] == sent && lengths + [] == lengths && LooseFits(mtu, queue[0])
  {
    LooseMoved(b.queue, queue, p.gone, p.dropped, p.moved, b.sent, sent, b.lengths, lengths);
    LooseDropped(b.queue, queue, p.gone, p.dropped, p.moved, b.sent, sent, b.lengths, lengths, PacketEnd(queue, 1));
    SiftStep(b.queue, b.counter, b.throttle, queue, counter, p.moved, p.dropped);
    hide LooseOn, Sifting, LooseFits, PacketEnd, Drops, CounterAfter;
  }

  // ----- turns -----

  /** What a peer needs of its queues for its datagrams to fit and its timeouts to pass. */
  predicate Sound(mtu: nat, queue: seq<Outgoing>, sent: seq<Outgoing>, loose: seq<Loose>, n: nat, timeout: time) {
    && HEADER + 48 <= mtu <= MAX_MTU && n <= MAX_CHANNELS && timeout > 0
    && AllFit(mtu, queue) && AllFit(mtu, sent) && AllTimed(sent) && AllLooseFit(mtu, loose)
  }

  predicate AllTimed(s: seq<Outgoing>) {
    forall i | 0 <= i < |s| :: s[i].timeout > 0
  }

  function ControlCommand(code: nat, number: nat): Outgoing {
    Outgoing(NO_CHANNEL, number, code, false, 0, 0, 0, 0, 0)
  }

  function Older(now: time): Outgoing -> nat {
    (e: Outgoing) => if e.sentTime != now then 1 else 0
  }

  /** A connected peer with nothing sent at this time may still have a ping to send, and a peer to be
      disconnected later the disconnect. */
  predicate Owes(state: PeerState, queue: seq<Outgoing>, sent: seq<Outgoing>, n: nat, now: time) {
    || state == DisconnectLater
    || (state == Connected && NoControl(queue, n) && forall e | e in sent :: e.sentTime != now)
  }

  function Pend(state: PeerState, acknowledgements: nat, queue: seq<Outgoing>, loose: nat, sent: seq<Outgoing>,
                n: nat, now: time): nat {
    if state == Disconnected || state == Zombie then 0
    else acknowledgements + |queue| + loose + Sum(sent, Older(now)) + if Owes(state, queue, sent, n, now) then 1 else 0
  }

  lemma NothingToFit(mtu: nat)
    ensures AllFit(mtu, []) && AllLooseFit(mtu, []) && AllTimed([])
  {
  }

  lemma {:induction false} StampedNotOlder(moved: seq<Outgoing>, now: time, t: time, l: time)
    ensures Sum(AllStamped(moved, now, t, l), Older(now)) == 0
    decreases |moved|
  {
    if moved != [] {
      var k := |moved| - 1;
      assert AllStamped(moved, now, t, l)[..k] == AllStamped(moved[..k], now, t, l);
      StampedNotOlder(moved[..k], now, t, l);
    }
  }

  lemma {:induction false} MergedMembers(whole: seq<Outgoing>, a: seq<Outgoing>, b: seq<Outgoing>)
    requires Merged(whole, a, b)
    ensures forall e | e in whole :: e in a || e in b
    decreases |whole|
  {
    if whole != [] {
      var n, last := |whole| - 1, whole[|whole| - 1];
      if a != [] && a[|a| - 1] == last && Merged(whole[..n], a[..|a| - 1], b) {
        MergedMembers(whole[..n], a[..|a| - 1], b);
      } else {
        MergedMembers(whole[..n], a, b[..|b| - 1]);
      }
      assert whole == whole[..n] + [last];
    }
  }

  /** What goes out is no longer pending. */
  lemma PendSent(state: PeerState, a: nat, queue: seq<Outgoing>, u: nat, sent: seq<Outgoing>, n: nat, now: time,
                 queue': seq<Outgoing>, moved: seq<Outgoing>, t: time, l: time)
    requires Merged(queue, queue', moved) && state != Disconnected && state != Zombie
    ensures Pend(state, a, queue', u, sent + AllStamped(moved, now, t, l), n, now) + |moved| <=
            Pend(state, a, queue, u, sent, n, now)
  {
    var sent' := sent + AllStamped(moved, now, t, l);
    MergedLength(queue, queue', moved);
    MergedMembers(queue, queue', moved);
    StampedNotOlder(moved, now, t, l);
    SumConcat(sent, AllStamped(moved, now, t, l), Older(now));
    SomeNow(sent, moved, now, t, l);
    assert forall e | e in sent :: e in sent';
    assert moved == [] ==> forall e | e in queue :: e in queue';
  }

  lemma SomeNow(sent: seq<Outgoing>, moved: seq<Outgoing>, now: time, t: time, l: time)
    ensures moved != [] ==> exists e :: e in sent + AllStamped(moved, now, t, l) && e.sentTime == now
  {
    if moved != [] {
      assert AllStamped(moved, now, t, l)[0] in sent + AllStamped(moved, now, t, l);
    }
  }

  lemma {:induction false} PendLate(sent: seq<Outgoing>, now: time)
    requires AllTimed(sent)
    ensures |TimedOut(now, sent)| + Sum(InTime(now, sent), Older(now)) == Sum(sent, Older(now))
    decreases |sent|
  {
    if sent != [] {
      var k, e := |sent| - 1, sent[|sent| - 1];
      PendLate(sent[..k], now);
      SumConcat(InTime(now, sent[..k]), [e], Older(now));
      SumConcat(InTime(now, sent[..k]), [], Older(now));
      SumOne(e, Older(now));
    }
  }

  lemma {:induction false} KeptInTime(sent: seq<Outgoing>, now: time)
    requires AllTimed(sent)
    ensures forall e | e in sent && e.sentTime == now :: e in InTime(now, sent)
    ensures AllTimed(InTime(now, sent))
    decreases |sent|
  {
    if sent != [] {
      var k, e := |sent| - 1, sent[|sent| - 1];
      KeptInTime(sent[..k], now);
      assert sent == sent[..k] + [e];
    }
  }

  lemma OwesLate(state: PeerState, queue: seq<Outgoing>, sent: seq<Outgoing>, n: nat, now: time,
                 late: seq<Outgoing>, sent': seq<Outgoing>)
    requires forall e | e in sent && e.sentTime == now :: e in sent'
    requires Owes(state, late + queue, sent', n, now)
    ensures Owes(state, queue, sent, n, now)
  {
    assert forall e | e in queue :: e in late + queue;
  }

  lemma PendChecked(state: PeerState, a: nat, queue: seq<Outgoing>, u: nat, sent: seq<Outgoing>, n: nat, now: time)
    requires AllTimed(sent)
    ensures Pend(state, a, TimedOut(now, sent) + queue, u, InTime(now, sent), n, now) <=
            Pend(state, a, queue, u, sent, n, now)
  {
    hide Owes, Sum, InTime, TimedOut;
    PendLate(sent, now);
    KeptInTime(sent, now);
    if Owes(state, TimedOut(now, sent) + queue, InTime(now, sent), n, now) {
      OwesLate(state, queue, sent, n, now, TimedOut(now, sent), InTime(now, sent));
    }
  }

  /** The ping was owed. */
  lemma PendPing(state: PeerState, a: nat, queue: seq<Outgoing>, u: nat, n: nat, now: time, number: nat)
    requires state == Connected && NoControl(queue, n) && n <= MAX_CHANNELS
    ensures Pend(state, a, queue + [ControlCommand(PING, number)], u, [], n, now) <=
            Pend(state, a, queue, u, [], n, now)
  {
    assert ControlCommand(PING, number) in queue + [ControlCommand(PING, number)];
  }

  lemma PendDisconnect(a: nat, n: nat, now: time)
    ensures forall number: nat ::
      Pend(Disconnecting, 0, [ControlCommand(DISCONNECT, number)], 0, [], 0, now) <=
      Pend(DisconnectLater, a, [], 0, [], n, now)
  {
  }

  lemma {:induction false} TotalGrows(lengths: seq<nat>, more: seq<nat>)
    ensures Total(lengths) <= Total(lengths + more)
    decreases |more|
  {
    if more == [] {
      assert lengths + more == lengths;
    } else {
      var n := |more| - 1;
      TotalGrows(lengths, more[..n]);
      TotalPlus(lengths + more[..n], more[n]);
      assert lengths + more == lengths + more[..n] + [more[n]];
    }
  }

  lemma PingIsControl(queue: seq<Outgoing>, number: nat, n: nat)
    requires n <= MAX_CHANNELS
    ensures !NoControl(queue + [ControlCommand(PING, number)], n)
  {
    var s := queue + [ControlCommand(PING, number)];
    assert s[|queue|] in s;
  }

  lemma StampedNew(sent: seq<Outgoing>, moved: seq<Outgoing>, now: time, t: time, l: time)
    ensures var s := sent + AllStamped(moved, now, t, l);
            && |s| == |sent| + |moved| && forall e | e in s :: e in sent || e.sentTime == now
  {
  }

  lemma StampedTimed(sent: seq<Outgoing>, moved: seq<Outgoing>, now: time, t: time, l: time)
    requires AllTimed(sent) && t > 0
    ensures AllTimed(sent + AllStamped(moved, now, t, l))
  {
  }

  lemma StampedFit(mtu: nat, sent: seq<Outgoing>, queue: seq<Outgoing>, queue': seq<Outgoing>, moved: seq<Outgoing>,
                   now: time, t: time, l: time)
    requires AllFit(mtu, sent) && AllFit(mtu, queue) && Merged(queue, queue', moved)
    ensures AllFit(mtu, sent + AllStamped(moved, now, t, l))
  {
    MergedFrom(queue, queue', moved);
    hide Merged, Total;
    var sent' := sent + AllStamped(moved, now, t, l);
    forall i | 0 <= i < |sent'| ensures Fits(mtu, sent'[i]) {
      if i >= |sent| {
        var e := moved[i - |sent|];
        assert e in queue;
        assert Lengths(sent'[i]) == Lengths(e);
      }
    }
  }

  lemma {:induction false} MergedFrom(whole: seq<Outgoing>, a: seq<Outgoing>, b: seq<Outgoing>)
    requires Merged(whole, a, b)
    ensures forall e | e in a || e in b :: e in whole
    decreases |whole|
  {
    if whole != [] {
      var n, last := |whole| - 1, whole[|whole| - 1];
      if a != [] && a[|a| - 1] == last && Merged(whole[..n], a[..|a| - 1], b) {
        MergedFrom(whole[..n], a[..|a| - 1], b);
        assert a == a[..|a| - 1] + [last];
      } else {
        MergedFrom(whole[..n], a, b[..|b| - 1]);
        assert b == b[..|b| - 1] + [last];
      }
    }
  }

  predicate AllFresh(s: seq<Outgoing>, now: time) {
    forall e | e in s :: !Late(now, e) || e.sentTime == now
  }

  lemma {:induction false} InTimeNotLate(sent: seq<Outgoing>, now: time)
    ensures forall e | e in InTime(now, sent) :: !Late(now, e)
    decreases |sent|
  {
    if sent != [] { InTimeNotLate(sent[..|sent| - 1], now); }
  }

  lemma {:induction false} InTimeFrom(sent: seq<Outgoing>, now: time)
    ensures forall e | e in InTime(now, sent) :: e in sent
    ensures forall e | e in TimedOut(now, sent) :: exists f :: f in sent && e == Doubled(f)
    decreases |sent|
  {
    if sent != [] {
      InTimeFrom(sent[..|sent| - 1], now);
      assert sent == sent[..|sent| - 1] + [sent[|sent| - 1]];
    }
  }

  lemma StillFit(mtu: nat, queue0: seq<Outgoing>, all: seq<Outgoing>, k: nat, now: time, sent: seq<Outgoing>,
                 queue: seq<Outgoing>)
    requires AllFit(mtu, queue0) && AllFit(mtu, all) && AllTimed(all) && DealtWith(now, all, queue0, k, sent, queue)
    ensures AllFit(mtu, queue) && AllFit(mtu, sent) && AllTimed(sent)
    ensures k == |all| ==> sent == InTime(now, all) && queue == TimedOut(now, all) + queue0
  {
    InTimeFrom(all[..k], now);
    if k == |all| { assert all[..k] == all && sent == InTime(now, all); }
    hide InTime, TimedOut, Total;
    forall i | 0 <= i < |queue| ensures Fits(mtu, queue[i]) {
      if i < |TimedOut(now, all[..k])| {
        assert queue[i] in TimedOut(now, all[..k]);
        var f :| f in all[..k] && queue[i] == Doubled(f);
        assert Lengths(queue[i]) == Lengths(f) && f in all;
      }
    }
    forall i | 0 <= i < |sent| ensures Fits(mtu, sent[i]) && sent[i].timeout > 0 {
      if i < |InTime(now, all[..k])| { assert sent[i] in InTime(now, all[..k]) && sent[i] in all; }
    }
  }

  lemma StillSound(mtu: nat, queue0: seq<Outgoing>, all: seq<Outgoing>, k: nat, now: time, sent: seq<Outgoing>,
                   queue: seq<Outgoing>, loose: seq<Loose>, n: nat, timeout: time)
    requires Sound(mtu, queue0, all, loose, n, timeout) && DealtWith(now, all, queue0, k, sent, queue)
    ensures Sound(mtu, queue, sent, loose, n, timeout) && AllTimed(all)
  {
    StillFit(mtu, queue0, all, k, now, sent, queue);
    hide AllFit, AllLooseFit, AllTimed, DealtWith;
  }

  lemma PendDealt(state: PeerState, a: nat, queue0: seq<Outgoing>, u: nat, all: seq<Outgoing>, n: nat, now: time,
                  k: nat,
                  sent: seq<Outgoing>, queue: seq<Outgoing>)
    requires DealtWith(now, all, queue0, k, sent, queue) && k == |all| && AllTimed(all)
    ensures Pend(state, a, queue, u, sent, n, now) <= Pend(state, a, queue0, u, all, n, now)
  {
    assert all[..k] == all && sent == InTime(now, all);
    hide Pend, InTime, TimedOut, AllTimed;
    PendChecked(state, a, queue0, u, all, n, now);
  }
}
