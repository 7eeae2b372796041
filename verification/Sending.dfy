/** enet_peer_send: how a packet becomes commands, and the numbers they get. */
module Sending {
  import opened Bytes
  import opened Constants
  import opened Windows
  import opened Messages
  import opened Datagram

  /** ENET_PACKET_FLAG_RELIABLE, _UNSEQUENCED and _UNRELIABLE_FRAGMENT. */
  datatype Flags = Flags(reliable: bool, unsequenced: bool, unreliableFragment: bool)

  function LooseCommandsOf(p: LoosePacket): seq<LooseCommand>
    requires Packetable(p)
  {
    seq(if p.Sequenced? then Pieces(p.message) else 1,
        j requires 0 <= j < (if p.Sequenced? then Pieces(p.message) else 1) => LooseCommandOf(p, j))
  }

  /** The commands of the reliable messages, in order. */
  function CommandsOf(m: Message, first: nat): seq<Command>
    requires Cuttable(m)
  {
    seq(Pieces(m), j requires 0 <= j < Pieces(m) => CommandOf(m, first, j))
  }

  predicate AllCuttable(sent: seq<Message>) {
    forall i | 0 <= i < |sent| :: Cuttable(sent[i])
  }

  function Commands(sent: seq<Message>): seq<Command>
    requires AllCuttable(sent)
    decreases |sent|
  {
    if sent == [] then []
    else
      var n := |sent| - 1;
      Commands(sent[..n]) + CommandsOf(sent[n], First(sent, n))
  }

  predicate AllPacketable(loose: seq<LoosePacket>) {
    forall i | 0 <= i < |loose| :: Packetable(loose[i])
  }

  function LooseCommands(loose: seq<LoosePacket>): seq<LooseCommand>
    requires AllPacketable(loose)
    decreases |loose|
  {
    if loose == [] then [] else LooseCommands(loose[..|loose| - 1]) + LooseCommandsOf(loose[|loose| - 1])
  }

  predicate LooseSendable(lim: Limits, p: LoosePacket) {
    if p.Sequenced? then Sendable(lim, p.message) else |p.data| <= lim.packetSize
  }

  predicate AllLooseSendable(lim: Limits, loose: seq<LoosePacket>) {
    forall i | 0 <= i < |loose| :: LooseSendable(lim, loose[i])
  }

  /** p comes before r in the order of reliable numbers and, within one, of unreliable numbers. */
  predicate Precedes(p: LoosePacket, r: LoosePacket) {
    p.Sequenced? && r.Sequenced? ==> p.base < r.base || (p.base == r.base && p.unreliable < r.unreliable)
  }

  predicate Ordered(loose: seq<LoosePacket>) {
    && (forall i, j | 0 <= i < j < |loose| :: Precedes(loose[i], loose[j]))
    && (forall i | 0 <= i < |loose| && loose[i].Sequenced? :: 1 <= loose[i].unreliable <= 0xFFFF)
  }

  function UnsequencedCount(loose: seq<LoosePacket>): nat {
    if loose == [] then 0
    else UnsequencedCount(loose[..|loose| - 1]) + if loose[|loose| - 1].Unsequenced? then 1 else 0
  }

  /** The unsequenced packets have the groups 1, 2, 3, ... and `group` is the last of them. */
  predicate Grouped(loose: seq<LoosePacket>, group: nat) {
    && group == Cut(UnsequencedCount(loose))
    && forall i | 0 <= i < |loose| && loose[i].Unsequenced? :: loose[i].group == Cut(UnsequencedCount(loose[..i]) + 1)
  }

  lemma CountMore(loose: seq<LoosePacket>, p: LoosePacket)
    ensures UnsequencedCount(loose + [p]) == UnsequencedCount(loose) + if p.Unsequenced? then 1 else 0
    ensures (loose + [p])[..|loose|] == loose
  {
    assert (loose + [p])[..|loose|] == loose;
  }

  lemma GroupedMore(loose: seq<LoosePacket>, p: LoosePacket, group: nat)
    requires Grouped(loose, group) && (p.Unsequenced? ==> p.group == Cut(group + 1))
    ensures Grouped(loose + [p], if p.Unsequenced? then Cut(group + 1) else group)
  {
    hide UnsequencedCount, Cut;
    var all := loose + [p];
    CutPlus(UnsequencedCount(loose), 1);
    CountMore(loose, p);
    forall i | 0 <= i < |all| && all[i].Unsequenced?
      ensures all[i].group == Cut(UnsequencedCount(all[..i]) + 1)
    {
      assert all[..i] == loose[..i];
    }
  }

  /** Nothing sequenced so far is past the numbers a channel stands at. */
  predicate UpTo(loose: seq<LoosePacket>, base: nat, unreliable: nat) {
    forall i | 0 <= i < |loose| && loose[i].Sequenced? ::
      loose[i].base < base || (loose[i].base == base && loose[i].unreliable <= unreliable)
  }

  /** The unbounded number of the last reliable command of a channel. */
  function Last(sent: seq<Message>): nat {
    First(sent, |sent|) - 1
  }

  // ----- what enet_peer_send does with a packet -----

  /** A fragment before it is numbered. */
  datatype Fragment = Fragment(index: nat, offset: nat, length: nat)

  predicate FragmentIs(f: Fragment, m: Message, j: nat) {
    j < Pieces(m) && f.index == j && f.offset == Offset(m, j) && f.offset + f.length == PieceEnd(m, j)
  }

  predicate FragmentsOf(fragments: seq<Fragment>, m: Message, n: nat) {
    && |fragments| == n
    && forall j | 0 <= j < n :: FragmentIs(fragments[j], m, j)
  }

  /** The commands are those of the packets, the numbers where they left off, and no unreliable number
      is ever reused or out of order within a reliable one. */
  ghost predicate Consistent(lim: Limits, sent: seq<Message>, loose: seq<LoosePacket>, number: nat, unreliable: nat,
                             commands: seq<Command>, looseCommands: seq<LooseCommand>) {
    && AllSendable(lim, sent) && AllCuttable(sent) && AllPacketable(loose) && AllLooseSendable(lim, loose)
    && number == Cut(Last(sent)) && unreliable <= 0xFFFF
    && commands == Commands(sent) && looseCommands == LooseCommands(loose)
    && Ordered(loose) && UpTo(loose, Last(sent), unreliable)
  }

  /** ENetChannel and ENetPeer as far as numbering goes, with every command ever queued. */
  class Sender {
    const lim: Limits
    const mtu: nat
    const checksum: bool
    var outgoingReliableSequenceNumber: nat
    var outgoingUnreliableSequenceNumber: nat
    var outgoingUnsequencedGroup: nat
    var outgoingReliableCommands: seq<Command>
    var outgoingUnreliableCommands: seq<LooseCommand>

    /** The packets the commands came from. */
    ghost var sent: seq<Message>
    ghost var loose: seq<LoosePacket>

    constructor (lim: Limits, mtu: nat, checksum: bool)
      requires 64 <= mtu <= MAX_MTU
      ensures Valid() && this.lim == lim && this.mtu == mtu && this.checksum == checksum && sent == [] && loose == []
    {
      this.lim, this.mtu, this.checksum := lim, mtu, checksum;
      outgoingReliableSequenceNumber, outgoingUnreliableSequenceNumber, outgoingUnsequencedGroup := 0, 0, 0;
      outgoingReliableCommands, outgoingUnreliableCommands, sent, loose := [], [], [], [];
    }

    /** fragmentLength: what is left of a datagram with one SEND_FRAGMENT in it. */
    function Unit(): (unit: nat)
      requires mtu >= 64
      ensures 0 < unit
    {
      mtu - HEADER - CommandSize(SEND_FRAGMENT) - if checksum then 4 else 0
    }

    ghost predicate Valid()
      reads this
    {
      && 64 <= mtu <= MAX_MTU
      && Consistent(lim, sent, loose, outgoingReliableSequenceNumber, outgoingUnreliableSequenceNumber,
                    outgoingReliableCommands, outgoingUnreliableCommands)
      && Grouped(loose, outgoingUnsequencedGroup)
    }

    /** enet_peer_send.  A packet asked to be sent reliably is; of the others, what is too long for one datagram
        goes out once only if it is marked for that, and what no unreliable number is left for does not. */
    method Send(connected: bool, flags: Flags, data: seq<byte>) returns (ok: bool)
      requires Valid()
      modifies this
      ensures Valid()
      ensures ok <==> connected && |data| <= lim.packetSize
                      && (|data| > Unit() ==> Pieces(Message(data, Unit())) <= lim.fragments)
      ensures !ok ==> sent == old(sent) && loose == old(loose)
      ensures ok && flags.reliable ==>
                sent == old(sent) + [Message(data, if |data| > Unit() then Unit() else 0)] && loose == old(loose)
      ensures ok && !flags.reliable && |data| > Unit() ==>
                var m := Message(data, Unit());
                if flags.unreliableFragment && old(outgoingUnreliableSequenceNumber) < 0xFFFF then
                  && sent == old(sent)
                  && loose == old(loose) + [Sequenced(Last(sent), old(outgoingUnreliableSequenceNumber) + 1, m)]
                else sent == old(sent) + [m] && loose == old(loose)
      ensures ok && !flags.reliable && |data| <= Unit() && flags.unsequenced ==>
                && sent == old(sent)
                && loose == old(loose) + [Unsequenced(Cut(old(outgoingUnsequencedGroup) + 1), data)]
      ensures ok && !flags.reliable && |data| <= Unit() && !flags.unsequenced ==>
                var m := Message(data, 0);
                if old(outgoingUnreliableSequenceNumber) < 0xFFFF then
                  && sent == old(sent)
                  && loose == old(loose) + [Sequenced(Last(sent), old(outgoingUnreliableSequenceNumber) + 1, m)]
                else sent == old(sent) + [m] && loose == old(loose)
    {
      if !connected || |data| > lim.packetSize { return false; }
      var fragmentLength := Unit();
      if |data| > fragmentLength {
        var fragmentCount := (|data| + fragmentLength - 1) / fragmentLength;
        if fragmentCount > lim.fragments { return false; }
        var fragments := CutUp(data, fragmentLength);
        if flags.unreliableFragment && !flags.reliable && outgoingUnreliableSequenceNumber < 0xFFFF {
          QueueLooseFragments(Message(data, fragmentLength), fragments);
        } else {
          QueueFragments(Message(data, fragmentLength), fragments);
        }
        return true;
      }
      if flags.unsequenced && !flags.reliable {
        QueueUnsequenced(data);
      } else if flags.reliable || outgoingUnreliableSequenceNumber >= 0xFFFF {
        QueueReliable(data);
      } else {
        QueueUnreliable(data);
      }
      ok := true;
    }

    // ----- enet_peer_setup_outgoing_command, by kind of command -----

    method QueueReliable(data: seq<byte>)
      requires Valid() && |data| <= lim.packetSize
      modifies this
      ensures Valid() && sent == old(sent) + [Message(data, 0)] && loose == old(loose)
    {
      hide *;
      ghost var m := Message(data, 0);
      ValidIs();
      WholeIs(lim, data);
      MoreSent(lim, sent, m, loose, outgoingReliableSequenceNumber, outgoingUnreliableSequenceNumber,
               outgoingReliableCommands, outgoingUnreliableCommands);
      outgoingReliableSequenceNumber := (outgoingReliableSequenceNumber + 1) % SPAN;
      outgoingUnreliableSequenceNumber := 0;
      outgoingReliableCommands := outgoingReliableCommands + [SendReliable(outgoingReliableSequenceNumber, data)];
      sent := sent + [m];
      IsValid();
    }

    lemma ValidIs()
      requires Valid()
      ensures 64 <= mtu <= MAX_MTU && Grouped(loose, outgoingUnsequencedGroup)
      ensures Consistent(lim, sent, loose, outgoingReliableSequenceNumber, outgoingUnreliableSequenceNumber,
                         outgoingReliableCommands, outgoingUnreliableCommands)
    {
    }

    lemma IsValid()
      requires 64 <= mtu <= MAX_MTU
      requires Consistent(lim, sent, loose, outgoingReliableSequenceNumber, outgoingUnreliableSequenceNumber,
                          outgoingReliableCommands, outgoingUnreliableCommands)
      requires Grouped(loose, outgoingUnsequencedGroup)
      ensures Valid()
    {
    }

    method QueueFragments(m: Message, fragments: seq<Fragment>)
      requires Valid() && Sendable(lim, m) && m.unit > 0 && FragmentsOf(fragments, m, Pieces(m))
      modifies this
      ensures Valid() && sent == old(sent) + [m] && loose == old(loose)
    {
      hide *;
      ghost var last, commands := Last(sent), outgoingReliableCommands;
      ValidIs();
      SendableIs(lim, m);
      MoreSent(lim, sent, m, loose, outgoingReliableSequenceNumber, outgoingUnreliableSequenceNumber,
               outgoingReliableCommands, outgoingUnreliableCommands);
      NoCommands(m, last, commands, fragments);
      NumberFragments(m, fragments, last);
      sent := sent + [m];
      IsValid();
    }

    /** The loop that numbers them and queues them. */
    method NumberFragments(m: Message, fragments: seq<Fragment>, ghost last: nat)
      requires Cuttable(m) && m.unit > 0 && FragmentsOf(fragments, m, Pieces(m)) && 0 < |fragments| == Pieces(m)
      requires SoFar(m, last, 0, outgoingReliableCommands, outgoingReliableSequenceNumber, outgoingReliableCommands)
      requires outgoingReliableSequenceNumber == Cut(last)
      modifies this`outgoingReliableSequenceNumber, this`outgoingUnreliableSequenceNumber, this`outgoingReliableCommands
      ensures outgoingReliableSequenceNumber == Cut(last + Pieces(m)) && outgoingUnreliableSequenceNumber == 0
      ensures outgoingReliableCommands == old(outgoingReliableCommands) + CommandsOf(m, last + 1)
    {
      ghost var commands := outgoingReliableCommands;
      var startSequenceNumber := (outgoingReliableSequenceNumber + 1) % SPAN;
      hide *;
      var k: nat := 0;
      while k < |fragments|
        invariant k <= |fragments| && SoFar(m, last, k, commands, outgoingReliableSequenceNumber,
                                            outgoingReliableCommands)
        invariant 0 < k ==> outgoingUnreliableSequenceNumber == 0
      {
        NextCommand(m, fragments, last, k, commands, outgoingReliableSequenceNumber, outgoingReliableCommands);
        QueueFragment(m, fragments[k], |fragments|, startSequenceNumber);
        k := k + 1;
      }
    }

    method QueueFragment(m: Message, f: Fragment, fragmentCount: nat, startSequenceNumber: nat)
      requires f.offset + f.length <= |m.data|
      modifies this`outgoingReliableSequenceNumber, this`outgoingUnreliableSequenceNumber, this`outgoingReliableCommands
      ensures outgoingReliableSequenceNumber == (old(outgoingReliableSequenceNumber) + 1) % SPAN
      ensures outgoingUnreliableSequenceNumber == 0
      ensures outgoingReliableCommands == old(outgoingReliableCommands) +
              [SendFragment(outgoingReliableSequenceNumber, startSequenceNumber, f.index, fragmentCount, f.offset,
                            |m.data|,
                            m.data[f.offset..f.offset + f.length])]
    {
      outgoingReliableSequenceNumber := (outgoingReliableSequenceNumber + 1) % SPAN;
      outgoingUnreliableSequenceNumber := 0;
      outgoingReliableCommands := outgoingReliableCommands +
        [SendFragment(outgoingReliableSequenceNumber, startSequenceNumber, f.index, fragmentCount, f.offset, |m.data|,
                      m.data[f.offset..f.offset + f.length])];
    }

    method QueueLooseFragment(m: Message, f: Fragment, fragmentCount: nat, startSequenceNumber: nat)
      requires f.offset + f.length <= |m.data|
      modifies this`outgoingUnreliableSequenceNumber, this`outgoingUnreliableCommands
      ensures outgoingUnreliableSequenceNumber ==
              if f.offset == 0 then old(outgoingUnreliableSequenceNumber) + 1 else old(outgoingUnreliableSequenceNumber)
      ensures outgoingUnreliableCommands == old(outgoingUnreliableCommands) +
              [SendUnreliableFragment(outgoingReliableSequenceNumber, startSequenceNumber, f.index, fragmentCount,
                                      f.offset,
                                      |m.data|, m.data[f.offset..f.offset + f.length])]
    {
      if f.offset == 0 { outgoingUnreliableSequenceNumber := outgoingUnreliableSequenceNumber + 1; }
      outgoingUnreliableCommands := outgoingUnreliableCommands +
        [SendUnreliableFragment(outgoingReliableSequenceNumber, startSequenceNumber, f.index, fragmentCount,
                                f.offset, |m.data|,
                                m.data[f.offset..f.offset + f.length])];
    }

    method QueueUnreliable(data: seq<byte>)
      requires Valid() && outgoingUnreliableSequenceNumber < 0xFFFF && |data| <= lim.packetSize
      modifies this
      ensures Valid() && sent == old(sent)
      ensures loose == old(loose) + [Sequenced(Last(sent), old(outgoingUnreliableSequenceNumber) + 1, Message(data, 0))]
    {
      ghost var p := Sequenced(Last(sent), outgoingUnreliableSequenceNumber + 1, Message(data, 0));
      hide *;
      WholeIs(lim, data);
      ValidIs();
      LooseIs(lim, p);
      MoreLoose(lim, sent, loose, p, outgoingReliableSequenceNumber, outgoingUnreliableSequenceNumber,
                outgoingReliableCommands, outgoingUnreliableCommands);
      GroupedMore(loose, p, outgoingUnsequencedGroup);
      outgoingUnreliableSequenceNumber := outgoingUnreliableSequenceNumber + 1;
      outgoingUnreliableCommands := outgoingUnreliableCommands +
        [SendUnreliable(outgoingReliableSequenceNumber, outgoingUnreliableSequenceNumber, data)];
      loose := loose + [p];
      IsValid();
    }

    method QueueUnsequenced(data: seq<byte>)
      requires Valid() && |data| <= lim.packetSize
      modifies this
      ensures Valid() && sent == old(sent)
      ensures loose == old(loose) + [Unsequenced(Cut(old(outgoingUnsequencedGroup) + 1), data)]
    {
      hide *;
      ghost var p := PlanUnsequenced(data);
      outgoingUnsequencedGroup := Cut(outgoingUnsequencedGroup + 1);
      outgoingUnreliableCommands := outgoingUnreliableCommands + [SendUnsequenced(outgoingUnsequencedGroup, data)];
      loose := loose + [p];
      IsValid();
    }

    lemma PlanUnsequenced(data: seq<byte>) returns (p: LoosePacket)
      requires Valid() && |data| <= lim.packetSize
      ensures p == Unsequenced(Cut(outgoingUnsequencedGroup + 1), data) && 64 <= mtu <= MAX_MTU
      ensures Grouped(loose + [p], p.group)
      ensures Consistent(lim, sent, loose + [p], outgoingReliableSequenceNumber, outgoingUnreliableSequenceNumber,
                         outgoingReliableCommands, outgoingUnreliableCommands + [SendUnsequenced(p.group, data)])
    {
      hide *;
      p := Unsequenced(Cut(outgoingUnsequencedGroup + 1), data);
      ValidIs();
      LooseIs(lim, p);
      MoreLoose(lim, sent, loose, p, outgoingReliableSequenceNumber, outgoingUnreliableSequenceNumber,
                outgoingReliableCommands, outgoingUnreliableCommands);
      GroupedMore(loose, p, outgoingUnsequencedGroup);
    }

    method QueueLooseFragments(m: Message, fragments: seq<Fragment>)
      requires Valid() && outgoingUnreliableSequenceNumber < 0xFFFF
      requires m.unit > 0 && Sendable(lim, m) && FragmentsOf(fragments, m, Pieces(m))
      modifies this`outgoingUnreliableSequenceNumber, this`outgoingUnreliableCommands, this`loose
      ensures Valid()
      ensures loose == old(loose) + [Sequenced(Last(sent), old(outgoingUnreliableSequenceNumber) + 1, m)]
    {
      hide *;
      ghost var p := PlanLoose(m, fragments);
      NumberLooseFragments(m, fragments, p);
      loose := loose + [p];
      IsValid();
    }

    /** The packet the fragments make, and what queueing them comes to. */
    lemma PlanLoose(m: Message, fragments: seq<Fragment>) returns (p: LoosePacket)
      requires Valid() && outgoingUnreliableSequenceNumber < 0xFFFF
      requires m.unit > 0 && Sendable(lim, m) && FragmentsOf(fragments, m, Pieces(m))
      ensures p == Sequenced(Last(sent), outgoingUnreliableSequenceNumber + 1, m) && Packetable(p)
      ensures LooseSoFar(p, 0, outgoingUnreliableCommands, outgoingUnreliableSequenceNumber, outgoingUnreliableCommands)
      ensures Cut(p.base) == outgoingReliableSequenceNumber && 0 < |fragments| == Pieces(m)
      ensures 64 <= mtu <= MAX_MTU && Grouped(loose + [p], outgoingUnsequencedGroup)
      ensures Consistent(lim, sent, loose + [p], outgoingReliableSequenceNumber, p.unreliable,
                         outgoingReliableCommands, outgoingUnreliableCommands + LooseCommandsOf(p))
    {
      hide *;
      p := Sequenced(Last(sent), outgoingUnreliableSequenceNumber + 1, m);
      ValidIs();
      SendableIs(lim, m);
      LooseIs(lim, p);
      MoreLoose(lim, sent, loose, p, outgoingReliableSequenceNumber, outgoingUnreliableSequenceNumber,
                outgoingReliableCommands, outgoingUnreliableCommands);
      GroupedMore(loose, p, outgoingUnsequencedGroup);
      NoLooseCommands(p, outgoingUnreliableCommands, fragments);
    }

    /** The loop that numbers them and queues them. */
    method NumberLooseFragments(m: Message, fragments: seq<Fragment>, ghost p: LoosePacket)
      requires p.Sequenced? && p.message == m && Packetable(p) && m.unit > 0 && FragmentsOf(fragments, m, Pieces(m))
      requires LooseSoFar(p, 0, outgoingUnreliableCommands, outgoingUnreliableSequenceNumber,
                          outgoingUnreliableCommands)
      requires Cut(p.base) == outgoingReliableSequenceNumber && 0 < |fragments| == Pieces(m)
      modifies this`outgoingUnreliableSequenceNumber, this`outgoingUnreliableCommands
      ensures outgoingUnreliableSequenceNumber == p.unreliable
      ensures outgoingUnreliableCommands == old(outgoingUnreliableCommands) + LooseCommandsOf(p)
    {
      ghost var commands := outgoingUnreliableCommands;
      var startSequenceNumber := outgoingUnreliableSequenceNumber + 1;
      assert startSequenceNumber == p.unreliable;
      hide *;
      var k: nat := 0;
      while k < |fragments|
        invariant k <= |fragments| && LooseSoFar(p, k, commands, outgoingUnreliableSequenceNumber,
                                                 outgoingUnreliableCommands)
      {
        QueueLooseFragment(m, fragments[k], |fragments|, startSequenceNumber);
        k := k + 1;
      }
    }

    /** The loop that cuts a packet up; the last fragment takes what is left. */
    method CutUp(data: seq<byte>, unit: nat) returns (fragments: seq<Fragment>)
      requires 0 < unit < |data|
      ensures FragmentsOf(fragments, Message(data, unit), Pieces(Message(data, unit)))
    {
      ghost var m := Message(data, unit);
      var fragmentLength := unit;
      var fragmentNumber, fragmentOffset := 0, 0;
      fragments := [];
      while fragmentOffset < |data|
        invariant FragmentsOf(fragments, m, fragmentNumber)
        invariant fragmentOffset == if Offset(m, fragmentNumber) <= |data| then Offset(m, fragmentNumber) else |data|
        invariant fragmentNumber <= Pieces(m)
        invariant fragmentOffset < |data| ==> fragmentLength == unit
        decreases |data| - fragmentOffset
      {
        CutOne(m, fragmentNumber);
        if |data| - fragmentOffset < fragmentLength { fragmentLength := |data| - fragmentOffset; }
        fragments := fragments + [Fragment(fragmentNumber, fragmentOffset, fragmentLength)];
        fragmentNumber, fragmentOffset := fragmentNumber + 1, fragmentOffset + fragmentLength;
      }
      CutAll(m, fragmentNumber);
    }
  }

  // ----- numbering -----

  lemma WholeIs(lim: Limits, data: seq<byte>)
    requires |data| <= lim.packetSize
    ensures Sendable(lim, Message(data, 0))
  {
  }

  lemma SendableIs(lim: Limits, m: Message)
    requires Sendable(lim, m)
    ensures Cuttable(m)
  {
  }

  lemma LooseIs(lim: Limits, p: LoosePacket)
    requires if p.Sequenced? then Sendable(lim, p.message) else |p.data| <= lim.packetSize
    ensures Packetable(p) && LooseSendable(lim, p)
  {
  }

  /** The first k fragments of m have been numbered and queued. */
  ghost predicate SoFar(m: Message, last: nat, k: nat, before: seq<Command>, number: nat, commands: seq<Command>)
    requires Cuttable(m)
  {
    k <= Pieces(m) && number == Cut(last + k) && commands == before + CommandsOf(m, last + 1)[..k]
  }

  lemma NoCommands(m: Message, last: nat, commands: seq<Command>, fragments: seq<Fragment>)
    requires Cuttable(m) && FragmentsOf(fragments, m, Pieces(m))
    ensures SoFar(m, last, 0, commands, Cut(last), commands) && 0 < |fragments| == Pieces(m)
  {
    PiecesPositive(m);
  }

  /** The next fragment, numbered, is the next command of the message. */
  lemma NextCommand(m: Message, fragments: seq<Fragment>, last: nat, k: nat, before: seq<Command>, number: nat,
                    commands: seq<Command>)
    requires m.unit > 0 && Cuttable(m) && FragmentsOf(fragments, m, Pieces(m)) && k < Pieces(m)
    requires SoFar(m, last, k, before, number, commands)
    ensures fragments[k].offset + fragments[k].length <= |m.data|
    ensures var f, next := fragments[k], (number + 1) % SPAN;
            SoFar(m, last, k + 1, before, next, commands +
                  [SendFragment(next, (Cut(last) + 1) % SPAN, f.index, |fragments|, f.offset, |m.data|,
                                m.data[f.offset..f.offset + f.length])])
  {
    PieceBounds(m, k);
    CutPlus(last, 1);
    CutPlus(last + k, 1);
    assert FragmentIs(fragments[k], m, k);
    hide CommandsOf, Pieces, Offset, PieceEnd, FragmentsOf;
  }

  ghost predicate LooseSoFar(p: LoosePacket, k: nat, before: seq<LooseCommand>, unreliable: nat,
                             commands: seq<LooseCommand>)
    requires p.Sequenced? && Packetable(p)
  {
    && k <= Pieces(p.message) && p.unreliable == (if k == 0 then unreliable + 1 else unreliable)
    && commands == before + LooseCommandsOf(p)[..k]
  }

  lemma NoLooseCommands(p: LoosePacket, commands: seq<LooseCommand>, fragments: seq<Fragment>)
    requires p.Sequenced? && Packetable(p) && FragmentsOf(fragments, p.message, Pieces(p.message)) && 0 < p.unreliable
    ensures LooseSoFar(p, 0, commands, p.unreliable - 1, commands) && 0 < |fragments| == Pieces(p.message)
  {
    PiecesPositive(p.message);
  }

  lemma {:induction false} FirstPrefix(sent: seq<Message>, m: Message, i: nat)
    requires i <= |sent|
    ensures First(sent + [m], i) == First(sent, i)
    decreases i
  {
    if i > 0 { FirstPrefix(sent, m, i - 1); }
  }

  lemma LastPlus(sent: seq<Message>, m: Message)
    ensures Last(sent + [m]) == Last(sent) + Pieces(m)
  {
    FirstPrefix(sent, m, |sent|);
  }

  /** One more reliable message: its commands come last, and all that was sent before precedes it. */
  lemma MoreSent(lim: Limits, sent: seq<Message>, m: Message, loose: seq<LoosePacket>, number: nat, unreliable: nat,
                 commands: seq<Command>, looseCommands: seq<LooseCommand>)
    requires Consistent(lim, sent, loose, number, unreliable, commands, looseCommands) && Sendable(lim, m)
    ensures number == Cut(Last(sent))
    ensures Consistent(lim, sent + [m], loose, Cut(Last(sent) + Pieces(m)), 0,
                       commands + CommandsOf(m, Last(sent) + 1), looseCommands)
    ensures m.unit == 0 ==>
              Consistent(lim, sent + [m], loose, (number + 1) % SPAN, 0,
                         commands + [SendReliable((number + 1) % SPAN, m.data)], looseCommands)
  {
    LastPlus(sent, m);
    PiecesPositive(m);
    CutPlus(Last(sent), 1);
    assert (sent + [m])[..|sent|] == sent;
    FirstPrefix(sent, m, |sent|);
    if m.unit == 0 { assert CommandsOf(m, Last(sent) + 1) == [SendReliable(Cut(Last(sent) + 1), m.data)]; }
    hide CommandsOf, LooseCommands, Ordered;
  }

  /** One more unreliable packet keeps the order. */
  lemma MoreLoose(lim: Limits, sent: seq<Message>, loose: seq<LoosePacket>, p: LoosePacket, number: nat,
                  unreliable: nat,
                  commands: seq<Command>, looseCommands: seq<LooseCommand>)
    requires Consistent(lim, sent, loose, number, unreliable, commands, looseCommands) && Packetable(p)
             && LooseSendable(lim, p)
    requires p.Sequenced? ==> p.base == Last(sent) && p.unreliable == unreliable + 1 <= 0xFFFF
    ensures number == Cut(Last(sent))
    ensures Consistent(lim, sent, loose + [p], number, if p.Sequenced? then unreliable + 1 else unreliable,
                       commands, looseCommands + LooseCommandsOf(p))
    ensures p.Unsequenced? ==> LooseCommandsOf(p) == [SendUnsequenced(p.group, p.data)]
    ensures p.Sequenced? && p.message.unit == 0 ==>
              LooseCommandsOf(p) == [SendUnreliable(number, unreliable + 1, p.message.data)]
  {
    assert (loose + [p])[..|loose|] == loose;
    assert LooseCommands(loose + [p]) == LooseCommands(loose) + LooseCommandsOf(p);
    assert Ordered(loose + [p]);
  }

  /** Every command ever queued is a piece of a message sent, numbered as the receiver expects, and no
      piece is missing. */
  lemma {:induction false} CommandOrigin(sent: seq<Message>, k: nat) returns (i: nat, j: nat)
    requires AllCuttable(sent) && k < |Commands(sent)|
    ensures i < |sent| && j < Pieces(sent[i]) && First(sent, i) + j == k + 1
    ensures Commands(sent)[k] == CommandOf(sent[i], First(sent, i), j)
    decreases |sent|
  {
    var n := |sent| - 1;
    CommandCount(sent[..n]);
    assert sent == sent[..n] + [sent[n]];
    FirstPrefix(sent[..n], sent[n], n);
    if k < |Commands(sent[..n])| {
      i, j := CommandOrigin(sent[..n], k);
      FirstPrefix(sent[..n], sent[n], i);
    } else {
      i, j := n, k - |Commands(sent[..n])|;
    }
  }

  lemma {:induction false} CommandCount(sent: seq<Message>)
    requires AllCuttable(sent)
    ensures |Commands(sent)| == Last(sent)
    decreases |sent|
  {
    if sent != [] {
      var n := |sent| - 1;
      CommandCount(sent[..n]);
      assert sent == sent[..n] + [sent[n]];
      FirstPrefix(sent[..n], sent[n], n);
    }
  }

  /** A piece cut by a sender's unit, or a packet no longer than it, fits an empty datagram together
      with its command and the checksum, and every piece but the last fills it. */
  lemma PieceFits(sender: Sender, m: Message, j: nat)
    requires sender.mtu >= 64 && Cuttable(m) && j < Pieces(m)
    requires if m.unit == 0 then |m.data| <= sender.Unit() else m.unit == sender.Unit()
    ensures HEADER + CommandSize(if m.unit == 0 then SEND_RELIABLE else SEND_FRAGMENT) + |Piece(m, j)|
            + (if sender.checksum then 4 else 0) <= sender.mtu
    ensures m.unit > 0 && j + 1 < Pieces(m) ==>
              HEADER + CommandSize(SEND_FRAGMENT) + |Piece(m, j)| + (if sender.checksum then 4 else 0) == sender.mtu
  {
    PieceBounds(m, j);
    assert m.unit > 0 ==> Offset(m, j + 1) == Offset(m, j) + m.unit;
    if m.unit > 0 && j + 1 < Pieces(m) { PieceBounds(m, j + 1); }
  }

  lemma CutOne(m: Message, j: nat)
    requires 0 < m.unit < |m.data| && Offset(m, j) < |m.data|
    ensures j < Pieces(m) && Offset(m, j + 1) == Offset(m, j) + m.unit
  {
    assert (j + 1) * m.unit == j * m.unit + m.unit;
    Ceiling(|m.data|, m.unit, j);
  }

  lemma Ceiling(a: nat, k: nat, j: nat)
    requires 0 < k && j * k < a
    ensures j < (a + k - 1) / k
  {
    var n := (a + k - 1) / k;
    assert a + k - 1 < n * k + k;
    if n <= j { Product(n, j, k); }
  }

  lemma CutAll(m: Message, j: nat)
    requires 0 < m.unit < |m.data| && j <= Pieces(m) && Offset(m, j) >= |m.data|
    ensures j == Pieces(m)
  {
    var n := Pieces(m);
    assert n * m.unit <= |m.data| + m.unit - 1;
    assert (j + 1) * m.unit == j * m.unit + m.unit;
    if j < n { Product(j + 1, n, m.unit); }
  }
}
