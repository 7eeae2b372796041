/** The receiving side of a channel's reliable packets, as a function of its state: the reorder
    queue, fragment reassembly, dispatch and the decision to acknowledge. */
module ReliableChannel {
  import opened Bytes
  import opened Bitmap
  import opened Constants
  import opened Windows
  import opened Messages
  import opened Queues

  /** ENetIncomingCommand with its packet; fragmentCount 0 means the packet came whole. */
  datatype Incoming = Incoming(number: nat, fragmentCount: nat, remaining: nat, fragments: seq<bv32>, data: seq<byte>)

  /** incomingReliableSequenceNumber, incomingReliableCommands and every packet handed to the peer's
      dispatchedCommands so far. */
  datatype Receiver = Receiver(current: nat, queue: seq<Incoming>, dispatched: seq<seq<byte>>)

  const FRESH := Receiver(0, [], [])

  // ----- dispatch -----

  predicate Due(e: Incoming, current: nat) {
    e.remaining == 0 && e.number == Cut(current + 1)
  }

  function After(e: Incoming): nat {
    if e.fragmentCount > 0 then Cut(e.number + e.fragmentCount - 1) else e.number
  }

  /** enet_peer_dispatch_incoming_reliable_commands. */
  function Dispatch(r: Receiver): Receiver
    decreases |r.queue|
  {
    if r.queue != [] && Due(r.queue[0], r.current)
    then Dispatch(Receiver(After(r.queue[0]), r.queue[1..], r.dispatched + [r.queue[0].data]))
    else r
  }

  /** What it takes off is the front of the queue, and complete. */
  lemma {:induction false} DispatchTakesFront(r: Receiver)
    ensures var s := Dispatch(r);
            && |s.queue| <= |r.queue| && s.queue == r.queue[|r.queue| - |s.queue|..]
            && forall j | 0 <= j < |r.queue| - |s.queue| :: r.queue[j].remaining == 0
    decreases |r.queue|
  {
    if r.queue != [] && Due(r.queue[0], r.current) {
      DispatchTakesFront(Receiver(After(r.queue[0]), r.queue[1..], r.dispatched + [r.queue[0].data]));
    }
  }

  // ----- the search from the back of the queue -----

  datatype Place = Gap(at: nat) | Taken(at: nat)

  /** The loops of enet_peer_queue_incoming_command and enet_protocol_handle_send_fragment: past every
      command that comes later, to the gap the number belongs in or the command that has it. */
  function Search(queue: seq<Incoming>, s: nat, current: nat, i: nat): (p: Place)
    requires i <= |queue|
    ensures p.Gap? ==> p.at <= i
    ensures p.Taken? ==> p.at < i && queue[p.at].number == s
    decreases i
  {
    if i == 0 then Gap(0)
    else
      var x := queue[i - 1].number;
      if s >= current && x < current then Search(queue, s, current, i - 1)
      else if s < current && x >= current then Gap(i)
      else if x < s then Gap(i)
      else if x == s then Taken(i - 1)
      else Search(queue, s, current, i - 1)
  }

  function Find(r: Receiver, s: nat): Place {
    Search(r.queue, s, r.current, |r.queue|)
  }

  // ----- arrivals -----

  function NewCommand(s: nat, data: seq<byte>, count: nat): Incoming {
    Incoming(s, count, count, Zeros(Words(count)), data)
  }

  /** enet_peer_queue_incoming_command for a reliable packet or the first fragment of one; `leaving`
      is the state DISCONNECT_LATER.  The number is the new command's place before dispatch. */
  datatype Queued = Dropped | At(at: nat)

  function Enqueue(q: Layout, r: Receiver, leaving: bool, s: nat, data: seq<byte>, count: nat): (x: (Receiver, Queued))
    requires Proper(q)
  {
    if leaving || !InWindow(q, s, r.current) || s == r.current then (r, Dropped)
    else match Find(r, s)
         case Taken(_) => (r, Dropped)
         case Gap(at) => (Dispatch(r.(queue := Insert(r.queue, at, NewCommand(s, data, count)))), At(at))
  }

  /** enet_protocol_handle_send_reliable for a connected peer. */
  function HandleReliable(q: Layout, lim: Limits, r: Receiver, leaving: bool, s: nat, data: seq<byte>): Receiver
    requires Proper(q)
  {
    if |data| > lim.packetSize then r else Enqueue(q, r, leaving, s, data, 0).0
  }

  /** Marking a fragment and copying its bytes, once. */
  function Marked(e: Incoming, index: nat, offset: nat, data: seq<byte>): Incoming
    requires index / 32 < |e.fragments| && offset + |data| <= |e.data|
  {
    if Bit(e.fragments, index) then e
    else e.(remaining := if e.remaining == 0 then 0 else e.remaining - 1,
            fragments := WithBit(e.fragments, index),
            data := e.data[..offset] + data + e.data[offset + |data|..])
  }

  lemma MarkedIs(e: Incoming, index: nat, offset: nat, data: seq<byte>)
    requires index / 32 < |e.fragments| && offset + |data| <= |e.data| && !Bit(e.fragments, index)
    ensures Marked(e, index, offset, data) ==
            e.(remaining := if e.remaining == 0 then 0 else e.remaining - 1,
               fragments := e.fragments[index / 32 := Or(e.fragments[index / 32], Mask(index % 32))],
               data := e.data[..offset] + data + e.data[offset + |data|..])
  {
  }

  predicate WellFormed(lim: Limits, c: Command) {
    match c
    case SendReliable(s, data) => s < SPAN && |data| <= lim.packetSize
    case SendFragment(s, start, index, count, offset, total, data) =>
      s < SPAN && start < SPAN && |data| <= lim.packetSize && FragmentInside(lim, index, count, offset, total, |data|)
  }

  /** The tests on the numbers of a fragment that both fragment handlers make. */
  predicate FragmentInside(lim: Limits, index: nat, count: nat, offset: nat, total: nat, length: nat) {
    index < count <= lim.fragments && total <= lim.packetSize && offset < total && length <= total - offset
  }

  /** A command that is assembled from `count` fragments to `total` bytes. */
  predicate Assembles(e: Incoming, count: nat, total: nat) {
    e.fragmentCount == count && |e.data| == total && |e.fragments| == Words(count)
  }

  /** A queued command that the fragment c can belong to. */
  predicate Matches(e: Incoming, c: Command) {
    c.SendFragment? && Assembles(e, c.count, c.total)
  }

  /** The end of enet_protocol_handle_send_fragment, for the command in place `at`. */
  function TakeFragment(r: Receiver, at: nat, c: Command): Receiver
    requires at < |r.queue| && Matches(r.queue[at], c) && c.index < c.count && c.offset + |c.data| <= c.total
  {
    var e := Marked(r.queue[at], c.index, c.offset, c.data);
    var r' := r.(queue := r.queue[at := e]);
    if !Bit(r.queue[at].fragments, c.index) && e.remaining == 0 then Dispatch(r') else r'
  }

  /** enet_protocol_handle_send_fragment for a connected peer.  The bytes of a packet just created
      are not initialised in the source; here they are 0. */
  function HandleFragment(q: Layout, lim: Limits, r: Receiver, leaving: bool, c: Command): Receiver
    requires Proper(q) && c.SendFragment?
  {
    if |c.data| > lim.packetSize || !InWindow(q, c.start, r.current) || !WellFormed(lim, c) then r
    else match Find(r, c.start)
         case Taken(at) => if Matches(r.queue[at], c) then TakeFragment(r, at, c) else r
         case Gap(_) =>
           var (r', queued) := Enqueue(q, r, leaving, c.start, seq(c.total, _ => 0), c.count);
           if queued.Dropped? then r'
           else
             EnqueueKeepsPlace(q, r, leaving, c.start, seq(c.total, _ => 0), c.count);
             TakeFragment(r', queued.at - Removed(r, r'), c)
  }

  /** How many commands dispatch has removed, after one has been added. */
  function Removed(r: Receiver, r': Receiver): int {
    |r.queue| + 1 - |r'.queue|
  }

  /** An incomplete command is never dispatched, so the command just queued is still there. */
  lemma EnqueueKeepsPlace(q: Layout, r: Receiver, leaving: bool, s: nat, data: seq<byte>, count: nat)
    requires Proper(q) && 0 < count && Enqueue(q, r, leaving, s, data, count).1.At?
    ensures var (r', queued) := Enqueue(q, r, leaving, s, data, count);
            && 0 <= queued.at - Removed(r, r') < |r'.queue|
            && r'.queue[queued.at - Removed(r, r')] == NewCommand(s, data, count)
  {
    hide Search, InWindow, NewCommand;
    var at := Enqueue(q, r, leaving, s, data, count).1.at;
    DispatchKeeps(r, at, NewCommand(s, data, count));
    assert NewCommand(s, data, count).remaining == count by { NewRemaining(s, data, count); }
  }

  lemma NewRemaining(s: nat, data: seq<byte>, count: nat)
    ensures NewCommand(s, data, count).remaining == count
  {
  }

  lemma DispatchKeeps(r: Receiver, at: nat, e: Incoming)
    requires at <= |r.queue|
    ensures var r' := Dispatch(r.(queue := Insert(r.queue, at, e)));
            e.remaining > 0 ==>
              0 <= at - Removed(r, r') < |r'.queue| && r'.queue[at - Removed(r, r')] == e
  {
    var queue := Insert(r.queue, at, e);
    assert queue[at] == e;
    var r' := Dispatch(r.(queue := queue));
    DispatchTakesFront(r.(queue := queue));
    hide Dispatch, Insert;
    assert r'.queue == queue[Removed(r, r')..] by {
      assert |queue| == |r.queue| + 1 by { InsertLength(r.queue, at, e); }
    }
    assert at < Removed(r, r') ==> queue[at].remaining == 0;
  }

  lemma NewMatches(lim: Limits, c: Command, data: seq<byte>)
    requires WellFormed(lim, c) && c.SendFragment? && |data| == c.total
    ensures Matches(NewCommand(c.start, data, c.count), c) && NewCommand(c.start, data, c.count).remaining > 0
  {
  }

  /** A command as it arrives at a connected peer. */
  function Handle(q: Layout, lim: Limits, r: Receiver, leaving: bool, c: Command): Receiver
    requires Proper(q)
  {
    match c
    case SendReliable(s, data) => HandleReliable(q, lim, r, leaving, s, data)
    case SendFragment(_, _, _, _, _, _, _) => HandleFragment(q, lim, r, leaving, c)
  }
}
