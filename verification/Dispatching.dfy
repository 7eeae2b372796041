/** The queue of peers with something to report, and the order in which an application learns of
    connections, packets and disconnections. */
module Dispatching {
  import opened PeerStates
  import opened Queues

  /** ENetPeer as far as events go: packets is dispatchedCommands, owes tells that an acknowledgement of
      a DISCONNECT is among the acknowledgements, owesOther that one of another command is. */
  datatype Slot = Slot(state: PeerState, needsDispatch: bool, packets: seq<nat>, owes: bool, owesOther: bool)

  /** What has been reported, and the resets that end a connection. */
  datatype Entry = Connects(peer: nat) | Receives(peer: nat, packet: nat) | Disconnects(peer: nat) | Resets(peer: nat)

  // ----- reports -----

  predicate Ends(e: Entry, p: nat) {
    (e.Disconnects? || e.Resets?) && e.peer == p
  }

  /** The application has been told of a connection of p that it does not know to be over. */
  predicate Open(log: seq<Entry>, p: nat)
    decreases |log|
  {
    if log == [] then false
    else
      var n := |log| - 1;
      if log[n] == Connects(p) then true else !Ends(log[n], p) && Open(log[..n], p)
  }

  /** The last thing that began or ended a connection of p is the report at j. */
  predicate OpenSince(log: seq<Entry>, p: nat, j: nat) {
    j < |log| && log[j] == Connects(p) && forall k | j < k < |log| :: !Ends(log[k], p)
  }

  lemma {:induction false} OpenedAt(log: seq<Entry>, p: nat) returns (j: nat)
    requires Open(log, p)
    ensures OpenSince(log, p, j)
    decreases |log|
  {
    var n := |log| - 1;
    if log[n] == Connects(p) { return n; }
    j := OpenedAt(log[..n], p);
    assert log[..n][j] == log[j] && forall k | j < k < n :: log[..n][k] == log[k];
  }

  lemma {:induction false} StillOpen(log: seq<Entry>, p: nat, j: nat)
    requires OpenSince(log, p, j)
    ensures Open(log, p)
    decreases |log|
  {
    var n := |log| - 1;
    if j < n { StillOpen(log[..n], p, j); }
  }

  /** What may be reported next. */
  predicate MayFollow(log: seq<Entry>, e: Entry) {
    && (e.Receives? ==> Open(log, e.peer))
    && (e.Connects? ==> !Open(log, e.peer))
  }

  predicate InOrder(log: seq<Entry>) {
    forall i | 0 <= i < |log| :: MayFollow(log[..i], log[i])
  }

  /** A packet is reported only between the report that its connection is made and its end. */
  lemma ReceivedInside(log: seq<Entry>, i: nat) returns (j: nat)
    requires InOrder(log) && i < |log| && log[i].Receives?
    ensures j < i && log[j] == Connects(log[i].peer) && forall k | j < k < i :: !Ends(log[k], log[i].peer)
  {
    var p, before := log[i].peer, log[..i];
    assert MayFollow(before, log[i]);
    j := OpenedAt(before, p);
    forall k | j < k < i ensures !Ends(log[k], p) { assert before[k] == log[k]; }
  }

  /** And each connection is reported once. */
  lemma ConnectedOnce(log: seq<Entry>, i: nat, j: nat) returns (k: nat)
    requires InOrder(log) && i < j < |log| && log[i].Connects? && log[j] == log[i]
    ensures i < k < j && Ends(log[k], log[i].peer)
  {
    var p, before := log[i].peer, log[..j];
    assert MayFollow(before, log[j]);
    if OpenSince(before, p, i) { StillOpen(before, p, i); }
    assert before[i] == Connects(p);
    var n :| i < n < |before| && Ends(before[n], p);
    k := n;
  }

  // ----- the queue -----

  /** needsDispatch tells which peers are on the queue, each of them once. */
  predicate Queued(peers: seq<Slot>, queue: seq<nat>) {
    && (forall i | 0 <= i < |queue| :: queue[i] < |peers| && peers[queue[i]].needsDispatch)
    && (forall i, j | 0 <= i < j < |queue| :: queue[i] != queue[j])
    && (forall p | 0 <= p < |peers| && peers[p].needsDispatch :: p in queue)
  }

  /** There is something to report about the peer. */
  predicate Waits(s: Slot) {
    s.state.ConnectionPending? || s.state.ConnectionSucceeded? || s.state.Zombie?
        || (s.state.Connected? && s.packets != [])
  }

  predicate Known(state: PeerState) {
    state.Connected? || state.DisconnectLater? || state.Disconnecting? || state.AcknowledgingDisconnect?
  }

  predicate Fine(s: Slot, open: bool) {
    && (Waits(s) ==> s.needsDispatch)
    && (s.packets != [] ==> s.state.Connected? || s.state.DisconnectLater? || s.state.Zombie?)
    && (Known(s.state) ==> open)
    && (!Known(s.state) && !s.state.Zombie? ==> !open)
  }

  /** What holds between calls, and in the middle of one about every peer but `but`. */
  ghost predicate Coherent(peers: seq<Slot>, queue: seq<nat>, log: seq<Entry>, but: int) {
    && Queued(peers, queue) && InOrder(log)
    && forall p | 0 <= p < |peers| && p != but :: Fine(peers[p], Open(log, p))
  }

  function Index(queue: seq<nat>, p: nat): (i: nat)
    requires p in queue
    ensures i < |queue| && queue[i] == p
  {
    if queue[0] == p then 0 else Index(queue[1..], p) + 1
  }

  /** The queue after needsDispatch of p has become `needs`. */
  function Requeued(peers: seq<Slot>, queue: seq<nat>, p: nat, needs: bool): seq<nat>
    requires Queued(peers, queue) && p < |peers|
  {
    if needs == peers[p].needsDispatch then queue
    else if needs then queue + [p]
    else Without(queue, Index(queue, p))
  }

  lemma RequeuedKeeps(peers: seq<Slot>, queue: seq<nat>, p: nat, s: Slot)
    requires Queued(peers, queue) && p < |peers|
    ensures Queued(peers[p := s], Requeued(peers, queue, p, s.needsDispatch))
  {
    hide Without, Index, Queued;
    if s.needsDispatch == peers[p].needsDispatch {
      QueuedSame(peers, queue, p, s);
    } else if s.needsDispatch {
      QueuedMore(peers, queue, p, s);
    } else {
      QueuedLess(peers, queue, p, s);
    }
  }

  lemma QueuedSame(peers: seq<Slot>, queue: seq<nat>, p: nat, s: Slot)
    requires Queued(peers, queue) && p < |peers| && s.needsDispatch == peers[p].needsDispatch
    ensures Queued(peers[p := s], queue)
  {
  }

  lemma QueuedMore(peers: seq<Slot>, queue: seq<nat>, p: nat, s: Slot)
    requires Queued(peers, queue) && p < |peers| && s.needsDispatch && !peers[p].needsDispatch
    ensures Queued(peers[p := s], queue + [p])
  {
  }

  lemma QueuedLess(peers: seq<Slot>, queue: seq<nat>, p: nat, s: Slot)
    requires Queued(peers, queue) && p < |peers| && !s.needsDispatch && peers[p].needsDispatch
    ensures p in queue && Queued(peers[p := s], Without(queue, Index(queue, p)))
  {
    WithoutOne(queue, Index(queue, p));
    hide Without, Index;
  }

  lemma WithoutOne(queue: seq<nat>, i: nat)
    requires i < |queue| && forall i, j | 0 <= i < j < |queue| :: queue[i] != queue[j]
    ensures var r := Without(queue, i);
            && (forall k | 0 <= k < |r| :: r[k] in queue && r[k] != queue[i])
            && (forall k, l | 0 <= k < l < |r| :: r[k] != r[l])
            && (forall p | p in queue && p != queue[i] :: p in r)
  {
    var r := Without(queue, i);
    assert forall k | 0 <= k < |r| :: r[k] == queue[if k < i then k else k + 1];
    forall p | p in queue && p != queue[i] ensures p in r {
      var k :| 0 <= k < |queue| && queue[k] == p;
      assert r[if k < i then k else k - 1] == p;
    }
  }

  lemma FrontGone(peers: seq<Slot>, queue: seq<nat>)
    requires Queued(peers, queue) && queue != []
    ensures Requeued(peers, queue, queue[0], false) == queue[1..]
  {
    hide Queued;
    assert peers[queue[0]].needsDispatch by { FrontQueued(peers, queue); }
    assert Index(queue, queue[0]) == 0;
  }

  lemma FrontQueued(peers: seq<Slot>, queue: seq<nat>)
    requires Queued(peers, queue) && queue != []
    ensures queue[0] < |peers| && peers[queue[0]].needsDispatch
  {
  }

  /** One peer changes, and at most one report is made about it. */
  lemma Changes(peers: seq<Slot>, queue: seq<nat>, log: seq<Entry>, p: nat, s: Slot, queue': seq<nat>, log': seq<Entry>)
    requires Coherent(peers, queue, log, p) && p < |peers| && queue' == Requeued(peers, queue, p, s.needsDispatch)
    requires log' == log || (|log'| == |log| + 1 && log' == log + [log'[|log|]] && log'[|log|].peer == p
                             && MayFollow(log, log'[|log|]))
    ensures Coherent(peers[p := s], queue', log', p)
    ensures Fine(s, Open(log', p)) ==> Coherent(peers[p := s], queue', log', -1)
  {
    RequeuedKeeps(peers, queue, p, s);
    hide Requeued, Fine, Queued;
    if log' != log {
      var n := |log|;
      assert log'[..n] == log;
      forall i | 0 <= i < |log'| ensures MayFollow(log'[..i], log'[i]) {
        if i < n { assert log'[..i] == log[..i]; }
      }
      forall r: nat | r != p ensures Open(log', r) == Open(log, r) {}
    }
  }

  // ----- what the calls do to a peer -----

  /** enet_peer_reset_queues */
  function Emptied(s: Slot): Slot {
    s.(needsDispatch := false, packets := [], owes := false, owesOther := false)
  }

  /** enet_peer_reset */
  function Cleared(s: Slot): Slot {
    Emptied(s).(state := Disconnected)
  }

  /** enet_protocol_dispatch_state */
  function Reporting(s: Slot, state: PeerState): Slot {
    s.(state := state, needsDispatch := true)
  }

  /** enet_protocol_handle_disconnect, with what enet_protocol_handle_incoming_commands does after it if
      the command asks for an acknowledgement. */
  function AfterDisconnect(s: Slot, acknowledge: bool): Slot {
    var r := if s.state.Zombie? || s.state.AcknowledgingDisconnect? then s else Ended(s, acknowledge);
    r.(owes := r.owes || (acknowledge && !r.state.Disconnecting? && !r.state.AcknowledgingConnect?))
  }

  function Ended(s: Slot, acknowledge: bool): Slot {
    if s.state.ConnectionSucceeded? || s.state.Disconnecting? then Reporting(Emptied(s), Zombie)
    else if !s.state.Connected? && !s.state.DisconnectLater? then Cleared(s)
    else if acknowledge then Emptied(s).(state := AcknowledgingDisconnect)
    else Reporting(Emptied(s), Zombie)
  }

  /** Not connected yet, and not known to be on the way there. */
  predicate Unmade(state: PeerState) {
    state.Disconnected? || state.Connecting? || state.AcknowledgingConnect? || state.ConnectionPending?
  }

  /** enet_peer_disconnect */
  function AfterLeaving(s: Slot): Slot {
    if Leaving(s.state) then s
    else if s.state.Connected? || s.state.DisconnectLater? then Emptied(s).(state := Disconnecting)
    else Cleared(s)
  }

  predicate Leaving(state: PeerState) {
    state.Disconnecting? || state.Disconnected? || state.AcknowledgingDisconnect? || state.Zombie?
  }

  /** The report that a call may come with. */
  function Reports(p: nat, resets: bool): seq<Entry> {
    if resets then [Resets(p)] else []
  }

  predicate Made(state: PeerState) {
    state.Connected? || state.DisconnectLater? || state.Disconnecting? || state.ConnectionSucceeded?
  }

  /** A connection that has been made ends with a DISCONNECT in one of two ways: the peer is a zombie on the
      dispatch queue, or it owes the acknowledgement that will make it one.  The latter is for a connection in
      use, if an acknowledgement is asked for. */
  lemma DisconnectEnds(s: Slot, acknowledge: bool)
    requires Made(s.state)
    ensures var r := AfterDisconnect(s, acknowledge);
            && r.packets == []
            && ((r.state.Zombie? && r.needsDispatch) || (r.state.AcknowledgingDisconnect? && r.owes))
            && (r.state.AcknowledgingDisconnect? <==>
                acknowledge && (s.state.Connected? || s.state.DisconnectLater?))
  {
  }

  /** One that had been given up already, or whose end is on the way to the application, stays as it is. */
  lemma DisconnectAgain(s: Slot, acknowledge: bool)
    requires s.state.Zombie? || s.state.AcknowledgingDisconnect?
    ensures AfterDisconnect(s, acknowledge) == s.(owes := s.owes || acknowledge)
  {
  }

  /** A command of a datagram: a DISCONNECT or one whose handler leaves the state alone (PING, BANDWIDTH_LIMIT,
      THROTTLE_CONFIGURE); acknowledge tells that it asks for an acknowledgement, in a datagram with a time. */
  datatype Order = Order(disconnect: bool, acknowledge: bool)

  /** enet_protocol_handle_incoming_commands for a command that is not a DISCONNECT. */
  function AfterOther(s: Slot, acknowledge: bool): Slot {
    s.(owesOther := s.owesOther || (acknowledge && !s.state.Disconnecting? && !s.state.AcknowledgingConnect?
                                    && !s.state.AcknowledgingDisconnect?))
  }

  function AfterOrder(s: Slot, o: Order): Slot {
    if o.disconnect then AfterDisconnect(s, o.acknowledge) else AfterOther(s, o.acknowledge)
  }

  function AfterAll(s: Slot, orders: seq<Order>): Slot
    decreases |orders|
  {
    if orders == [] then s else AfterOrder(AfterAll(s, orders[..|orders| - 1]), orders[|orders| - 1])
  }

  predicate Owing(s: Slot) {
    s.owes || s.owesOther
  }

  /** Command j asks for an acknowledgement, and no DISCONNECT comes after it. */
  predicate AsksLast(orders: seq<Order>, j: nat) {
    j < |orders| && orders[j].acknowledge && forall k | j < k < |orders| :: !orders[k].disconnect
  }

  predicate HasDisconnect(orders: seq<Order>) {
    exists i :: 0 <= i < |orders| && orders[i].disconnect
  }

  /** A peer is free for the next connection after the commands of a datagram exactly if it was before or if one
      of them is a DISCONNECT and the connection had not been made.  It then has an acknowledgement left to send
      exactly if a command asks for one that no DISCONNECT follows, or nothing has cleared what it had before. */
  lemma {:induction false} LeftOver(s: Slot, orders: seq<Order>)
    ensures var r := AfterAll(s, orders);
            && (r.state.Disconnected? <==> s.state.Disconnected? || (Unmade(s.state) && HasDisconnect(orders)))
            && (Unmade(r.state) <==> Unmade(s.state)) && (!HasDisconnect(orders) ==> r.state == s.state)
            && (r.state.Disconnected? ==>
                (Owing(r) <==> (exists j :: AsksLast(orders, j)) || (!HasDisconnect(orders) && Owing(s))))
    decreases |orders|
  {
    if orders != [] {
      var n := |orders| - 1;
      var before, o := orders[..n], orders[n];
      LeftOver(s, before);
      OrderLeaves(AfterAll(s, before), o);
      hide AfterOrder, Owing, Unmade, AsksLast;
      assert HasDisconnect(orders) <==> o.disconnect || HasDisconnect(before) by {
        if HasDisconnect(before) { var i :| 0 <= i < n && before[i].disconnect; assert orders[i].disconnect; }
        if HasDisconnect(orders) && !o.disconnect {
          var i :| 0 <= i < |orders| && orders[i].disconnect;
          assert before[i].disconnect;
        }
      }
      AsksLastMore(orders);
    }
  }

  lemma OrderLeaves(s: Slot, o: Order)
    ensures var r := AfterOrder(s, o);
            && (r.state.Disconnected? <==> s.state.Disconnected? || (Unmade(s.state) && o.disconnect))
            && (Unmade(r.state) <==> Unmade(s.state)) && (!o.disconnect ==> r.state == s.state)
            && (r.state.Disconnected? ==> (Owing(r) <==> o.acknowledge || (!o.disconnect && Owing(s))))
  {
  }

  lemma AsksLastMore(orders: seq<Order>)
    requires orders != []
    ensures var n := |orders| - 1;
            (exists j :: AsksLast(orders, j)) <==>
            orders[n].acknowledge || (!orders[n].disconnect && exists j :: AsksLast(orders[..n], j))
  {
    var n := |orders| - 1;
    var before, o := orders[..n], orders[n];
    if j: nat :| AsksLast(orders, j) {
      if j < n { assert before[j] == orders[j] && AsksLast(before, j); }
    }
    if o.acknowledge { assert AsksLast(orders, n); }
    if !o.disconnect {
      if j: nat :| AsksLast(before, j) {
        assert forall k | j < k < n :: before[k] == orders[k];
        assert AsksLast(orders, j);
      }
    }
  }

  /** The concrete case: the other side gives up a connection whose making it has not acknowledged. */
  lemma FreePeerOwes()
    ensures var s := Slot(AcknowledgingConnect, false, [], false, false);
            && AfterDisconnect(s, true) == Slot(Disconnected, false, [], true, false)
            && AfterAll(s, [Order(true, false), Order(false, true)]) == Slot(Disconnected, false, [], false, true)
  {
    assert [Order(true, false), Order(false, true)][..1] == [Order(true, false)];
    assert [Order(true, false)][..0] == [];
  }

  // ----- one event -----

  /** The host after a report, and the report. */
  datatype Reported = Reported(peers: seq<Slot>, queue: seq<nat>, reports: seq<Entry>)

  /** What becomes of the peer at the front of the queue: it is taken off, and what it has to report is
      reported; with packets left it goes to the back. */
  function FrontReport(peers: seq<Slot>, queue: seq<nat>): (r: Reported)
    requires queue != [] && queue[0] < |peers|
    ensures |r.peers| == |peers| && (r.reports == [] ==> r.queue == queue[1..])
  {
    var p := queue[0];
    PeerReport(peers[p := peers[p].(needsDispatch := false)], queue[1..], p)
  }

  function PeerReport(peers: seq<Slot>, queue: seq<nat>, p: nat): (r: Reported)
    requires p < |peers|
    ensures |r.peers| == |peers| && (r.reports == [] ==> r.queue == queue)
  {
    var s := peers[p];
    if s.state.ConnectionPending? || s.state.ConnectionSucceeded? then
      Reported(peers[p := s.(state := Connected)], queue, [Connects(p)])
    else if s.state.Zombie? then Reported(peers[p := Cleared(s)], queue, [Disconnects(p), Resets(p)])
    else if !s.state.Connected? || s.packets == [] then Reported(peers, queue, [])
    else if |s.packets| == 1 then Reported(peers[p := s.(packets := [])], queue, [Receives(p, s.packets[0])])
    else
      Reported(peers[p := s.(packets := s.packets[1..], needsDispatch := true)], queue + [p],
               [Receives(p, s.packets[0])])
  }

  predicate Within(peers: seq<Slot>, queue: seq<nat>) {
    forall i | 0 <= i < |queue| :: queue[i] < |peers|
  }

  /** The first report there is to make, from the front of the queue on. */
  function NextReport(peers: seq<Slot>, queue: seq<nat>): Reported
    requires Within(peers, queue)
    decreases |queue|
  {
    if queue == [] then Reported(peers, queue, [])
    else
      var r := FrontReport(peers, queue);
      if r.reports != [] then r else NextReport(r.peers, r.queue)
  }

  /** What is reported about a peer, and what becomes of it. */
  predicate Tells(s: Slot, p: nat, r: Slot, reports: seq<Entry>) {
    && (s.state.ConnectionPending? || s.state.ConnectionSucceeded? ==> reports == [Connects(p)] && r.state.Connected?)
    && (s.state.Zombie? ==> reports == [Disconnects(p), Resets(p)] && r.state.Disconnected? && r.packets == [])
    && (s.state.Connected? ==>
          s.packets != [] && reports == [Receives(p, s.packets[0])] && s.packets == [s.packets[0]] + r.packets)
  }

  lemma FrontTells(peers: seq<Slot>, queue: seq<nat>)
    requires queue != [] && queue[0] < |peers|
    ensures var r, p := FrontReport(peers, queue), queue[0];
            if Waits(peers[p]) then
              && r.reports != [] && Tells(peers[p], p, r.peers[p], r.reports)
              && r.queue == queue[1..] + if peers[p].state.Connected? && |peers[p].packets| > 1 then [p] else []
            else
              && r.reports == [] && r.queue == queue[1..]
              && forall i | 0 <= i < |peers| :: Same(r.peers[i], peers[i])
  {
  }

  /** The report is about the first peer on the queue with something to report: that its connection is made, that
      it has ended, or its oldest packet.  A peer with more packets goes to the back, all before it are taken off. */
  lemma {:induction false} FirstReported(peers: seq<Slot>, queue: seq<nat>) returns (k: nat)
    requires Within(peers, queue)
    ensures k <= |queue| && forall j | 0 <= j < k :: !Waits(peers[queue[j]])
    ensures var r := NextReport(peers, queue);
            && |r.peers| == |peers|
            && if k == |queue| then r.reports == [] && r.queue == []
               else
                 var p := queue[k];
                 && Waits(peers[p]) && Tells(peers[p], p, r.peers[p], r.reports)
                 && r.queue ==
                    queue[k + 1..] + if peers[p].state.Connected? && |peers[p].packets| > 1 then [p] else []
    decreases |queue|
  {
    k := 0;
    if queue != [] {
      FrontTells(peers, queue);
      hide FrontReport;
      if !Waits(peers[queue[0]]) {
        var r := FrontReport(peers, queue);
        var n := FirstReported(r.peers, r.queue);
        k := n + 1;
        FoundLater(peers, r.peers, queue, n);
      }
      hide Waits, Tells;
    }
  }

  lemma FoundLater(peers: seq<Slot>, peers': seq<Slot>, queue: seq<nat>, n: nat)
    requires Within(peers, queue) && queue != [] && n < |queue| && |peers'| == |peers|
    requires forall i | 0 <= i < |peers| :: Same(peers'[i], peers[i])
    requires !Waits(peers[queue[0]]) && forall j | 0 <= j < n :: !Waits(peers'[queue[1..][j]])
    ensures forall j | 0 <= j < n + 1 :: !Waits(peers[queue[j]])
    ensures n + 1 < |queue| ==>
              && queue[1..][n] == queue[n + 1] && queue[1..][n + 1..] == queue[n + 2..]
              && Same(peers'[queue[n + 1]], peers[queue[n + 1]])
  {
    forall j | 0 <= j < n + 1 ensures !Waits(peers[queue[j]]) { if j > 0 { assert queue[1..][j - 1] == queue[j]; } }
  }

  predicate Same(s: Slot, r: Slot) {
    s.state == r.state && s.packets == r.packets
  }

  // ----- the host -----

  class EventHost {
    var peers: seq<Slot>
    var dispatchQueue: seq<nat>
    ghost var log: seq<Entry>

    ghost predicate Valid()
      reads this
    {
      Coherent(peers, dispatchQueue, log, -1)
    }

    ghost predicate ValidBut(p: nat)
      reads this
    {
      p < |peers| && Coherent(peers, dispatchQueue, log, p)
    }

    constructor (peerCount: nat)
      ensures Valid() && |peers| == peerCount && dispatchQueue == [] && log == []
      ensures forall p | 0 <= p < |peers| :: peers[p] == Slot(Disconnected, false, [], false, false)
    {
      peers := seq(peerCount, _ => Slot(Disconnected, false, [], false, false));
      dispatchQueue, log := [], [];
    }

    lemma Still(p: nat)
      requires Valid() && p < |peers|
      ensures ValidBut(p) && Fine(peers[p], Open(log, p))
    {
    }

    /** enet_peer_reset_queues */
    method ResetQueues(p: nat)
      requires ValidBut(p)
      modifies this`peers, this`dispatchQueue
      ensures ValidBut(p) && peers == old(peers)[p := Emptied(old(peers)[p])]
      ensures !old(peers)[p].needsDispatch ==> dispatchQueue == old(dispatchQueue)
    {
      ghost var s := Emptied(peers[p]);
      Changes(peers, dispatchQueue, log, p, s, Requeued(peers, dispatchQueue, p, false), log);
      if peers[p].needsDispatch {
        dispatchQueue := Without(dispatchQueue, Index(dispatchQueue, p));
        peers := peers[p := peers[p].(needsDispatch := false)];
      }
      peers := peers[p := peers[p].(packets := [], owes := false, owesOther := false)];
    }

    /** The rest of the state is as it was, and p is well again. */
    lemma Done(p: nat)
      requires ValidBut(p) && Fine(peers[p], Open(log, p))
      ensures Valid()
    {
    }

    /** p gets a state, and at most one report is made about it; the queue stays. */
    ghost method Note(p: nat, state: PeerState, e: seq<Entry>)
      requires ValidBut(p) && (e == [] || (|e| == 1 && e[0].peer == p && MayFollow(log, e[0])))
      modifies this`log
      ensures Coherent(peers[p := peers[p].(state := state)], dispatchQueue, log, p) && log == old(log) + e
      ensures e == [] ==> log == old(log)
    {
      Changes(peers, dispatchQueue, log, p, peers[p].(state := state), dispatchQueue, log + e);
      log := log + e;
    }

    /** enet_peer_reset */
    method Reset(p: nat)
      requires ValidBut(p)
      modifies this
      ensures Valid() && peers == old(peers)[p := Cleared(old(peers)[p])] && log == old(log) + [Resets(p)]
      ensures !old(peers)[p].needsDispatch ==> dispatchQueue == old(dispatchQueue)
    {
      hide Coherent;
      Note(p, Disconnected, [Resets(p)]);
      peers := peers[p := peers[p].(state := Disconnected)];
      ResetQueues(p);
      Done(p);
    }

    /** enet_protocol_dispatch_state */
    method DispatchState(p: nat, state: PeerState)
      requires ValidBut(p)
      modifies this`peers, this`dispatchQueue
      ensures ValidBut(p) && peers == old(peers)[p := Reporting(old(peers)[p], state)]
      ensures dispatchQueue == if old(peers)[p].needsDispatch then old(dispatchQueue) else old(dispatchQueue) + [p]
    {
      hide Coherent;
      Queues(p);
      Changes(peers, dispatchQueue, log, p, Reporting(peers[p], state), Requeued(peers, dispatchQueue, p, true), log);
      peers := peers[p := peers[p].(state := state)];
      if !peers[p].needsDispatch {
        dispatchQueue := dispatchQueue + [p];
        peers := peers[p := peers[p].(needsDispatch := true)];
      }
      assert peers == old(peers)[p := Reporting(old(peers)[p], state)];
    }

    lemma Queues(p: nat)
      requires ValidBut(p)
      ensures Queued(peers, dispatchQueue)
    {
    }

    /** enet_protocol_notify_connect; event tells whether the caller can be told at once. */
    method NotifyConnect(p: nat, event: bool)
      requires Valid() && p < |peers| && (peers[p].state.Connecting? || peers[p].state.AcknowledgingConnect?)
      modifies this
      ensures Valid()
      ensures event ==> peers == old(peers)[p := old(peers)[p].(state := Connected)] && log == old(log) + [Connects(p)]
      ensures !event ==>
                && peers == old(peers)[p := Reporting(old(peers)[p],
                     if old(peers)[p].state.Connecting? then ConnectionSucceeded else ConnectionPending)]
                && log == old(log)
    {
      hide Coherent, Open, Reporting;
      Still(p);
      if event {
        Connect(p);
      } else {
        var state := if peers[p].state.Connecting? then ConnectionSucceeded else ConnectionPending;
        DispatchState(p, state);
        ReportingIs(old(peers)[p], state);
        Done(p);
      }
    }

    lemma ReportingIs(s: Slot, state: PeerState)
      ensures Reporting(s, state) == s.(state := state, needsDispatch := true)
    {
    }

    /** A connection is reported at once. */
    method Connect(p: nat)
      requires ValidBut(p) && !Open(log, p) && peers[p].packets == []
      modifies this`peers, this`log
      ensures Valid() && peers == old(peers)[p := old(peers)[p].(state := Connected)] && log == old(log) + [Connects(p)]
    {
      hide Coherent;
      Note(p, Connected, [Connects(p)]);
      peers := peers[p := peers[p].(state := Connected)];
      Done(p);
    }

    /** enet_protocol_notify_disconnect */
    method NotifyDisconnect(p: nat, event: bool)
      requires Valid() && p < |peers|
      modifies this
      ensures Valid()
      ensures var s := old(peers)[p];
              if !s.state.Connecting? && Rank(s.state) < Rank(ConnectionSucceeded) then
                peers == old(peers)[p := Cleared(s)] && log == old(log) + [Resets(p)]
              else if event then
                peers == old(peers)[p := Cleared(s)] && log == old(log) + [Disconnects(p), Resets(p)]
              else peers == old(peers)[p := Reporting(s, Zombie)] && log == old(log)
    {
      Still(p);
      hide Coherent;
      if !peers[p].state.Connecting? && Rank(peers[p].state) < Rank(ConnectionSucceeded) {
        Reset(p);
      } else if event {
        Tell(p);
        Reset(p);
      } else {
        DispatchState(p, Zombie);
        Done(p);
      }
    }

    /** The report of a disconnection. */
    ghost method Tell(p: nat)
      requires ValidBut(p)
      modifies this`log
      ensures ValidBut(p) && log == old(log) + [Disconnects(p)]
    {
      hide Coherent;
      Note(p, peers[p].state, [Disconnects(p)]);
      assert peers[p := peers[p].(state := peers[p].state)] == peers;
    }

    /** enet_protocol_handle_disconnect and the acknowledgement of the command, if it asks for one. */
    method HandleDisconnect(p: nat, acknowledge: bool)
      requires Valid() && p < |peers|
      modifies this
      ensures Valid() && peers == old(peers)[p := AfterDisconnect(old(peers)[p], acknowledge)]
      ensures log == old(log) + Reports(p, Unmade(old(peers)[p].state))
      ensures peers[p].state.Zombie? ==> p in dispatchQueue
    {
      Still(p);
      hide Coherent;
      if !peers[p].state.Zombie? && !peers[p].state.AcknowledgingDisconnect? { Leave(p, acknowledge); }
      Still(p);
      if acknowledge && !peers[p].state.Disconnecting? && !peers[p].state.AcknowledgingConnect? {
        Owe(p, true);
        Done(p);
      }
      assert peers == old(peers)[p := AfterDisconnect(old(peers)[p], acknowledge)];
      ZombieQueued(p);
    }

    /** Another command, whose handler leaves the state alone. */
    method HandleOther(p: nat, acknowledge: bool)
      requires Valid() && p < |peers|
      modifies this`peers
      ensures Valid() && peers == old(peers)[p := AfterOther(old(peers)[p], acknowledge)]
    {
      Still(p);
      var owesOther := peers[p].owesOther;
      if acknowledge {
        match peers[p].state {
          case Disconnecting | AcknowledgingConnect | AcknowledgingDisconnect =>
          case _ => owesOther := true;
        }
      }
      Changes(peers, dispatchQueue, log, p, peers[p].(owesOther := owesOther), dispatchQueue, log);
      hide Coherent;
      peers := peers[p := peers[p].(owesOther := owesOther)];
    }

    /** The loop of enet_protocol_handle_incoming_commands over commands of these kinds. */
    method HandleCommands(p: nat, orders: seq<Order>)
      requires Valid() && p < |peers|
      modifies this
      ensures Valid() && peers == old(peers)[p := AfterAll(old(peers)[p], orders)]
    {
      hide Coherent, AfterDisconnect, AfterOther;
      for i := 0 to |orders|
        invariant Valid() && peers == old(peers)[p := AfterAll(old(peers)[p], orders[..i])]
      {
        assert orders[..i + 1][..i] == orders[..i];
        if orders[i].disconnect {
          HandleDisconnect(p, orders[i].acknowledge);
        } else {
          HandleOther(p, orders[i].acknowledge);
        }
      }
      assert orders[..|orders|] == orders;
    }

    lemma ZombieQueued(p: nat)
      requires Valid() && p < |peers|
      ensures peers[p].state.Zombie? ==> p in dispatchQueue
    {
      Still(p);
    }

    /** The part of it that ends the connection. */
    method Leave(p: nat, acknowledge: bool)
      requires ValidBut(p) && Fine(peers[p], Open(log, p)) && !peers[p].state.Zombie?
               && !peers[p].state.AcknowledgingDisconnect?
      modifies this
      ensures Valid() && peers == old(peers)[p := Ended(old(peers)[p], acknowledge)]
      ensures log == old(log) + Reports(p, Unmade(old(peers)[p].state))
    {
      hide Coherent;
      var state := peers[p].state;
      ResetQueues(p);
      if state.ConnectionSucceeded? || state.Disconnecting? {
        DispatchState(p, Zombie);
      } else if !state.Connected? && !state.DisconnectLater? {
        Reset(p);
        Still(p);
      } else if acknowledge {
        Note(p, AcknowledgingDisconnect, []);
        peers := peers[p := peers[p].(state := AcknowledgingDisconnect)];
      } else {
        DispatchState(p, Zombie);
      }
      Done(p);
    }

    /** An acknowledgement of a DISCONNECT is queued, or gone. */
    method Owe(p: nat, owes: bool)
      requires ValidBut(p)
      modifies this`peers
      ensures ValidBut(p) && peers == old(peers)[p := old(peers)[p].(owes := owes)]
    {
      Changes(peers, dispatchQueue, log, p, peers[p].(owes := owes), dispatchQueue, log);
      hide Coherent;
      peers := peers[p := peers[p].(owes := owes)];
    }

    /** enet_protocol_send_acknowledgements, for one that acknowledges a DISCONNECT. */
    method AcknowledgeDisconnect(p: nat)
      requires Valid() && p < |peers| && peers[p].owes && !peers[p].state.Disconnected? && !peers[p].state.Zombie?
      modifies this
      ensures Valid() && peers == old(peers)[p := Reporting(old(peers)[p], Zombie).(owes := false)] && log == old(log)
    {
      Still(p);
      hide Coherent;
      DispatchState(p, Zombie);
      Owe(p, false);
      hide Open;
      Done(p);
    }

    /** A dispatch pass of a channel hands packets to the peer. */
    method Dispatch(p: nat, packets: seq<nat>)
      requires Valid() && p < |peers| && (peers[p].state.Connected? || peers[p].state.DisconnectLater?) && packets != []
      modifies this`peers, this`dispatchQueue
      ensures Valid()
      ensures peers == old(peers)[p := old(peers)[p].(packets := old(peers)[p].packets + packets,
                                                      needsDispatch := true)]
    {
      Still(p);
      hide Coherent;
      Queues(p);
      Changes(peers, dispatchQueue, log, p, peers[p].(packets := peers[p].packets + packets, needsDispatch := true),
              Requeued(peers, dispatchQueue, p, true), log);
      peers := peers[p := peers[p].(packets := peers[p].packets + packets)];
      if !peers[p].needsDispatch {
        dispatchQueue := dispatchQueue + [p];
        peers := peers[p := peers[p].(needsDispatch := true)];
      }
      assert peers == old(peers)[p := old(peers)[p].(packets := old(peers)[p].packets + packets,
                                                     needsDispatch := true)];
      Done(p);
    }

    /** enet_peer_receive; none is returned for a peer without packets. */
    method Receive(p: nat) returns (packet: nat, none: bool)
      requires ValidBut(p)
      modifies this`peers
      ensures ValidBut(p) && none == (old(peers)[p].packets == [])
      ensures none ==> peers == old(peers)
      ensures !none ==>
                && packet == old(peers)[p].packets[0]
                && peers == old(peers)[p := old(peers)[p].(packets := old(peers)[p].packets[1..])]
    {
      if peers[p].packets == [] { return 0, true; }
      Changes(peers, dispatchQueue, log, p, peers[p].(packets := peers[p].packets[1..]), dispatchQueue, log);
      hide Coherent;
      packet, none := peers[p].packets[0], false;
      peers := peers[p := peers[p].(packets := peers[p].packets[1..])];
    }

    /** The same, called by the application. */
    method ReceiveNow(p: nat) returns (packet: nat, none: bool)
      requires Valid() && p < |peers|
      modifies this`peers
      ensures Valid() && none == (old(peers)[p].packets == [])
      ensures none ==> peers == old(peers)
      ensures !none ==>
                && packet == old(peers)[p].packets[0]
                && peers == old(peers)[p := old(peers)[p].(packets := old(peers)[p].packets[1..])]
    {
      Still(p);
      hide Coherent;
      packet, none := Receive(p);
      Done(p);
    }

    /** enet_peer_disconnect */
    method Disconnect(p: nat)
      requires Valid() && p < |peers|
      modifies this
      ensures Valid() && peers == old(peers)[p := AfterLeaving(old(peers)[p])]
      ensures log == old(log) + Reports(p, !Leaving(old(peers)[p].state) && !Known(old(peers)[p].state))
      ensures var s, r := old(peers)[p], peers[p];
              if s.state.Connected? || s.state.DisconnectLater? then r.state.Disconnecting? && log == old(log)
              else Leaving(s.state) || r.state.Disconnected?
    {
      Still(p);
      hide Coherent;
      var state := peers[p].state;
      if Leaving(state) { return; }
      ResetQueues(p);
      if state.Connected? || state.DisconnectLater? {
        Note(p, Disconnecting, []);
        peers := peers[p := peers[p].(state := Disconnecting)];
        Done(p);
      } else {
        Reset(p);
      }
    }

    /** enet_peer_disconnect_later; idle tells that nothing is queued or in flight. */
    method DisconnectWhenIdle(p: nat, idle: bool)
      requires Valid() && p < |peers|
      modifies this
      ensures Valid()
      ensures var s := old(peers)[p];
              if (s.state.Connected? || s.state.DisconnectLater?) && !idle then
                peers == old(peers)[p := s.(state := DisconnectLater)] && log == old(log)
              else
                && peers == old(peers)[p := AfterLeaving(s)]
                && log == old(log) + Reports(p, !Leaving(s.state) && !Known(s.state))
    {
      Still(p);
      hide Coherent;
      if (peers[p].state.Connected? || peers[p].state.DisconnectLater?) && !idle {
        Note(p, DisconnectLater, []);
        peers := peers[p := peers[p].(state := DisconnectLater)];
        Done(p);
      } else {
        Disconnect(p);
      }
    }

    /** enet_peer_disconnect_now */
    method DisconnectNow(p: nat)
      requires Valid() && p < |peers|
      modifies this
      ensures Valid()
      ensures peers == old(peers)[p := if old(peers)[p].state.Disconnected? then old(peers)[p]
                                  else Cleared(old(peers)[p])]
      ensures log == old(log) + Reports(p, !old(peers)[p].state.Disconnected?)
    {
      Still(p);
      hide Coherent;
      if peers[p].state.Disconnected? { return; }
      if !peers[p].state.Zombie? && !peers[p].state.Disconnecting? { ResetQueues(p); }
      Reset(p);
    }

    /** The search of enet_host_connect and enet_protocol_handle_connect for a free peer. */
    method FindFree() returns (p: nat)
      ensures p <= |peers| && (p < |peers| ==> peers[p].state.Disconnected?)
      ensures forall k | 0 <= k < p :: !peers[k].state.Disconnected?
    {
      p := 0;
      while p < |peers|
        invariant p <= |peers| && forall k | 0 <= k < p :: !peers[k].state.Disconnected?
      {
        if peers[p].state.Disconnected? { return; }
        p := p + 1;
      }
    }

    /** Taking it, for a connection asked for by this side or by the other. */
    method Begin(p: nat, ours: bool)
      requires Valid() && p < |peers| && peers[p].state.Disconnected?
      modifies this
      ensures Valid() && log == old(log)
      ensures peers == old(peers)[p := old(peers)[p].(state := if ours then Connecting else AcknowledgingConnect)]
    {
      Still(p);
      hide Coherent;
      Note(p, if ours then Connecting else AcknowledgingConnect, []);
      peers := peers[p := peers[p].(state := if ours then Connecting else AcknowledgingConnect)];
      Done(p);
    }

    /** enet_protocol_dispatch_incoming_commands: the first report there is to make, if there is one. */
    method DispatchIncoming() returns (told: bool)
      requires Valid()
      modifies this
      ensures Valid() && Within(old(peers), old(dispatchQueue))
      ensures var r := NextReport(old(peers), old(dispatchQueue));
              peers == r.peers && dispatchQueue == r.queue && log == old(log) + r.reports && told == (r.reports != [])
      ensures !told ==> dispatchQueue == [] && forall p | 0 <= p < |peers| :: !Waits(peers[p])
    {
      assert log + [] == log;
      hide Coherent, FrontReport;
      while dispatchQueue != []
        invariant Valid() && Within(peers, dispatchQueue) && log == old(log)
        invariant NextReport(peers, dispatchQueue) == NextReport(old(peers), old(dispatchQueue))
        decreases |dispatchQueue|
      {
        told := DispatchFront();
        if told { return; }
      }
      told := false;
    }

    /** One round: the front of the queue is taken off it, and what it has to report is reported. */
    method DispatchFront() returns (told: bool)
      requires Valid() && dispatchQueue != []
      modifies this
      ensures Valid() && old(dispatchQueue)[0] < |old(peers)|
      ensures var r := FrontReport(old(peers), old(dispatchQueue));
              peers == r.peers && dispatchQueue == r.queue && log == old(log) + r.reports && told == (r.reports != [])
      ensures !told ==> log == old(log)
    {
      hide Coherent, Fine, PeerReport;
      var p := TakeFront();
      told := DispatchPeer(p);
    }

    method TakeFront() returns (p: nat)
      requires Valid() && dispatchQueue != []
      modifies this`peers, this`dispatchQueue
      ensures p == old(dispatchQueue)[0] && ValidBut(p) && p < |old(peers)| && dispatchQueue == old(dispatchQueue)[1..]
      ensures peers == old(peers)[p := old(peers)[p].(needsDispatch := false)]
      ensures Fine(peers[p].(needsDispatch := true), Open(log, p))
    {
      p := dispatchQueue[0];
      Still(p);
      Queues(p);
      FrontGone(peers, dispatchQueue);
      ghost var s := peers[p].(needsDispatch := false);
      hide Coherent, Fine, Queued, Requeued;
      Changes(peers, dispatchQueue, log, p, s, dispatchQueue[1..], log);
      dispatchQueue := dispatchQueue[1..];
      peers := peers[p := peers[p].(needsDispatch := false)];
    }

    /** What the peer has to report, and whether that is an event. */
    method DispatchPeer(p: nat) returns (told: bool)
      requires ValidBut(p) && !peers[p].needsDispatch && Fine(peers[p].(needsDispatch := true), Open(log, p))
      modifies this
      ensures Valid() && p < |old(peers)|
      ensures var r := PeerReport(old(peers), old(dispatchQueue), p);
              peers == r.peers && dispatchQueue == r.queue && log == old(log) + r.reports && told == (r.reports != [])
      ensures !told ==> log == old(log)
    {
      Queues(p);
      hide Coherent, Queued;
      match peers[p].state {
        case ConnectionPending | ConnectionSucceeded =>
          Connect(p);
          told := true;
        case Zombie =>
          DispatchGone(p);
          told := true;
        case Connected =>
          told := DispatchPacket(p);
        case _ =>
          Done(p);
          told := false;
      }
    }

    method DispatchGone(p: nat)
      requires ValidBut(p) && !peers[p].needsDispatch
      modifies this
      ensures Valid() && p < |old(peers)| && peers == old(peers)[p := Cleared(old(peers)[p])]
      ensures dispatchQueue == old(dispatchQueue) && log == old(log) + [Disconnects(p), Resets(p)]
    {
      Queues(p);
      hide Coherent, Queued;
      Tell(p);
      Reset(p);
    }

    /** A connected peer's next packet; it goes back on the queue if there are more. */
    method DispatchPacket(p: nat) returns (told: bool)
      requires ValidBut(p) && peers[p].state.Connected? && !peers[p].needsDispatch && Open(log, p)
      modifies this
      ensures Valid() && p < |old(peers)|
      ensures var r := PeerReport(old(peers), old(dispatchQueue), p);
              peers == r.peers && dispatchQueue == r.queue && log == old(log) + r.reports && told == (r.reports != [])
      ensures !told ==> log == old(log)
    {
      hide Coherent;
      var none := ReportPacket(p);
      if none {
        Done(p);
        return false;
      }
      if peers[p].packets != [] { DispatchState(p, Connected); }
      Done(p);
      told := true;
    }

    /** The packet is taken and reported. */
    method ReportPacket(p: nat) returns (none: bool)
      requires ValidBut(p) && peers[p].state.Connected? && Open(log, p)
      modifies this`peers, this`log
      ensures ValidBut(p) && Open(log, p) && p < |old(peers)| && none == (old(peers)[p].packets == [])
      ensures none ==> peers == old(peers) && log == old(log)
      ensures !none ==>
                && peers == old(peers)[p := old(peers)[p].(packets := old(peers)[p].packets[1..])]
                && log == old(log) + [Receives(p, old(peers)[p].packets[0])]
    {
      hide Coherent;
      var packet;
      packet, none := Receive(p);
      if none { return; }
      Note(p, Connected, [Receives(p, packet)]);
      assert peers[p := peers[p].(state := Connected)] == peers;
    }
  }
}
