/** Packets and the commands that hold them: when a packet is destroyed. */
module Lifetime {
  import opened Queues

  /** A command in one of the lists of a peer or a channel. */
  datatype Command = Bare | Holding(packet: nat)

  // ----- how many commands hold a packet -----

  function One(e: Command, p: nat): nat {
    if e == Holding(p) then 1 else 0
  }

  function Count(queue: seq<Command>, p: nat): nat {
    if queue == [] then 0 else Count(queue[..|queue| - 1], p) + One(queue[|queue| - 1], p)
  }

  function Total(queues: seq<seq<Command>>, p: nat): nat {
    if queues == [] then 0 else Total(queues[..|queues| - 1], p) + Count(queues[|queues| - 1], p)
  }

  lemma {:induction false} CountConcat(a: seq<Command>, b: seq<Command>, p: nat)
    ensures Count(a + b, p) == Count(a, p) + Count(b, p)
    decreases |b|
  {
    if b == [] {
      assert a + b == a;
    } else {
      var n := |b| - 1;
      assert (a + b)[..|a| + n] == a + b[..n];
      CountConcat(a, b[..n], p);
    }
  }

  lemma CountInsert(queue: seq<Command>, at: nat, e: Command, p: nat)
    requires at <= |queue|
    ensures Count(Insert(queue, at, e), p) == Count(queue, p) + One(e, p)
  {
    assert queue == queue[..at] + queue[at..];
    CountConcat(queue[..at] + [e], queue[at..], p);
    CountConcat(queue[..at], [e], p);
    CountConcat(queue[..at], queue[at..], p);
    hide Count, One;
  }

  lemma CountWithout(queue: seq<Command>, i: nat, p: nat)
    requires i < |queue|
    ensures Count(queue, p) == Count(Without(queue, i), p) + One(queue[i], p)
  {
    WithoutInserted(queue, i);
    hide Count, One, Insert, Without;
    CountInsert(Without(queue, i), i, queue[i], p);
  }

  lemma CountSplit(queue: seq<Command>, start: nat, end: nat, p: nat)
    requires start <= end <= |queue|
    ensures Count(queue, p) == Count(queue[..start] + queue[end..], p) + Count(queue[start..end], p)
  {
    assert queue == (queue[..start] + queue[start..end]) + queue[end..];
    CountConcat(queue[..start] + queue[start..end], queue[end..], p);
    CountConcat(queue[..start], queue[start..end], p);
    CountConcat(queue[..start], queue[end..], p);
    hide Count;
  }

  lemma {:induction false} TotalUpdate(queues: seq<seq<Command>>, k: nat, queue: seq<Command>, p: nat)
    requires k < |queues|
    ensures Total(queues[k := queue], p) + Count(queues[k], p) == Total(queues, p) + Count(queue, p)
    decreases |queues|
  {
    hide Count;
    var n := |queues| - 1;
    if k == n {
      assert queues[k := queue][..n] == queues[..n];
    } else {
      assert queues[k := queue][..n] == queues[..n][k := queue];
      TotalUpdate(queues[..n], k, queue, p);
    }
  }

  lemma {:induction false} TotalNone(queues: seq<seq<Command>>, p: nat)
    requires forall k | 0 <= k < |queues| :: queues[k] == []
    ensures Total(queues, p) == 0
    decreases |queues|
  {
    if queues != [] { TotalNone(queues[..|queues| - 1], p); }
  }

  // ----- the invariant -----

  /** The count of a packet is the number of commands that hold it, and none of them holds one that has
      been destroyed or does not exist. */
  ghost predicate Kept(counts: seq<nat>, live: seq<bool>, queues: seq<seq<Command>>, p: nat)
    requires |counts| == |live|
  {
    if p < |counts| then counts[p] == Total(queues, p) && (counts[p] > 0 ==> live[p]) else Total(queues, p) == 0
  }

  ghost predicate Counted(counts: seq<nat>, live: seq<bool>, queues: seq<seq<Command>>) {
    |counts| == |live| && forall p: nat :: Kept(counts, live, queues, p)
  }

  /** One list changes by one command. */
  lemma OneMore(counts: seq<nat>, live: seq<bool>, queues: seq<seq<Command>>, k: nat, at: nat, p: nat)
    requires Counted(counts, live, queues) && k < |queues| && at <= |queues[k]| && p < |live| && live[p]
    ensures Counted(counts[p := counts[p] + 1], live, queues[k := Insert(queues[k], at, Holding(p))])
  {
    hide Total, Count, Insert;
    var counts', queues' := counts[p := counts[p] + 1], queues[k := Insert(queues[k], at, Holding(p))];
    forall r: nat ensures Kept(counts', live, queues', r) {
      assert Kept(counts, live, queues, r);
      TotalUpdate(queues, k, Insert(queues[k], at, Holding(p)), r);
      CountInsert(queues[k], at, Holding(p), r);
    }
  }

  /** The counts once a command no longer counts. */
  function Less(counts: seq<nat>, e: Command): seq<nat>
    requires e.Holding? ==> e.packet < |counts| && counts[e.packet] > 0
  {
    if e.Holding? then counts[e.packet := counts[e.packet] - 1] else counts
  }

  lemma OneLess(counts: seq<nat>, live: seq<bool>, queues: seq<seq<Command>>, k: nat, i: nat)
    requires Counted(counts, live, queues) && k < |queues| && i < |queues[k]|
    ensures var e := queues[k][i]; e.Holding? ==> e.packet < |counts| && counts[e.packet] > 0 && live[e.packet]
    ensures Counted(Less(counts, queues[k][i]), live, queues[k := Without(queues[k], i)])
  {
    hide Total, Count, Without;
    var e := queues[k][i];
    if e.Holding? { HolderCounts(counts, live, queues, k, i); }
    var counts', queues' := Less(counts, e), queues[k := Without(queues[k], i)];
    forall r: nat ensures Kept(counts', live, queues', r) {
      assert Kept(counts, live, queues, r);
      TotalUpdate(queues, k, Without(queues[k], i), r);
      CountWithout(queues[k], i, r);
    }
  }

  lemma HolderCounts(counts: seq<nat>, live: seq<bool>, queues: seq<seq<Command>>, k: nat, i: nat)
    requires Counted(counts, live, queues) && k < |queues| && i < |queues[k]| && queues[k][i].Holding?
    ensures var p := queues[k][i].packet; p < |counts| && counts[p] > 0 && live[p]
  {
    var p := queues[k][i].packet;
    hide Total, Count, Without;
    assert Kept(counts, live, queues, p);
    TotalUpdate(queues, k, Without(queues[k], i), p);
    CountWithout(queues[k], i, p);
  }

  /** Destroyed are exactly the packets that had a holder and have none any more. */
  ghost predicate Released(live0: seq<bool>, live: seq<bool>, queues0: seq<seq<Command>>, queues: seq<seq<Command>>) {
    && |live| == |live0|
    && forall p | 0 <= p < |live| :: LetGo(live0[p], live[p], Total(queues0, p), Total(queues, p))
  }

  predicate LetGo(live0: bool, live: bool, held0: nat, held: nat) {
    held <= held0 && (live <==> live0 && (held0 > 0 ==> held > 0))
  }

  lemma ReleasedOn(live0: seq<bool>, live1: seq<bool>, live2: seq<bool>,
                   queues0: seq<seq<Command>>, queues1: seq<seq<Command>>, queues2: seq<seq<Command>>)
    requires Released(live0, live1, queues0, queues1) && Released(live1, live2, queues1, queues2)
    ensures Released(live0, live2, queues0, queues2)
  {
    hide Total;
    forall p | 0 <= p < |live2| ensures LetGo(live0[p], live2[p], Total(queues0, p), Total(queues2, p)) {
      assert LetGo(live0[p], live1[p], Total(queues0, p), Total(queues1, p));
    }
  }

  /** A command goes, and with it its packet if it was the last to hold it. */
  lemma ReleasedOne(counts: seq<nat>, live: seq<bool>, queues: seq<seq<Command>>, k: nat, i: nat, live': seq<bool>)
    requires Counted(counts, live, queues) && k < |queues| && i < |queues[k]|
    requires var e := queues[k][i];
             e.Holding? ==>
               e.packet < |counts| && counts[e.packet] > 0 && live' == live[e.packet := counts[e.packet] > 1]
    requires queues[k][i].Bare? ==> live' == live
    ensures Released(live, live', queues, queues[k := Without(queues[k], i)])
  {
    hide Total, Count, Without;
    forall p | 0 <= p < |live'|
      ensures LetGo(live[p], live'[p], Total(queues, p), Total(queues[k := Without(queues[k], i)], p))
    {
      assert Kept(counts, live, queues, p);
      TotalUpdate(queues, k, Without(queues[k], i), p);
      CountWithout(queues[k], i, p);
    }
  }

  /** The packets of a host and the lists of commands that may hold them. */
  class Store {
    var referenceCount: seq<nat>
    ghost var live: seq<bool>
    var queues: seq<seq<Command>>

    ghost predicate Valid()
      reads this
    {
      Counted(referenceCount, live, queues)
    }

    constructor (lists: nat)
      ensures Valid() && referenceCount == [] && |queues| == lists && forall k | 0 <= k < lists :: queues[k] == []
    {
      referenceCount, live, queues := [], [], seq(lists, _ => []);
      new;
      forall p: nat ensures Kept(referenceCount, live, queues, p) { TotalNone(queues, p); }
    }

    /** enet_packet_create */
    method Create() returns (p: nat)
      requires Valid()
      modifies this`referenceCount, this`live
      ensures Valid() && p == |old(live)| && live == old(live) + [true] && referenceCount == old(referenceCount) + [0]
    {
      hide Total;
      p := |referenceCount|;
      assert Kept(referenceCount, live, queues, p);
      ghost var counts, before := referenceCount, live;
      referenceCount, live := referenceCount + [0], live + [true];
      forall r: nat ensures Kept(referenceCount, live, queues, r) { assert Kept(counts, before, queues, r); }
    }

    /** enet_packet_destroy: once, and of a packet that nothing holds. */
    method Destroy(p: nat)
      requires Valid() && p < |live| && live[p] && referenceCount[p] == 0
      modifies this`live
      ensures Valid() && live == old(live)[p := false]
    {
      hide Total;
      ghost var before := live;
      live := live[p := false];
      forall r: nat ensures Kept(referenceCount, live, queues, r) { assert Kept(referenceCount, before, queues, r); }
    }

    /** A command with the packet is put into a list. */
    method Hold(k: nat, at: nat, p: nat)
      requires Valid() && k < |queues| && at <= |queues[k]| && p < |live| && live[p]
      modifies this`referenceCount, this`queues
      ensures Valid() && |referenceCount| == |old(referenceCount)|
      ensures referenceCount == old(referenceCount)[p := old(referenceCount)[p] + 1]
      ensures queues == old(queues)[k := Insert(old(queues)[k], at, Holding(p))]
    {
      OneMore(referenceCount, live, queues, k, at, p);
      hide Kept, Insert;
      referenceCount := referenceCount[p := referenceCount[p] + 1];
      queues := queues[k := Insert(queues[k], at, Holding(p))];
    }

    /** A command is taken out of a list and freed; the packet goes with its last command. */
    method Drop(k: nat, i: nat)
      requires Valid() && k < |queues| && i < |queues[k]|
      modifies this
      ensures Valid() && queues == old(queues)[k := Without(old(queues)[k], i)]
      ensures Released(old(live), live, old(queues), queues)
    {
      ghost var counts, live0, queues0 := referenceCount, live, queues;
      var e := Release(k, i);
      hide Kept, Without, Released;
      if e.Holding? && referenceCount[e.packet] == 0 { Destroy(e.packet); }
      ReleasedOne(counts, live0, queues0, k, i, live);
    }

    /** The command is taken out, and no longer counts. */
    method Release(k: nat, i: nat) returns (e: Command)
      requires Valid() && k < |queues| && i < |queues[k]|
      modifies this`referenceCount, this`queues
      ensures Valid() && queues == old(queues)[k := Without(old(queues)[k], i)] && e == old(queues)[k][i]
      ensures e.Holding? ==> e.packet < |old(referenceCount)| && old(referenceCount)[e.packet] > 0
      ensures referenceCount == Less(old(referenceCount), e)
      ensures e.Holding? ==> live[e.packet]
    {
      OneLess(referenceCount, live, queues, k, i);
      hide Kept, Without;
      e := queues[k][i];
      if e.Holding? { referenceCount := referenceCount[e.packet := referenceCount[e.packet] - 1]; }
      queues := queues[k := Without(queues[k], i)];
    }

    /** enet_peer_reset_outgoing_commands, and enet_peer_remove_incoming_commands from `start` to `end`. */
    method RemoveCommands(k: nat, start: nat, end: nat)
      requires Valid() && k < |queues| && start <= end <= |queues[k]|
      modifies this
      ensures Valid() && queues == old(queues)[k := old(queues)[k][..start] + old(queues)[k][end..]]
      ensures Released(old(live), live, old(queues), queues)
    {
      ghost var queue := queues[k];
      hide Counted, Released;
      var n: nat := 0;
      assert queue[..start] + queue[start + n..] == queue && queues[k := queue] == queues;
      while n < end - start
        invariant n <= end - start && |queues| == |old(queues)|
        invariant queues == old(queues)[k := queue[..start] + queue[start + n..]]
        invariant Valid() && Released(old(live), live, old(queues), queues)
      {
        ghost var live1, queues1 := live, queues;
        RestWithout(queue, start, start + n);
        Drop(k, start);
        ReleasedOn(old(live), live1, live, old(queues), queues1, queues);
        n := n + 1;
      }
    }

    /** enet_list_move from one list to another: nothing is gained or lost. */
    method Move(k: nat, start: nat, end: nat, l: nat)
      requires Valid() && k < |queues| && l < |queues| && k != l && start <= end <= |queues[k]|
      modifies this`queues
      ensures Valid()
      ensures queues == old(queues)[k := old(queues)[k][..start] + old(queues)[k][end..]]
                                   [l := old(queues)[l] + old(queues)[k][start..end]]
    {
      Moved(referenceCount, live, queues, k, start, end, l);
      hide Counted;
      var moved := queues[k][start..end];
      queues := queues[k := queues[k][..start] + queues[k][end..]];
      queues := queues[l := queues[l] + moved];
    }

    /** enet_peer_receive: the packet is handed to the caller, whatever its count. */
    method Receive(k: nat) returns (p: nat)
      requires Valid() && k < |queues| && queues[k] != [] && queues[k][0].Holding?
      modifies this`referenceCount, this`queues
      ensures Valid() && queues == old(queues)[k := old(queues)[k][1..]]
      ensures p == old(queues)[k][0].packet && p < |live| && live[p]
    {
      var e := Release(k, 0);
      p := e.packet;
      assert Without(old(queues)[k], 0) == old(queues)[k][1..];
    }

    /** enet_peer_queue_incoming_command: the packet just created is queued, or destroyed if it is refused. */
    method QueueIncoming(k: nat, at: nat, refused: bool)
      requires Valid() && k < |queues| && at <= |queues[k]|
      modifies this
      ensures Valid() && |live| == |old(live)| + 1 && live[|old(live)|] == !refused && live[..|old(live)|] == old(live)
      ensures queues == if refused then old(queues)
                        else old(queues)[k := Insert(old(queues)[k], at, Holding(|old(live)|))]
    {
      hide Kept;
      var p := Create();
      if refused {
        if referenceCount[p] == 0 { Destroy(p); }
      } else {
        Hold(k, at, p);
      }
    }

    /** enet_peer_send of a packet in n commands. */
    method Send(k: nat, p: nat, n: nat)
      requires Valid() && k < |queues| && p < |live| && live[p]
      modifies this`referenceCount, this`queues
      ensures Valid() && |referenceCount| == |old(referenceCount)|
      ensures referenceCount == old(referenceCount)[p := old(referenceCount)[p] + n]
      ensures queues == old(queues)[k := old(queues)[k] + seq(n, _ => Holding(p))]
    {
      hide Kept;
      assert queues[k] + seq(0, _ => Holding(p)) == queues[k] && queues[k := queues[k]] == queues;
      for i := 0 to n
        invariant Valid() && |queues| == |old(queues)| && |referenceCount| == |old(referenceCount)|
        invariant queues == old(queues)[k := old(queues)[k] + seq(i, _ => Holding(p))]
        invariant referenceCount == old(referenceCount)[p := old(referenceCount)[p] + i]
      {
        AtEnd(old(queues)[k], i, Holding(p));
        Hold(k, |queues[k]|, p);
      }
    }

    /** enet_host_broadcast to the peers with these lists; a packet that nothing came to hold goes. */
    method Broadcast(lists: seq<nat>, p: nat)
      requires Valid() && p < |live| && live[p] && forall i | 0 <= i < |lists| :: lists[i] < |queues|
      modifies this
      ensures Valid() && |referenceCount| == |old(referenceCount)|
      ensures referenceCount == old(referenceCount)[p := old(referenceCount)[p] + |lists|]
      ensures live == old(live)[p := referenceCount[p] > 0]
    {
      hide Kept;
      for i := 0 to |lists|
        invariant Valid() && |queues| == |old(queues)| && live == old(live)
        invariant |referenceCount| == |old(referenceCount)|
        invariant referenceCount == old(referenceCount)[p := old(referenceCount)[p] + i]
      {
        Send(lists[i], p, 1);
      }
      if referenceCount[p] == 0 { Destroy(p); }
    }
  }

  lemma RestWithout(queue: seq<Command>, start: nat, at: nat)
    requires start <= at < |queue|
    ensures Without(queue[..start] + queue[at..], start) == queue[..start] + queue[at + 1..]
  {
  }

  lemma AtEnd(queue: seq<Command>, i: nat, e: Command)
    ensures var all := queue + seq(i, _ => e); Insert(all, |all|, e) == queue + seq(i + 1, _ => e)
  {
  }

  lemma Moved(counts: seq<nat>, live: seq<bool>, queues: seq<seq<Command>>, k: nat, start: nat, end: nat, l: nat)
    requires Counted(counts, live, queues) && k < |queues| && l < |queues| && k != l && start <= end <= |queues[k]|
    ensures Counted(counts, live,
                    queues[k := queues[k][..start] + queues[k][end..]][l := queues[l] + queues[k][start..end]])
  {
    hide Total, Count;
    var queue := queues[k];
    var rest, moved := queue[..start] + queue[end..], queue[start..end];
    var queues1 := queues[k := rest];
    var queues2 := queues1[l := queues[l] + moved];
    forall p: nat ensures Kept(counts, live, queues2, p) {
      assert Kept(counts, live, queues, p);
      TotalUpdate(queues, k, rest, p);
      TotalUpdate(queues1, l, queues[l] + moved, p);
      CountConcat(queues[l], moved, p);
      CountSplit(queue, start, end, p);
    }
  }
}
