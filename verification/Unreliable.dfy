/** The receiving side of a channel's unreliable packets: the queue, the dispatch pass and the order in
    which packets come out. */
module Unreliable {
  import opened Bytes
  import opened Queues
  import opened Bitmap
  import opened Constants
  import opened Windows
  import opened Messages
  import opened ReliableChannel

  /** ENetIncomingCommand of an unreliable packet.  base is the unbounded number that the 16 bits of
      `command.number` stand for; the source does not have it and nothing here computes with it. */
  datatype Waiting = Waiting(unsequenced: bool, base: nat, unreliable: nat, command: Incoming)

  /** incomingReliableSequenceNumber with the number it stands for, incomingUnreliableSequenceNumber,
      incomingUnreliableCommands and the commands dispatched so far. */
  datatype Loose = Loose(base: nat, current: nat, unreliable: nat, queue: seq<Waiting>, dispatched: seq<Waiting>)

  const FRESH := Loose(0, 0, 0, [], [])

  // ----- the dispatch pass -----

  /** A command the pass stops at: one for a reliable number still to come. */
  predicate Ahead(q: Layout, e: Waiting, current: nat)
    requires Proper(q)
  {
    !e.unsequenced && e.command.number != current && InWindow(q, e.command.number, current)
  }

  predicate Deliverable(e: Waiting, current: nat) {
    e.unsequenced || (e.command.number == current && e.command.remaining == 0)
  }

  predicate Incomplete(e: Waiting, current: nat) {
    !e.unsequenced && e.command.number == current && e.command.remaining > 0
  }

  /** How far the pass looks, from place k on. */
  function Reach(q: Layout, queue: seq<Waiting>, current: nat, k: nat): (n: nat)
    requires Proper(q) && k <= |queue|
    ensures k <= n <= |queue|
    decreases |queue| - k
  {
    if k == |queue| || Ahead(q, queue[k], current) then k else Reach(q, queue, current, k + 1)
  }

  function Delivered(s: seq<Waiting>, current: nat): seq<Waiting> {
    if s == [] then []
    else Delivered(s[..|s| - 1], current) + if Deliverable(s[|s| - 1], current) then [s[|s| - 1]] else []
  }

  /** The unreliable number after the pass has seen s. */
  function LastNumber(s: seq<Waiting>, current: nat, unreliable: nat): nat {
    if s == [] then unreliable
    else
      var e := s[|s| - 1];
      if !e.unsequenced && e.command.number == current && e.command.remaining == 0 then e.unreliable
      else LastNumber(s[..|s| - 1], current, unreliable)
  }

  /** How many of the last commands are incomplete ones of the current reliable number. */
  function Tail(s: seq<Waiting>, current: nat): (n: nat)
    ensures n <= |s|
  {
    if s == [] || !Incomplete(s[|s| - 1], current) then 0 else Tail(s[..|s| - 1], current) + 1
  }

  /** Of those the pass leaves at most two. */
  function Left(s: seq<Waiting>, current: nat): (r: seq<Waiting>)
    ensures |r| <= 2
  {
    var t := Tail(s, current);
    s[|s| - (if t > 2 then 2 else t)..]
  }

  /** enet_peer_dispatch_incoming_unreliable_commands. */
  function Pass(q: Layout, s: Loose): Loose
    requires Proper(q)
  {
    var n := Reach(q, s.queue, s.current, 0);
    var seen := s.queue[..n];
    s.(unreliable := LastNumber(seen, s.current, s.unreliable),
       queue := Left(seen, s.current) + s.queue[n..],
       dispatched := s.dispatched + Delivered(seen, s.current))
  }

  // ----- arrivals -----

  /** The search from the back of the queue in enet_peer_queue_incoming_command and
      enet_protocol_handle_send_unreliable_fragment. */
  function Search(queue: seq<Waiting>, number: nat, unreliable: nat, current: nat, i: nat): (p: Place)
    requires i <= |queue|
    ensures p.Gap? ==> p.at <= i
    ensures p.Taken? ==> p.at < i && queue[p.at].command.number == number && queue[p.at].unreliable == unreliable
    decreases i
  {
    if i == 0 then Gap(0)
    else
      var x := queue[i - 1];
      if number >= current && x.command.number < current then Search(queue, number, unreliable, current, i - 1)
      else if number < current && x.command.number >= current then Gap(i)
      else if x.command.number < number then Gap(i)
      else if x.command.number > number then Search(queue, number, unreliable, current, i - 1)
      else if x.unreliable < unreliable then Gap(i)
      else if x.unreliable == unreliable then Taken(i - 1)
      else Search(queue, number, unreliable, current, i - 1)
  }

  /** enet_peer_queue_incoming_command for the three kinds of unreliable command. */
  function Arrive(q: Layout, s: Loose, leaving: bool, e: Waiting): Loose
    requires Proper(q)
  {
    if leaving then s
    else if e.unsequenced then Pass(q, s.(queue := Insert(s.queue, 0, e)))
    else if !InWindow(q, e.command.number, s.current) then s
    else if e.command.number == s.current && e.unreliable <= s.unreliable then s
    else match Search(s.queue, e.command.number, e.unreliable, s.current, |s.queue|)
         case Taken(_) => s
         case Gap(at) => Pass(q, s.(queue := Insert(s.queue, at, e)))
  }

  /** The reliable packets of the channel have moved on to number base. */
  function Advance(q: Layout, s: Loose, base: nat): Loose
    requires Proper(q)
  {
    var s' := s.(base := base, current := Cut(base), unreliable := 0);
    if s.queue == [] then s' else Pass(q, s')
  }

  /** The fragments of a queued packet have changed. */
  function Store(q: Layout, s: Loose, at: nat, command: Incoming): Loose
    requires Proper(q) && at < |s.queue|
  {
    var s' := s.(queue := s.queue[at := s.queue[at].(command := command)]);
    if command.remaining == 0 then Pass(q, s') else s'
  }

  /** The end of enet_protocol_handle_send_unreliable_fragment, for the command in place `at`. */
  function TakeLoose(q: Layout, s: Loose, at: nat, c: LooseCommand): Loose
    requires Proper(q) && c.SendUnreliableFragment? && at < |s.queue|
             && Assembles(s.queue[at].command, c.count, c.total)
    requires c.index < c.count && c.offset + |c.data| <= c.total
  {
    var command := s.queue[at].command;
    if Bit(command.fragments, c.index) then s else Store(q, s, at, Marked(command, c.index, c.offset, c.data))
  }

  function NewFragments(base: nat, c: LooseCommand): Waiting
    requires c.SendUnreliableFragment?
  {
    Waiting(false, base, c.start, NewCommand(c.number, seq(c.total, _ => 0), c.count))
  }

  /** How many commands a pass removes from the front of the queue. */
  function Gone(q: Layout, s: Loose): (n: nat)
    requires Proper(q)
  {
    PassKeepsEnd(q, s);
    |s.queue| - |Pass(q, s).queue|
  }

  lemma PassKeepsEnd(q: Layout, s: Loose)
    requires Proper(q)
    ensures var s' := Pass(q, s); |s'.queue| <= |s.queue| && s'.queue == s.queue[|s.queue| - |s'.queue|..]
  {
    var n := Reach(q, s.queue, s.current, 0);
    var k := n - |Left(s.queue[..n], s.current)|;
    assert Left(s.queue[..n], s.current) == s.queue[k..n];
    assert s.queue[k..n] + s.queue[n..] == s.queue[k..];
    hide Reach, Tail, Left, Delivered, LastNumber;
  }

  /** enet_protocol_handle_send_unreliable_fragment for a connected peer.  A command that its own pass
      removes again takes no fragment. */
  function HandleLooseFragment(q: Layout, lim: Limits, s: Loose, leaving: bool, base: nat, c: LooseCommand): Loose
    requires Proper(q) && c.SendUnreliableFragment?
  {
    if |c.data| > lim.packetSize || !InWindow(q, c.number, s.current)
        || (c.number == s.current && c.start <= s.unreliable)
       || !FragmentInside(lim, c.index, c.count, c.offset, c.total, |c.data|) then s
    else match Search(s.queue, c.number, c.start, s.current, |s.queue|)
         case Taken(at) => if Assembles(s.queue[at].command, c.count, c.total) then TakeLoose(q, s, at, c) else s
         case Gap(at) => if leaving then s else BeginLoose(q, s, at, base, c)
  }

  /** Its first fragment: the command is queued, and then takes the bytes. */
  function BeginLoose(q: Layout, s: Loose, at: nat, base: nat, c: LooseCommand): Loose
    requires Proper(q) && c.SendUnreliableFragment? && at <= |s.queue|
    requires c.index < c.count && c.offset + |c.data| <= c.total
  {
    var s1 := s.(queue := Insert(s.queue, at, NewFragments(base, c)));
    var s2, gone := Pass(q, s1), Gone(q, s1);
    if at < gone then s2
    else
      StillThere(q, s, at, base, c);
      TakeLoose(q, s2, at - gone, c)
  }

  lemma StillThere(q: Layout, s: Loose, at: nat, base: nat, c: LooseCommand)
    requires Proper(q) && c.SendUnreliableFragment? && at <= |s.queue|
    requires c.index < c.count && c.offset + |c.data| <= c.total
    ensures var s1 := s.(queue := Insert(s.queue, at, NewFragments(base, c)));
            var s2, gone := Pass(q, s1), Gone(q, s1);
            at >= gone ==>
              && at - gone < |s2.queue| && s2.queue[at - gone] == NewFragments(base, c)
              && Assembles(s2.queue[at - gone].command, c.count, c.total)
  {
    var s1 := s.(queue := Insert(s.queue, at, NewFragments(base, c)));
    PassKeepsEnd(q, s1);
    hide Pass;
  }

  /** A command as it arrives at a connected peer. */
  function HandleLoose(q: Layout, lim: Limits, s: Loose, leaving: bool, base: nat, c: LooseCommand): Loose
    requires Proper(q)
  {
    match c
    case SendUnreliable(number, unreliable, data) =>
      if |data| > lim.packetSize then s
      else Arrive(q, s, leaving, Waiting(false, base, unreliable, NewCommand(number, data, 0)))
    case SendUnsequenced(_, data) =>
      if |data| > lim.packetSize then s else Arrive(q, s, leaving, Waiting(true, 0, 0, NewCommand(0, data, 0)))
    case SendUnreliableFragment(_, _, _, _, _, _, _) => HandleLooseFragment(q, lim, s, leaving, base, c)
  }

  // ----- the invariant -----

  /** In the order they were sent: by reliable number, then by unreliable number. */
  predicate Before(e: Waiting, f: Waiting) {
    e.base < f.base || (e.base == f.base && e.unreliable < f.unreliable)
  }

  predicate SequencedBefore(e: Waiting, f: Waiting) {
    !e.unsequenced && !f.unsequenced ==> Before(e, f)
  }

  predicate Sorted(s: seq<Waiting>) {
    forall i, j | 0 <= i < j < |s| :: SequencedBefore(s[i], s[j])
  }

  /** Packets come out in the order they were sent, each at most once, and none incomplete. */
  predicate InOrder(dispatched: seq<Waiting>) {
    && Sorted(dispatched)
    && (forall i | 0 <= i < |dispatched| :: dispatched[i].unsequenced || dispatched[i].command.remaining == 0)
  }

  /** Nothing dispatched is past the numbers the channel stands at. */
  predicate Past(dispatched: seq<Waiting>, base: nat, unreliable: nat) {
    forall i | 0 <= i < |dispatched| && !dispatched[i].unsequenced ::
      dispatched[i].base < base || (dispatched[i].base == base && dispatched[i].unreliable <= unreliable)
  }

  /** A command that may wait: not unsequenced, not for a reliable number gone by, not overtaken. */
  predicate MayWait(q: Layout, e: Waiting, base: nat, unreliable: nat)
    requires Proper(q)
  {
    && !e.unsequenced && e.command.number == Cut(e.base) && 0 < e.unreliable
    && base <= e.base && Window(q, e.base) < Window(q, base) + q.free - 1
    && (e.base == base ==> e.command.remaining > 0 && e.unreliable > unreliable)
  }

  /** What holds between calls. */
  predicate Steady(q: Layout, s: Loose)
    requires Proper(q)
  {
    && s.current == Cut(s.base) && Sorted(s.queue)
    && (forall i | 0 <= i < |s.queue| :: MayWait(q, s.queue[i], s.base, s.unreliable))
    && InOrder(s.dispatched) && Past(s.dispatched, s.base, s.unreliable)
  }

  // ----- before a pass -----

  /** What a pass starts from: what lies behind lies behind by no more than the windows that tell it
      from what lies ahead. */
  predicate Bounded(q: Layout, e: Waiting, base: nat, unreliable: nat)
    requires Proper(q)
  {
    e.unsequenced ||
    (&& e.command.number == Cut(e.base) && 0 < e.unreliable
     && Window(q, e.base) < Window(q, base) + q.free - 1
     && Window(q, base) <= Window(q, e.base) + q.windows - q.free + 1
     && (e.base == base ==> e.unreliable > unreliable))
  }

  predicate AllBounded(q: Layout, s: seq<Waiting>, base: nat, unreliable: nat)
    requires Proper(q)
  {
    forall i | 0 <= i < |s| :: Bounded(q, s[i], base, unreliable)
  }

  predicate Ready(q: Layout, s: Loose)
    requires Proper(q)
  {
    && s.current == Cut(s.base) && Sorted(s.queue) && AllBounded(q, s.queue, s.base, s.unreliable)
    && (forall i | 0 < i < |s.queue| :: !s.queue[i].unsequenced)
    && InOrder(s.dispatched) && Past(s.dispatched, s.base, s.unreliable)
  }

  /** What the pass stops at is exactly what lies ahead. */
  lemma AheadMeans(q: Layout, e: Waiting, base: nat, unreliable: nat)
    requires Proper(q) && Bounded(q, e, base, unreliable) && !e.unsequenced
    ensures Ahead(q, e, Cut(base)) <==> e.base > base
    ensures e.command.number == Cut(base) <==> e.base == base
  {
    AcceptedNumbers(q, base, e.base);
    SameCut(q, base, e.base);
  }

  // ----- what the pass has seen -----

  /** In order, and nothing in it lies ahead. */
  predicate Seen(s: seq<Waiting>, base: nat, unreliable: nat) {
    && Sorted(s)
    && forall i | 0 <= i < |s| && !s[i].unsequenced ::
         && s[i].base <= base && (s[i].command.number == Cut(base) <==> s[i].base == base)
         && (s[i].base == base ==> s[i].unreliable > unreliable)
  }

  predicate Complete(e: Waiting, base: nat) {
    !e.unsequenced && e.base == base && e.command.remaining == 0
  }

  lemma {:induction false} LastNumberBounds(s: seq<Waiting>, base: nat, unreliable: nat)
    requires Seen(s, base, unreliable)
    ensures var u := LastNumber(s, Cut(base), unreliable);
            && (forall i | 0 <= i < |s| && Complete(s[i], base) :: unreliable < s[i].unreliable <= u)
            && (u == unreliable || exists i :: 0 <= i < |s| && Complete(s[i], base) && s[i].unreliable == u)
    decreases |s|
  {
    hide Cut;
    if s != [] {
      var n, e := |s| - 1, s[|s| - 1];
      LastNumberBounds(s[..n], base, unreliable);
      forall i | 0 <= i < n && Complete(s[i], base) && Complete(e, base) ensures s[i].unreliable < e.unreliable {
        assert SequencedBefore(s[i], e);
      }
    }
  }

  /** What is delivered comes from what was seen, in order, complete, and past what was delivered
      before. */
  lemma {:induction false} DeliveredSorted(s: seq<Waiting>, base: nat, unreliable: nat)
    requires Seen(s, base, unreliable)
    ensures var d := Delivered(s, Cut(base));
            Sorted(d) && forall i | 0 <= i < |d| :: d[i] in s && (d[i].unsequenced || Complete(d[i], base))
    decreases |s|
  {
    hide Cut;
    if s != [] {
      var n, e := |s| - 1, s[|s| - 1];
      DeliveredSorted(s[..n], base, unreliable);
      var d := Delivered(s[..n], Cut(base));
      forall i | 0 <= i < |d| ensures SequencedBefore(d[i], e) {
        var k :| 0 <= k < n && s[k] == d[i];
        assert SequencedBefore(s[k], s[n]);
      }
    }
  }

  /** The incomplete commands at the end have not been overtaken. */
  lemma {:induction false} TailWaits(s: seq<Waiting>, base: nat, unreliable: nat)
    requires Seen(s, base, unreliable)
    ensures forall i | |s| - Tail(s, Cut(base)) <= i < |s| ::
              && !s[i].unsequenced && s[i].base == base && s[i].command.remaining > 0
              && s[i].unreliable > LastNumber(s, Cut(base), unreliable)
    decreases |s|
  {
    hide Cut;
    if Tail(s, Cut(base)) > 0 {
      var n, e := |s| - 1, s[|s| - 1];
      TailWaits(s[..n], base, unreliable);
      LastNumberBounds(s[..n], base, unreliable);
      forall i | 0 <= i < n && Complete(s[i], base) ensures s[i].unreliable < e.unreliable {
        assert SequencedBefore(s[i], e);
      }
    }
  }

  lemma {:induction false} ReachSeen(q: Layout, queue: seq<Waiting>, base: nat, unreliable: nat, k: nat)
    requires Proper(q) && Sorted(queue) && AllBounded(q, queue, base, unreliable) && k <= |queue|
    requires forall i | 0 <= i < k && !queue[i].unsequenced :: queue[i].base <= base
    ensures var n := Reach(q, queue, Cut(base), k);
            && (forall i | 0 <= i < n && !queue[i].unsequenced :: queue[i].base <= base)
            && (n < |queue| ==> !queue[n].unsequenced && queue[n].base > base)
    decreases |queue| - k
  {
    if k < |queue| {
      if !queue[k].unsequenced { AheadMeans(q, queue[k], base, unreliable); }
      hide Ahead, Bounded;
      if !Ahead(q, queue[k], Cut(base)) { ReachSeen(q, queue, base, unreliable, k + 1); }
    }
  }

  // ----- every step keeps the order -----

  /** How a pass divides the queue. */
  lemma PassDivides(q: Layout, s: Loose)
    requires Proper(q) && Ready(q, s)
    ensures var n := Reach(q, s.queue, s.current, 0);
            && Seen(s.queue[..n], s.base, s.unreliable)
            && forall i | n <= i < |s.queue| :: !s.queue[i].unsequenced && s.queue[i].base > s.base
  {
    var n := Reach(q, s.queue, s.current, 0);
    ReachSeen(q, s.queue, s.base, s.unreliable, 0);
    forall i | 0 <= i < n && !s.queue[i].unsequenced
      ensures s.queue[i].command.number == Cut(s.base) <==> s.queue[i].base == s.base
    {
      AheadMeans(q, s.queue[i], s.base, s.unreliable);
    }
    forall i | n <= i < |s.queue| ensures !s.queue[i].unsequenced && s.queue[i].base > s.base {
      if i > n { assert SequencedBefore(s.queue[n], s.queue[i]); }
    }
  }

  lemma DeliverInOrder(dispatched: seq<Waiting>, s: seq<Waiting>, base: nat, unreliable: nat)
    requires Seen(s, base, unreliable) && InOrder(dispatched) && Past(dispatched, base, unreliable)
    ensures var all := dispatched + Delivered(s, Cut(base));
            InOrder(all) && Past(all, base, LastNumber(s, Cut(base), unreliable))
  {
    var d, u := Delivered(s, Cut(base)), LastNumber(s, Cut(base), unreliable);
    DeliveredSorted(s, base, unreliable);
    LastNumberBounds(s, base, unreliable);
    hide Cut, Delivered, LastNumber;
    forall i | 0 <= i < |d| && !d[i].unsequenced ensures unreliable < d[i].unreliable <= u && d[i].base == base {
      var k :| 0 <= k < |s| && s[k] == d[i];
    }
  }

  lemma PassKeepsOrder(q: Layout, s: Loose)
    requires Proper(q) && Ready(q, s)
    ensures var s' := Pass(q, s);
            && |s'.queue| <= |s.queue| && s'.queue == s.queue[|s.queue| - |s'.queue|..] && Sorted(s'.queue)
  {
    PassKeepsEnd(q, s);
    hide Pass;
  }

  lemma PassWaits(q: Layout, s: Loose)
    requires Proper(q) && Ready(q, s)
    ensures var s' := Pass(q, s); forall i | 0 <= i < |s'.queue| :: MayWait(q, s'.queue[i], s.base, s'.unreliable)
  {
    var n, s' := Reach(q, s.queue, s.current, 0), Pass(q, s);
    PassDivides(q, s);
    TailWaits(s.queue[..n], s.base, s.unreliable);
    KeptOnes(q, s);
    hide Reach, Pass, Tail, Left, LastNumber, Cut, Window, Seen, Sorted, InOrder, Past;
    forall i | 0 <= i < |s'.queue| ensures MayWait(q, s'.queue[i], s.base, s'.unreliable) {
      var k := Gone(q, s) + i;
      assert Bounded(q, s.queue[k], s.base, s.unreliable);
      if k < n { assert s.queue[k] == s.queue[..n][k]; }
    }
  }

  /** What a pass keeps of what it has seen are incomplete commands at the end of it. */
  lemma KeptOnes(q: Layout, s: Loose)
    requires Proper(q)
    ensures var n, s' := Reach(q, s.queue, s.current, 0), Pass(q, s);
            && n - Tail(s.queue[..n], s.current) <= Gone(q, s) <= n
            && s'.unreliable == LastNumber(s.queue[..n], s.current, s.unreliable)
            && forall i | 0 <= i < |s'.queue| :: s'.queue[i] == s.queue[Gone(q, s) + i]
  {
    PassKeepsEnd(q, s);
    hide Reach, Tail, Delivered, LastNumber;
  }

  /** After a pass: nothing unsequenced, nothing for a number gone by and nothing overtaken is left,
      and what has come out is in order. */
  lemma PassSteady(q: Layout, s: Loose)
    requires Proper(q) && Ready(q, s)
    ensures Steady(q, Pass(q, s))
  {
    PassDivides(q, s);
    PassKeepsOrder(q, s);
    PassWaits(q, s);
    DeliverInOrder(s.dispatched, s.queue[..Reach(q, s.queue, s.current, 0)], s.base, s.unreliable);
    hide Reach, Delivered, LastNumber, Left, Cut, Window, InOrder, Past, MayWait, Sorted, Seen, AllBounded;
  }

  /** And every complete packet of the current reliable number has come out. */
  lemma {:induction false} DeliversAll(s: seq<Waiting>, current: nat)
    ensures forall e | e in s && Deliverable(e, current) :: e in Delivered(s, current)
    decreases |s|
  {
    if s != [] {
      DeliversAll(s[..|s| - 1], current);
      assert s == s[..|s| - 1] + [s[|s| - 1]];
    }
  }

  /** What a pass comes to that may come out comes out, and what is for a later reliable number waits on. */
  lemma PassDelivers(q: Layout, s: Loose, i: nat)
    requires Proper(q) && Ready(q, s) && i < |s.queue|
    ensures var e, s' := s.queue[i], Pass(q, s);
            && (e.unsequenced || Complete(e, s.base) ==> e in s'.dispatched)
            && (!e.unsequenced && e.base > s.base ==> e in s'.queue)
  {
    var n, e := Reach(q, s.queue, s.current, 0), s.queue[i];
    PassDivides(q, s);
    hide Reach, Delivered, LastNumber, Left, Cut, Window, InOrder, Past, Sorted, AllBounded;
    if i < n {
      assert s.queue[..n][i] == e;
      DeliversAll(s.queue[..n], s.current);
    } else {
      assert s.queue[n..][i - n] == e;
    }
  }

  lemma SteadyReady(q: Layout, s: Loose)
    requires Proper(q) && Steady(q, s)
    ensures Ready(q, s)
  {
    forall i | 0 <= i < |s.queue| ensures Bounded(q, s.queue[i], s.base, s.unreliable) {
      assert MayWait(q, s.queue[i], s.base, s.unreliable);
      WindowMonotone(q, s.base, s.queue[i].base);
    }
  }

  /** The search finds the place of a command in the order of the unbounded numbers. */
  lemma {:induction false} SearchFinds(q: Layout, s: Loose, e: Waiting, i: nat)
    requires Proper(q) && Steady(q, s) && i <= |s.queue|
    requires e.command.number == Cut(e.base) && s.base <= e.base && Window(q, e.base) < Window(q, s.base) + q.free - 1
    requires forall j | i <= j < |s.queue| :: Before(e, s.queue[j])
    ensures match Search(s.queue, e.command.number, e.unreliable, s.current, i)
            case Taken(at) => s.queue[at].base == e.base && s.queue[at].unreliable == e.unreliable
            case Gap(at) =>
              && (forall j | 0 <= j < at :: Before(s.queue[j], e))
                  && forall j | at <= j < |s.queue| :: Before(e, s.queue[j])
    decreases i
  {
    if i > 0 {
      var x := s.queue[i - 1];
      assert MayWait(q, x, s.base, s.unreliable);
      AcceptedWithinLap(q, s.base, e.base);
      AcceptedWithinLap(q, s.base, x.base);
      LaterIsGreater(s.base, e.base, x.base);
      LaterIsGreater(s.base, x.base, e.base);
      hide Cut, Window;
      if Before(e, x) {
        SearchFinds(q, s, e, i - 1);
      } else {
        forall j | 0 <= j < i - 1 ensures Before(s.queue[j], x) {
          assert SequencedBefore(s.queue[j], s.queue[i - 1]);
        }
      }
    }
  }

  /** A copy within the staleness bounds, of a command as a sender numbers it. */
  predicate Admissible(q: Layout, s: Loose, e: Waiting)
    requires Proper(q)
  {
    e.unsequenced ||
    (&& e.command.number == Cut(e.base) && 0 < e.unreliable && Window(q, e.base) < Window(q, s.base) + q.windows
     && Window(q, s.base) <= Window(q, e.base) + q.windows - q.free + 1)
  }

  lemma ArriveSteady(q: Layout, s: Loose, leaving: bool, e: Waiting)
    requires Proper(q) && Steady(q, s) && Admissible(q, s, e)
    ensures Steady(q, Arrive(q, s, leaving, e)) && s.dispatched <= Arrive(q, s, leaving, e).dispatched
  {
    if leaving { return; }
    SteadyReady(q, s);
    if e.unsequenced {
      InsertReady(q, s, 0, e);
      PassSteady(q, s.(queue := Insert(s.queue, 0, e)));
    } else {
      AcceptedNumbers(q, s.base, e.base);
      if InWindow(q, e.command.number, s.current) && !(e.command.number == s.current && e.unreliable <= s.unreliable) {
        SearchFinds(q, s, e, |s.queue|);
        match Search(s.queue, e.command.number, e.unreliable, s.current, |s.queue|)
        case Taken(_) =>
        case Gap(at) =>
          InsertReady(q, s, at, e);
          PassSteady(q, s.(queue := Insert(s.queue, at, e)));
      }
    }
  }

  lemma InsertReady(q: Layout, s: Loose, at: nat, e: Waiting)
    requires Proper(q) && Ready(q, s) && Steady(q, s) && at <= |s.queue| && Bounded(q, e, s.base, s.unreliable)
    requires e.unsequenced ==> at == 0
    requires !e.unsequenced ==>
               (forall j | 0 <= j < at :: Before(s.queue[j], e))
                   && forall j | at <= j < |s.queue| :: Before(e, s.queue[j])
    ensures Ready(q, s.(queue := Insert(s.queue, at, e)))
  {
    var queue := Insert(s.queue, at, e);
    assert forall i | 0 <= i < |queue| ::
      queue[i] == if i < at then s.queue[i] else if i == at then e else s.queue[i - 1];
    hide Insert, Cut, Window;
    forall i, j | 0 <= i < j < |queue| ensures SequencedBefore(queue[i], queue[j]) {
      if i != at && j != at {
        assert SequencedBefore(s.queue[if i < at then i else i - 1], s.queue[if j < at then j else j - 1]);
      }
    }
    assert forall i | 0 <= i < |s.queue| ::
      Bounded(q, s.queue[i], s.base, s.unreliable) && MayWait(q, s.queue[i], s.base, s.unreliable);
  }

  /** The oldest command waiting would be further behind than tells old from new. */
  predicate Outdates(q: Layout, s: Loose, base: nat)
    requires Proper(q)
  {
    s.queue != [] && Window(q, base) > Window(q, s.queue[0].base) + q.windows - q.free + 1
  }

  lemma OldestFirst(q: Layout, s: Loose, i: nat)
    requires Proper(q) && Steady(q, s) && i < |s.queue|
    ensures s.queue[0].base <= s.queue[i].base && Window(q, s.queue[0].base) <= Window(q, s.queue[i].base)
    ensures MayWait(q, s.queue[0], s.base, s.unreliable) && MayWait(q, s.queue[i], s.base, s.unreliable)
  {
    assert i > 0 ==> SequencedBefore(s.queue[0], s.queue[i]);
    WindowMonotone(q, s.queue[0].base, s.queue[i].base);
  }

  lemma AdvanceReady(q: Layout, s: Loose, base: nat)
    requires Proper(q) && Steady(q, s) && s.base < base && !Outdates(q, s, base)
    ensures Ready(q, s.(base := base, current := Cut(base), unreliable := 0))
  {
    forall i | 0 <= i < |s.queue| ensures Bounded(q, s.queue[i], base, 0) {
      OldestFirst(q, s, i);
      WindowMonotone(q, s.base, base);
      hide Window, Cut;
    }
    hide Window, Cut;
  }

  /** The reliable number may move on unless that outdates the oldest command. */
  lemma AdvanceSteady(q: Layout, s: Loose, base: nat)
    requires Proper(q) && Steady(q, s) && s.base < base && !Outdates(q, s, base)
    ensures Steady(q, Advance(q, s, base)) && s.dispatched <= Advance(q, s, base).dispatched
  {
    AdvanceReady(q, s, base);
    hide Window, Cut;
    if s.queue != [] { PassSteady(q, s.(base := base, current := Cut(base), unreliable := 0)); }
  }

  /** The packets that waited for the number it moves on to come out, those for later ones wait on. */
  lemma AdvanceDelivers(q: Layout, s: Loose, base: nat, e: Waiting)
    requires Proper(q) && Steady(q, s) && s.base < base && !Outdates(q, s, base) && e in s.queue
    ensures Complete(e, base) ==> e in Advance(q, s, base).dispatched
    ensures e.base > base ==> e in Advance(q, s, base).queue
  {
    AdvanceReady(q, s, base);
    var i :| 0 <= i < |s.queue| && s.queue[i] == e;
    assert MayWait(q, s.queue[i], s.base, s.unreliable);
    hide Pass, Ready, Steady, Window, Cut;
    PassDelivers(q, s.(base := base, current := Cut(base), unreliable := 0), i);
  }

  /** If it does, the pass stops at that command: everything is left waiting. */
  lemma AdvanceStops(q: Layout, s: Loose, base: nat)
    requires Proper(q) && Steady(q, s) && Outdates(q, s, base)
    requires Window(q, base) < Window(q, s.queue[0].base) + q.windows
    ensures s.queue[0].base < base && Advance(q, s, base).queue == s.queue
  {
    var e := s.queue[0];
    OldestFirst(q, s, 0);
    if base <= e.base { WindowMonotone(q, base, e.base); }
    AcceptedNumbers(q, base, e.base);
    SameCut(q, base, e.base);
    assert Ahead(q, e, Cut(base));
    assert Reach(q, s.queue, Cut(base), 0) == 0;
    assert s.queue[..0] == [] && s.queue[0..] == s.queue;
  }

  /** Exactly when a move leaves something stale waiting. */
  lemma AdvanceLeaves(q: Layout, s: Loose, base: nat)
    requires Proper(q) && Steady(q, s) && s.base < base
    requires s.queue != [] ==> Window(q, base) < Window(q, s.queue[0].base) + q.windows
    ensures (exists e :: e in Advance(q, s, base).queue && e.base < base) <==> Outdates(q, s, base)
    ensures Steady(q, Advance(q, s, base)) <==> !Outdates(q, s, base)
  {
    var s' := Advance(q, s, base);
    if Outdates(q, s, base) {
      AdvanceStops(q, s, base);
      assert s'.queue[0] in s'.queue && !MayWait(q, s'.queue[0], base, s'.unreliable);
    } else {
      AdvanceSteady(q, s, base);
      forall e | e in s'.queue ensures base <= e.base {
        var i :| 0 <= i < |s'.queue| && s'.queue[i] == e;
        assert MayWait(q, s'.queue[i], base, s'.unreliable);
      }
    }
  }

  lemma StoreReady(q: Layout, s: Loose, at: nat, command: Incoming)
    requires Proper(q) && Steady(q, s) && at < |s.queue| && command.number == s.queue[at].command.number
    ensures Ready(q, s.(queue := s.queue[at := s.queue[at].(command := command)]))
  {
    var e := s.queue[at].(command := command);
    var s' := s.(queue := s.queue[at := e]);
    assert MayWait(q, s.queue[at], s.base, s.unreliable);
    SteadyReady(q, s);
    forall i, j | 0 <= i < j < |s'.queue| ensures SequencedBefore(s'.queue[i], s'.queue[j]) {
      assert SequencedBefore(s.queue[i], s.queue[j]);
    }
    forall i | 0 <= i < |s'.queue| ensures Bounded(q, s'.queue[i], s.base, s.unreliable) {
      assert Bounded(q, s.queue[i], s.base, s.unreliable);
    }
  }

  lemma StoreSteady(q: Layout, s: Loose, at: nat, command: Incoming)
    requires Proper(q) && Steady(q, s) && at < |s.queue| && command.number == s.queue[at].command.number
    ensures Steady(q, Store(q, s, at, command)) && s.dispatched <= Store(q, s, at, command).dispatched
  {
    var s' := s.(queue := s.queue[at := s.queue[at].(command := command)]);
    assert MayWait(q, s.queue[at], s.base, s.unreliable);
    StoreReady(q, s, at, command);
    if command.remaining == 0 {
      PassSteady(q, s');
    } else {
      assert Sorted(s'.queue);
    }
  }

  lemma TakeSteady(q: Layout, s: Loose, at: nat, c: LooseCommand)
    requires Proper(q) && Steady(q, s) && c.SendUnreliableFragment? && at < |s.queue|
    requires Assembles(s.queue[at].command, c.count, c.total) && c.index < c.count && c.offset + |c.data| <= c.total
    ensures Steady(q, TakeLoose(q, s, at, c)) && s.dispatched <= TakeLoose(q, s, at, c).dispatched
  {
    var command := s.queue[at].command;
    hide Steady, Store, Marked, Bit;
    StoreSteady(q, s, at, Marked(command, c.index, c.offset, c.data));
  }

  lemma ArriveAt(q: Layout, s: Loose, at: nat, e: Waiting)
    requires Proper(q) && !e.unsequenced && InWindow(q, e.command.number, s.current)
    requires !(e.command.number == s.current && e.unreliable <= s.unreliable)
    requires Search(s.queue, e.command.number, e.unreliable, s.current, |s.queue|) == Gap(at)
    ensures Arrive(q, s, false, e) == Pass(q, s.(queue := Insert(s.queue, at, e)))
  {
    hide Pass, InWindow;
  }

  lemma BeginSteady(q: Layout, s: Loose, at: nat, base: nat, c: LooseCommand)
    requires Proper(q) && Steady(q, s) && c.SendUnreliableFragment?
    requires Admissible(q, s, NewFragments(base, c)) && InWindow(q, c.number, s.current)
    requires !(c.number == s.current && c.start <= s.unreliable)
    requires Search(s.queue, c.number, c.start, s.current, |s.queue|) == Gap(at)
    requires c.index < c.count && c.offset + |c.data| <= c.total
    ensures Steady(q, BeginLoose(q, s, at, base, c)) && s.dispatched <= BeginLoose(q, s, at, base, c).dispatched
  {
    hide *;
    NewFragmentsIs(base, c);
    var e := NewFragments(base, c);
    var s1 := s.(queue := Insert(s.queue, at, e));
    ArriveAt(q, s, at, e);
    BeginIs(q, s, at, base, c);
    ArriveSteady(q, s, false, e);
    if at >= Gone(q, s1) { TakeSteady(q, Pass(q, s1), at - Gone(q, s1), c); }
  }

  lemma NewFragmentsIs(base: nat, c: LooseCommand)
    requires c.SendUnreliableFragment?
    ensures var e := NewFragments(base, c);
            !e.unsequenced && e.command.number == c.number && e.base == base && e.unreliable == c.start
  {
  }

  lemma BeginIs(q: Layout, s: Loose, at: nat, base: nat, c: LooseCommand)
    requires Proper(q) && c.SendUnreliableFragment? && at <= |s.queue|
    requires c.index < c.count && c.offset + |c.data| <= c.total
    ensures var s1 := s.(queue := Insert(s.queue, at, NewFragments(base, c)));
            var s2, gone := Pass(q, s1), Gone(q, s1);
            if at < gone then BeginLoose(q, s, at, base, c) == s2
            else
              && at - gone < |s2.queue| && Assembles(s2.queue[at - gone].command, c.count, c.total)
              && BeginLoose(q, s, at, base, c) == TakeLoose(q, s2, at - gone, c)
  {
    StillThere(q, s, at, base, c);
    hide Pass, Insert, TakeLoose, Gone;
  }

  lemma FragmentSteady(q: Layout, lim: Limits, s: Loose, leaving: bool, base: nat, c: LooseCommand)
    requires Proper(q) && Steady(q, s) && c.SendUnreliableFragment? && Admissible(q, s, NewFragments(base, c))
    ensures var s' := HandleLooseFragment(q, lim, s, leaving, base, c); Steady(q, s') && s.dispatched <= s'.dispatched
  {
    hide Steady, TakeLoose, BeginLoose, Admissible, NewFragments, InWindow, Search, Assembles;
    if |c.data| > lim.packetSize || !InWindow(q, c.number, s.current)
        || (c.number == s.current && c.start <= s.unreliable)
       || !FragmentInside(lim, c.index, c.count, c.offset, c.total, |c.data|) { return; }
    match Search(s.queue, c.number, c.start, s.current, |s.queue|)
    case Taken(at) => if Assembles(s.queue[at].command, c.count, c.total) { TakeSteady(q, s, at, c); }
    case Gap(at) => if !leaving { BeginSteady(q, s, at, base, c); }
  }

  // ----- a fragment of a packet that waits -----

  /** e' is e with the fragment c added to it. */
  ghost predicate Gains(e: Waiting, e': Waiting, c: LooseCommand)
    requires c.SendUnreliableFragment?
  {
    var x, x' := e.command, e'.command;
    && e' == e.(command := x') && x'.number == x.number && x'.fragmentCount == x.fragmentCount
    && x'.remaining == (if x.remaining == 0 then 0 else x.remaining - 1)
    && (forall i: nat :: Bit(x'.fragments, i) <==> i == c.index || Bit(x.fragments, i))
    && |x'.data| == |x.data|
    && forall b: nat | b < |x.data| ::
         x'.data[b] == if c.offset <= b < c.offset + |c.data| then c.data[b - c.offset] else x.data[b]
  }

  lemma MarkedGains(e: Waiting, c: LooseCommand)
    requires c.SendUnreliableFragment? && Assembles(e.command, c.count, c.total) && c.index < c.count
    requires c.offset + |c.data| <= c.total && !Bit(e.command.fragments, c.index)
    ensures c.index / 32 < |e.command.fragments|
    ensures Gains(e, e.(command := Marked(e.command, c.index, c.offset, c.data)), c)
  {
    var x := e.command;
    forall i: nat
      ensures Bit(WithBit(x.fragments, c.index), i) <==> i == c.index || Bit(x.fragments, i)
    {
      SetOnly(x.fragments, c.index, i);
    }
    hide Bit, WithBit;
  }

  /** The numbers of a command that waits are let in. */
  lemma WaitingLetIn(q: Layout, s: Loose, at: nat)
    requires Proper(q) && Steady(q, s) && at < |s.queue|
    ensures var e := s.queue[at];
            InWindow(q, e.command.number, s.current) && !(e.command.number == s.current && e.unreliable <= s.unreliable)
  {
    var e := s.queue[at];
    assert MayWait(q, e, s.base, s.unreliable);
    WindowMonotone(q, s.base, e.base);
    AcceptedNumbers(q, s.base, e.base);
    SameCut(q, s.base, e.base);
    hide Cut, Window, InWindow;
  }

  /** No two commands that wait have the same numbers. */
  lemma AllApart(s: seq<Waiting>)
    requires Sorted(s) && forall i | 0 <= i < |s| :: !s[i].unsequenced
    ensures forall i, j | 0 <= i < j < |s| :: s[i].base != s[j].base || s[i].unreliable != s[j].unreliable
  {
    forall i, j | 0 <= i < j < |s| ensures s[i].base != s[j].base || s[i].unreliable != s[j].unreliable {
      assert SequencedBefore(s[i], s[j]);
    }
  }

  /** The search comes upon the packet's own command. */
  lemma SearchMeets(q: Layout, s: Loose, at: nat)
    requires Proper(q) && Steady(q, s) && at < |s.queue|
    ensures var e := s.queue[at]; Search(s.queue, e.command.number, e.unreliable, s.current, |s.queue|) == Taken(at)
  {
    var e := s.queue[at];
    assert forall i | 0 <= i < |s.queue| :: MayWait(q, s.queue[i], s.base, s.unreliable);
    SearchFinds(q, s, e, |s.queue|);
    AllApart(s.queue);
    hide Cut, Window, Search;
    assert !Before(e, e);
  }

  lemma FragmentTaken(q: Layout, lim: Limits, s: Loose, leaving: bool, base: nat, c: LooseCommand, at: nat)
    requires Proper(q) && Steady(q, s) && c.SendUnreliableFragment? && at < |s.queue|
    requires s.queue[at].command.number == c.number && s.queue[at].unreliable == c.start
    requires Assembles(s.queue[at].command, c.count, c.total)
    requires |c.data| <= lim.packetSize && FragmentInside(lim, c.index, c.count, c.offset, c.total, |c.data|)
    ensures c.index / 32 < |s.queue[at].command.fragments| && c.offset + |c.data| <= |s.queue[at].command.data|
    ensures var x := s.queue[at].command;
            HandleLoose(q, lim, s, leaving, base, c) ==
            if Bit(x.fragments, c.index) then s else Store(q, s, at, Marked(x, c.index, c.offset, c.data))
  {
    SearchMeets(q, s, at);
    WaitingLetIn(q, s, at);
    hide Store, Search, InWindow, Steady, Bit, Marked;
  }

  /** A fragment that has not come before, of a packet that waits: the packet's command gains it, and waits on or,
      if that was the last fragment missing and the packet is for the current number, comes out. */
  lemma FragmentGained(q: Layout, lim: Limits, s: Loose, leaving: bool, base: nat, c: LooseCommand, at: nat)
    requires Proper(q) && Steady(q, s) && c.SendUnreliableFragment? && at < |s.queue|
    requires s.queue[at].command.number == c.number && s.queue[at].unreliable == c.start
    requires Assembles(s.queue[at].command, c.count, c.total) && !Bit(s.queue[at].command.fragments, c.index)
    requires |c.data| <= lim.packetSize && FragmentInside(lim, c.index, c.count, c.offset, c.total, |c.data|)
    ensures var s' := HandleLoose(q, lim, s, leaving, base, c);
            exists e' :: Gains(s.queue[at], e', c)
                         && if Complete(e', s.base) then e' in s'.dispatched else e' in s'.queue
  {
    hide Store, Search, InWindow, Steady, Bit, HandleLoose, Marked, Words;
    var e := s.queue[at];
    MarkedGains(e, c);
    FragmentTaken(q, lim, s, leaving, base, c, at);
    var e' := e.(command := Marked(e.command, c.index, c.offset, c.data));
    StoreDelivers(q, s, at, e'.command);
  }

  lemma StoreDelivers(q: Layout, s: Loose, at: nat, command: Incoming)
    requires Proper(q) && Steady(q, s) && at < |s.queue| && command.number == s.queue[at].command.number
    ensures var e, s' := s.queue[at].(command := command), Store(q, s, at, command);
            if Complete(e, s.base) then e in s'.dispatched else e in s'.queue
  {
    var e := s.queue[at].(command := command);
    assert MayWait(q, s.queue[at], s.base, s.unreliable);
    var s1 := s.(queue := s.queue[at := e]);
    assert s1.queue[at] == e;
    if command.remaining == 0 {
      StoreReady(q, s, at, command);
      hide Pass, Ready, Steady;
      PassDelivers(q, s1, at);
    }
  }

  /** One window more than that, and a packet gone by is taken for one to come. */
  lemma StaleKept()
    ensures var q, e := LIBRARY, Waiting(false, 1, 1, NewCommand(1, [], 0));
            var s := Loose(0, 0, 0, [e], []);
            && Proper(q) && Steady(q, s) && Window(q, 0xA001) == Window(q, s.base) + q.windows - q.free + 2
            && e in Advance(q, s, 0xA001).queue
  {
    var q, e := LIBRARY, Waiting(false, 1, 1, NewCommand(1, [], 0));
    AcceptedNumbers(q, 0xA001, 1);
    assert Ahead(q, e, 0xA001);
    assert Reach(q, [e], 0xA001, 0) == 0;
  }
}
