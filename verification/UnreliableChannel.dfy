/** The unreliable side of a channel as an object the source updates in place; what the methods compute
    are the functions of Unreliable.dfy. */
module UnreliableChannel {
  import opened Bytes
  import opened Queues
  import opened Bitmap
  import opened Windows
  import opened Messages
  import R = ReliableChannel
  import opened Unreliable

  // ----- where the walk of a dispatch pass stands -----

  /** k of all the commands have been looked at.  Of the queue as it is now, the commands before start
      are kept or to be removed, those from start to current are to be dispatched in one piece, and
      those from current on are still to come. */
  datatype Walk = Walk(
    all: seq<Waiting>, k: nat, queue: seq<Waiting>, dropped: nat, start: nat, current: nat,
    before: seq<Waiting>, dispatched: seq<Waiting>, number0: nat, number: nat)

  function Start(queue: seq<Waiting>, dispatched: seq<Waiting>, number: nat): Walk {
    Walk(queue, 0, queue, 0, 0, 0, dispatched, dispatched, number, number)
  }

  predicate AllDeliverable(s: seq<Waiting>, current: nat) {
    forall i | 0 <= i < |s| :: Deliverable(s[i], current)
  }

  predicate Walked(w: Walk, current: nat) {
    && w.k <= |w.all| && w.dropped <= w.start <= w.current <= |w.queue| && w.current - w.start <= w.k
    && w.queue[w.current..] == w.all[w.k..]
    && w.queue[w.start..w.current] == w.all[w.k - (w.current - w.start)..w.k]
    && AllDeliverable(w.queue[w.start..w.current], current)
    && w.dispatched == w.before + Delivered(w.all[..w.k - (w.current - w.start)], current)
    && w.number == LastNumber(w.all[..w.k], current, w.number0)
    && (w.start == w.current ==> w.queue[w.dropped..w.start] == Left(w.all[..w.k], current))
  }

  /** The run from start on has been moved to the dispatched list. */
  function Moved(w: Walk): Walk
    requires w.start <= w.current <= |w.queue|
  {
    w.(queue := w.queue[..w.start] + w.queue[w.current..], current := w.start,
       dispatched := w.dispatched + w.queue[w.start..w.current])
  }

  /** The walk goes past a command it does not stop at. */
  function Next(w: Walk, current: nat): Walk
    requires w.dropped <= w.start <= w.current < |w.queue|
  {
    var e := w.queue[w.current];
    if Deliverable(e, current) then
      w.(k := w.k + 1, current := w.current + 1, number := if e.unsequenced then w.number else e.unreliable)
    else
      var m := Moved(w);
      var dropped := if e.command.number != current then m.current + 1
                     else if w.start != w.current then m.current
                     else if w.dropped != w.current then w.current - 1 else w.dropped;
      m.(k := w.k + 1, dropped := dropped, start := m.current + 1, current := m.current + 1)
  }

  /** What the walk started from. */
  predicate From(w: Walk, all: seq<Waiting>, before: seq<Waiting>, number: nat) {
    w.all == all && w.before == before && w.number0 == number
  }

  function Remaining(w: Walk): nat {
    if w.k <= |w.all| then |w.all| - w.k else 0
  }

  lemma WalkedNext(w: Walk, current: nat)
    requires Walked(w, current) && w.current < |w.queue|
    ensures w.k < |w.all| && w.queue[w.current] == w.all[w.k]
  {
    assert w.queue[w.current..][0] == w.all[w.k..][0];
  }

  lemma {:induction false} DeliveredConcat(a: seq<Waiting>, b: seq<Waiting>, current: nat)
    requires AllDeliverable(b, current)
    ensures Delivered(a + b, current) == Delivered(a, current) + b
    decreases |b|
  {
    if b == [] {
      assert a + b == a;
    } else {
      var n := |b| - 1;
      assert (a + b)[..|a| + n] == a + b[..n];
      DeliveredConcat(a, b[..n], current);
      assert b == b[..n] + [b[n]];
    }
  }

  lemma Sliced<T>(s: seq<T>, j: nat, k: nat)
    requires j <= k <= |s|
    ensures s[..j] + s[j..k] == s[..k]
  {
  }

  lemma Appended<T>(a: seq<T>, b: seq<T>, c: seq<T>)
    ensures a + b + c == a + (b + c)
    ensures (a + b)[|a|..] == b && (a + b)[..|a|] == a
  {
  }

  /** Moving the run keeps the walk in order. */
  lemma MovedDelivers(w: Walk, current: nat)
    requires Walked(w, current)
    ensures var m := Moved(w);
            && m.queue[m.current..] == w.all[w.k..] && m.dispatched == w.before + Delivered(w.all[..w.k], current)
            && m.queue[..m.current] == w.queue[..w.start]
  {
    var j := w.k - (w.current - w.start);
    DeliveredConcat(w.all[..j], w.all[j..w.k], current);
    Sliced(w.all, j, w.k);
    Appended(w.before, Delivered(w.all[..j], current), w.all[j..w.k]);
    Appended(w.queue[..w.start], w.queue[w.current..], []);
    hide Delivered, Left, LastNumber, AllDeliverable;
  }

  lemma NoTail(s: seq<Waiting>, current: nat)
    requires s != [] && !Incomplete(s[|s| - 1], current)
    ensures Left(s, current) == []
  {
  }

  lemma LeftNext(s: seq<Waiting>, current: nat)
    requires s != [] && Incomplete(s[|s| - 1], current)
    ensures var n := |s| - 1;
            Left(s, current) ==
            if Left(s[..n], current) == [] then [s[n]] else [Left(s[..n], current)[|Left(s[..n], current)| - 1], s[n]]
  {
    var n := |s| - 1;
    assert s[..n][n - Tail(s[..n], current)..] == s[n - Tail(s[..n], current)..n];
  }

  lemma SliceNext<T>(s: seq<T>, j: nat, k: nat)
    requires j <= k < |s|
    ensures s[j..k + 1] == s[j..k] + [s[k]] && s[k..][1..] == s[k + 1..] && s[k..][0] == s[k]
    ensures s[..k + 1][..k] == s[..k] && |s[..k + 1]| == k + 1 && s[..k + 1][k] == s[k]
  {
  }

  lemma NextNumber(all: seq<Waiting>, k: nat, current: nat, number: nat)
    requires k < |all| && Deliverable(all[k], current)
    ensures LastNumber(all[..k + 1], current, number) ==
            if all[k].unsequenced then LastNumber(all[..k], current, number) else all[k].unreliable
  {
    SliceNext(all, 0, k);
  }

  lemma NextDeliverable(w: Walk, current: nat)
    requires Walked(w, current) && w.current < |w.queue| && Deliverable(w.queue[w.current], current)
    ensures Walked(Next(w, current), current)
  {
    WalkedNext(w, current);
    RunGrows(w, current);
    NextNumber(w.all, w.k, current, w.number0);
    var j := w.k - (w.current - w.start);
    assert w.k + 1 - (w.current + 1 - w.start) == j;
    hide Left, Delivered, LastNumber, AllDeliverable, Deliverable, Moved;
  }

  /** The run to be moved takes in the command. */
  lemma RunGrows(w: Walk, current: nat)
    requires Walked(w, current) && w.current < |w.queue| && Deliverable(w.queue[w.current], current)
    requires w.k < |w.all| && w.queue[w.current] == w.all[w.k]
    ensures w.queue[w.start..w.current + 1] == w.all[w.k - (w.current - w.start)..w.k + 1]
    ensures AllDeliverable(w.queue[w.start..w.current + 1], current)
    ensures w.queue[w.current + 1..] == w.all[w.k + 1..]
  {
    SliceNext(w.all, w.k - (w.current - w.start), w.k);
    SliceNext(w.queue, w.start, w.current);
    hide Left, Delivered, LastNumber, AllDeliverable, Deliverable;
  }

  /** After a command that is not delivered nothing waits to be moved. */
  predicate Between(w: Walk, current: nat) {
    && w.k <= |w.all| && w.dropped <= w.start == w.current <= |w.queue|
    && w.queue[w.current..] == w.all[w.k..]
    && w.dispatched == w.before + Delivered(w.all[..w.k], current)
    && w.number == LastNumber(w.all[..w.k], current, w.number0)
    && w.queue[w.dropped..w.start] == Left(w.all[..w.k], current)
  }

  lemma BetweenWalked(w: Walk, current: nat)
    requires Between(w, current)
    ensures Walked(w, current)
  {
    assert w.queue[w.start..w.current] == [] == w.all[w.k - 0..w.k];
    hide Left, Delivered, LastNumber;
  }

  lemma NothingDelivered(all: seq<Waiting>, k: nat, current: nat, number: nat)
    requires k < |all| && !Deliverable(all[k], current)
    ensures Delivered(all[..k + 1], current) == Delivered(all[..k], current)
    ensures LastNumber(all[..k + 1], current, number) == LastNumber(all[..k], current, number)
  {
    SliceNext(all, 0, k);
  }

  lemma NextFields(w: Walk, current: nat)
    requires w.dropped <= w.start <= w.current < |w.queue| && !Deliverable(w.queue[w.current], current)
    ensures var n, m := Next(w, current), Moved(w);
            && n.k == w.k + 1 && n.all == w.all && n.before == w.before
            && n.number == w.number && n.number0 == w.number0
            && n.start == n.current == w.start + 1 <= |n.queue| && n.queue == m.queue && n.dispatched == m.dispatched
            && m.current == w.start < |m.queue|
  {
  }

  lemma NextRest(w: Walk, current: nat)
    requires Walked(w, current) && w.current < |w.queue| && !Deliverable(w.queue[w.current], current)
    ensures var n := Next(w, current); n.k <= |n.all| && n.current <= |n.queue| && n.queue[n.current..] == n.all[n.k..]
  {
    WalkedNext(w, current);
    NextFields(w, current);
    MovedDelivers(w, current);
    hide *;
    RestNext(Moved(w).queue, w.start, w.all, w.k);
  }

  lemma NextDelivered(w: Walk, current: nat)
    requires Walked(w, current) && w.current < |w.queue| && !Deliverable(w.queue[w.current], current)
    ensures var n := Next(w, current);
            && n.k <= |n.all| && n.dispatched == n.before + Delivered(n.all[..n.k], current)
            && n.number == LastNumber(n.all[..n.k], current, n.number0)
  {
    assert w.number == LastNumber(w.all[..w.k], current, w.number0);
    WalkedNext(w, current);
    NextFields(w, current);
    MovedDelivers(w, current);
    hide *;
    NothingDelivered(w.all, w.k, current, w.number0);
  }

  lemma NextOther(w: Walk, current: nat)
    requires Walked(w, current) && w.current < |w.queue| && !Deliverable(w.queue[w.current], current)
    ensures Walked(Next(w, current), current)
  {
    WalkedNext(w, current);
    NextFields(w, current);
    hide *;
    NextRest(w, current);
    NextDelivered(w, current);
    NextLeft(w, current);
    IsBetween(Next(w, current), current);
    BetweenWalked(Next(w, current), current);
  }

  lemma IsBetween(w: Walk, current: nat)
    requires w.k <= |w.all| && w.dropped <= w.start == w.current <= |w.queue|
    requires w.queue[w.current..] == w.all[w.k..]
    requires w.dispatched == w.before + Delivered(w.all[..w.k], current)
    requires w.number == LastNumber(w.all[..w.k], current, w.number0)
    requires w.queue[w.dropped..w.start] == Left(w.all[..w.k], current)
    ensures Between(w, current)
  {
  }

  lemma RestNext<T>(s: seq<T>, j: nat, t: seq<T>, k: nat)
    requires j < |s| && k < |t| && s[j..] == t[k..]
    ensures s[j + 1..] == t[k + 1..]
  {
    assert s[j..][1..] == s[j + 1..] && t[k..][1..] == t[k + 1..];
  }

  /** What the pass would leave of the commands it has seen. */
  lemma NextLeft(w: Walk, current: nat)
    requires Walked(w, current) && w.current < |w.queue| && !Deliverable(w.queue[w.current], current) && w.k < |w.all|
    ensures var n := Next(w, current);
            n.dropped <= n.start <= |n.queue| && n.queue[n.dropped..n.start] == Left(w.all[..w.k + 1], current)
  {
    WalkedNext(w, current);
    SliceNext(w.all, 0, w.k);
    var e, seen := w.queue[w.current], w.all[..w.k + 1];
    if e.command.number != current {
      NoTail(seen, current);
    } else {
      LeftNext(seen, current);
      if w.start != w.current { LastOfRun(w, current); } else { LeftBefore(w, current); }
    }
    var left := Left(w.all[..w.k], current);
    assert Moved(w).queue[w.start] == e;
    assert w.start == w.current ==> w.dropped <= w.current && left == w.queue[w.dropped..w.current] by { hide Left; }
    hide Left, Delivered, LastNumber, Tail, Walked;
    LeftAfter(w, current, left);
  }

  lemma LeftAfter(w: Walk, current: nat, left: seq<Waiting>)
    requires w.dropped <= w.start <= w.current < |w.queue| && !Deliverable(w.queue[w.current], current)
    requires w.start == w.current ==> left == w.queue[w.dropped..w.current]
    requires w.start != w.current && w.queue[w.current].command.number == current ==> left == []
    ensures var n, e := Next(w, current), w.queue[w.current];
            && n.dropped <= n.start <= |n.queue|
            && n.queue[n.dropped..n.start] ==
               if e.command.number != current then [] else if left == [] then [e] else [left[|left| - 1], e]
  {
    assert Moved(w).queue[w.start] == w.queue[w.current];
    if w.start == w.current { assert Moved(w).queue == w.queue; }
  }

  lemma LastOfRun(w: Walk, current: nat)
    requires Walked(w, current) && w.start < w.current
    ensures Left(w.all[..w.k], current) == []
  {
    var run := w.queue[w.start..w.current];
    assert w.all[..w.k][w.k - 1] == run[|run| - 1] && Deliverable(run[|run| - 1], current);
    NoTail(w.all[..w.k], current);
  }

  lemma LeftBefore(w: Walk, current: nat)
    requires Walked(w, current) && w.start == w.current < |w.queue|
    ensures var left := Left(w.all[..w.k], current);
            && left == w.queue[w.dropped..w.current]
            && (left == [] <==> w.dropped == w.current)
            && (left != [] ==> w.dropped < w.current && left[|left| - 1] == w.queue[w.current - 1])
  {
    hide Left;
  }

  lemma NextWalked(w: Walk, current: nat)
    requires Walked(w, current) && w.current < |w.queue|
    ensures w.dropped <= w.start <= w.current < |w.queue| && Walked(Next(w, current), current)
    ensures var n := Next(w, current);
            n.k == w.k + 1 && n.all == w.all && n.before == w.before && n.number0 == w.number0
  {
    if Deliverable(w.queue[w.current], current) { NextDeliverable(w, current); } else { NextOther(w, current); }
  }

  lemma WalkedNoRun(w: Walk, current: nat)
    requires Walked(w, current) && w.start == w.current
    ensures w.queue[w.dropped..] == Left(w.all[..w.k], current) + w.all[w.k..]
    ensures w.dispatched == w.before + Delivered(w.all[..w.k], current)
  {
    assert w.queue[w.dropped..] == w.queue[w.dropped..w.start] + w.queue[w.start..];
    hide Left, Delivered, LastNumber, AllDeliverable;
  }

  lemma WalkedRun(w: Walk, current: nat)
    requires Walked(w, current) && w.start != w.current
    ensures Moved(w).queue[w.start..] == Left(w.all[..w.k], current) + w.all[w.k..]
    ensures Moved(w).dispatched == w.before + Delivered(w.all[..w.k], current)
  {
    MovedDelivers(w, current);
    LastOfRun(w, current);
    assert [] + w.all[w.k..] == w.all[w.k..];
    hide Left, Delivered, LastNumber, AllDeliverable;
  }

  /** At the end of the walk, what the pass leaves. */
  lemma WalkedAll(q: Layout, s: Loose, w: Walk)
    requires Proper(q) && Walked(w, s.current) && w.all == s.queue && w.before == s.dispatched
             && w.number0 == s.unreliable
    requires Reach(q, s.queue, s.current, 0) == w.k
    ensures w.start == w.current ==>
              s.(unreliable := w.number, queue := w.queue[w.dropped..], dispatched := w.dispatched) == Pass(q, s)
    ensures w.start != w.current ==>
              var m := Moved(w);
              s.(unreliable := w.number, queue := m.queue[w.start..], dispatched := m.dispatched) == Pass(q, s)
  {
    assert w.number == LastNumber(w.all[..w.k], s.current, w.number0);
    WalkedOrder(w, s.current);
    hide Walked, Pass, Left, Delivered, LastNumber, Reach, Proper, Moved;
    MovedIs(w);
    if w.start == w.current { WalkedNoRun(w, s.current); } else { WalkedRun(w, s.current); }
  }

  function ReachFrom(q: Layout, all: seq<Waiting>, current: nat, k: nat): nat
    requires Proper(q)
  {
    if k <= |all| then Reach(q, all, current, k) else 0
  }

  class LooseChannel {
    const q: Layout
    const lim: Limits
    var incomingReliableSequenceNumber: nat
    var incomingUnreliableSequenceNumber: nat
    var incomingUnreliableCommands: seq<Waiting>
    var dispatchedCommands: seq<Waiting>
    ghost var base: nat

    ghost function State(): Loose
      reads this
    {
      Loose(base, incomingReliableSequenceNumber, incomingUnreliableSequenceNumber, incomingUnreliableCommands,
            dispatchedCommands)
    }

    constructor (q: Layout, lim: Limits)
      requires Proper(q)
      ensures this.q == q && this.lim == lim && State() == FRESH
    {
      this.q, this.lim := q, lim;
      incomingReliableSequenceNumber, incomingUnreliableSequenceNumber := 0, 0;
      incomingUnreliableCommands, dispatchedCommands, base := [], [], 0;
    }

    ghost predicate Shows(w: Walk, droppedCommand: nat, startCommand: nat, currentCommand: nat)
      reads this
    {
      && w.queue == incomingUnreliableCommands && w.dispatched == dispatchedCommands
          && w.number == incomingUnreliableSequenceNumber
      && w.dropped == droppedCommand && w.start == startCommand && w.current == currentCommand
    }

    /** enet_peer_dispatch_incoming_unreliable_commands: one walk that moves what can be delivered to the
        dispatched list a run at a time, and then removes everything up to droppedCommand. */
    method DispatchUnreliable()
      requires Proper(q)
      modifies this`incomingUnreliableSequenceNumber, this`incomingUnreliableCommands, this`dispatchedCommands
      ensures State() == Pass(q, old(State()))
    {
      ghost var s := State();
      hide Walked, Pass, Reach, ReachFrom, Proper, Shows, Moved;
      var droppedCommand, startCommand, currentCommand;
      ghost var w;
      droppedCommand, startCommand, currentCommand, w := WalkAll();
      ShowsIs(w, droppedCommand, startCommand, currentCommand);
      WalkedOrder(w, s.current);
      WalkedAll(q, s, w);
      MovedIs(w);
      Finish(droppedCommand, startCommand, currentCommand);
    }

    /** The walk itself. */
    method WalkAll() returns (droppedCommand: nat, startCommand: nat, currentCommand: nat, ghost w: Walk)
      requires Proper(q)
      modifies this`incomingUnreliableSequenceNumber, this`incomingUnreliableCommands, this`dispatchedCommands
      ensures Walked(w, incomingReliableSequenceNumber) && Shows(w, droppedCommand, startCommand, currentCommand)
      ensures w.all == old(incomingUnreliableCommands) && w.before == old(dispatchedCommands)
      ensures w.number0 == old(incomingUnreliableSequenceNumber)
      ensures Reach(q, w.all, incomingReliableSequenceNumber, 0) == w.k
    {
      droppedCommand, startCommand, currentCommand := 0, 0, 0;
      w := WalkStarts();
      hide *;
      var stops := false;
      while !stops && currentCommand < |incomingUnreliableCommands|
        invariant Walking(w, stops, droppedCommand, startCommand, currentCommand)
        invariant From(w, old(incomingUnreliableCommands), old(dispatchedCommands),
                       old(incomingUnreliableSequenceNumber))
        decreases !stops, Remaining(w)
      {
        stops, droppedCommand, startCommand, currentCommand, w :=
            Round(droppedCommand, startCommand, currentCommand, w);
      }
    }

    /** Where the walk stands: all of the queue it has looked at lies within the pass's reach. */
    ghost predicate Walking(w: Walk, stops: bool, droppedCommand: nat, startCommand: nat, currentCommand: nat)
      requires Proper(q)
      reads this
    {
      && Walked(w, incomingReliableSequenceNumber) && Shows(w, droppedCommand, startCommand, currentCommand)
      && Reach(q, w.all, incomingReliableSequenceNumber, 0) ==
         if stops then w.k else ReachFrom(q, w.all, incomingReliableSequenceNumber, w.k)
    }

    lemma WalkStarts() returns (w: Walk)
      requires Proper(q)
      ensures Walking(w, false, 0, 0, 0)
      ensures From(w, incomingUnreliableCommands, dispatchedCommands, incomingUnreliableSequenceNumber)
    {
      w := Start(incomingUnreliableCommands, dispatchedCommands, incomingUnreliableSequenceNumber);
    }

    lemma ShowsIs(w: Walk, droppedCommand: nat, startCommand: nat, currentCommand: nat)
      requires Shows(w, droppedCommand, startCommand, currentCommand)
      ensures w.queue == incomingUnreliableCommands && w.dispatched == dispatchedCommands
              && w.number == incomingUnreliableSequenceNumber
      ensures w.dropped == droppedCommand && w.start == startCommand && w.current == currentCommand
    {
    }

    /** One round of the walk, with the test whether it ends here. */
    method Round(dropped: nat, start: nat, current: nat, ghost w: Walk)
      returns (stops: bool, dropped': nat, start': nat, current': nat, ghost w': Walk)
      requires Proper(q) && Walking(w, false, dropped, start, current) && current < |incomingUnreliableCommands|
      modifies this`incomingUnreliableSequenceNumber, this`incomingUnreliableCommands, this`dispatchedCommands
      ensures Walking(w', stops, dropped', start', current')
      ensures forall all, before, number :: From(w, all, before, number) ==> From(w', all, before, number)
      ensures stops || Remaining(w') < Remaining(w)
    {
      WalkedNext(w, incomingReliableSequenceNumber);
      ReachNext(q, w.all, incomingReliableSequenceNumber, w.k);
      NextWalked(w, incomingReliableSequenceNumber);
      hide Walked, Ahead, Reach, ReachFrom, Next, Proper;
      stops := StopsAt(incomingUnreliableCommands[current]);
      if stops { return stops, dropped, start, current, w; }
      w' := Next(w, incomingReliableSequenceNumber);
      dropped', start', current' := WalkPast(dropped, start, current, w);
    }

    /** Its end: the last run goes, and what came before droppedCommand is removed. */
    method Finish(droppedCommand: nat, startCommand: nat, currentCommand: nat)
      requires droppedCommand <= startCommand <= currentCommand <= |incomingUnreliableCommands|
      modifies this`incomingUnreliableCommands, this`dispatchedCommands
      ensures startCommand == currentCommand ==>
                && incomingUnreliableCommands == old(incomingUnreliableCommands)[droppedCommand..]
                && dispatchedCommands == old(dispatchedCommands)
      ensures startCommand != currentCommand ==>
                && incomingUnreliableCommands ==
                   (old(incomingUnreliableCommands)[..startCommand]
                    + old(incomingUnreliableCommands)[currentCommand..])[startCommand..]
                && dispatchedCommands == old(dispatchedCommands)
                    + old(incomingUnreliableCommands)[startCommand..currentCommand]
    {
      var dropped := droppedCommand;
      if startCommand != currentCommand {
        Move(startCommand, currentCommand);
        dropped := startCommand;
      }
      incomingUnreliableCommands := incomingUnreliableCommands[dropped..];
    }

    /** The test whether a command is for a reliable number still to come. */
    method StopsAt(e: Waiting) returns (stops: bool)
      requires Proper(q)
      ensures stops == Ahead(q, e, incomingReliableSequenceNumber)
    {
      if e.unsequenced || e.command.number == incomingReliableSequenceNumber { return false; }
      SizePositive(q);
      var reliableWindow, currentWindow := e.command.number / q.size, incomingReliableSequenceNumber / q.size;
      if e.command.number < incomingReliableSequenceNumber { reliableWindow := reliableWindow + q.windows; }
      stops := reliableWindow >= currentWindow && reliableWindow < currentWindow + q.free - 1;
    }

    /** enet_list_move to the end of the dispatched list. */
    method Move(startCommand: nat, currentCommand: nat)
      requires startCommand <= currentCommand <= |incomingUnreliableCommands|
      modifies this`incomingUnreliableCommands, this`dispatchedCommands
      ensures incomingUnreliableCommands ==
              old(incomingUnreliableCommands)[..startCommand] + old(incomingUnreliableCommands)[currentCommand..]
      ensures dispatchedCommands ==
              old(dispatchedCommands) + old(incomingUnreliableCommands)[startCommand..currentCommand]
    {
      dispatchedCommands := dispatchedCommands + incomingUnreliableCommands[startCommand..currentCommand];
      incomingUnreliableCommands := incomingUnreliableCommands[..startCommand]
          + incomingUnreliableCommands[currentCommand..];
    }

    /** One round of the walk. */
    method WalkPast(dropped: nat, start: nat, current: nat, ghost w: Walk)
      returns (dropped': nat, start': nat, current': nat)
      requires dropped <= start <= current < |incomingUnreliableCommands| && Shows(w, dropped, start, current)
      modifies this`incomingUnreliableSequenceNumber, this`incomingUnreliableCommands, this`dispatchedCommands
      ensures Shows(Next(w, incomingReliableSequenceNumber), dropped', start', current')
    {
      var e := incomingUnreliableCommands[current];
      if e.unsequenced { return dropped, start, current + 1; }
      if e.command.number == incomingReliableSequenceNumber && e.command.remaining == 0 {
        incomingUnreliableSequenceNumber := e.unreliable;
        return dropped, start, current + 1;
      }
      dropped', current' := dropped, current;
      if start != current {
        Move(start, current);
        current' := start;
      }
      if e.command.number != incomingReliableSequenceNumber {
        dropped' := current' + 1;
      } else if start != current {
        dropped' := current';
      } else if dropped != current {
        dropped' := current - 1;
      }
      start', current' := current' + 1, current' + 1;
    }

    /** The search loop, from the back of the queue. */
    method SearchUnreliable(number: nat, unreliable: nat) returns (p: R.Place)
      ensures p == Search(incomingUnreliableCommands, number, unreliable, incomingReliableSequenceNumber,
                          |incomingUnreliableCommands|)
    {
      ghost var queue, current := incomingUnreliableCommands, incomingReliableSequenceNumber;
      var i := |incomingUnreliableCommands|;
      while i > 0
        invariant 0 <= i <= |queue|
        invariant Search(queue, number, unreliable, current, i) == Search(queue, number, unreliable, current, |queue|)
      {
        var x := incomingUnreliableCommands[i - 1];
        if number >= incomingReliableSequenceNumber {
          if x.command.number < incomingReliableSequenceNumber {
            i := i - 1;
            continue;
          }
        } else if x.command.number >= incomingReliableSequenceNumber {
          break;
        }
        if x.command.number < number { break; }
        if x.command.number > number {
          i := i - 1;
          continue;
        }
        if x.unreliable <= unreliable {
          if x.unreliable < unreliable { break; }
          return R.Taken(i - 1);
        }
        i := i - 1;
      }
      p := R.Gap(i);
    }

    /** enet_peer_queue_incoming_command for the unreliable kinds.  An unsequenced command goes to the
        front. */
    method QueueUnreliable(leaving: bool, e: Waiting)
      requires Proper(q)
      modifies this`incomingUnreliableSequenceNumber, this`incomingUnreliableCommands, this`dispatchedCommands
      ensures State() == Arrive(q, old(State()), leaving, e)
    {
      hide Pass, Search;
      if leaving { return; }
      var at := 0;
      if !e.unsequenced {
        SizePositive(q);
        var reliableWindow, currentWindow := e.command.number / q.size, incomingReliableSequenceNumber / q.size;
        if e.command.number < incomingReliableSequenceNumber { reliableWindow := reliableWindow + q.windows; }
        if reliableWindow < currentWindow || reliableWindow >= currentWindow + q.free - 1 { return; }
        if e.command.number == incomingReliableSequenceNumber
            && e.unreliable <= incomingUnreliableSequenceNumber { return; }
        var place := SearchUnreliable(e.command.number, e.unreliable);
        if place.Taken? { return; }
        at := place.at;
      }
      var _ := InsertCommand(at, e);
    }

    /** The end of it: the command is put in place and a pass made; `gone` counts what the pass removed. */
    method InsertCommand(at: nat, e: Waiting) returns (gone: nat)
      requires Proper(q) && at <= |incomingUnreliableCommands|
      modifies this`incomingUnreliableSequenceNumber, this`incomingUnreliableCommands, this`dispatchedCommands
      ensures State() == Pass(q, old(State()).(queue := Insert(old(State()).queue, at, e)))
      ensures gone == Gone(q, old(State()).(queue := Insert(old(State()).queue, at, e)))
    {
      hide Pass;
      incomingUnreliableCommands := incomingUnreliableCommands[..at] + [e] + incomingUnreliableCommands[at..];
      var before := |incomingUnreliableCommands|;
      PassKeepsEnd(q, State());
      DispatchUnreliable();
      gone := before - |incomingUnreliableCommands|;
    }

    /** enet_protocol_handle_send_unreliable, the peer being connected. */
    method HandleSendUnreliable(leaving: bool, base: nat, number: nat, unreliable: nat, data: seq<byte>)
      requires Proper(q)
      modifies this`incomingUnreliableSequenceNumber, this`incomingUnreliableCommands, this`dispatchedCommands
      ensures State() == HandleLoose(q, lim, old(State()), leaving, base, SendUnreliable(number, unreliable, data))
    {
      hide Arrive;
      if |data| > lim.packetSize { return; }
      QueueUnreliable(leaving, Waiting(false, base, unreliable, R.NewCommand(number, data, 0)));
    }

    /** enet_protocol_handle_send_unreliable_fragment, the peer being connected.  A command that the pass
        has removed again takes no fragment. */
    method HandleSendUnreliableFragment(leaving: bool, base: nat, c: LooseCommand)
      requires Proper(q) && c.SendUnreliableFragment?
      modifies this`incomingUnreliableSequenceNumber, this`incomingUnreliableCommands, this`dispatchedCommands
      ensures State() == HandleLooseFragment(q, lim, old(State()), leaving, base, c)
    {
      hide Search, InWindow, TakeLoose, BeginLoose, R.Assembles;
      WindowTestIs(q, c.number, incomingReliableSequenceNumber);
      if |c.data| > lim.packetSize { return; }
      var reliableWindow, currentWindow := c.number / q.size, incomingReliableSequenceNumber / q.size;
      if c.number < incomingReliableSequenceNumber { reliableWindow := reliableWindow + q.windows; }
      if reliableWindow < currentWindow || reliableWindow >= currentWindow + q.free - 1 { return; }
      if c.number == incomingReliableSequenceNumber && c.start <= incomingUnreliableSequenceNumber { return; }
      if c.count > lim.fragments || c.index >= c.count || c.total > lim.packetSize
         || c.offset >= c.total || |c.data| > c.total - c.offset { return; }
      var place := SearchUnreliable(c.number, c.start);
      if place.Taken? {
        if !AssemblesAt(place.at, c.count, c.total) { return; }
        StoreFragment(place.at, c);
      } else if !leaving {
        BeginFragments(place.at, base, c);
      }
    }

    /** The test that the fragment belongs to the command in place `at`. */
    predicate AssemblesAt(at: nat, count: nat, total: nat)
      requires at < |incomingUnreliableCommands|
      reads this
    {
      R.Assembles(incomingUnreliableCommands[at].command, count, total)
    }

    /** The part of it that queues the command and then stores its first fragment. */
    method BeginFragments(at: nat, base: nat, c: LooseCommand)
      requires Proper(q) && c.SendUnreliableFragment? && at <= |incomingUnreliableCommands|
      requires c.index < c.count && c.offset + |c.data| <= c.total
      modifies this`incomingUnreliableSequenceNumber, this`incomingUnreliableCommands, this`dispatchedCommands
      ensures State() == BeginLoose(q, old(State()), at, base, c)
    {
      QueueIs();
      hide *;
      BeginIs(q, State(), at, base, c);
      var gone := InsertCommand(at, NewFragments(base, c));
      QueueIs();
      if gone <= at { StoreFragment(at - gone, c); }
    }

    lemma QueueIs()
      ensures State().queue == incomingUnreliableCommands
    {
    }

    /** The part of it that stores the bytes and counts the fragment, once. */
    method StoreFragment(at: nat, c: LooseCommand)
      requires Proper(q) && c.SendUnreliableFragment? && at < |incomingUnreliableCommands|
      requires R.Assembles(incomingUnreliableCommands[at].command, c.count, c.total)
      requires c.index < c.count && c.offset + |c.data| <= c.total
      modifies this`incomingUnreliableSequenceNumber, this`incomingUnreliableCommands, this`dispatchedCommands
      ensures State() == TakeLoose(q, old(State()), at, c)
    {
      hide Pass, R.Marked, Mask, Meets, Or;
      var command := incomingUnreliableCommands[at].command;
      if !Meets(command.fragments[c.index / 32], Mask(c.index % 32)) {
        R.MarkedIs(command, c.index, c.offset, c.data);
        command := command.(
          remaining := if command.remaining == 0 then 0 else command.remaining - 1,
          fragments := command.fragments[c.index / 32 := Or(command.fragments[c.index / 32], Mask(c.index % 32))],
          data := command.data[..c.offset] + c.data + command.data[c.offset + |c.data|..]);
        incomingUnreliableCommands :=
          incomingUnreliableCommands[at := incomingUnreliableCommands[at].(command := command)];
        if command.remaining == 0 { DispatchUnreliable(); }
      }
    }

    /** What dispatching reliable commands does to the unreliable side. */
    method AdvanceTo(number: nat, ghost base: nat)
      requires Proper(q) && number == Cut(base)
      modifies this`base, this`incomingReliableSequenceNumber, this`incomingUnreliableSequenceNumber,
               this`incomingUnreliableCommands, this`dispatchedCommands
      ensures State() == Advance(q, old(State()), base)
    {
      hide Pass;
      this.base := base;
      incomingReliableSequenceNumber := number;
      incomingUnreliableSequenceNumber := 0;
      if incomingUnreliableCommands != [] { DispatchUnreliable(); }
    }
  }

  lemma WalkedOrder(w: Walk, current: nat)
    requires Walked(w, current)
    ensures w.dropped <= w.start <= w.current <= |w.queue|
  {
  }

  lemma MovedIs(w: Walk)
    requires w.start <= w.current <= |w.queue|
    ensures Moved(w).queue == w.queue[..w.start] + w.queue[w.current..] && |Moved(w).queue| >= w.start
    ensures Moved(w).dispatched == w.dispatched + w.queue[w.start..w.current]
  {
  }

  lemma ReachNext(q: Layout, all: seq<Waiting>, current: nat, k: nat)
    requires Proper(q) && k < |all|
    ensures ReachFrom(q, all, current, k) == if Ahead(q, all[k], current) then k else ReachFrom(q, all, current, k + 1)
  {
  }
}
