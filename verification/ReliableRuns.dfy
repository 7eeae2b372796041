/** Whole runs of a reliable channel over an unreliable network. */
module ReliableRuns {
  import opened Bytes
  import opened Bitmap
  import opened Constants
  import opened Windows
  import opened Messages
  import opened Queues
  import opened ReliableChannel
  import opened ReliableDelivery

  ghost predicate AllExist(sent: seq<Message>, copies: seq<Copy>) {
    forall k | 0 <= k < |copies| :: Exists(sent, copies[k])
  }

  /** The receiver after the network has delivered these copies: any of them, in any order, any
      number of times. */
  ghost function Run(q: Layout, lim: Limits, sent: seq<Message>, r: Receiver, copies: seq<Copy>): Receiver
    requires Proper(q) && AllSendable(lim, sent) && AllExist(sent, copies)
    decreases |copies|
  {
    if copies == [] then r else Run(q, lim, sent, Deliver(q, lim, sent, r, copies[0]), copies[1..])
  }

  /** Every copy was within the staleness bounds when it arrived. */
  ghost predicate AdmissibleRun(q: Layout, lim: Limits, sent: seq<Message>, r: Receiver, copies: seq<Copy>)
    requires Proper(q) && AllSendable(lim, sent) && AllExist(sent, copies)
    decreases |copies|
  {
    copies == [] ||
    (|r.dispatched| <= |sent| && Admissible(q, sent, r, copies[0].message)
     && AdmissibleRun(q, lim, sent, Deliver(q, lim, sent, r, copies[0]), copies[1..]))
  }

  /** Some copy of this piece arrived when its message was near enough to be taken. */
  ghost predicate Reached(q: Layout, lim: Limits, sent: seq<Message>, r: Receiver, copies: seq<Copy>, c: Copy)
    requires Proper(q) && AllSendable(lim, sent) && AllExist(sent, copies)
    decreases |copies|
  {
    copies != [] &&
    ((copies[0] == c && |r.dispatched| <= |sent| && Reachable(q, sent, r, c.message))
     || Reached(q, lim, sent, Deliver(q, lim, sent, r, copies[0]), copies[1..], c))
  }

  /** The invariant over a run, and which pieces it leaves with the receiver. */
  lemma {:induction false} RunHolds(q: Layout, lim: Limits, sent: seq<Message>, r: Receiver, ids: seq<nat>,
                                    copies: seq<Copy>)
    returns (ids': seq<nat>)
    requires Proper(q) && AllSendable(lim, sent) && Holds(lim, sent, r, ids) && Settled(r)
    requires AllExist(sent, copies) && AdmissibleRun(q, lim, sent, r, copies)
    ensures var r' := Run(q, lim, sent, r, copies);
            && Holds(lim, sent, r', ids') && Settled(r') && NothingLost(sent, r, ids, r', ids')
            && (forall i: nat, j: nat {:trigger Has(sent, r', ids', i, j)} ::
                  i < |sent| && j < Pieces(sent[i]) && Has(sent, r', ids', i, j) ==>
                    Has(sent, r, ids, i, j) || Copy(i, j) in copies)
            && (forall c: Copy {:trigger Reached(q, lim, sent, r, copies, c)} ::
                  Reached(q, lim, sent, r, copies, c) ==> Has(sent, r', ids', c.message, c.piece))
    decreases |copies|
  {
    hide Holds, Settled, Has, First, Deliver, Reachable, Admissible;
    ids' := ids;
    if copies != [] {
      var c, r1 := copies[0], Deliver(q, lim, sent, r, copies[0]);
      var ids1 := DeliverHolds(q, lim, sent, r, ids, c);
      ids' := RunHolds(q, lim, sent, r1, ids1, copies[1..]);
    }
  }

  /** How far a 16-bit number lies ahead of another, counting forward across the wrap. */
  function Forward(current: nat, s: nat): nat {
    (s + SPAN - current % SPAN) % SPAN
  }

  ghost predicate SortedForward(r: Receiver) {
    forall a, b | 0 <= a < b < |r.queue| ::
      Forward(r.current, r.queue[a].number) < Forward(r.current, r.queue[b].number)
  }

  lemma ForwardIs(n: nat, x: nat)
    requires n <= x < n + SPAN
    ensures Forward(Cut(n), Cut(x)) == x - n
  {
    var d := x - n;
    CutPlus(n, d);
  }

  lemma QueueSorted(lim: Limits, sent: seq<Message>, r: Receiver, ids: seq<nat>)
    requires Holds(lim, sent, r, ids)
    ensures SortedForward(r)
  {
    forall a, b | 0 <= a < b < |r.queue|
      ensures Forward(r.current, r.queue[a].number) < Forward(r.current, r.queue[b].number)
    {
      assert Placed(sent, r, ids, a) && Placed(sent, r, ids, b) && ids[a] < ids[b];
      SearchOrder(lim, sent, r, ids[a], ids[b]);
      SearchOrder(lim, sent, r, ids[b], ids[a]);
      ForwardIs(Base(sent, r), First(sent, ids[a]));
      ForwardIs(Base(sent, r), First(sent, ids[b]));
    }
  }

  /** End to end: over a network that drops, duplicates and reorders within the staleness bounds,
      the packets dispatched are a prefix of the packets sent, each once and in order, and the
      reorder queue stays strictly sorted by forward distance. */
  lemma DispatchedIsPrefix(q: Layout, lim: Limits, sent: seq<Message>, copies: seq<Copy>)
    requires Proper(q) && AllSendable(lim, sent) && AllExist(sent, copies)
    requires AdmissibleRun(q, lim, sent, FRESH, copies)
    ensures var r := Run(q, lim, sent, FRESH, copies); Dispatched(sent, r) && SortedForward(r)
  {
    FreshHolds(lim, sent);
    var ids := RunHolds(q, lim, sent, FRESH, [], copies);
    QueueSorted(lim, sent, Run(q, lim, sent, FRESH, copies), ids);
  }

  /** Nothing is dispatched before its last piece has come: a message with a piece that no copy
      brought is still to come, and so is every message after it. */
  lemma NotBeforeLastPiece(q: Layout, lim: Limits, sent: seq<Message>, copies: seq<Copy>, i: nat, j: nat)
    requires Proper(q) && AllSendable(lim, sent) && AllExist(sent, copies)
    requires AdmissibleRun(q, lim, sent, FRESH, copies)
    requires i < |sent| && j < Pieces(sent[i]) && Copy(i, j) !in copies
    ensures |Run(q, lim, sent, FRESH, copies).dispatched| <= i
  {
    FreshHolds(lim, sent);
    var r := Run(q, lim, sent, FRESH, copies);
    var ids := RunHolds(q, lim, sent, FRESH, [], copies);
    assert !Has(sent, r, ids, i, j) by { assert !Has(sent, FRESH, [], i, j); }
  }

  /** And by the time it has: once every piece of the first n messages has come through, all n are
      dispatched. */
  lemma AllDispatched(q: Layout, lim: Limits, sent: seq<Message>, copies: seq<Copy>, n: nat)
    requires Proper(q) && AllSendable(lim, sent) && AllExist(sent, copies)
    requires AdmissibleRun(q, lim, sent, FRESH, copies)
    requires n <= |sent|
    requires forall i: nat, j: nat | i < n && j < Pieces(sent[i]) :: Reached(q, lim, sent, FRESH, copies, Copy(i, j))
    ensures |Run(q, lim, sent, FRESH, copies).dispatched| >= n
  {
    FreshHolds(lim, sent);
    var r := Run(q, lim, sent, FRESH, copies);
    var ids := RunHolds(q, lim, sent, FRESH, [], copies);
    var k := |r.dispatched|;
    if k < n {
      assert Sendable(lim, sent[k]);
      PiecesPositive(sent[k]);
      forall j: nat | j < Pieces(sent[k]) ensures Has(sent, r, ids, k, j) {
        assert Reached(q, lim, sent, FRESH, copies, Copy(k, j));
      }
      CompleteIsDue(lim, sent, r, ids);
    }
  }

  /** The next message, once complete, heads the queue and is due. */
  lemma CompleteIsDue(lim: Limits, sent: seq<Message>, r: Receiver, ids: seq<nat>)
    requires Holds(lim, sent, r, ids) && |r.dispatched| < |sent| && 0 < Pieces(sent[|r.dispatched|])
    requires forall j: nat | j < Pieces(sent[|r.dispatched|]) :: Has(sent, r, ids, |r.dispatched|, j)
    ensures r.queue != [] && Due(r.queue[0], r.current)
  {
    var k := |r.dispatched|;
    assert Has(sent, r, ids, k, 0);
    var a :| 0 <= a < |ids| && ids[a] == k && Keeps(sent[k], r.queue[a], 0);
    assert Placed(sent, r, ids, 0);
    if sent[k].unit > 0 {
      forall j: nat | j < Pieces(sent[k]) ensures Bit(r.queue[0].fragments, j) {
        assert Has(sent, r, ids, k, j);
        var b :| 0 <= b < |ids| && ids[b] == k && Keeps(sent[k], r.queue[b], j);
      }
      ClearIsNone(r.queue[0].fragments, Pieces(sent[k]));
    }
    NextIsDue(lim, sent, r, ids);
  }

  // ----- copies staler than the bounds -----

  /** Message i lies further behind than tells old from new. */
  ghost predicate Stale(q: Layout, sent: seq<Message>, r: Receiver, i: nat)
    requires Proper(q) && |r.dispatched| <= |sent| && i < |sent|
  {
    Window(q, Base(sent, r)) > Window(q, First(sent, i)) + (q.windows - q.free + 1)
  }

  function Count(r: Receiver): nat {
    |r.queue| + |r.dispatched|
  }

  lemma {:induction false} DispatchCounts(r: Receiver)
    ensures Count(Dispatch(r)) == Count(r)
    decreases |r.queue|
  {
    if r.queue != [] && Due(r.queue[0], r.current) {
      DispatchCounts(Receiver(After(r.queue[0]), r.queue[1..], r.dispatched + [r.queue[0].data]));
    }
  }

  /** A copy of a whole packet dispatched before is queued as a new packet exactly if it is stale and its number
      is not in the queue; otherwise it changes nothing. */
  lemma QueuedAgain(q: Layout, lim: Limits, sent: seq<Message>, r: Receiver, ids: seq<nat>, i: nat)
    requires Proper(q) && Holds(lim, sent, r, ids) && i < |r.dispatched| && sent[i].unit == 0
    requires Window(q, Base(sent, r)) < Window(q, First(sent, i)) + q.windows
    ensures Exists(sent, Copy(i, 0))
    ensures var r', place := Deliver(q, lim, sent, r, Copy(i, 0)), Find(r, Cut(First(sent, i)));
            && (r' != r <==> Stale(q, sent, r, i) && place.Gap?)
            && (r' != r ==> Count(r') == Count(r) + 1)
  {
    StaleNumber(q, lim, sent, r, ids, i);
    assert Sendable(lim, sent[i]);
    var s := Cut(First(sent, i));
    if InWindow(q, s, r.current) && s != r.current {
      match Find(r, s)
      case Taken(_) =>
      case Gap(at) => DispatchCounts(r.(queue := Insert(r.queue, at, NewCommand(s, sent[i].data, 0))));
    }
    hide Holds, Find, InWindow, Dispatch, First, NewCommand, Cut, Window;
  }

  lemma StaleNumber(q: Layout, lim: Limits, sent: seq<Message>, r: Receiver, ids: seq<nat>, i: nat)
    requires Proper(q) && Holds(lim, sent, r, ids) && i < |r.dispatched|
    requires Window(q, Base(sent, r)) < Window(q, First(sent, i)) + q.windows
    ensures InWindow(q, Cut(First(sent, i)), r.current) && Cut(First(sent, i)) != r.current <==> Stale(q, sent, r, i)
  {
    var n, m := Base(sent, r), First(sent, i);
    FirstIncreases(lim, sent, i, |r.dispatched|);
    hide First, Window, Cut;
    WindowMonotone(q, m, n);
    AcceptedNumbers(q, n, m);
    SameCut(q, n, m);
  }

  /** And if the number is the next one due, the packet is dispatched a second time at once. */
  lemma {:induction false} DispatchedAgain(q: Layout, lim: Limits, sent: seq<Message>, r: Receiver, i: nat)
    requires Proper(q) && Holds(lim, sent, r, []) && i < |r.dispatched| && sent[i].unit == 0
    requires First(sent, i) + SPAN == Base(sent, r) + 1 && Stale(q, sent, r, i)
    requires Window(q, Base(sent, r)) < Window(q, First(sent, i)) + q.windows
    ensures Exists(sent, Copy(i, 0)) && Deliver(q, lim, sent, r, Copy(i, 0)).dispatched == r.dispatched + [sent[i].data]
  {
    NothingQueued(lim, sent, r);
    hide *;
    DeliverWhole(q, lim, sent, r, i);
    StaleNumber(q, lim, sent, r, [], i);
    CutPlus(Base(sent, r), 1);
    LapLater(First(sent, i));
    AloneComesOut(q, r, Cut(First(sent, i)), sent[i].data);
  }

  lemma {:induction false} WholeNumbers(sent: seq<Message>, k: nat)
    requires k <= |sent| && forall j | 0 <= j < |sent| :: sent[j].unit == 0
    ensures First(sent, k) == k + 1
    decreases k
  {
    if k > 0 { WholeNumbers(sent, k - 1); }
  }

  /** The concrete case: after 0x10FFF empty packets a late copy of packet 0xFFF comes out again. */
  lemma {:induction false} DeliveredTwice() returns (lim: Limits, sent: seq<Message>, r: Receiver)
    ensures Holds(lim, sent, r, []) && 0xFFF < |r.dispatched| && AllSendable(lim, sent) && Exists(sent, Copy(0xFFF, 0))
    ensures Deliver(LIBRARY, lim, sent, r, Copy(0xFFF, 0)).dispatched == r.dispatched + [sent[0xFFF].data]
  {
    lim, sent, r := AfterMany();
    LapBehind(sent, r);
    NothingQueued(lim, sent, r);
    hide *;
    DispatchedAgain(LIBRARY, lim, sent, r, 0xFFF);
  }

  lemma {:induction false} AfterMany() returns (lim: Limits, sent: seq<Message>, r: Receiver)
    ensures Holds(lim, sent, r, []) && |r.dispatched| == |sent| == 0x10FFF && sent[0xFFF].unit == 0
    ensures First(sent, 0x10FFF) == 0x11000 && First(sent, 0xFFF) == 0x1000
  {
    var n := 0x10FFF;
    lim, sent, r := Limits(100, 100), seq(n, _ => Message([], 0)), Receiver(Cut(n), [], seq(n, _ => []));
    WholeNumbers(sent, n);
    WholeNumbers(sent, 0xFFF);
    hide First, Cut;
  }

  lemma LapBehind(sent: seq<Message>, r: Receiver)
    requires |r.dispatched| == |sent| == 0x10FFF
    requires First(sent, 0x10FFF) == 0x11000 && First(sent, 0xFFF) == 0x1000
    ensures Proper(LIBRARY) && First(sent, 0xFFF) + SPAN == Base(sent, r) + 1 && Stale(LIBRARY, sent, r, 0xFFF)
    ensures Window(LIBRARY, Base(sent, r)) < Window(LIBRARY, First(sent, 0xFFF)) + LIBRARY.windows
  {
    hide First;
    assert Window(LIBRARY, 0x10FFF) == 16 && Window(LIBRARY, 0x1000) == 1;
  }

  lemma NothingQueued(lim: Limits, sent: seq<Message>, r: Receiver)
    requires Holds(lim, sent, r, [])
    ensures r.queue == [] && AllSendable(lim, sent) && |r.dispatched| <= |sent| && r.current == Cut(Base(sent, r))
  {
  }

  lemma DeliverWhole(q: Layout, lim: Limits, sent: seq<Message>, r: Receiver, i: nat)
    requires Proper(q) && AllSendable(lim, sent) && i < |sent| && sent[i].unit == 0
    ensures Exists(sent, Copy(i, 0))
    ensures Deliver(q, lim, sent, r, Copy(i, 0)) == Enqueue(q, r, false, Cut(First(sent, i)), sent[i].data, 0).0
  {
    assert Sendable(lim, sent[i]);
    hide Enqueue;
  }

  lemma AloneComesOut(q: Layout, r: Receiver, s: nat, data: seq<byte>)
    requires Proper(q) && r.queue == [] && InWindow(q, s, r.current) && s != r.current && s == Cut(r.current + 1)
    ensures Enqueue(q, r, false, s, data, 0).0.dispatched == r.dispatched + [data]
  {
    var e := NewCommand(s, data, 0);
    var r1, r2 := r.(queue := [e]), Receiver(After(e), [], r.dispatched + [data]);
    assert Insert(r.queue, 0, e) == [e] && [e][1..] == [];
    assert Find(r, s) == Gap(0);
    assert Dispatch(r1) == Dispatch(r2) == r2;
    hide Dispatch, Find, InWindow, Insert;
  }

  lemma LapLater(n: nat)
    ensures Cut(n + SPAN) == Cut(n)
  {
  }

  // ----- acknowledgement -----

  /** Whether the arrival of c is acknowledged: decided after c has been handled. */
  predicate Acknowledged(q: Layout, lim: Limits, r: Receiver, c: Command)
    requires Proper(q)
  {
    Acknowledges(q, c.number, Handle(q, lim, r, false, c).current)
  }

  /** A piece that arrives within the staleness bounds and is not kept is acknowledged exactly when its
      own number is more than free windows ahead; up to there an acknowledgement means that the piece is
      queued or its packet has been dispatched. */
  lemma AcknowledgedIsKept(q: Layout, lim: Limits, sent: seq<Message>, r: Receiver, ids: seq<nat>, c: Copy)
    returns (ids': seq<nat>)
    requires Proper(q) && Holds(lim, sent, r, ids) && Settled(r)
    requires Exists(sent, c) && Admissible(q, sent, r, c.message)
    requires Window(q, First(sent, c.message) + c.piece) < Window(q, Base(sent, r)) + q.windows
    ensures Sendable(lim, sent[c.message])
    ensures var r' := Deliver(q, lim, sent, r, c);
            && Holds(lim, sent, r', ids')
            && (Has(sent, r', ids', c.message, c.piece) ||
                (Acknowledged(q, lim, r, CommandOf(sent[c.message], First(sent, c.message), c.piece)) <==>
                 Window(q, First(sent, c.message) + c.piece) > Window(q, Base(sent, r)) + q.free))
  {
    var i, j := c.message, c.piece;
    assert Sendable(lim, sent[i]);
    ids' := DeliverHolds(q, lim, sent, r, ids, c);
    if !Has(sent, Deliver(q, lim, sent, r, c), ids', i, j) {
      NotTaken(q, lim, sent, r, ids, c);
      var n, m := Base(sent, r), First(sent, i);
      FirstAhead(lim, sent, r, i);
      WindowMonotone(q, n, m);
      WindowMonotone(q, m, m + j);
      AcknowledgedNumbers(q, n, m + j);
      assert r.current == Cut(n);
      hide Holds, Settled, Has, First, Handle, CommandOf, Window, Cut, Acknowledges;
    }
  }

  lemma FirstAhead(lim: Limits, sent: seq<Message>, r: Receiver, i: nat)
    requires AllSendable(lim, sent) && |r.dispatched| <= i < |sent|
    ensures Base(sent, r) < First(sent, i)
  {
    if |r.dispatched| < i { FirstIncreases(lim, sent, |r.dispatched|, i); }
  }

  lemma NotTaken(q: Layout, lim: Limits, sent: seq<Message>, r: Receiver, ids: seq<nat>, c: Copy)
    requires Proper(q) && Holds(lim, sent, r, ids) && Exists(sent, c) && Admissible(q, sent, r, c.message)
    requires |r.dispatched| <= c.message && !Reachable(q, sent, r, c.message)
    ensures Deliver(q, lim, sent, r, c) == r
  {
    WindowTest(q, lim, sent, r, ids, c.message);
    assert Sendable(lim, sent[c.message]);
  }

  /** A packet nine windows ahead is dropped and acknowledged. */
  lemma DroppedButAcknowledged()
    ensures var q, lim, c := LIBRARY, Limits(100, 100), SendReliable(0x9000, []);
            Proper(q) && Handle(q, lim, FRESH, false, c) == FRESH && Acknowledged(q, lim, FRESH, c)
  {
  }
}
