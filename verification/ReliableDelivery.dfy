/** Reliable packets over a network that drops, duplicates and reorders: what is dispatched is
    always a prefix of what was sent, and it is all of it once every piece has come through. */
module ReliableDelivery {
  import opened Bytes
  import opened Bitmap
  import opened Constants
  import opened Windows
  import opened Messages
  import opened Queues
  import opened ReliableChannel

  // ----- what a queued command knows of its message -----

  ghost predicate Entry(m: Message, first: nat, e: Incoming) {
    && e.number == Cut(first) && |e.data| == |m.data| && (m.unit > 0 ==> |m.data| > m.unit)
    && if m.unit == 0 then e.fragmentCount == 0 && e.remaining == 0 && e.data == m.data
       else
         && e.fragmentCount == Pieces(m) && |e.fragments| == Words(Pieces(m))
         && e.remaining == Clear(e.fragments, Pieces(m))
         && forall j: nat | j < Pieces(m) && Bit(e.fragments, j) :: HasPiece(m, e, j)
  }

  ghost predicate HasPiece(m: Message, e: Incoming, j: nat)
    requires j < Pieces(m) && |e.data| == |m.data| && (m.unit > 0 ==> |m.data| > m.unit)
  {
    forall b: nat | Offset(m, j) <= b < PieceEnd(m, j) && b < |m.data| :: e.data[b] == m.data[b]
  }

  /** A command with no fragment missing has the packet as it was sent. */
  lemma EntryComplete(m: Message, first: nat, e: Incoming)
    requires Entry(m, first, e) && e.remaining == 0
    ensures e.data == m.data
  {
    if m.unit > 0 {
      ClearIsNone(e.fragments, Pieces(m));
      forall b: nat | b < |m.data| ensures e.data[b] == m.data[b] {
        var j := PiecesTile(m, b);
        assert Bit(e.fragments, j) && HasPiece(m, e, j);
      }
    }
  }

  lemma NewEntry(lim: Limits, m: Message, first: nat)
    requires Sendable(lim, m)
    ensures m.unit == 0 ==> Entry(m, first, NewCommand(Cut(first), m.data, 0))
    ensures m.unit > 0 ==> Entry(m, first, NewCommand(Cut(first), seq(|m.data|, _ => 0), Pieces(m)))
  {
    if m.unit > 0 {
      ClearZeros(Words(Pieces(m)), Pieces(m));
      forall j: nat | j < Pieces(m) ensures !Bit(Zeros(Words(Pieces(m))), j) { NoBit(Words(Pieces(m)), j); }
    }
  }

  /** Copying piece j sets bit j, leaves every other piece alone and keeps the count right. */
  lemma MarkedEntry(lim: Limits, m: Message, first: nat, e: Incoming, j: nat)
    requires Sendable(lim, m) && m.unit > 0 && Entry(m, first, e) && j < Pieces(m)
    ensures j / 32 < |e.fragments| && Offset(m, j) + |Piece(m, j)| <= |e.data|
    ensures var e' := Marked(e, j, Offset(m, j), Piece(m, j));
            && Entry(m, first, e')
            && forall i: nat :: Bit(e'.fragments, i) <==> i == j || Bit(e.fragments, i)
  {
    PieceBounds(m, j);
    if !Bit(e.fragments, j) {
      var e' := Marked(e, j, Offset(m, j), Piece(m, j));
      ClearAfterSet(e.fragments, j, Pieces(m));
      forall i: nat ensures Bit(e'.fragments, i) <==> i == j || Bit(e.fragments, i) { SetOnly(e.fragments, j, i); }
      forall i: nat | i < Pieces(m) && Bit(e'.fragments, i) ensures HasPiece(m, e', i) {
        SetOnly(e.fragments, j, i);
        MarkedPiece(m, e, j, i);
      }
    }
  }

  lemma MarkedPiece(m: Message, e: Incoming, j: nat, i: nat)
    requires m.unit > 0 && |m.data| > m.unit && |e.data| == |m.data| && j < Pieces(m) && i < Pieces(m)
    requires j / 32 < |e.fragments| && !Bit(e.fragments, j) && Offset(m, j) + |Piece(m, j)| <= |e.data|
    requires i == j || HasPiece(m, e, i)
    ensures HasPiece(m, Marked(e, j, Offset(m, j), Piece(m, j)), i)
  {
    hide Bit, WithBit;
    PieceBounds(m, j);
    var e' := Marked(e, j, Offset(m, j), Piece(m, j));
    forall b: nat | Offset(m, i) <= b < PieceEnd(m, i) && b < |m.data| ensures e'.data[b] == m.data[b] {
      if Offset(m, j) <= b < PieceEnd(m, j) {
        assert e'.data[b] == Piece(m, j)[b - Offset(m, j)];
      } else {
        if i == j { assert false; }
        assert e'.data[b] == e.data[b];
      }
    }
  }

  // ----- the receiver's state against what was sent -----

  /** The unbounded number behind `current`: that of the last piece dispatched. */
  function Base(sent: seq<Message>, r: Receiver): nat
    requires |r.dispatched| <= |sent|
  {
    First(sent, |r.dispatched|) - 1
  }

  ghost predicate Placed(sent: seq<Message>, r: Receiver, ids: seq<nat>, a: nat)
    requires a < |ids| == |r.queue| && |r.dispatched| <= |sent|
  {
    && |r.dispatched| <= ids[a] < |sent|
    && First(sent, ids[a]) < Base(sent, r) + SPAN
    && Entry(sent[ids[a]], First(sent, ids[a]), r.queue[a])
  }

  ghost predicate Increasing(ids: seq<nat>) {
    forall a, b | 0 <= a < b < |ids| :: ids[a] < ids[b]
  }

  ghost predicate Dispatched(sent: seq<Message>, r: Receiver) {
    && |r.dispatched| <= |sent|
    && forall i | 0 <= i < |r.dispatched| :: r.dispatched[i] == sent[i].data
  }

  /** The packets dispatched are those of the first messages sent; ids names the messages queued. */
  ghost predicate Holds(lim: Limits, sent: seq<Message>, r: Receiver, ids: seq<nat>) {
    && AllSendable(lim, sent) && Dispatched(sent, r) && r.current == Cut(Base(sent, r))
    && |ids| == |r.queue| && Increasing(ids)
    && forall a | 0 <= a < |ids| :: Placed(sent, r, ids, a)
  }

  /** Nothing that could be dispatched is left in the queue. */
  ghost predicate Settled(r: Receiver) {
    r.queue != [] ==> !Due(r.queue[0], r.current)
  }

  /** Piece j of message i has arrived and is kept. */
  ghost predicate Has(sent: seq<Message>, r: Receiver, ids: seq<nat>, i: nat, j: nat) {
    i < |r.dispatched| ||
    (|ids| == |r.queue| && i < |sent|
     && exists a :: 0 <= a < |ids| && ids[a] == i && Keeps(sent[i], r.queue[a], j))
  }

  ghost predicate Keeps(m: Message, e: Incoming, j: nat) {
    m.unit > 0 ==> Bit(e.fragments, j)
  }

  /** Nothing that was kept is lost. */
  ghost predicate NothingLost(sent: seq<Message>, r: Receiver, ids: seq<nat>, r': Receiver, ids': seq<nat>) {
    && r.dispatched <= r'.dispatched
    && forall i: nat, j: nat {:trigger Has(sent, r', ids', i, j)} ::
         Has(sent, r, ids, i, j) ==> Has(sent, r', ids', i, j)
  }

  /** Nothing is kept that was not kept before. */
  ghost predicate NothingGained(sent: seq<Message>, r: Receiver, ids: seq<nat>, r': Receiver, ids': seq<nat>) {
    forall i: nat, j: nat {:trigger Has(sent, r', ids', i, j)} ::
      i < |sent| && j < Pieces(sent[i]) && Has(sent, r', ids', i, j) ==> Has(sent, r, ids, i, j)
  }

  /** Nothing but that piece is kept that was not kept before. */
  ghost predicate GainsOnly(
      sent: seq<Message>, r: Receiver, ids: seq<nat>, r': Receiver, ids': seq<nat>, message: nat, piece: nat)
  {
    forall i: nat, j: nat {:trigger Has(sent, r', ids', i, j)} ::
      i < |sent| && j < Pieces(sent[i]) && Has(sent, r', ids', i, j) ==>
        Has(sent, r, ids, i, j) || (i == message && j == piece)
  }

  lemma FreshHolds(lim: Limits, sent: seq<Message>)
    requires AllSendable(lim, sent)
    ensures Holds(lim, sent, FRESH, []) && Settled(FRESH)
  {
  }

  // ----- dispatch -----

  /** The 16-bit successor of the last number dispatched names the next message. */
  lemma NextNumber(lim: Limits, sent: seq<Message>, k: nat, i: nat)
    requires AllSendable(lim, sent) && k <= i < |sent| && First(sent, i) < First(sent, k) - 1 + SPAN
    requires Cut(First(sent, i)) == Cut(Cut(First(sent, k) - 1) + 1)
    ensures i == k
  {
    if k < i { FirstIncreases(lim, sent, k, i); }
    var n := First(sent, k) - 1;
    hide *;
    CutPlus(n, 1);
    LaterIsGreater(n, First(sent, i), n + 1);
  }

  /** Dispatching an entry moves on to the last number of its message. */
  lemma AfterEntry(m: Message, first: nat, e: Incoming)
    requires Entry(m, first, e) && (m.unit > 0 ==> |m.data| > m.unit)
    ensures 0 < Pieces(m) && After(e) == Cut(first + Pieces(m) - 1)
  {
    PiecesPositive(m);
    CutPlus(first, Pieces(m) - 1);
  }

  lemma FrontPlaced(lim: Limits, sent: seq<Message>, r: Receiver, ids: seq<nat>)
    requires Holds(lim, sent, r, ids) && r.queue != [] && Due(r.queue[0], r.current)
    ensures 0 < |ids| && |r.dispatched| <= ids[0] < |sent| && AllSendable(lim, sent) && Sendable(lim, sent[ids[0]])
    ensures Entry(sent[ids[0]], First(sent, ids[0]), r.queue[0]) && r.queue[0].remaining == 0
  {
    hide Entry, Increasing, First, Cut, Pieces;
    assert Placed(sent, r, ids, 0);
  }

  lemma FrontNumber(lim: Limits, sent: seq<Message>, r: Receiver, ids: seq<nat>)
    requires Holds(lim, sent, r, ids) && r.queue != [] && Due(r.queue[0], r.current)
    ensures 0 < |ids| && |r.dispatched| <= ids[0] < |sent|
    ensures First(sent, ids[0]) < First(sent, |r.dispatched|) - 1 + SPAN
    ensures Cut(First(sent, ids[0])) == Cut(Cut(First(sent, |r.dispatched|) - 1) + 1)
  {
    hide Cut, First, Pieces, Entry, Increasing;
    assert Placed(sent, r, ids, 0);
    EntryNumber(sent[ids[0]], First(sent, ids[0]), r.queue[0]);
    var base := Base(sent, r);
    assert base == First(sent, |r.dispatched|) - 1 && r.current == Cut(base);
    assert First(sent, ids[0]) < base + SPAN && r.queue[0].number == Cut(r.current + 1);
    hide *;
  }

  lemma EntryNumber(m: Message, first: nat, e: Incoming)
    requires Entry(m, first, e)
    ensures e.number == Cut(first)
  {
  }

  lemma SendableUnit(lim: Limits, m: Message)
    requires Sendable(lim, m)
    ensures m.unit > 0 ==> |m.data| > m.unit
  {
  }

  /** What is due is the next message that was sent, complete. */
  lemma DueIsNext(lim: Limits, sent: seq<Message>, r: Receiver, ids: seq<nat>)
    requires Holds(lim, sent, r, ids) && r.queue != [] && Due(r.queue[0], r.current)
    ensures 0 < |ids| && ids[0] == |r.dispatched| < |sent| && r.queue[0].data == sent[ids[0]].data
    ensures After(r.queue[0]) == Cut(First(sent, ids[0] + 1) - 1)
  {
    hide *;
    FrontPlaced(lim, sent, r, ids);
    FrontNumber(lim, sent, r, ids);
    var m, first := sent[ids[0]], First(sent, ids[0]);
    NextNumber(lim, sent, |r.dispatched|, ids[0]);
    FirstNext(sent, ids[0]);
    SendableUnit(lim, m);
    EntryComplete(m, first, r.queue[0]);
    AfterEntry(m, first, r.queue[0]);
  }

  lemma FirstNext(sent: seq<Message>, i: nat)
    requires i < |sent|
    ensures First(sent, i + 1) == First(sent, i) + Pieces(sent[i])
  {
  }

  lemma NextIsDue(lim: Limits, sent: seq<Message>, r: Receiver, ids: seq<nat>)
    requires Holds(lim, sent, r, ids) && r.queue != [] && ids[0] == |r.dispatched| && r.queue[0].remaining == 0
    ensures Due(r.queue[0], r.current)
  {
    assert Placed(sent, r, ids, 0);
    CutPlus(Base(sent, r), 1);
  }

  lemma HadBefore(lim: Limits, sent: seq<Message>, r: Receiver, r': Receiver, ids: seq<nat>, i: nat, j: nat)
    requires 0 < |ids| == |r.queue| && r'.queue == r.queue[1..] && |r'.dispatched| == |r.dispatched| + 1
    requires ids[0] == |r.dispatched| < |sent| && r.queue[0].remaining == 0
    requires Entry(sent[ids[0]], First(sent, ids[0]), r.queue[0])
    requires i < |sent| && j < Pieces(sent[i]) && Has(sent, r', ids[1..], i, j)
    ensures Has(sent, r, ids, i, j)
  {
    if i == |r.dispatched| {
      ClearIsNone(r.queue[0].fragments, Pieces(sent[i]));
      assert Keeps(sent[i], r.queue[0], j);
    } else if i > |r.dispatched| {
      var a :| 0 <= a < |ids[1..]| && ids[1..][a] == i && Keeps(sent[i], r'.queue[a], j);
      assert ids[a + 1] == i && Keeps(sent[i], r.queue[a + 1], j);
    }
  }

  lemma DispatchOne(lim: Limits, sent: seq<Message>, r: Receiver, ids: seq<nat>)
    requires Holds(lim, sent, r, ids) && r.queue != [] && Due(r.queue[0], r.current)
    ensures var r' := Receiver(After(r.queue[0]), r.queue[1..], r.dispatched + [r.queue[0].data]);
            && 0 < |ids| && Holds(lim, sent, r', ids[1..])
            && NothingLost(sent, r, ids, r', ids[1..]) && NothingGained(sent, r, ids, r', ids[1..])
  {
    DueIsNext(lim, sent, r, ids);
    var r' := Receiver(After(r.queue[0]), r.queue[1..], r.dispatched + [r.queue[0].data]);
    assert Placed(sent, r, ids, 0);
    FirstIncreases(lim, sent, ids[0], ids[0] + 1);
    forall a | 0 <= a < |ids[1..]| ensures Placed(sent, r', ids[1..], a) {
      assert Placed(sent, r, ids, a + 1) && ids[0] < ids[a + 1];
    }
    hide Has, Entry, First;
    forall i: nat, j: nat | Has(sent, r, ids, i, j) ensures Has(sent, r', ids[1..], i, j) {
    }
    forall i: nat, j: nat | i < |sent| && j < Pieces(sent[i]) && Has(sent, r', ids[1..], i, j)
      ensures Has(sent, r, ids, i, j)
    {
      HadBefore(lim, sent, r, r', ids, i, j);
    }
  }

  lemma {:induction false} DispatchHolds(lim: Limits, sent: seq<Message>, r: Receiver, ids: seq<nat>)
    returns (ids': seq<nat>)
    requires Holds(lim, sent, r, ids)
    ensures Holds(lim, sent, Dispatch(r), ids') && Settled(Dispatch(r))
    ensures NothingLost(sent, r, ids, Dispatch(r), ids') && NothingGained(sent, r, ids, Dispatch(r), ids')
    decreases |r.queue|
  {
    hide Holds, Has;
    ids' := ids;
    if r.queue != [] && Due(r.queue[0], r.current) {
      var r1 := Receiver(After(r.queue[0]), r.queue[1..], r.dispatched + [r.queue[0].data]);
      DispatchOne(lim, sent, r, ids);
      ids' := DispatchHolds(lim, sent, r1, ids[1..]);
    }
  }

  // ----- arrivals -----

  /** The search finds message i's command, or the gap between the earlier and the later ones. */
  lemma {:induction false} SearchFinds(lim: Limits, sent: seq<Message>, r: Receiver, ids: seq<nat>, i: nat, n: nat)
    requires Holds(lim, sent, r, ids) && |r.dispatched| <= i < |sent| && First(sent, i) < Base(sent, r) + SPAN
    requires n <= |ids| && forall a | n <= a < |ids| :: ids[a] > i
    ensures match Search(r.queue, Cut(First(sent, i)), r.current, n)
            case Gap(p) => (forall a | 0 <= a < p :: ids[a] < i) && (forall a | p <= a < |ids| :: ids[a] > i)
            case Taken(p) => ids[p] == i
    decreases n
  {
    if n > 0 {
      var k := ids[n - 1];
      SearchTurn(lim, sent, r, ids, i, n);
      hide Holds, First, Placed;
      if k > i {
        SearchFinds(lim, sent, r, ids, i, n - 1);
      } else if k < i {
        forall a | 0 <= a < n ensures ids[a] < i { assert a == n - 1 || ids[a] < ids[n - 1]; }
      }
    }
  }

  lemma SearchTurn(lim: Limits, sent: seq<Message>, r: Receiver, ids: seq<nat>, i: nat, n: nat)
    requires Holds(lim, sent, r, ids) && |r.dispatched| <= i < |sent| && First(sent, i) < Base(sent, r) + SPAN
    requires 0 < n <= |ids|
    ensures Increasing(ids) && |ids| == |r.queue|
    ensures Search(r.queue, Cut(First(sent, i)), r.current, n) ==
            if ids[n - 1] > i then Search(r.queue, Cut(First(sent, i)), r.current, n - 1)
            else if ids[n - 1] == i then Taken(n - 1) else Gap(n)
  {
    hide First, Increasing;
    var k := ids[n - 1];
    assert Placed(sent, r, ids, n - 1);
    hide Entry, Placed;
    SearchOrder(lim, sent, r, k, i);
    assert First(sent, k) >= Base(sent, r) by { SearchOrder(lim, sent, r, i, k); }
    LaterIsGreater(Base(sent, r), First(sent, k), First(sent, i));
  }

  lemma SearchOrder(lim: Limits, sent: seq<Message>, r: Receiver, k: nat, i: nat)
    requires AllSendable(lim, sent) && |r.dispatched| <= k < |sent| && |r.dispatched| <= i < |sent|
    ensures First(sent, k) > First(sent, i) <==> k > i
    ensures First(sent, k) == First(sent, i) <==> k == i
    ensures Base(sent, r) < First(sent, i)
  {
    if k > i { FirstIncreases(lim, sent, i, k); } else if i > k { FirstIncreases(lim, sent, k, i); }
    if |r.dispatched| < i { FirstIncreases(lim, sent, |r.dispatched|, i); }
  }

  /** A command for message i put in the gap the search found. */
  lemma InsertHolds(lim: Limits, sent: seq<Message>, r: Receiver, ids: seq<nat>, i: nat, at: nat, e: Incoming)
    requires Holds(lim, sent, r, ids) && |r.dispatched| <= i < |sent| && First(sent, i) < Base(sent, r) + SPAN
    requires at <= |ids| && (forall a | 0 <= a < at :: ids[a] < i) && (forall a | at <= a < |ids| :: ids[a] > i)
    requires Entry(sent[i], First(sent, i), e)
    ensures var r', ids' := r.(queue := Insert(r.queue, at, e)), Insert(ids, at, i);
            && Holds(lim, sent, r', ids') && NothingLost(sent, r, ids, r', ids')
            && (sent[i].unit == 0 ==> GainsOnly(sent, r, ids, r', ids', i, 0))
            && (sent[i].unit > 0 && e.remaining == Pieces(sent[i]) ==> NothingGained(sent, r, ids, r', ids'))
            && at < |ids'| && ids'[at] == i && r'.queue[at] == e
  {
    hide *;
    SameLength(lim, sent, r, ids);
    InsertStill(lim, sent, r, ids, i, at, e);
    InsertGains(sent, r, ids, i, at, e);
  }

  lemma InsertStill(lim: Limits, sent: seq<Message>, r: Receiver, ids: seq<nat>, i: nat, at: nat, e: Incoming)
    requires Holds(lim, sent, r, ids) && |r.dispatched| <= i < |sent| && First(sent, i) < Base(sent, r) + SPAN
    requires at <= |ids| && (forall a | 0 <= a < at :: ids[a] < i) && (forall a | at <= a < |ids| :: ids[a] > i)
    requires Entry(sent[i], First(sent, i), e)
    ensures var r', ids' := r.(queue := Insert(r.queue, at, e)), Insert(ids, at, i);
            Holds(lim, sent, r', ids') && at < |ids'| && ids'[at] == i && r'.queue[at] == e
  {
    InsertIncreasing(ids, at, i);
    InsertPlaced(sent, r, ids, i, at, e);
    hide Entry, First, Increasing, Placed, Insert;
  }

  /** It brings what it has, and nothing else. */
  lemma InsertGains(sent: seq<Message>, r: Receiver, ids: seq<nat>, i: nat, at: nat, e: Incoming)
    requires i < |sent| && at <= |ids| == |r.queue| && Entry(sent[i], First(sent, i), e)
    ensures var r', ids' := r.(queue := Insert(r.queue, at, e)), Insert(ids, at, i);
            && NothingLost(sent, r, ids, r', ids')
            && (sent[i].unit == 0 ==> GainsOnly(sent, r, ids, r', ids', i, 0))
            && (sent[i].unit > 0 && e.remaining == Pieces(sent[i]) ==> NothingGained(sent, r, ids, r', ids'))
  {
    var r', ids' := r.(queue := Insert(r.queue, at, e)), Insert(ids, at, i);
    if sent[i].unit > 0 && e.remaining == Pieces(sent[i]) { ClearIsAll(e.fragments, Pieces(sent[i])); }
    hide Entry, First, Has, Pieces, Insert;
    forall m: nat, j: nat | Has(sent, r, ids, m, j) ensures Has(sent, r', ids', m, j) {
      HasInInsert(sent, r, ids, m, j, at, e, i);
    }
    forall m: nat, j: nat | m < |sent| && Has(sent, r', ids', m, j)
      ensures Has(sent, r, ids, m, j) || (m == i && Keeps(sent[i], e, j))
    {
    }
    if sent[i].unit == 0 { hide Keeps; assert Pieces(sent[i]) == 1 by { OnePiece(sent[i]); } }
  }

  lemma OnePiece(m: Message)
    requires m.unit == 0
    ensures Pieces(m) == 1
  {
  }

  lemma InsertPlaced(sent: seq<Message>, r: Receiver, ids: seq<nat>, i: nat, at: nat, e: Incoming)
    requires |r.dispatched| <= i < |sent| && First(sent, i) < Base(sent, r) + SPAN
    requires at <= |ids| == |r.queue| && Entry(sent[i], First(sent, i), e)
    requires forall a | 0 <= a < |ids| :: Placed(sent, r, ids, a)
    ensures var r', ids' := r.(queue := Insert(r.queue, at, e)), Insert(ids, at, i);
            && |ids'| == |r'.queue| == |ids| + 1 && ids'[at] == i && r'.queue[at] == e
            && forall a | 0 <= a < |ids'| :: Placed(sent, r', ids', a)
  {
    hide Entry, First;
    var r', ids' := r.(queue := Insert(r.queue, at, e)), Insert(ids, at, i);
    forall a | 0 <= a < |ids'| ensures Placed(sent, r', ids', a) {
      if a < at { assert Placed(sent, r, ids, a); } else if a > at { assert Placed(sent, r, ids, a - 1); }
    }
  }

  lemma InsertIncreasing(ids: seq<nat>, at: nat, i: nat)
    requires Increasing(ids) && at <= |ids|
    requires (forall a | 0 <= a < at :: ids[a] < i) && (forall a | at <= a < |ids| :: ids[a] > i)
    ensures Increasing(Insert(ids, at, i))
  {
  }

  lemma HasInInsert(sent: seq<Message>, r: Receiver, ids: seq<nat>, m: nat, j: nat, at: nat, e: Incoming, i: nat)
    requires Has(sent, r, ids, m, j) && |ids| == |r.queue| && at <= |ids|
    ensures Has(sent, r.(queue := Insert(r.queue, at, e)), Insert(ids, at, i), m, j)
  {
    if m >= |r.dispatched| {
      var a :| 0 <= a < |ids| && ids[a] == m && Keeps(sent[m], r.queue[a], j);
      var b := if a < at then a else a + 1;
      assert Insert(ids, at, i)[b] == m && Keeps(sent[m], Insert(r.queue, at, e)[b], j);
    }
  }

  // ----- what the network may do -----

  /** A copy of message i that is at most windows - free + 1 windows stale and fewer than all the
      windows ahead. */
  ghost predicate Admissible(q: Layout, sent: seq<Message>, r: Receiver, i: nat)
    requires Proper(q) && |r.dispatched| <= |sent| && i < |sent|
  {
    var n, m := Window(q, Base(sent, r)), Window(q, First(sent, i));
    m < n + q.windows && n <= m + (q.windows - q.free + 1)
  }

  /** Near enough ahead to be taken, or dispatched already. */
  ghost predicate Reachable(q: Layout, sent: seq<Message>, r: Receiver, i: nat)
    requires Proper(q) && |r.dispatched| <= |sent| && i < |sent|
  {
    i < |r.dispatched| || Window(q, First(sent, i)) < Window(q, Base(sent, r)) + q.free - 1
  }

  /** On admissible copies the window test lets through exactly what is still to come and near. */
  lemma WindowTest(q: Layout, lim: Limits, sent: seq<Message>, r: Receiver, ids: seq<nat>, i: nat)
    requires Proper(q) && Holds(lim, sent, r, ids) && i < |sent| && Admissible(q, sent, r, i)
    ensures i >= |r.dispatched| ==>
              && (InWindow(q, Cut(First(sent, i)), r.current) <==> Reachable(q, sent, r, i))
              && (Reachable(q, sent, r, i) ==>
                    First(sent, i) < Base(sent, r) + SPAN && Cut(First(sent, i)) != r.current)
    ensures i < |r.dispatched| ==>
              !InWindow(q, Cut(First(sent, i)), r.current) || Cut(First(sent, i)) == r.current
  {
    var k, n, m := |r.dispatched|, Base(sent, r), First(sent, i);
    if k < i { FirstIncreases(lim, sent, k, i); } else if i < k { FirstIncreases(lim, sent, i, k); }
    AcceptedNumbers(q, n, m);
    if k <= i && Reachable(q, sent, r, i) {
      AcceptedWithinLap(q, n, m);
      LaterIsGreater(n, m, n);
    }
  }

  /** Queueing a command for a copy of message i: dropped if it is dispatched, out of reach or
      queued already, else put in its place. */
  lemma EnqueueHolds(
      q: Layout, lim: Limits, sent: seq<Message>, r: Receiver, ids: seq<nat>, leaving: bool, i: nat,
      data: seq<byte>, count: nat)
    returns (ids': seq<nat>)
    requires Proper(q) && Holds(lim, sent, r, ids) && Settled(r) && i < |sent| && Admissible(q, sent, r, i)
    requires Entry(sent[i], First(sent, i), NewCommand(Cut(First(sent, i)), data, count))
    ensures var (r', queued) := Enqueue(q, r, leaving, Cut(First(sent, i)), data, count);
            && Holds(lim, sent, r', ids') && Settled(r') && NothingLost(sent, r, ids, r', ids')
            && (sent[i].unit == 0 ==> GainsOnly(sent, r, ids, r', ids', i, 0))
            && (queued.Dropped? ==> r' == r && ids' == ids)
            && (queued.Dropped? && !leaving && |r.dispatched| <= i && Reachable(q, sent, r, i) ==> i in ids)
            && (queued.At? ==>
                  && Find(r, Cut(First(sent, i))) == Gap(queued.at)
                  && (sent[i].unit == 0 ==> Has(sent, r', ids', i, 0)))
  {
    var s := Cut(First(sent, i));
    hide Dispatch, InWindow, NewCommand, Search, Entry, First;
    WindowTest(q, lim, sent, r, ids, i);
    var (r', queued) := Enqueue(q, r, leaving, s, data, count);
    ids' := ids;
    if !leaving && InWindow(q, s, r.current) && s != r.current {
      SearchFinds(lim, sent, r, ids, i, |ids|);
      if queued.At? {
        var e := NewCommand(s, data, count);
        var r1, ids1 := r.(queue := Insert(r.queue, queued.at, e)), Insert(ids, queued.at, i);
        InsertHolds(lim, sent, r, ids, i, queued.at, e);
        assert sent[i].unit == 0 ==> Has(sent, r1, ids1, i, 0);
        hide Holds, Has;
        ids' := DispatchHolds(lim, sent, r1, ids1);
      }
    }
  }

  /** Marking a piece of message i in its command, and dispatching if that completes it. */
  lemma FragmentHolds(
      lim: Limits, sent: seq<Message>, r: Receiver, ids: seq<nat>, i: nat, j: nat, at: nat)
    returns (ids': seq<nat>)
    requires Holds(lim, sent, r, ids) && Settled(r) && at < |ids| && ids[at] == i
    requires i < |sent| && sent[i].unit > 0 && j < Pieces(sent[i])
    ensures Sendable(lim, sent[i])
    ensures var c := CommandOf(sent[i], First(sent, i), j);
            && Matches(r.queue[at], c) && c.offset + |c.data| <= c.total
            && var r' := TakeFragment(r, at, c);
            && Holds(lim, sent, r', ids') && Settled(r') && NothingLost(sent, r, ids, r', ids')
            && GainsOnly(sent, r, ids, r', ids', i, j) && Has(sent, r', ids', i, j)
  {
    var m, first := sent[i], First(sent, i);
    assert Sendable(lim, m) && Placed(sent, r, ids, at);
    PieceBounds(m, j);
    var c, e := CommandOf(m, first, j), r.queue[at];
    MarkedEntry(lim, m, first, e, j);
    var e' := Marked(e, j, c.offset, c.data);
    var r1 := r.(queue := r.queue[at := e']);
    MarkedHolds(lim, sent, r, ids, at, e', j);
    ids' := ids;
    if !Bit(e.fragments, j) && e'.remaining == 0 {
      hide Holds, Has, Entry, Settled, Marked, Piece, Pieces;
      ids' := DispatchHolds(lim, sent, r1, ids);
    } else {
    }
  }

  lemma MarkedHolds(lim: Limits, sent: seq<Message>, r: Receiver, ids: seq<nat>, at: nat, e: Incoming, j: nat)
    requires Holds(lim, sent, r, ids) && at < |ids|
    requires Placed(sent, r, ids, at) && Entry(sent[ids[at]], First(sent, ids[at]), e)
    requires forall k: nat :: Bit(e.fragments, k) <==> k == j || Bit(r.queue[at].fragments, k)
    ensures var r' := r.(queue := r.queue[at := e]);
            && Holds(lim, sent, r', ids) && NothingLost(sent, r, ids, r', ids)
            && (sent[ids[at]].unit > 0 ==> GainsOnly(sent, r, ids, r', ids, ids[at], j))
            && Has(sent, r', ids, ids[at], j)
  {
    hide Entry, First;
    var r' := r.(queue := r.queue[at := e]);
    forall a | 0 <= a < |ids| ensures Placed(sent, r', ids, a) { assert Placed(sent, r, ids, a); }
    assert Keeps(sent[ids[at]], r'.queue[at], j);
    forall i: nat, k: nat | Has(sent, r, ids, i, k) ensures Has(sent, r', ids, i, k) {
      if i >= |r.dispatched| {
        var a :| 0 <= a < |ids| && ids[a] == i && Keeps(sent[i], r.queue[a], k);
        assert Keeps(sent[i], r'.queue[a], k);
      }
    }
    forall i: nat, k: nat | i < |sent| && Has(sent, r', ids, i, k) && sent[ids[at]].unit > 0
      ensures Has(sent, r, ids, i, k) || (i == ids[at] && k == j)
    {
      if i >= |r.dispatched| {
        var a :| 0 <= a < |ids| && ids[a] == i && Keeps(sent[i], r'.queue[a], k);
        if a != at || k != j { assert Keeps(sent[i], r.queue[a], k); }
      }
    }
  }

  /** A number already passed has no command in the queue. */
  lemma PassedNotQueued(lim: Limits, sent: seq<Message>, r: Receiver, ids: seq<nat>)
    requires Holds(lim, sent, r, ids)
    ensures Find(r, r.current).Gap?
  {
    var p := Find(r, r.current);
    if p.Taken? {
      assert Placed(sent, r, ids, p.at);
      SearchOrder(lim, sent, r, ids[p.at], ids[p.at]);
      LaterIsGreater(Base(sent, r), First(sent, ids[p.at]), Base(sent, r));
    }
  }

  lemma CommandWellFormed(lim: Limits, sent: seq<Message>, i: nat, j: nat)
    requires AllSendable(lim, sent) && i < |sent| && j < Pieces(sent[i])
    ensures Sendable(lim, sent[i]) && WellFormed(lim, CommandOf(sent[i], First(sent, i), j))
  {
    assert Sendable(lim, sent[i]);
    PieceBounds(sent[i], j);
  }

  /** A whole packet arrives. */
  lemma ReliableHolds(
      q: Layout, lim: Limits, sent: seq<Message>, r: Receiver, ids: seq<nat>, leaving: bool, i: nat)
    returns (ids': seq<nat>)
    requires Proper(q) && Holds(lim, sent, r, ids) && Settled(r)
    requires i < |sent| && Admissible(q, sent, r, i) && sent[i].unit == 0
    ensures var r' := HandleReliable(q, lim, r, leaving, Cut(First(sent, i)), sent[i].data);
            && Holds(lim, sent, r', ids') && Settled(r') && NothingLost(sent, r, ids, r', ids')
            && GainsOnly(sent, r, ids, r', ids', i, 0)
            && (i < |r.dispatched| || (!leaving && Reachable(q, sent, r, i)) ==> Has(sent, r', ids', i, 0))
  {
    assert Sendable(lim, sent[i]);
    NewEntry(lim, sent[i], First(sent, i));
    hide Entry, Dispatch, Search, InWindow, Settled, First;
    ids' := EnqueueHolds(q, lim, sent, r, ids, leaving, i, sent[i].data, 0);
    if i in ids {
      var a :| 0 <= a < |ids| && ids[a] == i;
      assert Keeps(sent[i], r.queue[a], 0);
      assert Has(sent, r, ids, i, 0);
    }
  }

  /** A fragment of a message still to come that is near enough. */
  lemma FragmentTaken(
      q: Layout, lim: Limits, sent: seq<Message>, r: Receiver, ids: seq<nat>, leaving: bool, i: nat, j: nat)
    returns (ids': seq<nat>)
    requires Proper(q) && Holds(lim, sent, r, ids) && Settled(r)
    requires |r.dispatched| <= i < |sent| && First(sent, i) < Base(sent, r) + SPAN
    requires sent[i].unit > 0 && j < Pieces(sent[i])
    requires InWindow(q, Cut(First(sent, i)), r.current) && Cut(First(sent, i)) != r.current
    ensures Sendable(lim, sent[i])
    ensures var r' := HandleFragment(q, lim, r, leaving, CommandOf(sent[i], First(sent, i), j));
            && Holds(lim, sent, r', ids') && Settled(r') && NothingLost(sent, r, ids, r', ids')
            && GainsOnly(sent, r, ids, r', ids', i, j)
            && (!leaving ==> Has(sent, r', ids', i, j))
  {
    CommandWellFormed(lim, sent, i, j);
    var m, first := sent[i], First(sent, i);
    var c := CommandOf(m, first, j);
    NewEntry(lim, m, first);
    hide Entry, Dispatch, InWindow, Settled, First, TakeFragment, Pieces, Piece, Search, Holds, Has, HandleFragment,
         Matches, WellFormed, Marked;
    ids' := ids;
    SameLength(lim, sent, r, ids);
    SearchFinds(lim, sent, r, ids, i, |ids|);
    match Find(r, c.start)
    case Taken(at) =>
      ids' := FragmentHolds(lim, sent, r, ids, i, j, at);
    case Gap(at) =>
      FragmentToGap(q, lim, r, leaving, c, at);
      if !leaving {
        var e := NewCommand(c.start, seq(c.total, _ => 0), c.count);
        InsertHolds(lim, sent, r, ids, i, at, e);
        ids' := FragmentHolds(lim, sent, r.(queue := Insert(r.queue, at, e)), Insert(ids, at, i), i, j, at);
      }
  }

  lemma FragmentToGap(q: Layout, lim: Limits, r: Receiver, leaving: bool, c: Command, at: nat)
    requires Proper(q) && WellFormed(lim, c) && c.SendFragment? && InWindow(q, c.start, r.current)
    requires Find(r, c.start) == Gap(at) && c.start != r.current && Settled(r)
    ensures leaving ==> HandleFragment(q, lim, r, leaving, c) == r
    ensures var e := NewCommand(c.start, seq(c.total, _ => 0), c.count);
            var r1 := r.(queue := Insert(r.queue, at, e));
            && Settled(r1) && at < |r1.queue| && Matches(r1.queue[at], c)
            && (!leaving ==> HandleFragment(q, lim, r, leaving, c) == TakeFragment(r1, at, c))
  {
    var data := seq(c.total, _ => 0);
    var e := NewCommand(c.start, data, c.count);
    NewMatches(lim, c, data);
    InsertLength(r.queue, at, e);
    assert Insert(r.queue, at, e)[at] == e;
    hide Dispatch, InWindow, Search, TakeFragment, NewCommand, Insert, Matches, Settled, WellFormed;
  }

  lemma SameLength(lim: Limits, sent: seq<Message>, r: Receiver, ids: seq<nat>)
    requires Holds(lim, sent, r, ids)
    ensures |ids| == |r.queue| && |r.dispatched| <= |sent|
  {
  }

  /** A fragment arrives. */
  lemma FragmentArrives(
      q: Layout, lim: Limits, sent: seq<Message>, r: Receiver, ids: seq<nat>, leaving: bool, i: nat, j: nat)
    returns (ids': seq<nat>)
    requires Proper(q) && Holds(lim, sent, r, ids) && Settled(r)
    requires i < |sent| && Admissible(q, sent, r, i) && sent[i].unit > 0 && j < Pieces(sent[i])
    ensures Sendable(lim, sent[i])
    ensures var r' := HandleFragment(q, lim, r, leaving, CommandOf(sent[i], First(sent, i), j));
            && Holds(lim, sent, r', ids') && Settled(r') && NothingLost(sent, r, ids, r', ids')
            && GainsOnly(sent, r, ids, r', ids', i, j)
            && (i < |r.dispatched| || (!leaving && Reachable(q, sent, r, i)) ==> Has(sent, r', ids', i, j))
  {
    CommandWellFormed(lim, sent, i, j);
    SameLength(lim, sent, r, ids);
    WindowTest(q, lim, sent, r, ids, i);
    hide Entry, Dispatch, InWindow, Settled, First, TakeFragment, Pieces, Piece, Search, Holds;
    ids' := ids;
    if InWindow(q, Cut(First(sent, i)), r.current) {
      if i < |r.dispatched| {
        PassedNotQueued(lim, sent, r, ids);
      } else {
        ids' := FragmentTaken(q, lim, sent, r, ids, leaving, i, j);
      }
    }
  }

  // ----- runs -----

  /** A copy the network delivers: piece `piece` of message `message`. */
  datatype Copy = Copy(message: nat, piece: nat)

  ghost predicate Exists(sent: seq<Message>, c: Copy) {
    c.message < |sent| && c.piece < Pieces(sent[c.message])
  }

  function Deliver(q: Layout, lim: Limits, sent: seq<Message>, r: Receiver, c: Copy): Receiver
    requires Proper(q) && AllSendable(lim, sent) && Exists(sent, c)
  {
    assert Sendable(lim, sent[c.message]);
    Handle(q, lim, r, false, CommandOf(sent[c.message], First(sent, c.message), c.piece))
  }

  /** One delivery: everything stays in order, nothing is lost, and the piece is kept if it is near. */
  lemma DeliverHolds(q: Layout, lim: Limits, sent: seq<Message>, r: Receiver, ids: seq<nat>, c: Copy)
    returns (ids': seq<nat>)
    requires Proper(q) && Holds(lim, sent, r, ids) && Settled(r)
    requires Exists(sent, c) && Admissible(q, sent, r, c.message)
    ensures var r' := Deliver(q, lim, sent, r, c);
            && Holds(lim, sent, r', ids') && Settled(r') && NothingLost(sent, r, ids, r', ids')
            && GainsOnly(sent, r, ids, r', ids', c.message, c.piece)
            && (Reachable(q, sent, r, c.message) ==> Has(sent, r', ids', c.message, c.piece))
  {
    assert Sendable(lim, sent[c.message]);
    hide Holds, Settled, Has, First, HandleFragment, HandleReliable, Reachable, Admissible;
    if sent[c.message].unit == 0 {
      ids' := ReliableHolds(q, lim, sent, r, ids, false, c.message);
    } else {
      ids' := FragmentArrives(q, lim, sent, r, ids, false, c.message, c.piece);
    }
  }
}
