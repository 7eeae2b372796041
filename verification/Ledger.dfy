/** What a peer keeps account of for its reliable commands: the queue of commands to send, the list
    of commands in flight, and the sums and counts derived from them.

    The steps here are single moves of one command; Peer.dfy has the loops that make them. */
module Ledger {
  import opened Clock
  import opened Constants
  import opened Queues

  /** ENetOutgoingCommand, as far as its accounting goes: code is its ENET_PROTOCOL_COMMAND, packet
      tells whether it carries one and length is the fragment length. */
  datatype Outgoing = Outgoing(
    channel: nat, number: nat, code: nat, packet: bool, length: nat,
    attempts: nat, sentTime: time, timeout: time, timeoutLimit: time)

  /** reliableWindows and usedReliableWindows of a channel. */
  datatype InUse = InUse(counts: seq<nat>, used: bv16)

  datatype Book = Book(
    channels: seq<InUse>, outgoing: seq<Outgoing>, sent: seq<Outgoing>, inTransit: nat, nextTimeout: time)

  /** One for a command of this channel that has been sent and whose number lies in window w. */
  function Counted(c: nat, w: nat): Outgoing -> nat {
    (e: Outgoing) => if e.channel == c && e.attempts > 0 && e.number / WINDOW_SIZE == w then 1 else 0
  }

  function PacketLength(): Outgoing -> nat {
    (e: Outgoing) => if e.packet then e.length else 0
  }

  // ----- the invariant -----

  function WindowBit(w: nat): bv16
    requires w < WINDOWS
  {
    1 << w
  }

  // `used & m`, `used |= m` and `used &= ~ m`

  predicate Has(used: bv16, m: bv16) {
    used & m != 0
  }

  function With(used: bv16, m: bv16): bv16 {
    used | m
  }

  function Drop(used: bv16, m: bv16): bv16 {
    used & !m
  }

  predicate Apart(m: bv16, t: bv16) {
    m & t == 0
  }

  predicate HasBit(used: bv16, w: nat)
    requires w < WINDOWS
  {
    Has(used, WindowBit(w))
  }

  function Deadline(e: Outgoing): time {
    Plus(e.sentTime, e.timeout)
  }

  /** The count of window w is that of the unacknowledged commands in it that have been sent at least
      once, and its bit says whether there is one. */
  predicate WindowKept(b: Book, c: nat, w: nat)
    requires c < |b.channels| && w < |b.channels[c].counts| == WINDOWS
  {
    && b.channels[c].counts[w] == Sum(b.sent, Counted(c, w)) + Sum(b.outgoing, Counted(c, w))
    && (HasBit(b.channels[c].used, w) <==> b.channels[c].counts[w] > 0)
  }

  predicate WindowsKept(b: Book)
    requires Shaped(b)
  {
    forall c, w | 0 <= c < |b.channels| && 0 <= w < WINDOWS :: WindowKept(b, c, w)
  }

  /** The commands awaiting retransmission come before the commands never sent. */
  predicate RetriedFirst(s: seq<Outgoing>) {
    forall i, j | 0 <= i < j < |s| :: s[j].attempts > 0 ==> s[i].attempts > 0
  }

  predicate AllSent(s: seq<Outgoing>) {
    forall i | 0 <= i < |s| :: s[i].attempts > 0
  }

  predicate Numbered(s: seq<Outgoing>) {
    forall i | 0 <= i < |s| :: s[i].number < WINDOWS * WINDOW_SIZE
  }

  predicate Shaped(b: Book) {
    && (forall c | 0 <= c < |b.channels| :: |b.channels[c].counts| == WINDOWS)
    && Numbered(b.outgoing) && Numbered(b.sent)
  }

  /** stale is what a reset of the queues left in reliableDataInTransit: 0 until the first one. */
  predicate Balanced(b: Book, stale: nat) {
    && Shaped(b) && WindowsKept(b)
    && b.inTransit == stale + Sum(b.sent, PacketLength())
    && (b.sent != [] ==> b.nextTimeout == Deadline(b.sent[0]))
    && RetriedFirst(b.outgoing) && AllSent(b.sent)
  }

  lemma CoversOne(b: Book, stale: nat, i: nat)
    requires Balanced(b, stale) && i < |b.sent|
    ensures b.inTransit >= PacketLength()(b.sent[i])
  {
    SumWithout(b.sent, i, PacketLength());
  }

  lemma BitsApart(v: nat, w: nat)
    requires v < WINDOWS && w < WINDOWS
    ensures Has(WindowBit(v), WindowBit(v))
    ensures v != w ==> Apart(WindowBit(v), WindowBit(w))
  {
  }

  lemma WithMask(u: bv16, m: bv16, t: bv16)
    ensures Apart(m, t) ==> (Has(With(u, m), t) <==> Has(u, t))
    ensures Has(m, m) ==> Has(With(u, m), m)
  {
  }

  lemma DropApart(u: bv16, m: bv16, t: bv16)
    requires Apart(m, t)
    ensures Has(Drop(u, m), t) <==> Has(u, t)
  {
  }

  lemma DropSame(u: bv16, m: bv16)
    ensures !Has(Drop(u, m), m)
  {
  }

  lemma BitSet(u: bv16, v: nat, w: nat)
    requires v < WINDOWS && w < WINDOWS
    ensures HasBit(With(u, WindowBit(v)), w) <==> v == w || HasBit(u, w)
  {
    hide Has, With, Apart, WindowBit;
    BitsApart(v, w);
    WithMask(u, WindowBit(v), WindowBit(w));
  }

  lemma BitCleared(u: bv16, v: nat, w: nat)
    requires v < WINDOWS && w < WINDOWS
    ensures HasBit(Drop(u, WindowBit(v)), w) <==> v != w && HasBit(u, w)
  {
    hide Has, Drop, Apart, WindowBit;
    BitsApart(v, w);
    if v == w { DropSame(u, WindowBit(w)); } else { DropApart(u, WindowBit(v), WindowBit(w)); }
  }

  // ----- one command at a time -----

  /** enet_peer_setup_outgoing_command, for a command that wants an acknowledgement. */
  function Queue(b: Book, e: Outgoing): Book {
    b.(outgoing := b.outgoing + [e])
  }

  /** A command goes into the datagram: its window is noted if it is the first time, it gets its
      timeout then, and it joins the list of commands in flight. */
  function Stamped(e: Outgoing, now: time, timeout: time, limit: time): Outgoing {
    e.(attempts := e.attempts + 1, sentTime := now,
       timeout := if e.timeout == 0 then timeout else e.timeout,
       timeoutLimit := if e.timeout == 0 then limit else e.timeoutLimit)
  }

  function Noted(channels: seq<InUse>, e: Outgoing): seq<InUse>
    requires e.number < WINDOWS * WINDOW_SIZE
    requires e.channel < |channels| ==> |channels[e.channel].counts| == WINDOWS
  {
    if e.channel < |channels| && e.attempts < 1 then
      var c, w := channels[e.channel], e.number / WINDOW_SIZE;
      channels[e.channel := InUse(c.counts[w := c.counts[w] + 1], With(c.used, WindowBit(w)))]
    else channels
  }

  function Send(b: Book, i: nat, now: time, timeout: time, limit: time): Book
    requires Shaped(b) && i < |b.outgoing|
  {
    var e := Stamped(b.outgoing[i], now, timeout, limit);
    Book(Noted(b.channels, b.outgoing[i]), Without(b.outgoing, i), b.sent + [e], b.inTransit + PacketLength()(e),
         if b.sent == [] then Plus(now, e.timeout) else b.nextTimeout)
  }

  /** The window count of an acknowledged command goes down. */
  function Released(channels: seq<InUse>, channel: nat, number: nat): seq<InUse>
    requires number < WINDOWS * WINDOW_SIZE
    requires channel < |channels| ==> |channels[channel].counts| == WINDOWS
  {
    if channel < |channels| && channels[channel].counts[number / WINDOW_SIZE] > 0 then
      var c, w := channels[channel], number / WINDOW_SIZE;
      channels[channel := InUse(c.counts[w := c.counts[w] - 1],
                                if c.counts[w] == 1 then Drop(c.used, WindowBit(w)) else c.used)]
    else channels
  }

  function FrontDeadline(sent: seq<Outgoing>, nextTimeout: time): time {
    if sent == [] then nextTimeout else Deadline(sent[0])
  }

  /** The end of enet_protocol_remove_sent_reliable_command, for a command in flight. */
  function AckSent(b: Book, i: nat): Book
    requires Shaped(b) && i < |b.sent| && b.inTransit >= PacketLength()(b.sent[i])
  {
    var sent := Without(b.sent, i);
    Book(Released(b.channels, b.sent[i].channel, b.sent[i].number), b.outgoing, sent,
         b.inTransit - PacketLength()(b.sent[i]), FrontDeadline(sent, b.nextTimeout))
  }

  /** The same for a command that awaits retransmission. */
  function AckRetried(b: Book, i: nat): Book
    requires Shaped(b) && i < |b.outgoing|
  {
    Book(Released(b.channels, b.outgoing[i].channel, b.outgoing[i].number), Without(b.outgoing, i), b.sent,
         b.inTransit, FrontDeadline(b.sent, b.nextTimeout))
  }

  /** A command that timed out waits again, its timeout doubled. */
  function Doubled(e: Outgoing): Outgoing {
    e.(timeout := e.timeout * 2 % WORD)
  }

  function Retry(b: Book, i: nat, at: nat): Book
    requires i < |b.sent| && at <= |b.outgoing| && b.inTransit >= PacketLength()(b.sent[i])
  {
    var sent := Without(b.sent, i);
    Book(b.channels, Insert(b.outgoing, at, Doubled(b.sent[i])), sent,
         b.inTransit - PacketLength()(b.sent[i]), FrontDeadline(sent, b.nextTimeout))
  }

  // ----- the invariant is kept -----

  lemma QueueBalanced(b: Book, stale: nat, e: Outgoing)
    requires Balanced(b, stale) && e.attempts == 0 && e.number < WINDOWS * WINDOW_SIZE
    ensures Balanced(Queue(b, e), stale)
  {
    hide Has, With, Drop, WindowBit;
    var b' := Queue(b, e);
    forall c, w | 0 <= c < |b.channels| && 0 <= w < WINDOWS ensures WindowKept(b', c, w) {
      assert WindowKept(b, c, w);
      SumConcat(b.outgoing, [e], Counted(c, w));
      SumOne(e, Counted(c, w));
    }
  }

  lemma NotedBits(channels: seq<InUse>, e: Outgoing, c: nat, w: nat)
    requires e.number < WINDOWS * WINDOW_SIZE && c < |channels| && w < WINDOWS
    requires forall c | 0 <= c < |channels| :: |channels[c].counts| == WINDOWS
    ensures |Noted(channels, e)| == |channels|
    ensures HasBit(Noted(channels, e)[c].used, w) <==>
            (c == e.channel && e.attempts < 1 && w == e.number / WINDOW_SIZE) || HasBit(channels[c].used, w)
  {
    hide Has, With, WindowBit;
    if c == e.channel && e.attempts < 1 { BitSet(channels[c].used, e.number / WINDOW_SIZE, w); }
  }

  lemma ReleasedBits(channels: seq<InUse>, channel: nat, number: nat, c: nat, w: nat)
    requires number < WINDOWS * WINDOW_SIZE && c < |channels| && w < WINDOWS
    requires forall c | 0 <= c < |channels| :: |channels[c].counts| == WINDOWS
    requires HasBit(channels[c].used, w) <==> channels[c].counts[w] > 0
    ensures var r := Released(channels, channel, number);
            && |r| == |channels| && |r[c].counts| == WINDOWS
            && (HasBit(r[c].used, w) <==> r[c].counts[w] > 0)
  {
    hide Has, Drop, WindowBit;
    if c == channel { BitCleared(channels[c].used, number / WINDOW_SIZE, w); }
  }

  lemma SendWindow(b: Book, stale: nat, i: nat, now: time, timeout: time, limit: time, c: nat, w: nat)
    requires Balanced(b, stale) && i < |b.outgoing| && c < |b.channels| && w < WINDOWS
    ensures var b' := Send(b, i, now, timeout, limit);
            |b'.channels| == |b.channels| && |b'.channels[c].counts| == WINDOWS && WindowKept(b', c, w)
  {
    var e := b.outgoing[i];
    var e' := Stamped(e, now, timeout, limit);
    assert WindowKept(b, c, w);
    NotedBits(b.channels, e, c, w);
    SumWithout(b.outgoing, i, Counted(c, w));
    SumConcat(b.sent, [e'], Counted(c, w));
    SumOne(e', Counted(c, w));
    hide Has, With, Drop, WindowBit, Noted, Sum, Without, RetriedFirst, AllSent, Deadline, WindowsKept, Numbered;
  }

  lemma SendBalanced(b: Book, stale: nat, i: nat, now: time, timeout: time, limit: time)
    requires Balanced(b, stale) && i < |b.outgoing|
    ensures Balanced(Send(b, i, now, timeout, limit), stale)
  {
    var b' := Send(b, i, now, timeout, limit);
    var e := Stamped(b.outgoing[i], now, timeout, limit);
    forall c, w | 0 <= c < |b.channels| && 0 <= w < WINDOWS
      ensures |b'.channels[c].counts| == WINDOWS && WindowKept(b', c, w)
    {
      SendWindow(b, stale, i, now, timeout, limit, c, w);
    }
    SumConcat(b.sent, [e], PacketLength());
    SumOne(e, PacketLength());
    hide Has, With, Drop, WindowBit, WindowKept, Sum;
  }

  lemma AckSentBalanced(b: Book, stale: nat, i: nat)
    requires Balanced(b, stale) && i < |b.sent|
    ensures b.inTransit >= PacketLength()(b.sent[i])
    ensures Balanced(AckSent(b, i), stale)
  {
    hide Has, With, Drop, WindowBit;
    CoversOne(b, stale, i);
    var b', e := AckSent(b, i), b.sent[i];
    forall c, w | 0 <= c < |b.channels| && 0 <= w < WINDOWS
      ensures |b'.channels[c].counts| == WINDOWS && WindowKept(b', c, w)
    {
      assert WindowKept(b, c, w);
      SumWithout(b.sent, i, Counted(c, w));
      ReleasedBits(b.channels, e.channel, e.number, c, w);
    }
    SumWithout(b.sent, i, PacketLength());
  }

  lemma AckRetriedBalanced(b: Book, stale: nat, i: nat)
    requires Balanced(b, stale) && i < |b.outgoing| && b.outgoing[i].attempts > 0
    ensures Balanced(AckRetried(b, i), stale)
  {
    hide Has, With, Drop, WindowBit;
    var b', e := AckRetried(b, i), b.outgoing[i];
    forall c, w | 0 <= c < |b.channels| && 0 <= w < WINDOWS
      ensures |b'.channels[c].counts| == WINDOWS && WindowKept(b', c, w)
    {
      assert WindowKept(b, c, w);
      SumWithout(b.outgoing, i, Counted(c, w));
      ReleasedBits(b.channels, e.channel, e.number, c, w);
    }
  }

  lemma RetryOrder(outgoing: seq<Outgoing>, at: nat, e: Outgoing)
    requires at <= |outgoing| && RetriedFirst(outgoing) && AllSent(outgoing[..at]) && e.attempts > 0
    requires Numbered(outgoing) && e.number < WINDOWS * WINDOW_SIZE
    ensures var o := Insert(outgoing, at, e); RetriedFirst(o) && Numbered(o) && AllSent(o[..at + 1])
  {
    forall k | 0 <= k < at ensures outgoing[k].attempts > 0 {
      assert outgoing[..at][k] == outgoing[k];
    }
  }

  lemma RetryBalanced(b: Book, stale: nat, i: nat, at: nat)
    requires Balanced(b, stale) && i < |b.sent| && at <= |b.outgoing| && AllSent(b.outgoing[..at])
    ensures b.inTransit >= PacketLength()(b.sent[i])
    ensures Balanced(Retry(b, i, at), stale)
    ensures AllSent(Retry(b, i, at).outgoing[..at + 1])
  {
    hide Has, With, Drop, WindowBit;
    CoversOne(b, stale, i);
    var b', e := Retry(b, i, at), b.sent[i];
    forall c, w | 0 <= c < |b.channels| && 0 <= w < WINDOWS ensures WindowKept(b', c, w) {
      assert WindowKept(b, c, w);
      SumWithout(b.sent, i, Counted(c, w));
      SumInsert(b.outgoing, at, Doubled(e), Counted(c, w));
    }
    SumWithout(b.sent, i, PacketLength());
    RetryOrder(b.outgoing, at, Doubled(e));
    hide Insert, RetriedFirst, Sum, AllSent;
  }

  // ----- acknowledgements -----

  predicate Named(e: Outgoing, number: nat, channel: nat) {
    e.number == number && e.channel == channel
  }

  /** The first command of that name, from place i on; |s| if there is none. */
  function Find(s: seq<Outgoing>, number: nat, channel: nat, i: nat): (k: nat)
    requires i <= |s|
    ensures i <= k <= |s|
    ensures k < |s| ==> Named(s[k], number, channel)
    ensures forall j | i <= j < k :: !Named(s[j], number, channel)
    decreases |s| - i
  {
    if i == |s| || Named(s[i], number, channel) then i else Find(s, number, channel, i + 1)
  }

  /** enet_protocol_remove_sent_reliable_command: the book afterwards and the command's number, 0 if
      it found none. */
  function Acknowledge(b: Book, stale: nat, number: nat, channel: nat): (Book, nat)
    requires Balanced(b, stale)
  {
    var i, k := Find(b.sent, number, channel, 0), Find(b.outgoing, number, channel, 0);
    if i < |b.sent| then
      CoversOne(b, stale, i);
      (AckSent(b, i), b.sent[i].code)
    else if k < |b.outgoing| && b.outgoing[k].attempts > 0 then (AckRetried(b, k), b.outgoing[k].code)
    else (b, 0)
  }

  lemma AcknowledgeBalanced(b: Book, stale: nat, number: nat, channel: nat)
    requires Balanced(b, stale)
    ensures Balanced(Acknowledge(b, stale, number, channel).0, stale)
  {
    var i, k := Find(b.sent, number, channel, 0), Find(b.outgoing, number, channel, 0);
    if i < |b.sent| {
      AckSentBalanced(b, stale, i);
    } else if k < |b.outgoing| && b.outgoing[k].attempts > 0 {
      AckRetriedBalanced(b, stale, k);
    }
  }

  /** A command of that name is in flight or awaits retransmission. */
  predicate Unacknowledged(b: Book, number: nat, channel: nat) {
    || (exists k :: 0 <= k < |b.sent| && Named(b.sent[k], number, channel))
    || (exists k :: 0 <= k < |b.outgoing| && Named(b.outgoing[k], number, channel) && b.outgoing[k].attempts > 0)
  }

  /** One command of that name, with that code, is gone from s. */
  predicate TakesOut(s: seq<Outgoing>, s': seq<Outgoing>, number: nat, channel: nat, code: nat) {
    exists i :: 0 <= i < |s| && Named(s[i], number, channel) && s' == Without(s, i) && code == s[i].code
  }

  /** The search that gives up at the first command never sent misses nothing: a command that is in
      flight or awaits retransmission is always taken out, and otherwise nothing is. */
  lemma AcknowledgeFinds(b: Book, stale: nat, number: nat, channel: nat)
    requires Balanced(b, stale)
    ensures var (b', code) := Acknowledge(b, stale, number, channel);
            if Unacknowledged(b, number, channel) then
              || (TakesOut(b.sent, b'.sent, number, channel, code) && b'.outgoing == b.outgoing)
              || (TakesOut(b.outgoing, b'.outgoing, number, channel, code) && b'.sent == b.sent)
            else b' == b && code == 0
  {
    var i, k := Find(b.sent, number, channel, 0), Find(b.outgoing, number, channel, 0);
    if i == |b.sent| && k < |b.outgoing| && b.outgoing[k].attempts == 0 {
      forall j | 0 <= j < |b.outgoing| && Named(b.outgoing[j], number, channel)
        ensures b.outgoing[j].attempts == 0
      {
        assert k <= j;
      }
    }
  }

  // ----- timeouts -----

  predicate Late(now: time, e: Outgoing) {
    Difference(now, e.sentTime) >= e.timeout
  }

  function InTime(now: time, s: seq<Outgoing>): seq<Outgoing> {
    if s == [] then []
    else InTime(now, s[..|s| - 1]) + if Late(now, s[|s| - 1]) then [] else [s[|s| - 1]]
  }

  /** The commands that have timed out, in their order, each with its timeout doubled. */
  function TimedOut(now: time, s: seq<Outgoing>): seq<Outgoing> {
    if s == [] then []
    else TimedOut(now, s[..|s| - 1]) + if Late(now, s[|s| - 1]) then [Doubled(s[|s| - 1])] else []
  }

  datatype Patience = Patience(minimum: time, maximum: time)

  function Earliest(earliest: time, e: Outgoing): time {
    if earliest == 0 || Clock.Less(e.sentTime, earliest) then e.sentTime else earliest
  }

  predicate GivesUp(now: time, p: Patience, earliest: time, e: Outgoing) {
    && earliest != 0
    && (Difference(now, earliest) >= p.maximum
        || (e.timeout >= e.timeoutLimit && Difference(now, earliest) >= p.minimum))
  }

  /** Whether a peer is given up when its commands are checked in order, and the new earliest timeout. */
  function Scan(now: time, p: Patience, earliest: time, s: seq<Outgoing>): (bool, time)
    decreases |s|
  {
    if s == [] then (false, earliest)
    else if !Late(now, s[0]) then Scan(now, p, earliest, s[1..])
    else if GivesUp(now, p, Earliest(earliest, s[0]), s[0]) then (true, Earliest(earliest, s[0]))
    else Scan(now, p, Earliest(earliest, s[0]), s[1..])
  }

  // ----- in moments instead of 32-bit times -----

  /** now stands for moment `when`, and command i was sent at moment at[i], less than a day before. */
  ghost predicate SentAt(now: time, when: nat, s: seq<Outgoing>, at: seq<nat>) {
    && now == when % WORD && |at| == |s|
    && forall i | 0 <= i < |s| :: s[i].sentTime == at[i] % WORD && at[i] <= when < at[i] + DAY
  }

  /** earliestTimeout, if it is set, stands for moment first. */
  ghost predicate Since(when: nat, earliest: time, first: nat) {
    earliest != 0 ==> earliest == first % WORD && first <= when < first + DAY
  }

  predicate LateAt(when: nat, s: seq<Outgoing>, at: seq<nat>, i: nat)
    requires |at| == |s|
  {
    i < |s| && when - at[i] >= s[i].timeout
  }

  /** The oldest of the first n commands that are late, and of the moment since which the peer has been waited for. */
  ghost predicate Oldest(when: nat, earliest: time, first: nat, s: seq<Outgoing>, at: seq<nat>, n: nat, e: nat)
    requires |at| == |s|
  {
    && ((earliest != 0 && e == first) || exists i: nat :: i < n && LateAt(when, s, at, i) && at[i] == e)
    && (earliest != 0 ==> e <= first)
    && forall i: nat | i < n && LateAt(when, s, at, i) :: e <= at[i]
  }

  predicate Exhausted(when: nat, p: Patience, e: nat, c: Outgoing) {
    when - e >= p.maximum || (when - e >= p.minimum && c.timeout >= c.timeoutLimit)
  }

  /** Command k is late, and too much time has passed since moment e, the oldest so far. */
  ghost predicate Overdue(when: nat, p: Patience, earliest: time, first: nat, s: seq<Outgoing>, at: seq<nat>, k: nat,
                          e: nat)
    requires |at| == |s|
  {
    LateAt(when, s, at, k) && Oldest(when, earliest, first, s, at, k + 1, e) && Exhausted(when, p, e, s[k])
  }

  /** 0 stands for no time, so a command sent at that time is not told from none. */
  ghost predicate NoneAtZero(when: nat, s: seq<Outgoing>, at: seq<nat>)
    requires |at| == |s|
  {
    forall i: nat | LateAt(when, s, at, i) :: s[i].sentTime != 0
  }

  lemma LateMeans(now: time, when: nat, e: Outgoing, m: nat)
    requires now == when % WORD && e.sentTime == m % WORD && m <= when < m + DAY
    ensures Late(now, e) <==> when - m >= e.timeout
  {
    LessIsEarlier(when, m);
  }

  /** The moment waited since after a late command. */
  function FirstAfter(earliest: time, first: nat, m: nat): nat {
    if earliest == 0 || m < first then m else first
  }

  lemma EarliestMeans(when: nat, earliest: time, first: nat, e: Outgoing, m: nat)
    requires Since(when, earliest, first) && e.sentTime == m % WORD && m <= when < m + DAY && e.sentTime != 0
    ensures var t := FirstAfter(earliest, first, m);
            Earliest(earliest, e) == t % WORD != 0 && Since(when, Earliest(earliest, e), t) && t <= when < t + DAY
  {
    if earliest != 0 { LessIsEarlier(m, first); }
  }

  lemma GivesUpMeans(now: time, when: nat, p: Patience, earliest: time, first: nat, e: Outgoing, m: nat)
    requires now == when % WORD && Since(when, earliest, first) && e.sentTime == m % WORD && m <= when < m + DAY
    requires e.sentTime != 0
    ensures GivesUp(now, p, Earliest(earliest, e), e) <==> Exhausted(when, p, FirstAfter(earliest, first, m), e)
  {
    EarliestMeans(when, earliest, first, e, m);
    LessIsEarlier(when, FirstAfter(earliest, first, m));
    hide Earliest;
  }

  lemma LateRest(when: nat, s: seq<Outgoing>, at: seq<nat>, i: nat)
    requires |at| == |s| > 0
    ensures LateAt(when, s[1..], at[1..], i) <==> LateAt(when, s, at, i + 1)
  {
  }

  /** The first command of the rest is command 1 of the whole, and command 0 counts only if it is late. */
  lemma OldestRest(when: nat, earliest: time, first: nat, s: seq<Outgoing>, at: seq<nat>, n: nat, e: nat)
    requires |at| == |s| > 0
    ensures !LateAt(when, s, at, 0) ==>
              (Oldest(when, earliest, first, s[1..], at[1..], n, e) <==>
               Oldest(when, earliest, first, s, at, n + 1, e))
    ensures LateAt(when, s, at, 0) && Earliest(earliest, s[0]) != 0 ==>
              (Oldest(when, Earliest(earliest, s[0]), FirstAfter(earliest, first, at[0]), s[1..], at[1..], n, e) <==>
               Oldest(when, earliest, first, s, at, n + 1, e))
  {
    forall i: nat ensures LateAt(when, s[1..], at[1..], i) <==> LateAt(when, s, at, i + 1) { LateRest(when, s, at, i); }
    hide Earliest, LateAt;
    if i: nat :| i < n + 1 && LateAt(when, s, at, i) && at[i] == e {
      if i > 0 { assert LateAt(when, s[1..], at[1..], i - 1); }
    }
    if i: nat :| i < n && LateAt(when, s[1..], at[1..], i) && at[1..][i] == e {
      assert LateAt(when, s, at, i + 1);
    }
  }

  lemma RestSentAt(now: time, when: nat, s: seq<Outgoing>, at: seq<nat>)
    requires SentAt(now, when, s, at) && s != [] && NoneAtZero(when, s, at)
    ensures SentAt(now, when, s[1..], at[1..]) && NoneAtZero(when, s[1..], at[1..])
    ensures LateAt(when, s, at, 0) <==> Late(now, s[0])
    ensures LateAt(when, s, at, 0) ==> s[0].sentTime != 0
  {
    LateMeans(now, when, s[0], at[0]);
    hide Late;
    forall i: nat | LateAt(when, s[1..], at[1..], i) ensures s[1..][i].sentTime != 0 { LateRest(when, s, at, i); }
  }

  /** One round of the loop, in moments. */
  lemma ScanOne(now: time, when: nat, p: Patience, earliest: time, first: nat, s: seq<Outgoing>, at: seq<nat>)
    requires SentAt(now, when, s, at) && Since(when, earliest, first) && NoneAtZero(when, s, at) && s != []
    ensures SentAt(now, when, s[1..], at[1..]) && NoneAtZero(when, s[1..], at[1..])
    ensures !LateAt(when, s, at, 0) ==> Scan(now, p, earliest, s) == Scan(now, p, earliest, s[1..])
    ensures LateAt(when, s, at, 0) ==>
              var t, e := Earliest(earliest, s[0]), FirstAfter(earliest, first, at[0]);
              && t == e % WORD != 0 && Since(when, t, e)
              && Scan(now, p, earliest, s) == if Exhausted(when, p, e, s[0]) then (true, t) else Scan(now, p, t, s[1..])
  {
    RestSentAt(now, when, s, at);
    if LateAt(when, s, at, 0) {
      EarliestMeans(when, earliest, first, s[0], at[0]);
      GivesUpMeans(now, when, p, earliest, first, s[0], at[0]);
    }
    hide Late, Earliest, GivesUp, Exhausted, FirstAfter, NoneAtZero;
  }

  /** What is overdue in the rest is so in the whole, and the other way round. */
  lemma OverdueRest(when: nat, p: Patience, earliest: time, first: nat, s: seq<Outgoing>, at: seq<nat>, k: nat, e: nat)
    requires |at| == |s| > 0
    ensures !LateAt(when, s, at, 0) ==>
              (Overdue(when, p, earliest, first, s[1..], at[1..], k, e) <==>
               Overdue(when, p, earliest, first, s, at, k + 1, e))
    ensures LateAt(when, s, at, 0) && Earliest(earliest, s[0]) != 0 ==>
              (Overdue(when, p, Earliest(earliest, s[0]), FirstAfter(earliest, first, at[0]), s[1..], at[1..], k, e)
               <==> Overdue(when, p, earliest, first, s, at, k + 1, e))
  {
    LateRest(when, s, at, k);
    OldestRest(when, earliest, first, s, at, k + 1, e);
    assert LateAt(when, s, at, k + 1) ==> s[1..][k] == s[k + 1];
    hide LateAt, Oldest, Exhausted, Earliest, FirstAfter;
  }

  /** Command 0, if it is late, is overdue with the oldest moment so far, and with no other. */
  lemma OverdueFront(when: nat, p: Patience, earliest: time, first: nat, s: seq<Outgoing>, at: seq<nat>, e: nat)
    requires |at| == |s| > 0
    ensures !LateAt(when, s, at, 0) ==> !Overdue(when, p, earliest, first, s, at, 0, e)
    ensures LateAt(when, s, at, 0) ==>
              (Overdue(when, p, earliest, first, s, at, 0, e) <==>
               e == FirstAfter(earliest, first, at[0]) && Exhausted(when, p, e, s[0]))
  {
    hide Exhausted;
  }

  lemma {:induction false} GivenUpFor(now: time, when: nat, p: Patience, earliest: time, first: nat,
                                      s: seq<Outgoing>, at: seq<nat>)
    returns (k: nat, e: nat)
    requires SentAt(now, when, s, at) && Since(when, earliest, first) && NoneAtZero(when, s, at)
    requires Scan(now, p, earliest, s).0
    ensures Overdue(when, p, earliest, first, s, at, k, e)
    decreases |s|
  {
    ScanOne(now, when, p, earliest, first, s, at);
    var late := LateAt(when, s, at, 0);
    k, e := 0, FirstAfter(earliest, first, at[0]);
    OverdueFront(when, p, earliest, first, s, at, e);
    hide *;
    if !(late && Exhausted(when, p, e, s[0])) {
      if late {
        k, e := GivenUpFor(now, when, p, Earliest(earliest, s[0]), e, s[1..], at[1..]);
      } else {
        k, e := GivenUpFor(now, when, p, earliest, first, s[1..], at[1..]);
      }
      OverdueRest(when, p, earliest, first, s, at, k, e);
      k := k + 1;
    }
  }

  lemma {:induction false} NotGivenUp(now: time, when: nat, p: Patience, earliest: time, first: nat,
                                      s: seq<Outgoing>, at: seq<nat>, k: nat, e: nat)
    requires SentAt(now, when, s, at) && Since(when, earliest, first) && NoneAtZero(when, s, at)
    requires !Scan(now, p, earliest, s).0
    ensures !Overdue(when, p, earliest, first, s, at, k, e)
    decreases |s|
  {
    if s == [] { return; }
    ScanOne(now, when, p, earliest, first, s, at);
    hide *;
    if k == 0 {
      OverdueFront(when, p, earliest, first, s, at, e);
    } else {
      OverdueRest(when, p, earliest, first, s, at, k - 1, e);
      if LateAt(when, s, at, 0) {
        NotGivenUp(now, when, p, Earliest(earliest, s[0]), FirstAfter(earliest, first, at[0]), s[1..], at[1..], k - 1,
                   e);
      } else {
        NotGivenUp(now, when, p, earliest, first, s[1..], at[1..], k - 1, e);
      }
    }
  }

  /** The peer is given up exactly if some late command finds that, since the oldest late one before it or the moment
      waited since, the maximum has passed, or the minimum and the command's timeout has reached its limit. */
  lemma GivenUpExactly(now: time, when: nat, p: Patience, earliest: time, first: nat, s: seq<Outgoing>, at: seq<nat>)
    requires SentAt(now, when, s, at) && Since(when, earliest, first) && NoneAtZero(when, s, at)
    ensures Scan(now, p, earliest, s).0 <==> exists k, e :: Overdue(when, p, earliest, first, s, at, k, e)
  {
    assert |at| == |s|;
    hide *;
    if Scan(now, p, earliest, s).0 {
      var k, e := GivenUpFor(now, when, p, earliest, first, s, at);
    } else {
      forall k, e ensures !Overdue(when, p, earliest, first, s, at, k, e) {
        NotGivenUp(now, when, p, earliest, first, s, at, k, e);
      }
    }
  }

  /** If it is not, it is waited for since the oldest moment there is. */
  lemma {:induction false} WaitedSince(now: time, when: nat, p: Patience, earliest: time, first: nat, s: seq<Outgoing>,
                                       at: seq<nat>)
    returns (e: nat)
    requires SentAt(now, when, s, at) && Since(when, earliest, first) && NoneAtZero(when, s, at)
    requires !Scan(now, p, earliest, s).0
    ensures var t := Scan(now, p, earliest, s).1;
            if t == 0 then earliest == 0 && forall i: nat :: !LateAt(when, s, at, i)
            else Oldest(when, earliest, first, s, at, |s|, e) && t == e % WORD
    decreases |s|
  {
    e := first;
    if s != [] {
      ScanOne(now, when, p, earliest, first, s, at);
      forall i: nat ensures LateAt(when, s[1..], at[1..], i) <==> LateAt(when, s, at, i + 1) {
        LateRest(when, s, at, i);
      }
      assert forall i: nat | i > 0 && LateAt(when, s, at, i) :: LateAt(when, s[1..], at[1..], i - 1);
      hide *;
      if LateAt(when, s, at, 0) {
        e := WaitedSince(now, when, p, Earliest(earliest, s[0]), FirstAfter(earliest, first, at[0]), s[1..], at[1..]);
      } else {
        e := WaitedSince(now, when, p, earliest, first, s[1..], at[1..]);
      }
      OldestRest(when, earliest, first, s, at, |s| - 1, e);
    }
  }

  /** Nobody is given up before the maximum as long as no timeout has reached its limit. */
  lemma KeptTillMaximum(now: time, when: nat, p: Patience, earliest: time, first: nat, s: seq<Outgoing>, at: seq<nat>)
    requires SentAt(now, when, s, at) && Since(when, earliest, first) && NoneAtZero(when, s, at)
    requires earliest != 0 ==> when - first < p.maximum
    requires forall i: nat | LateAt(when, s, at, i) :: when - at[i] < p.maximum && s[i].timeout < s[i].timeoutLimit
    ensures !Scan(now, p, earliest, s).0
  {
    GivenUpExactly(now, when, p, earliest, first, s, at);
    hide Scan;
  }

  /** And a late command from the maximum on always gives the peer up. */
  lemma GivenUpAtMaximum(now: time, when: nat, p: Patience, earliest: time, first: nat, s: seq<Outgoing>, at: seq<nat>,
                         k: nat)
    requires SentAt(now, when, s, at) && Since(when, earliest, first) && NoneAtZero(when, s, at)
    requires LateAt(when, s, at, k) && when - at[k] >= p.maximum
    ensures Scan(now, p, earliest, s).0
  {
    var e := OldestTo(when, earliest, first, s, at, k);
    assert Overdue(when, p, earliest, first, s, at, k, e);
    GivenUpExactly(now, when, p, earliest, first, s, at);
    hide Scan, Overdue;
  }

  lemma {:induction false} OldestTo(when: nat, earliest: time, first: nat, s: seq<Outgoing>, at: seq<nat>, k: nat)
    returns (e: nat)
    requires |at| == |s| && LateAt(when, s, at, k)
    ensures Oldest(when, earliest, first, s, at, k + 1, e) && e <= at[k]
  {
    e := if earliest != 0 && first < at[k] then first else at[k];
    var n: nat := 0;
    while n < k
      invariant n <= k && e <= at[k] && (earliest != 0 ==> e <= first)
      invariant (earliest != 0 && e == first) || exists i: nat :: i < k + 1 && LateAt(when, s, at, i) && at[i] == e
      invariant forall i: nat | i < n && LateAt(when, s, at, i) :: e <= at[i]
    {
      if LateAt(when, s, at, n) && at[n] < e { e := at[n]; }
      n := n + 1;
    }
  }

  // ----- how the timeouts grow -----

  /** After n retransmissions. */
  function Retried(e: Outgoing, n: nat): Outgoing {
    if n == 0 then e else Doubled(Retried(e, n - 1))
  }

  function Power(n: nat): (p: nat)
    ensures p >= 1
  {
    if n == 0 then 1 else 2 * Power(n - 1)
  }

  lemma {:induction false} PowerGrows(m: nat, n: nat)
    requires m <= n
    ensures Power(m) <= Power(n)
    decreases n
  {
    if m < n { PowerGrows(m, n - 1); }
  }

  /** Each retransmission doubles the timeout, as long as it fits 32 bits, and changes nothing else. */
  lemma {:induction false} TimeoutDoubles(e: Outgoing, n: nat)
    requires e.timeout * Power(n) < WORD
    ensures Retried(e, n) == e.(timeout := e.timeout * Power(n))
  {
    hide Doubled;
    if n > 0 {
      TwiceTimes(e.timeout, Power(n - 1));
      TimeoutDoubles(e, n - 1);
      DoubledOnce(e, e.timeout * Power(n - 1));
    }
  }

  lemma DoubledOnce(e: Outgoing, t: time)
    requires t * 2 < WORD
    ensures Doubled(e.(timeout := t)) == e.(timeout := t * 2)
  {
  }

  lemma TwiceTimes(t: nat, p: nat)
    ensures t * (2 * p) == 2 * (t * p) == t * p * 2
  {
  }

  /** With the limit a command gets when it is first sent, 32 of its timeouts, it is at its limit from the fifth
      retransmission on. */
  lemma LimitReached(e: Outgoing, n: nat)
    requires e.timeout > 0 && e.timeoutLimit == 32 * e.timeout && e.timeout * Power(n) < WORD
    ensures Retried(e, n).timeout >= Retried(e, n).timeoutLimit <==> n >= 5
  {
    TimeoutDoubles(e, n);
    assert Power(5) == 32 && Power(4) == 16;
    if n >= 5 { PowerGrows(5, n); } else { PowerGrows(n, 4); }
    AtLeastTimes(e.timeout, Power(n));
  }

  lemma AtLeastTimes(t: nat, p: nat)
    requires t > 0
    ensures t * p >= 32 * t <==> p >= 32
  {
    if p >= 32 { assert t * p == 32 * t + t * (p - 32); } else { assert 32 * t == t * p + t * (32 - p); }
  }

  /** Except that 0 stands for no time: a command sent then does not give the peer up, however long it is late. */
  lemma SentAtZero(now: time, p: Patience, e: Outgoing)
    requires e.sentTime == 0
    ensures Scan(now, p, 0, [e]) == (false, 0)
    ensures Late(40000, Outgoing(0, 1, 6, true, 10, 1, 0, 500, 16000))
            && Scan(40000, Patience(5000, 30000), 0, [Outgoing(0, 1, 6, true, 10, 1, 0, 500, 16000)]) == (false, 0)
  {
    assert [e][1..] == [];
    var c := Outgoing(0, 1, 6, true, 10, 1, 0, 500, 16000);
    assert [c][1..] == [];
  }

  // ----- sending -----

  function AllStamped(s: seq<Outgoing>, now: time, timeout: time, limit: time): seq<Outgoing> {
    seq(|s|, i requires 0 <= i < |s| => Stamped(s[i], now, timeout, limit))
  }
}
