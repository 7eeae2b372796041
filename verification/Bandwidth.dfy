/** enet_host_bandwidth_throttle: how a host shares its outgoing bandwidth among its peers.

    Peers that would be sent more than they take are held to what they take; what is left is shared
    among the others in proportion to the data they have.  Products, sums and differences are cut to
    32 bits as the source cuts them. */
module Bandwidth {
  import opened Constants
  import opened Queues

  /** What the throttle reads and writes of a peer; active is CONNECTED or DISCONNECT_LATER. */
  datatype Share = Share(
    active: bool, incomingBandwidth: nat, outgoingBandwidth: nat, outgoingDataTotal: nat,
    packetThrottle: nat, packetThrottleLimit: nat,
    outgoingBandwidthThrottleEpoch: nat, incomingBandwidthThrottleEpoch: nat)

  /** ENET_PROTOCOL_MAXIMUM_PEER_ID: a host is not made for more peers. */
  const MAXIMUM_PEERS: nat := 0xFFF

  /** What a host can hold: so many peers, and data totals of 32 bits. */
  predicate Holdable(peers: seq<Share>) {
    |peers| <= MAXIMUM_PEERS && forall i | 0 <= i < |peers| :: peers[i].outgoingDataTotal < WORD
  }

  /** The 32 bits that are kept of a number. */
  function Word(n: nat): (w: nat)
    ensures w < WORD && w <= n && (n < WORD ==> w == n)
  {
    n % WORD
  }

  /** a - b in 32 bits. */
  function Minus(a: nat, b: nat): (w: nat)
    requires b < WORD
    ensures w < WORD && (b <= a < WORD ==> w == a - b)
  {
    (a + (WORD - b)) % WORD
  }

  /** peerBandwidth: what the peer can take in the time that has passed. */
  function Takes(p: Share, elapsed: nat): (t: nat)
    ensures t <= WORD / 1000
    ensures t <= p.incomingBandwidth * elapsed / 1000
    ensures p.incomingBandwidth * elapsed < WORD ==> t == p.incomingBandwidth * elapsed / 1000
  {
    Word(p.incomingBandwidth * elapsed) / 1000
  }

  /** Not yet settled in this round. */
  predicate Open(p: Share, now: nat) {
    p.active && p.outgoingBandwidthThrottleEpoch != now
  }

  /** The share of an open peer at a throttle is found to be more than it takes. */
  predicate Exceeds(p: Share, now: nat, elapsed: nat, throttle: nat) {
    && Open(p, now) && p.incomingBandwidth != 0
    && Word(throttle * p.outgoingDataTotal) / THROTTLE_SCALE > Takes(p, elapsed)
  }

  /** The limit the peer is held to, never 0. */
  function LimitOf(p: Share, elapsed: nat): (limit: nat)
    requires p.outgoingDataTotal > 0
    ensures limit > 0
  {
    hide Takes, Word;
    var limit := Word(Takes(p, elapsed) * THROTTLE_SCALE) / p.outgoingDataTotal;
    if limit == 0 then 1 else limit
  }

  function Limited(p: Share, limit: nat): Share {
    p.(packetThrottleLimit := limit, packetThrottle := if p.packetThrottle > limit then limit else p.packetThrottle)
  }

  function Settled(p: Share, now: nat, elapsed: nat): Share
    requires p.outgoingDataTotal > 0
  {
    Limited(p, LimitOf(p, elapsed)).(outgoingBandwidthThrottleEpoch := now)
  }

  // ----- what is summed -----

  function OpenData(now: nat): Share -> nat {
    (p: Share) => if Open(p, now) then p.outgoingDataTotal else 0
  }

  function OpenCount(now: nat): Share -> nat {
    (p: Share) => if Open(p, now) then 1 else 0
  }

  function ActiveCount(): Share -> nat {
    (p: Share) => if p.active then 1 else 0
  }

  function ActiveData(): Share -> nat {
    (p: Share) => if p.active then p.outgoingDataTotal else 0
  }

  /** What settled peers take. */
  function ClosedTakes(now: nat, elapsed: nat): Share -> nat {
    (p: Share) => if p.active && !Open(p, now) then Takes(p, elapsed) else 0
  }

  lemma {:induction false} SumUpdate<T>(s: seq<T>, i: nat, e: T, f: T -> nat)
    requires i < |s|
    ensures Sum(s[i := e], f) == Sum(s, f) - f(s[i]) + f(e)
    decreases |s|
  {
    var n := |s| - 1;
    if i < n {
      SumUpdate(s[..n], i, e, f);
      assert s[i := e][..n] == s[..n][i := e];
    } else {
      assert s[i := e][..n] == s[..n];
    }
  }

  lemma {:induction false} SumAtMost<T>(s: seq<T>, t: seq<T>, f: T -> nat, g: T -> nat)
    requires |s| == |t| && forall i | 0 <= i < |s| :: f(s[i]) <= g(t[i])
    ensures Sum(s, f) <= Sum(t, g)
    decreases |s|
  {
    if s != [] { SumAtMost(s[..|s| - 1], t[..|t| - 1], f, g); }
  }

  lemma {:induction false} SumMember(peers: seq<Share>, i: nat, f: Share -> nat)
    requires i < |peers|
    ensures f(peers[i]) <= Sum(peers, f)
    decreases |peers|
  {
    if i < |peers| - 1 { SumMember(peers[..|peers| - 1], i, f); }
  }

  lemma {:induction false} CountAtMost(peers: seq<Share>)
    ensures Sum(peers, ActiveCount()) <= |peers|
    decreases |peers|
  {
    if peers != [] { CountAtMost(peers[..|peers| - 1]); }
  }

  function Nothing(): Share -> nat {
    (p: Share) => 0
  }

  lemma {:induction false} SumNothing(peers: seq<Share>)
    ensures Sum(peers, Nothing()) == 0
    decreases |peers|
  {
    if peers != [] { SumNothing(peers[..|peers| - 1]); }
  }

  // ----- the rounds -----

  /** What a round works on; adjusted is needsAdjustment. */
  datatype Books = Books(peers: seq<Share>, bandwidth: nat, dataTotal: nat, remaining: nat, adjusted: bool)

  function SettleIn(b: Books, i: nat, now: nat, elapsed: nat): Books
    requires i < |b.peers| && b.peers[i].outgoingDataTotal > 0
  {
    var p := b.peers[i];
    var t := Takes(p, elapsed);
    Books(b.peers[i := Settled(p, now, elapsed)], Minus(b.bandwidth, t), Minus(b.dataTotal, t), Minus(b.remaining, 1),
          true)
  }

  lemma ExceedsData(p: Share, now: nat, elapsed: nat, throttle: nat)
    requires Exceeds(p, now, elapsed, throttle)
    ensures p.outgoingDataTotal > 0
  {
  }

  /** A round, from peer i on. */
  function RoundFrom(b: Books, i: nat, now: nat, elapsed: nat, throttle: nat): Books
    requires i <= |b.peers|
    decreases |b.peers| - i
  {
    if i == |b.peers| then b
    else if Exceeds(b.peers[i], now, elapsed, throttle) then
      ExceedsData(b.peers[i], now, elapsed, throttle);
      RoundFrom(SettleIn(b, i, now, elapsed), i + 1, now, elapsed, throttle)
    else RoundFrom(b, i + 1, now, elapsed, throttle)
  }

  function WholeRound(b: Books, now: nat, elapsed: nat, throttle: nat): Books {
    RoundFrom(b.(adjusted := false), 0, now, elapsed, throttle)
  }

  lemma SettleCounts(b: Books, i: nat, now: nat, elapsed: nat)
    requires i < |b.peers| && Open(b.peers[i], now) && b.peers[i].outgoingDataTotal > 0
    ensures Sum(SettleIn(b, i, now, elapsed).peers, OpenCount(now)) == Sum(b.peers, OpenCount(now)) - 1
  {
    SumUpdate(b.peers, i, Settled(b.peers[i], now, elapsed), OpenCount(now));
  }

  /** A round that adjusts anything leaves fewer peers open. */
  lemma {:induction false} RoundCounts(b: Books, i: nat, now: nat, elapsed: nat, throttle: nat)
    requires i <= |b.peers|
    ensures var r := RoundFrom(b, i, now, elapsed, throttle);
            && Sum(r.peers, OpenCount(now)) <= Sum(b.peers, OpenCount(now))
            && (r.adjusted && !b.adjusted ==> Sum(r.peers, OpenCount(now)) < Sum(b.peers, OpenCount(now)))
    decreases |b.peers| - i
  {
    hide Sum, Takes, Settled, Minus, Word;
    if i < |b.peers| {
      if Exceeds(b.peers[i], now, elapsed, throttle) {
        ExceedsData(b.peers[i], now, elapsed, throttle);
        SettleCounts(b, i, now, elapsed);
        RoundCounts(SettleIn(b, i, now, elapsed), i + 1, now, elapsed, throttle);
      } else {
        RoundCounts(b, i + 1, now, elapsed, throttle);
      }
    }
  }

  /** A round that finds nobody exceeding changes nothing. */
  lemma {:induction false} RoundStays(b: Books, i: nat, now: nat, elapsed: nat, throttle: nat)
    requires i <= |b.peers|
    requires forall j | i <= j < |b.peers| :: !Exceeds(b.peers[j], now, elapsed, throttle)
    ensures RoundFrom(b, i, now, elapsed, throttle) == b
    decreases |b.peers| - i
  {
    if i < |b.peers| { RoundStays(b, i + 1, now, elapsed, throttle); }
  }

  predicate DivisorIsZero(b: Books) {
    !(b.dataTotal < b.bandwidth) && b.dataTotal == 0
  }

  /** throttle is the proportion of the data that the bandwidth covers. */
  function ThrottleFor(bandwidth: nat, dataTotal: nat): (throttle: nat)
    requires dataTotal < bandwidth || dataTotal > 0
  {
    if dataTotal < bandwidth then THROTTLE_SCALE else Word(bandwidth * THROTTLE_SCALE) / dataTotal
  }

  /** How the rounds end: in a division by 0, or with a throttle for the peers still open. */
  datatype Ending = DivisionByZero | Ended(peers: seq<Share>, throttle: nat, remaining: nat)

  function Rounds(b: Books, now: nat, elapsed: nat, throttle: nat): Ending
    decreases Sum(b.peers, OpenCount(now)), b.adjusted
  {
    if b.remaining == 0 || !b.adjusted then Ended(b.peers, throttle, b.remaining)
    else if DivisorIsZero(b) then DivisionByZero
    else
      var next := ThrottleFor(b.bandwidth, b.dataTotal);
      RoundCounts(b.(adjusted := false), 0, now, elapsed, next);
      Rounds(WholeRound(b, now, elapsed, next), now, elapsed, next)
  }

  /** bandwidth: what the host may send in the time that has passed. */
  function HostBandwidth(outgoingBandwidth: nat, elapsed: nat): (bandwidth: nat)
    ensures bandwidth < WORD && (outgoingBandwidth != 0 ==> bandwidth <= outgoingBandwidth * elapsed / 1000)
    ensures outgoingBandwidth != 0 && outgoingBandwidth * elapsed < WORD ==>
              bandwidth == outgoingBandwidth * elapsed / 1000
  {
    if outgoingBandwidth == 0 then WORD - 1 else Word(outgoingBandwidth * elapsed) / 1000
  }

  function StartBooks(peers: seq<Share>, elapsed: nat, outgoingBandwidth: nat): Books {
    Books(peers, HostBandwidth(outgoingBandwidth, elapsed), Word(Sum(peers, ActiveData())),
          Word(Sum(peers, ActiveCount())), true)
  }

  /** The last loop gives the throttle to the peers still open. */
  function Closing(p: Share, now: nat, throttle: nat): Share {
    if Open(p, now) then Limited(p, throttle) else p
  }

  function CloseAll(peers: seq<Share>, now: nat, throttle: nat): seq<Share> {
    seq(|peers|, i requires 0 <= i < |peers| => Closing(peers[i], now, throttle))
  }

  /** The outgoing half of enet_host_bandwidth_throttle.  With no peer connected it does nothing. */
  function Shared(peers: seq<Share>, now: nat, elapsed: nat, outgoingBandwidth: nat): Ending {
    var b := StartBooks(peers, elapsed, outgoingBandwidth);
    if b.remaining == 0 then Ended(peers, 0, 0)
    else match Rounds(b, now, elapsed, 0)
         case DivisionByZero => DivisionByZero
         case Ended(settled, throttle, remaining) =>
           Ended(if remaining > 0 then CloseAll(settled, now, throttle) else settled, throttle, remaining)
  }

  // ----- what the rounds do to one peer -----

  /** The rounds change a peer only by settling it. */
  predicate Progressed(old': Share, p: Share, now: nat, elapsed: nat) {
    || p == old'
    || (Open(old', now) && old'.incomingBandwidth != 0 && old'.outgoingDataTotal > 0
        && p == Settled(old', now, elapsed))
  }

  predicate AllProgressed(old': seq<Share>, peers: seq<Share>, now: nat, elapsed: nat) {
    |peers| == |old'| && forall i | 0 <= i < |peers| :: Progressed(old'[i], peers[i], now, elapsed)
  }

  predicate NoneExceeds(peers: seq<Share>, n: nat, now: nat, elapsed: nat, throttle: nat) {
    n <= |peers| && forall i | 0 <= i < n :: !Exceeds(peers[i], now, elapsed, throttle)
  }

  lemma SettleProgressed(original: seq<Share>, b: Books, i: nat, now: nat, elapsed: nat, throttle: nat)
    requires AllProgressed(original, b.peers, now, elapsed) && i < |b.peers|
    requires Exceeds(b.peers[i], now, elapsed, throttle) && b.peers[i].outgoingDataTotal > 0
    ensures AllProgressed(original, SettleIn(b, i, now, elapsed).peers, now, elapsed)
  {
    hide LimitOf, Takes, Word, Minus;
    assert Progressed(original[i], b.peers[i], now, elapsed);
  }

  /** Whatever the sums are: each peer is left alone or settled, and after a round without adjustment
      no peer exceeds what it takes. */
  lemma {:induction false} RoundProgress(original: seq<Share>, b: Books, i: nat, now: nat, elapsed: nat, throttle: nat)
    requires i <= |b.peers| && AllProgressed(original, b.peers, now, elapsed)
    requires Sum(b.peers, OpenCount(now)) <= b.remaining < WORD
    requires !b.adjusted ==> NoneExceeds(b.peers, i, now, elapsed, throttle)
    ensures var r := RoundFrom(b, i, now, elapsed, throttle);
            && AllProgressed(original, r.peers, now, elapsed)
            && Sum(r.peers, OpenCount(now)) <= r.remaining < WORD
            && (!r.adjusted ==> NoneExceeds(r.peers, |r.peers|, now, elapsed, throttle))
    decreases |b.peers| - i
  {
    hide Sum, Progressed, Exceeds;
    if i < |b.peers| {
      if Exceeds(b.peers[i], now, elapsed, throttle) {
        ExceedsData(b.peers[i], now, elapsed, throttle);
        ExceedsOpen(b.peers[i], now, elapsed, throttle);
        SettleCounts(b, i, now, elapsed);
        SettleProgressed(original, b, i, now, elapsed, throttle);
        hide Takes, Settled, Word, Minus;
        RoundProgress(original, SettleIn(b, i, now, elapsed), i + 1, now, elapsed, throttle);
      } else {
        RoundProgress(original, b, i + 1, now, elapsed, throttle);
      }
    }
  }

  lemma ExceedsOpen(p: Share, now: nat, elapsed: nat, throttle: nat)
    requires Exceeds(p, now, elapsed, throttle)
    ensures Open(p, now)
  {
  }

  lemma {:induction false} RoundsProgress(original: seq<Share>, b: Books, now: nat, elapsed: nat, throttle: nat)
    requires AllProgressed(original, b.peers, now, elapsed) && throttle <= THROTTLE_SCALE
    requires Sum(b.peers, OpenCount(now)) <= b.remaining < WORD
    requires !b.adjusted ==> NoneExceeds(b.peers, |b.peers|, now, elapsed, throttle)
    ensures var e := Rounds(b, now, elapsed, throttle);
            e.Ended? ==>
              && AllProgressed(original, e.peers, now, elapsed) && e.throttle <= THROTTLE_SCALE
              && Sum(e.peers, OpenCount(now)) <= e.remaining
              && NoneExceeds(e.peers, |e.peers|, now, elapsed, e.throttle)
    decreases Sum(b.peers, OpenCount(now)), b.adjusted
  {
    hide Sum, AllProgressed, Exceeds, ThrottleFor, RoundFrom, Word;
    if b.remaining == 0 {
      NoneOpen(b.peers, now, elapsed, throttle);
    } else if b.adjusted && !DivisorIsZero(b) {
      var next := ThrottleFor(b.bandwidth, b.dataTotal);
      ThrottleCovers(b.bandwidth, b.dataTotal);
      RoundCounts(b.(adjusted := false), 0, now, elapsed, next);
      RoundProgress(original, b.(adjusted := false), 0, now, elapsed, next);
      RoundsProgress(original, WholeRound(b, now, elapsed, next), now, elapsed, next);
    }
  }

  /** With no peer remaining none is open. */
  lemma NoneOpen(peers: seq<Share>, now: nat, elapsed: nat, throttle: nat)
    requires Sum(peers, OpenCount(now)) == 0
    ensures NoneExceeds(peers, |peers|, now, elapsed, throttle)
    ensures forall i | 0 <= i < |peers| :: !Open(peers[i], now)
  {
    forall i | 0 <= i < |peers| ensures !Open(peers[i], now) { SumMember(peers, i, OpenCount(now)); }
  }

  // ----- nonlinear facts -----

  lemma Times(a: nat, b: nat, c: nat)
    requires a <= b
    ensures a * c <= b * c
  {
  }

  lemma TimesRight(a: nat, b: nat, c: nat)
    requires b <= c
    ensures a * b <= a * c
  {
  }

  lemma QuotientTimes(a: nat, b: nat)
    requires b > 0
    ensures a / b * b <= a
  {
  }

  lemma QuotientNext(a: nat, b: nat)
    requires b > 0
    ensures (a / b + 1) * b > a
  {
  }

  lemma SmallQuotient(a: nat, b: nat)
    requires b > 0 && a / b == 0
    ensures a < b
  {
  }

  lemma AtMost(a: nat, t: nat)
    requires a <= t * THROTTLE_SCALE
    ensures a / THROTTLE_SCALE <= t
  {
  }

  lemma ThrottleCovers(bandwidth: nat, dataTotal: nat)
    requires dataTotal < bandwidth || dataTotal > 0
    ensures var throttle := ThrottleFor(bandwidth, dataTotal);
            throttle <= THROTTLE_SCALE && throttle * dataTotal <= bandwidth * THROTTLE_SCALE
  {
    if dataTotal < bandwidth {
      Times(dataTotal, bandwidth, THROTTLE_SCALE);
    } else {
      QuotientTimes(Word(bandwidth * THROTTLE_SCALE), dataTotal);
      assert (THROTTLE_SCALE + 1) * dataTotal == THROTTLE_SCALE * dataTotal + dataTotal;
      Times(bandwidth, dataTotal, THROTTLE_SCALE);
      if ThrottleFor(bandwidth, dataTotal) > THROTTLE_SCALE {
        Times(THROTTLE_SCALE + 1, ThrottleFor(bandwidth, dataTotal), dataTotal);
      }
    }
  }

  // ----- what one peer is granted -----

  /** What the limit lets a peer be sent. */
  function Grant(p: Share): nat {
    p.packetThrottleLimit * p.outgoingDataTotal / THROTTLE_SCALE
  }

  /** Even the least limit there is grants the peer more than it takes. */
  predicate Overloaded(p: Share, elapsed: nat) {
    (Takes(p, elapsed) + 1) * THROTTLE_SCALE <= p.outgoingDataTotal
  }

  /** Held to that limit all the same. */
  predicate Raised(p: Share, elapsed: nat) {
    p.packetThrottleLimit == 1 && Overloaded(p, elapsed)
  }

  /** Its share does not fit 32 bits, so the comparison with what it takes sees only a part of it. */
  predicate Concealed(p: Share) {
    p.packetThrottleLimit * p.outgoingDataTotal >= WORD
  }

  /** Exactly when a peer that declared a limit is granted no more than it takes. */
  predicate Held(p: Share, elapsed: nat) {
    p.incomingBandwidth != 0 ==> (Grant(p) <= Takes(p, elapsed) <==> !Raised(p, elapsed) && !Concealed(p))
  }

  /** Settling a peer holds it within what it takes exactly if it does not have THROTTLE_SCALE times more data than
      that, a unit to spare; and no higher limit would, while the product fits 32 bits. */
  lemma SettledHeld(p: Share, now: nat, elapsed: nat)
    requires 0 < p.outgoingDataTotal < WORD
    ensures var p' := Settled(p, now, elapsed);
            && (Grant(p') <= Takes(p, elapsed) <==> !Overloaded(p, elapsed))
            && (Overloaded(p, elapsed) ==> Raised(p', elapsed)) && !Concealed(p')
            && (p'.packetThrottleLimit + 1) * p.outgoingDataTotal > Takes(p, elapsed) * THROTTLE_SCALE
  {
    var t, d := Takes(p, elapsed), p.outgoingDataTotal;
    QuotientNext(t * THROTTLE_SCALE, d);
    assert Takes(Settled(p, now, elapsed), elapsed) == t;
    hide Takes, Word;
    QuotientTimes(t * THROTTLE_SCALE, d);
    var limit := t * THROTTLE_SCALE / d;
    if limit == 0 {
      SmallQuotient(t * THROTTLE_SCALE, d);
      assert 2 * d > d;
    } else {
      AtMost(limit * d, t);
      Times(1, limit, d);
    }
  }

  /** A peer the last round leaves open is held to the throttle, and that within what it takes unless the
      comparison was misled. */
  lemma ClosedHeld(p: Share, now: nat, elapsed: nat, throttle: nat)
    requires Open(p, now) && !Exceeds(p, now, elapsed, throttle) && p.outgoingDataTotal < WORD
    ensures Held(Closing(p, now, throttle), elapsed)
  {
    var t, share := Takes(p, elapsed), throttle * p.outgoingDataTotal;
    assert Takes(Closing(p, now, throttle), elapsed) == t;
    if share >= WORD { assert share / THROTTLE_SCALE >= WORD / THROTTLE_SCALE > t; }
  }

  /** What a caller can tell before: a peer with less than 2^27 bytes of data, and not 32 times as much as it takes
      and a unit, is granted no more than it takes. */
  predicate Ordinary(p: Share, elapsed: nat) {
    p.outgoingDataTotal < WORD / THROTTLE_SCALE && !Overloaded(p, elapsed)
  }

  /** After the last round. */
  lemma PeerHeld(old': Share, p: Share, now: nat, elapsed: nat, throttle: nat)
    requires Progressed(old', p, now, elapsed) && Open(old', now) && !Exceeds(p, now, elapsed, throttle)
    requires old'.outgoingDataTotal < WORD && throttle <= THROTTLE_SCALE
    ensures var p' := Closing(p, now, throttle);
            && Held(p', elapsed) && p'.incomingBandwidth == old'.incomingBandwidth
            && (old'.incomingBandwidth != 0 && Ordinary(old', elapsed) ==> Grant(p') <= Takes(old', elapsed))
  {
    if p == old' {
      ClosedHeld(p, now, elapsed, throttle);
      Times(throttle, THROTTLE_SCALE, p.outgoingDataTotal);
      hide Exceeds, Word;
    } else {
      SettledHeld(old', now, elapsed);
      hide LimitOf, Word;
    }
  }

  /** For all peers, times and limits: unless the rounds end in a division by 0, a peer is granted no more
      than it takes exactly if it is not raised and its share fits 32 bits. */
  lemma PeersHeld(peers: seq<Share>, now: nat, elapsed: nat, outgoingBandwidth: nat)
    requires Holdable(peers)
    ensures var e := Shared(peers, now, elapsed, outgoingBandwidth);
            e.Ended? ==>
              && |e.peers| == |peers|
              && forall i | 0 <= i < |peers| && Open(peers[i], now) ::
                   && Held(e.peers[i], elapsed) && e.peers[i].incomingBandwidth == peers[i].incomingBandwidth
                   && (peers[i].incomingBandwidth != 0 && Ordinary(peers[i], elapsed) ==>
                       Grant(e.peers[i]) <= Takes(peers[i], elapsed))
  {
    var b, e := StartBooks(peers, elapsed, outgoingBandwidth), Shared(peers, now, elapsed, outgoingBandwidth);
    StartCounts(peers, now);
    if b.remaining == 0 {
      NoneOpen(peers, now, elapsed, 0);
    } else if e.Ended? {
      RoundsProgress(peers, b, now, elapsed, 0);
      var r := Rounds(b, now, elapsed, 0);
      if r.remaining == 0 { NoneOpen(r.peers, now, elapsed, r.throttle); }
      hide Rounds, Held, Ordinary, Grant, Takes, Sum, Limited;
      forall i | 0 <= i < |peers| && Open(peers[i], now)
        ensures Held(e.peers[i], elapsed) && e.peers[i].incomingBandwidth == peers[i].incomingBandwidth
        ensures peers[i].incomingBandwidth != 0 && Ordinary(peers[i], elapsed) ==>
                  Grant(e.peers[i]) <= Takes(peers[i], elapsed)
      {
        assert Progressed(peers[i], r.peers[i], now, elapsed);
        PeerHeld(peers[i], r.peers[i], now, elapsed, r.throttle);
      }
    }
  }

  lemma StartCounts(peers: seq<Share>, now: nat)
    requires Holdable(peers)
    ensures Sum(peers, OpenCount(now)) <= Sum(peers, ActiveCount()) < WORD
  {
    CountAtMost(peers);
    SumAtMost(peers, peers, OpenCount(now), ActiveCount());
  }

  /** The concrete case: a peer that takes one byte is granted two. */
  lemma RaisedAboveOwn()
    ensures var p := Share(true, 1, 0, 64, 32, 32, 0, 0);
            Exceeds(p, 5000, 1000, THROTTLE_SCALE) && Grant(Settled(p, 5000, 1000)) == 2 > Takes(p, 1000) == 1
  {
  }

  /** And a peer that takes 1000 bytes is granted 2^27, for its share at the full throttle is 0 in 32 bits. */
  lemma ConcealedAboveOwn()
    ensures var p := Share(true, 1000, 0, 0x800_0000, 32, 32, 0, 0);
            var e := Shared([p], 5000, 1000, 0);
            e == Ended([p], THROTTLE_SCALE, 1) && Grant(p) == 0x800_0000 > Takes(p, 1000) == 1000
  {
    var p := Share(true, 1000, 0, 0x800_0000, 32, 32, 0, 0);
    var b := Books([p], WORD - 1, 0x800_0000, 1, true);
    assert StartBooks([p], 1000, 0) == b by { SumOne(p, ActiveData()); SumOne(p, ActiveCount()); }
    assert !Exceeds(p, 5000, 1000, THROTTLE_SCALE);
    RoundStays(b.(adjusted := false), 0, 5000, 1000, THROTTLE_SCALE);
    assert CloseAll([p], 5000, THROTTLE_SCALE) == [p];
  }

  lemma SumOne(p: Share, f: Share -> nat)
    ensures Sum([p], f) == f(p)
  {
    assert [p][..0] == [];
  }

  lemma SumTwo(p: Share, q: Share, f: Share -> nat)
    ensures Sum([p, q], f) == f(p) + f(q)
  {
    assert [p, q][..1] == [p];
    SumOne(p, f);
  }

  // ----- the invariant of the rounds while the data fits 32 bits -----

  /** bandwidth and dataTotal cover the open peers, and what has gone from the bandwidth is what the
      settled peers take; data is never used up. */
  predicate Covered(b: Books, now: nat, elapsed: nat, total: nat) {
    && Sum(b.peers, OpenData(now)) <= b.dataTotal < WORD
    && Sum(b.peers, OpenCount(now)) <= b.remaining < WORD
    && b.bandwidth + Sum(b.peers, ClosedTakes(now, elapsed)) == total && b.bandwidth < WORD
    && !DivisorIsZero(b)
  }

  /** Within a round, the bandwidth left covers the open peers at the round's throttle. */
  predicate Affords(b: Books, now: nat, throttle: nat) {
    throttle <= THROTTLE_SCALE && throttle * Sum(b.peers, OpenData(now)) <= b.bandwidth * THROTTLE_SCALE
  }

  lemma RoundAffords(b: Books, now: nat, elapsed: nat, total: nat)
    requires Covered(b, now, elapsed, total)
    ensures Affords(b, now, ThrottleFor(b.bandwidth, b.dataTotal))
  {
    var throttle := ThrottleFor(b.bandwidth, b.dataTotal);
    ThrottleCovers(b.bandwidth, b.dataTotal);
    TimesRight(throttle, Sum(b.peers, OpenData(now)), b.dataTotal);
    hide ThrottleFor;
  }

  lemma ExceedsMeans(p: Share, now: nat, elapsed: nat, throttle: nat)
    requires Exceeds(p, now, elapsed, throttle) && throttle <= THROTTLE_SCALE
    ensures Takes(p, elapsed) * THROTTLE_SCALE < throttle * p.outgoingDataTotal
    ensures Takes(p, elapsed) < p.outgoingDataTotal
  {
    var t := Takes(p, elapsed);
    hide Takes;
    assert throttle * p.outgoingDataTotal >= (t + 1) * THROTTLE_SCALE;
    Times(throttle, THROTTLE_SCALE, p.outgoingDataTotal);
  }

  lemma Leftover(throttle: nat, rest: nat, d: nat, t: nat, bandwidth: nat)
    requires throttle * (rest + d) <= bandwidth * THROTTLE_SCALE && t * THROTTLE_SCALE < throttle * d
    ensures t <= bandwidth && throttle * rest <= (bandwidth - t) * THROTTLE_SCALE
  {
    assert throttle * (rest + d) == throttle * rest + throttle * d;
    assert throttle * rest >= 0;
  }

  lemma SettleSums(b: Books, i: nat, now: nat, elapsed: nat)
    requires i < |b.peers| && Open(b.peers[i], now) && b.peers[i].outgoingDataTotal > 0
    ensures var p, peers' := b.peers[i], SettleIn(b, i, now, elapsed).peers;
            && Sum(peers', OpenData(now)) == Sum(b.peers, OpenData(now)) - p.outgoingDataTotal
            && Sum(peers', OpenCount(now)) == Sum(b.peers, OpenCount(now)) - 1
            && Sum(peers', ClosedTakes(now, elapsed)) == Sum(b.peers, ClosedTakes(now, elapsed)) + Takes(p, elapsed)
  {
    var q := Settled(b.peers[i], now, elapsed);
    SumUpdate(b.peers, i, q, OpenData(now));
    SumUpdate(b.peers, i, q, OpenCount(now));
    SumUpdate(b.peers, i, q, ClosedTakes(now, elapsed));
    hide Sum, LimitOf, Minus;
    assert Takes(q, elapsed) == Takes(b.peers[i], elapsed);
  }

  /** Settling a peer takes no more than there is of bandwidth and data, leaves data, and keeps what is left
      covering the open peers. */
  lemma SettleCovered(b: Books, i: nat, now: nat, elapsed: nat, throttle: nat, total: nat)
    requires Covered(b, now, elapsed, total) && Affords(b, now, throttle)
    requires i < |b.peers| && Exceeds(b.peers[i], now, elapsed, throttle)
    ensures b.peers[i].outgoingDataTotal > 0
    ensures var t, r := Takes(b.peers[i], elapsed), SettleIn(b, i, now, elapsed);
            && r.bandwidth == b.bandwidth - t && r.dataTotal == b.dataTotal - t > 0 && r.remaining == b.remaining - 1
            && Covered(r, now, elapsed, total) && Affords(r, now, throttle)
  {
    ExceedsMeans(b.peers[i], now, elapsed, throttle);
    SettleSums(b, i, now, elapsed);
    hide Takes, Settled, Exceeds, Sum;
    Leftover(throttle, Sum(b.peers, OpenData(now)) - b.peers[i].outgoingDataTotal, b.peers[i].outgoingDataTotal,
             Takes(b.peers[i], elapsed), b.bandwidth);
  }

  lemma {:induction false} RoundCovered(b: Books, i: nat, now: nat, elapsed: nat, throttle: nat, total: nat)
    requires i <= |b.peers| && Covered(b, now, elapsed, total) && Affords(b, now, throttle)
    ensures var r := RoundFrom(b, i, now, elapsed, throttle);
            Covered(r, now, elapsed, total) && Affords(r, now, throttle)
    decreases |b.peers| - i
  {
    hide Covered, Affords, Exceeds;
    if i < |b.peers| {
      if Exceeds(b.peers[i], now, elapsed, throttle) {
        SettleCovered(b, i, now, elapsed, throttle, total);
        hide Takes, Settled, Minus;
        RoundCovered(SettleIn(b, i, now, elapsed), i + 1, now, elapsed, throttle, total);
      } else {
        RoundCovered(b, i + 1, now, elapsed, throttle, total);
      }
    }
  }

  /** What the open peers are granted at the throttle and what the settled ones take. */
  predicate Afforded(peers: seq<Share>, now: nat, elapsed: nat, throttle: nat, total: nat) {
    throttle * Sum(peers, OpenData(now)) + Sum(peers, ClosedTakes(now, elapsed)) * THROTTLE_SCALE <=
    total * THROTTLE_SCALE
  }

  lemma {:induction false} RoundsCovered(b: Books, now: nat, elapsed: nat, throttle: nat, total: nat)
    requires Covered(b, now, elapsed, total) && Affords(b, now, throttle)
    ensures var e := Rounds(b, now, elapsed, throttle);
            e.Ended? && Afforded(e.peers, now, elapsed, e.throttle, total)
    decreases Sum(b.peers, OpenCount(now)), b.adjusted
  {
    if b.remaining > 0 && b.adjusted {
      var next := ThrottleFor(b.bandwidth, b.dataTotal);
      RoundAffords(b, now, elapsed, total);
      RoundCounts(b.(adjusted := false), 0, now, elapsed, next);
      hide ThrottleFor, Sum, RoundFrom;
      RoundCovered(b.(adjusted := false), 0, now, elapsed, next, total);
      hide Covered, Affords, Afforded;
      RoundsCovered(WholeRound(b, now, elapsed, next), now, elapsed, next, total);
    }
  }

  // ----- the throttle of the peers left open -----

  /** A throttle is the largest there is whose share of the data is within the bandwidth, unless the product of the
      bandwidth is cut to 32 bits. */
  predicate Largest(throttle: nat, bandwidth: nat, data: nat) {
    && throttle <= THROTTLE_SCALE && throttle * data <= bandwidth * THROTTLE_SCALE
    && (throttle == THROTTLE_SCALE || bandwidth * THROTTLE_SCALE >= WORD
        || (throttle + 1) * data > bandwidth * THROTTLE_SCALE)
  }

  lemma ThrottleIsLargest(bandwidth: nat, dataTotal: nat)
    requires dataTotal < bandwidth || dataTotal > 0
    ensures Largest(ThrottleFor(bandwidth, dataTotal), bandwidth, dataTotal)
  {
    ThrottleCovers(bandwidth, dataTotal);
    if !(dataTotal < bandwidth) { QuotientNext(bandwidth * THROTTLE_SCALE, dataTotal); }
  }

  /** What is left of the data: a settled peer takes off what it takes, not what it has. */
  predicate DataLeft(b: Books, now: nat, elapsed: nat, data: nat) {
    b.dataTotal + Sum(b.peers, ClosedTakes(now, elapsed)) == data
  }

  lemma {:induction false} RoundData(b: Books, i: nat, now: nat, elapsed: nat, throttle: nat, total: nat, data: nat)
    requires i <= |b.peers| && Covered(b, now, elapsed, total) && Affords(b, now, throttle)
    requires DataLeft(b, now, elapsed, data)
    ensures var r := RoundFrom(b, i, now, elapsed, throttle);
            && DataLeft(r, now, elapsed, data) && (b.adjusted ==> r.adjusted) && (!r.adjusted ==> r == b)
    decreases |b.peers| - i
  {
    hide Covered, Affords, Exceeds, Takes, Settled, Sum;
    if i < |b.peers| {
      if Exceeds(b.peers[i], now, elapsed, throttle) {
        SettleData(b, i, now, elapsed, throttle, total, data);
        hide DataLeft, SettleIn;
        RoundData(SettleIn(b, i, now, elapsed), i + 1, now, elapsed, throttle, total, data);
      } else {
        hide DataLeft;
        RoundData(b, i + 1, now, elapsed, throttle, total, data);
      }
    }
  }

  lemma SettleData(b: Books, i: nat, now: nat, elapsed: nat, throttle: nat, total: nat, data: nat)
    requires Covered(b, now, elapsed, total) && Affords(b, now, throttle) && DataLeft(b, now, elapsed, data)
    requires i < |b.peers| && Exceeds(b.peers[i], now, elapsed, throttle)
    ensures b.peers[i].outgoingDataTotal > 0 && Open(b.peers[i], now)
    ensures var r := SettleIn(b, i, now, elapsed);
            && Covered(r, now, elapsed, total) && Affords(r, now, throttle) && DataLeft(r, now, elapsed, data)
            && r.adjusted && |r.peers| == |b.peers|
  {
    SettleCovered(b, i, now, elapsed, throttle, total);
    SettleSums(b, i, now, elapsed);
    hide Covered, Affords, Takes, Settled, Minus, Sum;
  }

  lemma {:induction false} RoundsLargest(b: Books, now: nat, elapsed: nat, throttle: nat, total: nat, data: nat)
    requires Covered(b, now, elapsed, total) && Affords(b, now, throttle) && DataLeft(b, now, elapsed, data)
    requires !b.adjusted ==> Largest(throttle, b.bandwidth, b.dataTotal)
    ensures var e := Rounds(b, now, elapsed, throttle);
            e.Ended? && e.remaining > 0 ==>
              var t := Sum(e.peers, ClosedTakes(now, elapsed));
              t <= total && t <= data && Largest(e.throttle, total - t, data - t)
    decreases Sum(b.peers, OpenCount(now)), b.adjusted
  {
    hide ThrottleFor, Sum, RoundFrom, Largest, Takes, Word;
    if b.remaining > 0 && b.adjusted {
      var next := ThrottleFor(b.bandwidth, b.dataTotal);
      RoundAffords(b, now, elapsed, total);
      ThrottleIsLargest(b.bandwidth, b.dataTotal);
      RoundCounts(b.(adjusted := false), 0, now, elapsed, next);
      RoundCovered(b.(adjusted := false), 0, now, elapsed, next, total);
      RoundData(b.(adjusted := false), 0, now, elapsed, next, total, data);
      hide Covered, Affords, DataLeft;
      RoundsLargest(WholeRound(b, now, elapsed, next), now, elapsed, next, total, data);
    }
  }

  /** The peers left open get the largest throttle for which the bandwidth the settled peers leave covers the data
      they leave.  That is not the data of the open peers alone. */
  lemma OpenThrottle(peers: seq<Share>, now: nat, elapsed: nat, outgoingBandwidth: nat)
    requires Holdable(peers) && Sum(peers, ActiveData()) < WORD && AllOpen(peers, now)
    ensures var e := Shared(peers, now, elapsed, outgoingBandwidth);
            e.Ended? && e.remaining > 0 ==>
              var t, data := Sum(e.peers, ClosedTakes(now, elapsed)), Sum(peers, ActiveData());
              && t <= HostBandwidth(outgoingBandwidth, elapsed) && t <= data
              && Largest(e.throttle, HostBandwidth(outgoingBandwidth, elapsed) - t, data - t)
              && forall i | 0 <= i < |e.peers| && Open(e.peers[i], now) :: e.peers[i].packetThrottleLimit == e.throttle
  {
    hide HostBandwidth, Largest, Takes, Word, Sum, Rounds, Settled, Exceeds;
    var b, e := StartBooks(peers, elapsed, outgoingBandwidth), Shared(peers, now, elapsed, outgoingBandwidth);
    if e.Ended? && e.remaining > 0 {
      StartCovered(peers, now, elapsed, outgoingBandwidth);
      StartCounts(peers, now);
      NoClosed(peers, now, elapsed);
      NotZero(b, now, elapsed);
      RoundsLargest(b, now, elapsed, 0, b.bandwidth, Sum(peers, ActiveData()));
      ClosingTakes(Rounds(b, now, elapsed, 0).peers, now, elapsed, Rounds(b, now, elapsed, 0).throttle);
    }
  }

  lemma NotZero(b: Books, now: nat, elapsed: nat)
    requires b.remaining > 0 && b.adjusted && Rounds(b, now, elapsed, 0).Ended?
    ensures !DivisorIsZero(b)
  {
    hide Sum, ThrottleFor, WholeRound;
  }

  lemma ClosingTakes(peers: seq<Share>, now: nat, elapsed: nat, throttle: nat)
    ensures Sum(CloseAll(peers, now, throttle), ClosedTakes(now, elapsed)) == Sum(peers, ClosedTakes(now, elapsed))
  {
    hide Sum;
    SumAtMost(CloseAll(peers, now, throttle), peers, ClosedTakes(now, elapsed), ClosedTakes(now, elapsed));
    SumAtMost(peers, CloseAll(peers, now, throttle), ClosedTakes(now, elapsed), ClosedTakes(now, elapsed));
  }

  /** Two peers with 100 bytes each on a host of 100 bytes a second: once the one that takes 10 has been settled, 90
      bytes would be a throttle of 28 for the other, which gets 15 because 90 bytes of the settled one's still count. */
  lemma SettledDataCounts()
    ensures var p, q := Share(true, 10, 0, 100, 32, 32, 0, 0), Share(true, 0, 0, 100, 32, 32, 0, 0);
            var e := Shared([p, q], 5000, 1000, 100);
            && e == Ended([Settled(p, 5000, 1000), Limited(q, 15)], 15, 1) && Takes(p, 1000) == 10
            && Largest(28, 90, 100) && !Largest(15, 90, 100) && Largest(15, 90, 190)
  {
    var p, q := Share(true, 10, 0, 100, 32, 32, 0, 0), Share(true, 0, 0, 100, 32, 32, 0, 0);
    SumTwo(p, q, ActiveData());
    SumTwo(p, q, ActiveCount());
    var p' := Settled(p, 5000, 1000);
    var b, b1 := Books([p, q], 100, 200, 2, true), Books([p', q], 90, 190, 1, true);
    assert StartBooks([p, q], 1000, 100) == b;
    assert WholeRound(b, 5000, 1000, 16) == b1 by {
      assert [p, q][0 := p'] == [p', q];
      assert SettleIn(b.(adjusted := false), 0, 5000, 1000) == b1;
      RoundStays(b1, 1, 5000, 1000, 16);
    }
    assert WholeRound(b1, 5000, 1000, 15) == b1.(adjusted := false) by {
      RoundStays(b1.(adjusted := false), 0, 5000, 1000, 15);
    }
    assert Rounds(b1, 5000, 1000, 16) == Ended([p', q], 15, 1) by { hide Sum, RoundFrom; }
    assert Rounds(b, 5000, 1000, 0) == Ended([p', q], 15, 1) by { hide Sum, RoundFrom; }
    assert CloseAll([p', q], 5000, 15) == [p', Limited(q, 15)];
    hide Sum, RoundFrom, Rounds;
  }

  // ----- what all are granted together -----

  function Granted(elapsed: nat): Share -> nat {
    (p: Share) => if p.active && !(p.incomingBandwidth != 0 && Raised(p, elapsed)) then Grant(p) else 0
  }

  function OpenShare(now: nat, throttle: nat): Share -> nat {
    (p: Share) => if Open(p, now) then throttle * p.outgoingDataTotal / THROTTLE_SCALE else 0
  }

  /** No peer has been settled at this very time before. */
  predicate AllOpen(peers: seq<Share>, now: nat) {
    forall i | 0 <= i < |peers| && peers[i].active :: Open(peers[i], now)
  }

  lemma {:induction false} SharesCovered(peers: seq<Share>, now: nat, throttle: nat)
    ensures Sum(peers, OpenShare(now, throttle)) * THROTTLE_SCALE <= throttle * Sum(peers, OpenData(now))
    decreases |peers|
  {
    if peers != [] {
      var n, p := |peers| - 1, peers[|peers| - 1];
      SharesCovered(peers[..n], now, throttle);
      QuotientTimes(throttle * p.outgoingDataTotal, THROTTLE_SCALE);
      assert throttle * (Sum(peers[..n], OpenData(now)) + p.outgoingDataTotal) ==
             throttle * Sum(peers[..n], OpenData(now)) + throttle * p.outgoingDataTotal;
    }
  }

  function Spent(now: nat, throttle: nat, elapsed: nat): Share -> nat {
    (p: Share) =>
      if Open(p, now) then throttle * p.outgoingDataTotal / THROTTLE_SCALE
      else if p.active then Takes(p, elapsed) else 0
  }

  lemma {:induction false} SumBoth(peers: seq<Share>, now: nat, throttle: nat, elapsed: nat)
    ensures Sum(peers, Spent(now, throttle, elapsed)) ==
            Sum(peers, OpenShare(now, throttle)) + Sum(peers, ClosedTakes(now, elapsed))
    decreases |peers|
  {
    if peers != [] { SumBoth(peers[..|peers| - 1], now, throttle, elapsed); }
  }

  /** Together they are granted no more than the bandwidth there was. */
  lemma GrantsWithin(old': seq<Share>, peers: seq<Share>, closed: seq<Share>, now: nat, elapsed: nat, throttle: nat,
                     total: nat)
    requires Holdable(old') && AllOpen(old', now) && AllProgressed(old', peers, now, elapsed)
    requires Afforded(peers, now, elapsed, throttle, total)
    requires |closed| == |peers| && forall i | 0 <= i < |peers| :: closed[i] == Closing(peers[i], now, throttle)
    ensures Sum(closed, Granted(elapsed)) <= total
  {
    forall i | 0 <= i < |peers| ensures Granted(elapsed)(closed[i]) <= Spent(now, throttle, elapsed)(peers[i]) {
      assert Progressed(old'[i], peers[i], now, elapsed);
      if peers[i] != old'[i] { SettledHeld(old'[i], now, elapsed); }
      hide LimitOf;
    }
    hide Takes, Progressed, Closing, Exceeds, Settled, Raised, Overloaded, Grant;
    SumAtMost(closed, peers, Granted(elapsed), Spent(now, throttle, elapsed));
    SumBoth(peers, now, throttle, elapsed);
    SharesCovered(peers, now, throttle);
  }

  lemma NoClosed(peers: seq<Share>, now: nat, elapsed: nat)
    requires AllOpen(peers, now)
    ensures Sum(peers, ClosedTakes(now, elapsed)) == 0
  {
    SumAtMost(peers, peers, ClosedTakes(now, elapsed), Nothing());
    SumNothing(peers);
  }

  lemma StartCovered(peers: seq<Share>, now: nat, elapsed: nat, outgoingBandwidth: nat)
    requires Holdable(peers) && Sum(peers, ActiveData()) < WORD
    ensures var b := StartBooks(peers, elapsed, outgoingBandwidth);
            && Affords(b, now, 0)
            && (!DivisorIsZero(b) ==>
                Covered(b, now, elapsed, b.bandwidth + Sum(peers, ClosedTakes(now, elapsed))))
  {
    hide HostBandwidth;
    StartCounts(peers, now);
    SumAtMost(peers, peers, OpenData(now), ActiveData());
    hide Sum;
  }

  /** Peers are connected, what 32 bits hold of their data is 0, and so is the bandwidth. */
  predicate NothingToShare(peers: seq<Share>, elapsed: nat, outgoingBandwidth: nat) {
    && Sum(peers, ActiveCount()) > 0 && Word(Sum(peers, ActiveData())) == 0
    && outgoingBandwidth != 0 && Word(outgoingBandwidth * elapsed) < 1000
  }

  /** The first division, whatever the data. */
  lemma FirstDivisor(peers: seq<Share>, elapsed: nat, outgoingBandwidth: nat)
    requires Holdable(peers)
    ensures var b := StartBooks(peers, elapsed, outgoingBandwidth);
            b.remaining > 0 && DivisorIsZero(b) <==> NothingToShare(peers, elapsed, outgoingBandwidth)
  {
    StartCounts(peers, 0);
    hide Sum, Word;
  }

  /** While the peers' data fits 32 bits together, there is a division by 0 exactly on a host with nothing to
      share, and any other grants no more than it may send, leaving out the peers raised to the least limit. */
  lemma SharedWithin(peers: seq<Share>, now: nat, elapsed: nat, outgoingBandwidth: nat)
    requires Holdable(peers) && Sum(peers, ActiveData()) < WORD
    ensures var e := Shared(peers, now, elapsed, outgoingBandwidth);
            && (e.DivisionByZero? <==> NothingToShare(peers, elapsed, outgoingBandwidth))
            && (e.Ended? && AllOpen(peers, now) ==>
                Sum(e.peers, Granted(elapsed)) <= HostBandwidth(outgoingBandwidth, elapsed))
  {
    var b := StartBooks(peers, elapsed, outgoingBandwidth);
    FirstDivisor(peers, elapsed, outgoingBandwidth);
    StartCovered(peers, now, elapsed, outgoingBandwidth);
    StartCounts(peers, now);
    if b.remaining == 0 {
      NoneGranted(peers, elapsed);
    } else if DivisorIsZero(b) {
      assert Rounds(b, now, elapsed, 0) == DivisionByZero;
    } else {
      RoundsCovered(b, now, elapsed, 0, b.bandwidth + Sum(peers, ClosedTakes(now, elapsed)));
      if AllOpen(peers, now) { AllGrants(peers, now, elapsed, outgoingBandwidth); }
    }
  }

  lemma AllGrants(peers: seq<Share>, now: nat, elapsed: nat, outgoingBandwidth: nat)
    requires Holdable(peers) && AllOpen(peers, now) && Shared(peers, now, elapsed, outgoingBandwidth).Ended?
    requires var b := StartBooks(peers, elapsed, outgoingBandwidth);
             var r := Rounds(b, now, elapsed, 0);
             && b.remaining > 0 && r.Ended?
             && Afforded(r.peers, now, elapsed, r.throttle, b.bandwidth + Sum(peers, ClosedTakes(now, elapsed)))
    ensures var e := Shared(peers, now, elapsed, outgoingBandwidth);
            Sum(e.peers, Granted(elapsed)) <= HostBandwidth(outgoingBandwidth, elapsed)
  {
    var b := StartBooks(peers, elapsed, outgoingBandwidth);
    var r, e := Rounds(b, now, elapsed, 0), Shared(peers, now, elapsed, outgoingBandwidth);
    StartCounts(peers, now);
    RoundsProgress(peers, b, now, elapsed, 0);
    NoClosed(peers, now, elapsed);
    if r.remaining == 0 { NoneOpen(r.peers, now, elapsed, r.throttle); }
    hide Sum, Rounds, AllProgressed, Afforded, HostBandwidth, Word;
    GrantsWithin(peers, r.peers, e.peers, now, elapsed, r.throttle, b.bandwidth);
  }

  lemma NoneGranted(peers: seq<Share>, elapsed: nat)
    requires Sum(peers, ActiveCount()) == 0
    ensures Sum(peers, Granted(elapsed)) == 0
  {
    forall i | 0 <= i < |peers| ensures !peers[i].active { SumMember(peers, i, ActiveCount()); }
    SumAtMost(peers, peers, Granted(elapsed), Nothing());
    SumNothing(peers);
  }

  /** A product of 1000 or more that fits 32 bits leaves bandwidth, so no division is by 0. */
  lemma NeverZero(peers: seq<Share>, now: nat, elapsed: nat, outgoingBandwidth: nat)
    requires Holdable(peers) && Sum(peers, ActiveData()) < WORD
    requires elapsed >= 1000 && outgoingBandwidth * elapsed < WORD
    ensures Shared(peers, now, elapsed, outgoingBandwidth).Ended?
  {
    SharedWithin(peers, now, elapsed, outgoingBandwidth);
    if outgoingBandwidth > 0 { Times(1, outgoingBandwidth, elapsed); }
    hide Shared;
  }

  /** The concrete case: a host of 4294968 bytes a second with one peer and nothing to send. */
  lemma DividesByZero()
    ensures Shared([Share(true, 0, 0, 0, 32, 32, 0, 0)], 5000, 1000, 4294968) == DivisionByZero
  {
    var p := Share(true, 0, 0, 0, 32, 32, 0, 0);
    SumOne(p, ActiveData());
    SumOne(p, ActiveCount());
    assert 4294968 * 1000 == WORD + 704;
    SharedWithin([p], 5000, 1000, 4294968);
    hide Shared;
  }

  /** With more data than 32 bits hold, a later division can be by 0: the sum is found to be 5, the first peer
      to exceed its 5 bytes, and then nothing is left. */
  lemma LaterDivisionByZero()
    ensures var p, q := Share(true, 5, 0, 0x8010_0000, 32, 32, 0, 0), Share(true, 0, 0, 0x7FF0_0005, 32, 32, 0, 0);
            && Sum([p, q], ActiveData()) == WORD + 5 && !NothingToShare([p, q], 1000, 5)
            && Shared([p, q], 5000, 1000, 5) == DivisionByZero
  {
    var p, q := Share(true, 5, 0, 0x8010_0000, 32, 32, 0, 0), Share(true, 0, 0, 0x7FF0_0005, 32, 32, 0, 0);
    SumTwo(p, q, ActiveData());
    SumTwo(p, q, ActiveCount());
    var b := Books([p, q], 5, 5, 2, true);
    assert StartBooks([p, q], 1000, 5) == b;
    assert ThrottleFor(5, 5) == THROTTLE_SCALE;
    var p' := Settled(p, 5000, 1000);
    var b' := Books([p', q], 0, 0, 1, true);
    assert WholeRound(b, 5000, 1000, THROTTLE_SCALE) == b' by {
      assert Exceeds(p, 5000, 1000, THROTTLE_SCALE);
      assert [p, q][0 := p'] == [p', q];
      RoundStays(b', 1, 5000, 1000, THROTTLE_SCALE);
    }
    hide RoundFrom, Settled;
    assert Rounds(b', 5000, 1000, THROTTLE_SCALE) == DivisionByZero;
    assert Rounds(b, 5000, 1000, 0) == DivisionByZero;
  }

  /** Nor does the host's bandwidth bound the grants then: two peers are granted all they have. */
  lemma SumWraps()
    ensures var p := Share(true, 0, 0, 0x8000_0001, 32, 32, 0, 0);
            var e := Shared([p, p], 5000, 1000, 5);
            e.Ended? && Sum(e.peers, Granted(1000)) == WORD + 2 > HostBandwidth(5, 1000) == 5
  {
    var p := Share(true, 0, 0, 0x8000_0001, 32, 32, 0, 0);
    SumTwo(p, p, ActiveData());
    SumTwo(p, p, ActiveCount());
    SumTwo(p, p, Granted(1000));
    var b := Books([p, p], 5, 2, 2, true);
    assert StartBooks([p, p], 1000, 5) == b;
    RoundStays(b.(adjusted := false), 0, 5000, 1000, THROTTLE_SCALE);
    assert CloseAll([p, p], 5000, THROTTLE_SCALE) == [p, p];
    hide Sum, RoundFrom;
  }

  lemma RoundLess(b: Books, now: nat, elapsed: nat, throttle: nat)
    ensures var r := WholeRound(b, now, elapsed, throttle);
            && Sum(r.peers, OpenCount(now)) <= Sum(b.peers, OpenCount(now))
            && (r.adjusted ==> Sum(r.peers, OpenCount(now)) < Sum(b.peers, OpenCount(now)))
  {
    RoundCounts(b.(adjusted := false), 0, now, elapsed, throttle);
  }

  // ----- the incoming side: what the peers are told they may send -----

  predicate Untold(p: Share, now: nat) {
    p.active && p.incomingBandwidthThrottleEpoch != now
  }

  /** A peer that would send less than an even part of what is left is told to go on. */
  predicate Modest(p: Share, now: nat, limit: nat) {
    Untold(p, now) && (p.outgoingBandwidth == 0 || p.outgoingBandwidth < limit)
  }

  function Told(p: Share, now: nat): Share {
    p.(incomingBandwidthThrottleEpoch := now)
  }

  function UntoldCount(now: nat): Share -> nat {
    (p: Share) => if Untold(p, now) then 1 else 0
  }

  function ToldBandwidth(now: nat): Share -> nat {
    (p: Share) => if p.active && !Untold(p, now) then p.outgoingBandwidth else 0
  }

  /** What is left is an even part at least, for each peer not told yet, and the rest has been told. */
  predicate Parted(peers: seq<Share>, now: nat, total: nat, bandwidth: nat, remaining: nat, limit: nat) {
    && Sum(peers, UntoldCount(now)) <= remaining && limit * remaining <= bandwidth
    && bandwidth + Sum(peers, ToldBandwidth(now)) == total
  }

  lemma TellParted(peers: seq<Share>, i: nat, now: nat, total: nat, bandwidth: nat, remaining: nat, limit: nat)
    requires Parted(peers, now, total, bandwidth, remaining, limit) && i < |peers| && Modest(peers[i], now, limit)
    ensures remaining > 0 && peers[i].outgoingBandwidth <= bandwidth
    ensures var peers' := peers[i := Told(peers[i], now)];
            && Parted(peers', now, total, bandwidth - peers[i].outgoingBandwidth, remaining - 1, limit)
            && Sum(peers', UntoldCount(now)) == Sum(peers, UntoldCount(now)) - 1
  {
    SumUpdate(peers, i, Told(peers[i], now), UntoldCount(now));
    SumUpdate(peers, i, Told(peers[i], now), ToldBandwidth(now));
    assert remaining > 0;
    assert limit * remaining == limit * (remaining - 1) + limit;
  }

  /** The next even part is no smaller. */
  lemma PartGrows(bandwidth: nat, remaining: nat, limit: nat)
    requires remaining > 0 && limit * remaining <= bandwidth
    ensures limit <= bandwidth / remaining && bandwidth / remaining * remaining <= bandwidth
    ensures (bandwidth / remaining + 1) * remaining > bandwidth
  {
    var part := bandwidth / remaining;
    assert bandwidth < (part + 1) * remaining;
    if part < limit { Times(part + 1, limit, remaining); }
  }

  /** The value a peer is sent: its own if it was told to go on, the even part otherwise. */
  function ValueFor(p: Share, now: nat, limit: nat): nat {
    if p.incomingBandwidthThrottleEpoch == now then p.outgoingBandwidth else limit
  }

  predicate Tells(old': Share, p: Share, now: nat, limit: nat) {
    p == old' || (Modest(old', now, limit) && p == Told(old', now))
  }

  function Values(now: nat, limit: nat): Share -> nat {
    (p: Share) => if p.active then ValueFor(p, now, limit) else 0
  }

  lemma {:induction false} ValuesSum(peers: seq<Share>, now: nat, limit: nat)
    ensures Sum(peers, Values(now, limit)) == Sum(peers, ToldBandwidth(now)) + limit * Sum(peers, UntoldCount(now))
    decreases |peers|
  {
    if peers != [] {
      var n, p := |peers| - 1, peers[|peers| - 1];
      ValuesSum(peers[..n], now, limit);
      assert limit * (Sum(peers[..n], UntoldCount(now)) + UntoldCount(now)(p)) ==
             limit * Sum(peers[..n], UntoldCount(now)) + limit * UntoldCount(now)(p);
    }
  }

  lemma ValuesWithin(peers: seq<Share>, now: nat, total: nat, bandwidth: nat, remaining: nat, limit: nat)
    requires Parted(peers, now, total, bandwidth, remaining, limit)
    ensures Sum(peers, Values(now, limit)) <= total
  {
    ValuesSum(peers, now, limit);
    TimesRight(limit, Sum(peers, UntoldCount(now)), remaining);
  }

  lemma ValuesOver(peers: seq<Share>, now: nat, total: nat, bandwidth: nat, remaining: nat, limit: nat)
    requires Parted(peers, now, total, bandwidth, remaining, limit) && Sum(peers, UntoldCount(now)) == remaining
    requires bandwidth < (limit + 1) * remaining
    ensures Sum(peers, Values(now, limit + 1)) > total
  {
    ValuesSum(peers, now, limit + 1);
  }

  predicate AllTold(original: seq<Share>, peers: seq<Share>, now: nat, limit: nat) {
    |peers| == |original| && forall i | 0 <= i < |peers| :: Tells(original[i], peers[i], now, limit)
  }

  predicate NoneModest(peers: seq<Share>, n: nat, now: nat, limit: nat) {
    n <= |peers| && forall i | 0 <= i < n :: !Modest(peers[i], now, limit)
  }

  predicate AllUntold(peers: seq<Share>, now: nat) {
    forall i | 0 <= i < |peers| && peers[i].active :: Untold(peers[i], now)
  }

  /** 0 stands for no limit. */
  function EvenPart(outgoingBandwidth: nat, limit: nat): nat {
    if outgoingBandwidth < limit then outgoingBandwidth else if outgoingBandwidth == 0 then 0 else limit
  }

  lemma TellTold(original: seq<Share>, peers: seq<Share>, i: nat, now: nat, limit: nat)
    requires AllTold(original, peers, now, limit) && i < |peers| && Modest(peers[i], now, limit)
    ensures AllTold(original, peers[i := Told(peers[i], now)], now, limit)
  {
    assert Tells(original[i], peers[i], now, limit);
  }

  /** The limit grows from round to round, so nobody told to go on is above it later. */
  lemma NextPart(original: seq<Share>, peers: seq<Share>, now: nat, total: nat, bandwidth: nat, remaining: nat,
                 limit: nat)
    requires Parted(peers, now, total, bandwidth, remaining, limit) && AllTold(original, peers, now, limit)
             && remaining > 0
    ensures Parted(peers, now, total, bandwidth, remaining, bandwidth / remaining)
    ensures AllTold(original, peers, now, bandwidth / remaining)
    ensures (bandwidth / remaining + 1) * remaining > bandwidth
  {
    PartGrows(bandwidth, remaining, limit);
    var part := bandwidth / remaining;
    forall i | 0 <= i < |peers| ensures Tells(original[i], peers[i], now, part) {
      assert Tells(original[i], peers[i], now, limit);
    }
  }

  lemma StartParted(peers: seq<Share>, now: nat, incomingBandwidth: nat)
    ensures Parted(peers, now, incomingBandwidth + Sum(peers, ToldBandwidth(now)), incomingBandwidth,
                   Sum(peers, ActiveCount()), 0)
    ensures AllTold(peers, peers, now, 0)
    ensures AllUntold(peers, now) ==> Sum(peers, ToldBandwidth(now)) == 0
    ensures AllUntold(peers, now) ==> Sum(peers, UntoldCount(now)) == Sum(peers, ActiveCount())
  {
    hide Sum;
    SumAtMost(peers, peers, UntoldCount(now), ActiveCount());
    if AllUntold(peers, now) {
      SumAtMost(peers, peers, ActiveCount(), UntoldCount(now));
      SumAtMost(peers, peers, ToldBandwidth(now), Nothing());
      SumNothing(peers);
    }
  }

  lemma NoneUntold(peers: seq<Share>, now: nat, total: nat, bandwidth: nat, limit: nat)
    requires Parted(peers, now, total, bandwidth, 0, limit)
    ensures NoneModest(peers, |peers|, now, limit) && forall i | 0 <= i < |peers| :: !Untold(peers[i], now)
  {
    forall i | 0 <= i < |peers| ensures !Untold(peers[i], now) { SumMember(peers, i, UntoldCount(now)); }
  }

  /** At the end everybody gets an even part or what they would send anyway, whichever is less. */
  lemma AllEven(original: seq<Share>, peers: seq<Share>, now: nat, limit: nat)
    requires AllTold(original, peers, now, limit) && NoneModest(peers, |peers|, now, limit)
    ensures |peers| == |original|
    ensures forall i | 0 <= i < |peers| && Untold(original[i], now) ::
              ValueFor(peers[i], now, limit) == EvenPart(original[i].outgoingBandwidth, limit)
  {
    forall i | 0 <= i < |peers| && Untold(original[i], now)
      ensures ValueFor(peers[i], now, limit) == EvenPart(original[i].outgoingBandwidth, limit)
    {
      assert Tells(original[i], peers[i], now, limit) && !Modest(peers[i], now, limit);
    }
  }

  // ----- the loops -----

  /** The fields of ENetHost and ENetPeer that enet_host_bandwidth_throttle works on. */
  class Allocator {
    var peers: seq<Share>

    /** One round of the outgoing loop. */
    method Round(now: nat, elapsed: nat, throttle: nat, bandwidth: nat, dataTotal: nat, peersRemaining: nat)
      returns (needsAdjustment: bool, bandwidth': nat, dataTotal': nat, peersRemaining': nat)
      modifies this`peers
      ensures Books(peers, bandwidth', dataTotal', peersRemaining', needsAdjustment) ==
              WholeRound(Books(old(peers), bandwidth, dataTotal, peersRemaining, true), now, elapsed, throttle)
    {
      needsAdjustment, bandwidth', dataTotal', peersRemaining' := false, bandwidth, dataTotal, peersRemaining;
      ghost var start := Books(peers, bandwidth, dataTotal, peersRemaining, false);
      hide Exceeds, Settled, Takes, Minus;
      for i := 0 to |peers|
        invariant |peers| == |start.peers|
        invariant RoundFrom(Books(peers, bandwidth', dataTotal', peersRemaining', needsAdjustment), i, now, elapsed,
                            throttle) == RoundFrom(start, 0, now, elapsed, throttle)
      {
        if Exceeds(peers[i], now, elapsed, throttle) {
          ExceedsData(peers[i], now, elapsed, throttle);
          var peerBandwidth := Takes(peers[i], elapsed);
          peers := peers[i := Settled(peers[i], now, elapsed)];
          needsAdjustment, peersRemaining' := true, Minus(peersRemaining', 1);
          bandwidth', dataTotal' := Minus(bandwidth', peerBandwidth), Minus(dataTotal', peerBandwidth);
        }
      }
    }

    /** The outgoing half of enet_host_bandwidth_throttle.  The result tells whether it ends at all. */
    method ShareOutgoing(now: nat, elapsed: nat, outgoingBandwidth: nat) returns (ended: bool)
      requires Holdable(peers)
      modifies this`peers
      ensures var e := Shared(old(peers), now, elapsed, outgoingBandwidth);
              ended == e.Ended? && (ended ==> peers == e.peers)
    {
      var peersTotal: nat, dataTotal: nat := CountPeers();
      if peersTotal == 0 { return true; }
      var peersRemaining: nat, needsAdjustment, throttle: nat := peersTotal, true, 0;
      var bandwidth: nat := HostBandwidth(outgoingBandwidth, elapsed);
      ghost var start := StartBooks(peers, elapsed, outgoingBandwidth);
      hide HostBandwidth, Sum, WholeRound, ThrottleFor;
      while peersRemaining > 0 && needsAdjustment
        invariant Rounds(Books(peers, bandwidth, dataTotal, peersRemaining, needsAdjustment), now, elapsed, throttle) ==
                  Rounds(start, now, elapsed, 0)
        decreases Sum(peers, OpenCount(now)), needsAdjustment
      {
        if !(dataTotal < bandwidth) && dataTotal == 0 { return false; }
        throttle := ThrottleFor(bandwidth, dataTotal);
        RoundLess(Books(peers, bandwidth, dataTotal, peersRemaining, true), now, elapsed, throttle);
        needsAdjustment, bandwidth, dataTotal, peersRemaining :=
          Round(now, elapsed, throttle, bandwidth, dataTotal, peersRemaining);
      }
      if peersRemaining > 0 { Close(now, throttle); }
      ended := true;
    }

    method CountPeers() returns (peersTotal: nat, dataTotal: nat)
      ensures peersTotal == Word(Sum(peers, ActiveCount())) && dataTotal == Word(Sum(peers, ActiveData()))
    {
      peersTotal, dataTotal := 0, 0;
      for i := 0 to |peers|
        invariant peersTotal == Word(Sum(peers[..i], ActiveCount()))
        invariant dataTotal == Word(Sum(peers[..i], ActiveData()))
      {
        assert peers[..i + 1][..i] == peers[..i];
        if peers[i].active {
          peersTotal, dataTotal := Word(peersTotal + 1), Word(dataTotal + peers[i].outgoingDataTotal);
        }
      }
      assert peers[..|peers|] == peers;
    }

    /** The last loop over the peers: those still open get the throttle. */
    method Close(now: nat, throttle: nat)
      modifies this`peers
      ensures peers == CloseAll(old(peers), now, throttle)
    {
      ghost var settled := peers;
      for i := 0 to |peers|
        invariant |peers| == |settled|
        invariant forall j | 0 <= j < |peers| ::
                    peers[j] == if j < i then Closing(settled[j], now, throttle) else settled[j]
      {
        if Open(peers[i], now) { peers := peers[i := Limited(peers[i], throttle)]; }
      }
    }

    /** One round of the incoming loop. */
    method TellRound(now: nat, bandwidthLimit: nat, bandwidth: nat, peersRemaining: nat, ghost total: nat,
                     ghost original: seq<Share>)
      returns (needsAdjustment: bool, bandwidth': nat, peersRemaining': nat)
      requires Parted(peers, now, total, bandwidth, peersRemaining, bandwidthLimit)
      requires AllTold(original, peers, now, bandwidthLimit)
      modifies this`peers
      ensures Parted(peers, now, total, bandwidth', peersRemaining', bandwidthLimit)
      ensures AllTold(original, peers, now, bandwidthLimit)
      ensures Sum(peers, UntoldCount(now)) - peersRemaining' == old(Sum(peers, UntoldCount(now))) - peersRemaining
      ensures needsAdjustment ==> Sum(peers, UntoldCount(now)) < old(Sum(peers, UntoldCount(now)))
      ensures !needsAdjustment ==> peersRemaining' == peersRemaining && bandwidth' == bandwidth
      ensures !needsAdjustment ==> NoneModest(peers, |peers|, now, bandwidthLimit)
    {
      needsAdjustment, bandwidth', peersRemaining' := false, bandwidth, peersRemaining;
      hide Parted, Sum, Modest, Tells;
      for i := 0 to |peers|
        invariant |peers| == |original|
        invariant Parted(peers, now, total, bandwidth', peersRemaining', bandwidthLimit)
        invariant AllTold(original, peers, now, bandwidthLimit)
        invariant Sum(peers, UntoldCount(now)) - peersRemaining' == old(Sum(peers, UntoldCount(now))) - peersRemaining
        invariant peersRemaining' <= peersRemaining && (needsAdjustment ==> peersRemaining' < peersRemaining)
        invariant !needsAdjustment ==> peersRemaining' == peersRemaining && bandwidth' == bandwidth
        invariant !needsAdjustment ==> NoneModest(peers, i, now, bandwidthLimit)
      {
        if Modest(peers[i], now, bandwidthLimit) {
          TellParted(peers, i, now, total, bandwidth', peersRemaining', bandwidthLimit);
          TellTold(original, peers, i, now, bandwidthLimit);
          bandwidth' := bandwidth' - peers[i].outgoingBandwidth;
          peers := peers[i := Told(peers[i], now)];
          needsAdjustment, peersRemaining' := true, peersRemaining' - 1;
        }
      }
    }

    /** The next even part. */
    method Part(now: nat, limit: nat, bandwidth: nat, peersRemaining: nat, ghost total: nat, ghost original: seq<Share>)
      returns (bandwidthLimit: nat)
      requires Parted(peers, now, total, bandwidth, peersRemaining, limit) && AllTold(original, peers, now, limit)
      requires peersRemaining > 0
      ensures Parted(peers, now, total, bandwidth, peersRemaining, bandwidthLimit)
      ensures AllTold(original, peers, now, bandwidthLimit)
      ensures bandwidth < (bandwidthLimit + 1) * peersRemaining
    {
      NextPart(original, peers, now, total, bandwidth, peersRemaining, limit);
      hide *;
      bandwidthLimit := bandwidth / peersRemaining;
    }

    /** The incoming half, for a host that declared a limit: what the peers are told to send together
        stays within it, and a peer that would send no more than an even part may send all of that.  The even part
        of the others is the largest there is. */
    method LimitIncoming(now: nat, incomingBandwidth: nat, peersTotal: nat) returns (bandwidthLimit: nat)
      requires peersTotal == Sum(peers, ActiveCount()) > 0 && incomingBandwidth > 0
      modifies this`peers
      ensures |peers| == |old(peers)|
      ensures AllUntold(old(peers), now) ==>
                && Sum(peers, Values(now, bandwidthLimit)) <= incomingBandwidth
                && ((exists i | 0 <= i < |peers| :: Untold(peers[i], now)) ==>
                    Sum(peers, Values(now, bandwidthLimit + 1)) > incomingBandwidth)
      ensures forall i | 0 <= i < |peers| && Untold(old(peers)[i], now) ::
                ValueFor(peers[i], now, bandwidthLimit) == EvenPart(old(peers)[i].outgoingBandwidth, bandwidthLimit)
    {
      ghost var original := peers;
      var peersRemaining: nat, needsAdjustment, bandwidth: nat := peersTotal, true, incomingBandwidth;
      bandwidthLimit := 0;
      ghost var total := bandwidth + Sum(peers, ToldBandwidth(now));
      StartParted(peers, now, incomingBandwidth);
      hide Parted, Sum, AllTold, NoneModest;
      while peersRemaining > 0 && needsAdjustment
        invariant Parted(peers, now, total, bandwidth, peersRemaining, bandwidthLimit)
        invariant AllTold(original, peers, now, bandwidthLimit)
        invariant !needsAdjustment ==> NoneModest(peers, |peers|, now, bandwidthLimit)
        invariant AllUntold(original, now) ==> Sum(peers, UntoldCount(now)) == peersRemaining
        invariant !needsAdjustment ==> bandwidth < (bandwidthLimit + 1) * peersRemaining
        decreases Sum(peers, UntoldCount(now)), needsAdjustment
      {
        bandwidthLimit := Part(now, bandwidthLimit, bandwidth, peersRemaining, total, original);
        needsAdjustment, bandwidth, peersRemaining := TellRound(now, bandwidthLimit, bandwidth, peersRemaining,
                                                                total, original);
      }
      ValuesWithin(peers, now, total, bandwidth, peersRemaining, bandwidthLimit);
      if AllUntold(original, now) && peersRemaining > 0 {
        ValuesOver(peers, now, total, bandwidth, peersRemaining, bandwidthLimit);
      }
      if peersRemaining == 0 { NoneUntold(peers, now, total, bandwidth, bandwidthLimit); }
      AllEven(original, peers, now, bandwidthLimit);
    }
  }
}
