/** Whole runs of the unreliable side of a channel: what comes out against what was sent. */
module LooseRuns {
  import opened Bytes
  import opened Bitmap
  import opened Windows
  import opened Messages
  import opened Queues
  import R = ReliableChannel
  import D = ReliableDelivery
  import opened Unreliable
  import opened Sending

  // ----- where a command comes from -----

  /** e holds what has arrived of packet k: its numbers, and the bytes of every piece it counts. */
  ghost predicate Came(loose: seq<LoosePacket>, e: Waiting, k: nat) {
    && k < |loose|
    && if e.unsequenced then loose[k].Unsequenced? && e.command.data == loose[k].data
       else
         && loose[k].Sequenced? && loose[k].base == e.base && loose[k].unreliable == e.unreliable
         && D.Entry(loose[k].message, e.base, e.command)
  }

  ghost predicate Origin(loose: seq<LoosePacket>, e: Waiting) {
    exists k: nat :: Came(loose, e, k)
  }

  ghost predicate AllCame(loose: seq<LoosePacket>, s: seq<Waiting>) {
    forall e | e in s :: Origin(loose, e)
  }

  lemma {:induction false} DeliveredFrom(s: seq<Waiting>, current: nat)
    ensures forall e | e in Delivered(s, current) :: e in s
    decreases |s|
  {
    if s != [] { DeliveredFrom(s[..|s| - 1], current); }
  }

  lemma PassCame(q: Layout, loose: seq<LoosePacket>, s: Loose)
    requires Proper(q) && AllCame(loose, s.queue) && AllCame(loose, s.dispatched)
    ensures AllCame(loose, Pass(q, s).queue) && AllCame(loose, Pass(q, s).dispatched)
  {
    DeliveredFrom(s.queue[..Reach(q, s.queue, s.current, 0)], s.current);
    PassKeepsEnd(q, s);
    hide Origin, Reach, Left, Delivered, LastNumber;
  }

  lemma ArriveCame(q: Layout, loose: seq<LoosePacket>, s: Loose, leaving: bool, e: Waiting)
    requires Proper(q) && AllCame(loose, s.queue) && AllCame(loose, s.dispatched) && Origin(loose, e)
    ensures var s' := Arrive(q, s, leaving, e); AllCame(loose, s'.queue) && AllCame(loose, s'.dispatched)
  {
    hide Pass, Search, InWindow, Origin;
    if leaving { return; }
    if e.unsequenced {
      PassCame(q, loose, s.(queue := Insert(s.queue, 0, e)));
    } else {
      match Search(s.queue, e.command.number, e.unreliable, s.current, |s.queue|)
      case Taken(_) =>
      case Gap(at) => PassCame(q, loose, s.(queue := Insert(s.queue, at, e)));
    }
  }

  lemma AdvanceCame(q: Layout, loose: seq<LoosePacket>, s: Loose, base: nat)
    requires Proper(q) && AllCame(loose, s.queue) && AllCame(loose, s.dispatched)
    ensures var s' := Advance(q, s, base); AllCame(loose, s'.queue) && AllCame(loose, s'.dispatched)
  {
    hide Pass, Origin;
    if s.queue != [] { PassCame(q, loose, s.(base := base, current := Cut(base), unreliable := 0)); }
  }

  // ----- fragments -----

  /** Packet k is one that goes out in fragments, and c is fragment j of it. */
  ghost predicate FragmentOf(lim: Limits, loose: seq<LoosePacket>, k: nat, j: nat, c: LooseCommand) {
    && k < |loose| && loose[k].Sequenced? && Sendable(lim, loose[k].message) && loose[k].message.unit > 0
    && j < Pieces(loose[k].message) && c == LooseCommandOf(loose[k], j)
  }

  lemma FragmentOfIs(lim: Limits, loose: seq<LoosePacket>, k: nat, j: nat, c: LooseCommand)
    requires FragmentOf(lim, loose, k, j, c)
    ensures k < |loose| && loose[k].Sequenced? && c.SendUnreliableFragment?
  {
  }

  /** Storing a fragment of the packet the command came from. */
  lemma TakeCame(q: Layout, lim: Limits, loose: seq<LoosePacket>, s: Loose, at: nat, k: nat, j: nat, c: LooseCommand)
    requires Proper(q) && AllCame(loose, s.queue) && AllCame(loose, s.dispatched) && FragmentOf(lim, loose, k, j, c)
    requires at < |s.queue| && !s.queue[at].unsequenced && Came(loose, s.queue[at], k)
    requires R.Assembles(s.queue[at].command, c.count, c.total) && c.index < c.count && c.offset + |c.data| <= c.total
    ensures var s' := TakeLoose(q, s, at, c); AllCame(loose, s'.queue) && AllCame(loose, s'.dispatched)
  {
    var e := s.queue[at];
    D.MarkedEntry(lim, loose[k].message, e.base, e.command, j);
    var e' := e.(command := R.Marked(e.command, c.index, c.offset, c.data));
    assert Came(loose, e', k);
    hide Pass, R.Marked, Bit, Came;
    PassCame(q, loose, s.(queue := s.queue[at := e']));
  }

  /** A packet is known by its numbers. */
  lemma SameOrigin(loose: seq<LoosePacket>, e: Waiting, k: nat)
    requires Ordered(loose) && k < |loose| && loose[k].Sequenced? && Origin(loose, e) && !e.unsequenced
    requires loose[k].base == e.base && loose[k].unreliable == e.unreliable
    ensures Came(loose, e, k)
  {
    var i: nat :| Came(loose, e, i);
  }

  lemma NewCame(lim: Limits, loose: seq<LoosePacket>, k: nat, j: nat, c: LooseCommand)
    requires FragmentOf(lim, loose, k, j, c)
    ensures Came(loose, NewFragments(loose[k].base, c), k)
  {
    D.NewEntry(lim, loose[k].message, loose[k].base);
  }

  lemma InsertCame(loose: seq<LoosePacket>, s: Loose, at: nat, e: Waiting, k: nat)
    requires AllCame(loose, s.queue) && Came(loose, e, k) && at <= |s.queue|
    ensures AllCame(loose, Insert(s.queue, at, e))
  {
    hide Came;
  }

  lemma BeginCame(q: Layout, lim: Limits, loose: seq<LoosePacket>, s: Loose, at: nat, k: nat, j: nat, c: LooseCommand)
    requires Proper(q) && AllCame(loose, s.queue) && AllCame(loose, s.dispatched) && FragmentOf(lim, loose, k, j, c)
    requires at <= |s.queue| && c.index < c.count && c.offset + |c.data| <= c.total
    ensures var s' := BeginLoose(q, s, at, loose[k].base, c); AllCame(loose, s'.queue) && AllCame(loose, s'.dispatched)
  {
    hide *;
    FragmentOfIs(lim, loose, k, j, c);
    var base := loose[k].base;
    NewFragmentsIs(base, c);
    var e := NewFragments(base, c);
    var s1 := s.(queue := Insert(s.queue, at, e));
    NewCame(lim, loose, k, j, c);
    InsertCame(loose, s, at, e, k);
    PassCame(q, loose, s1);
    BeginIs(q, s, at, base, c);
    StillThere(q, s, at, base, c);
    if at >= Gone(q, s1) { TakeCame(q, lim, loose, Pass(q, s1), at - Gone(q, s1), k, j, c); }
  }

  /** The command the search finds has the numbers searched for. */
  lemma FoundIs(q: Layout, s: Loose, e: Waiting, at: nat)
    requires Proper(q) && Steady(q, s) && Admissible(q, s, e) && !e.unsequenced
             && InWindow(q, e.command.number, s.current)
    requires Search(s.queue, e.command.number, e.unreliable, s.current, |s.queue|) == R.Taken(at)
    ensures at < |s.queue| && !s.queue[at].unsequenced
            && s.queue[at].base == e.base && s.queue[at].unreliable == e.unreliable
  {
    AcceptedNumbers(q, s.base, e.base);
    SearchFinds(q, s, e, |s.queue|);
    assert MayWait(q, s.queue[at], s.base, s.unreliable);
  }

  /** The command a fragment finds is that of its own packet. */
  lemma FoundCame(q: Layout, loose: seq<LoosePacket>, s: Loose, k: nat, e: Waiting, at: nat)
    requires Proper(q) && Steady(q, s) && Ordered(loose) && AllCame(loose, s.queue)
    requires Admissible(q, s, e) && !e.unsequenced && InWindow(q, e.command.number, s.current)
    requires k < |loose| && loose[k].Sequenced? && loose[k].base == e.base && loose[k].unreliable == e.unreliable
    requires Search(s.queue, e.command.number, e.unreliable, s.current, |s.queue|) == R.Taken(at)
    ensures at < |s.queue| && !s.queue[at].unsequenced && Came(loose, s.queue[at], k)
  {
    hide Search, Came, Ordered, Steady, Admissible, InWindow;
    FoundIs(q, s, e, at);
    SameOrigin(loose, s.queue[at], k);
  }

  lemma FragmentCame(q: Layout, lim: Limits, loose: seq<LoosePacket>, s: Loose, leaving: bool, k: nat, j: nat,
                     c: LooseCommand)
    requires Proper(q) && Steady(q, s) && AllCame(loose, s.queue) && AllCame(loose, s.dispatched) && Ordered(loose)
    requires FragmentOf(lim, loose, k, j, c) && Admissible(q, s, NewFragments(loose[k].base, c))
    ensures var s' := HandleLooseFragment(q, lim, s, leaving, loose[k].base, c);
            AllCame(loose, s'.queue) && AllCame(loose, s'.dispatched)
  {
    NewFragmentsIs(loose[k].base, c);
    assert c.start == loose[k].unreliable;
    hide Steady, TakeLoose, BeginLoose, Admissible, NewFragments, InWindow, Search, R.Assembles, AllCame, Ordered,
        LooseCommandOf;
    if |c.data| > lim.packetSize || !InWindow(q, c.number, s.current)
        || (c.number == s.current && c.start <= s.unreliable)
       || !R.FragmentInside(lim, c.index, c.count, c.offset, c.total, |c.data|) { return; }
    match Search(s.queue, c.number, c.start, s.current, |s.queue|)
    case Taken(at) =>
      FoundCame(q, loose, s, k, NewFragments(loose[k].base, c), at);
      if R.Assembles(s.queue[at].command, c.count, c.total) { TakeCame(q, lim, loose, s, at, k, j, c); }
    case Gap(at) => if !leaving { BeginCame(q, lim, loose, s, at, k, j, c); }
  }

  // ----- what becomes of an arrival -----

  /** All that a pass has seen is what is not for a later number. */
  lemma ReachIs(q: Layout, s: Loose, n: nat)
    requires Proper(q) && Ready(q, s) && n <= |s.queue|
    requires forall i | 0 <= i < n :: s.queue[i].unsequenced || s.queue[i].base <= s.base
    requires n < |s.queue| ==> !s.queue[n].unsequenced && s.queue[n].base > s.base
    ensures Reach(q, s.queue, s.current, 0) == n
  {
    ReachSeen(q, s.queue, s.base, s.unreliable, 0);
    hide Reach;
  }

  lemma {:induction false} TailIsAll(s: seq<Waiting>, current: nat)
    requires forall i | 0 <= i < |s| :: Incomplete(s[i], current)
    ensures Tail(s, current) == |s|
    decreases |s|
  {
    if s != [] { TailIsAll(s[..|s| - 1], current); }
  }

  /** Where a command that arrives is put: behind all that precedes it, before all that follows. */
  lemma ArrivalReady(q: Layout, s: Loose, at: nat, e: Waiting)
    requires Proper(q) && Steady(q, s) && Admissible(q, s, e) && !e.unsequenced
             && InWindow(q, e.command.number, s.current)
    requires !(e.command.number == s.current && e.unreliable <= s.unreliable)
    requires Search(s.queue, e.command.number, e.unreliable, s.current, |s.queue|) == R.Gap(at)
    ensures Ready(q, s.(queue := Insert(s.queue, at, e))) && s.base <= e.base
    ensures e.command.number == s.current <==> e.base == s.base
    ensures forall j | 0 <= j < at :: Before(s.queue[j], e)
    ensures forall j | at <= j < |s.queue| :: Before(e, s.queue[j])
  {
    AcceptedNumbers(q, s.base, e.base);
    SearchFinds(q, s, e, |s.queue|);
    SteadyReady(q, s);
    AheadMeans(q, e, s.base, s.unreliable);
    InsertReady(q, s, at, e);
  }

  lemma UnsequencedReady(q: Layout, s: Loose, e: Waiting)
    requires Proper(q) && Steady(q, s) && e.unsequenced
    ensures Ready(q, s.(queue := Insert(s.queue, 0, e)))
  {
    SteadyReady(q, s);
    hide Steady, Ready;
    InsertReady(q, s, 0, e);
  }

  /** A whole packet for the current number that has not been overtaken comes out at once. */
  lemma CurrentComesOut(q: Layout, s: Loose, at: nat, e: Waiting)
    requires Proper(q) && Steady(q, s) && Admissible(q, s, e) && !e.unsequenced
             && InWindow(q, e.command.number, s.current)
    requires e.command.number == s.current && e.unreliable > s.unreliable && e.command.remaining == 0
    requires Search(s.queue, e.command.number, e.unreliable, s.current, |s.queue|) == R.Gap(at)
    ensures e in Arrive(q, s, false, e).dispatched
  {
    var s1 := s.(queue := Insert(s.queue, at, e));
    ArrivalReady(q, s, at, e);
    ArriveAt(q, s, at, e);
    PassDivides(q, s1);
    var n := Reach(q, s1.queue, s1.current, 0);
    assert s1.queue[at] == e;
    hide Reach, Steady, Ready, Search, InWindow, Admissible, Seen;
    if at < n {
      assert s1.queue[..n][at] == e;
      DeliversAll(s1.queue[..n], s1.current);
    }
  }

  /** And one for a later number waits. */
  lemma LaterWaits(q: Layout, s: Loose, at: nat, e: Waiting)
    requires Proper(q) && Steady(q, s) && Admissible(q, s, e) && !e.unsequenced
             && InWindow(q, e.command.number, s.current) && e.command.number != s.current
    requires Search(s.queue, e.command.number, e.unreliable, s.current, |s.queue|) == R.Gap(at)
    ensures e in Arrive(q, s, false, e).queue
  {
    var s1 := s.(queue := Insert(s.queue, at, e));
    ArrivalReady(q, s, at, e);
    ArriveAt(q, s, at, e);
    assert s1.queue[at] == e;
    hide Pass, Steady, Ready, Search, InWindow, Admissible;
    PassDelivers(q, s1, at);
  }

  /** An unsequenced packet comes out at once. */
  lemma UnsequencedComesOut(q: Layout, s: Loose, e: Waiting)
    requires Proper(q) && Steady(q, s) && e.unsequenced
    ensures e in Arrive(q, s, false, e).dispatched
  {
    var s1 := s.(queue := Insert(s.queue, 0, e));
    assert s1.queue[0] == e;
    UnsequencedReady(q, s, e);
    hide Pass, Steady, Ready;
    PassDelivers(q, s1, 0);
  }

  /** The command of a packet whose first fragment arrives is still there after its own pass unless it is
      for the current number and two commands of that number already wait behind it. */
  lemma FirstFragmentStays(q: Layout, s: Loose, at: nat, e: Waiting)
    requires Proper(q) && Steady(q, s) && Admissible(q, s, e) && !e.unsequenced
             && InWindow(q, e.command.number, s.current)
    requires !(e.command.number == s.current && e.unreliable <= s.unreliable) && e.command.remaining > 0
    requires Search(s.queue, e.command.number, e.unreliable, s.current, |s.queue|) == R.Gap(at)
    ensures at >= Gone(q, s.(queue := Insert(s.queue, at, e))) <==>
            e.command.number != s.current || Reach(q, s.queue, s.current, 0) < at + 2
  {
    ArrivalReady(q, s, at, e);
    var s1 := s.(queue := Insert(s.queue, at, e));
    hide Reach, Search, InWindow, Admissible, Cut, Window, Ready, Insert, Steady, Gone;
    if e.base > s.base {
      AheadStays(q, s1, at);
    } else {
      SeenIncomplete(q, s, at, e);
      GoneAll(q, s1);
    }
  }

  lemma AheadStays(q: Layout, s: Loose, at: nat)
    requires Proper(q) && Ready(q, s) && at < |s.queue| && !s.queue[at].unsequenced && s.queue[at].base > s.base
    ensures at >= Gone(q, s)
  {
    PassDivides(q, s);
    KeptOnes(q, s);
    var n := Reach(q, s.queue, s.current, 0);
    assert forall i | 0 <= i < n :: s.queue[..n][i] == s.queue[i];
  }

  /** A pass keeps two of the incomplete commands it has seen, if it has seen no others. */
  lemma GoneAll(q: Layout, s: Loose)
    requires Proper(q)
    requires forall i | 0 <= i < Reach(q, s.queue, s.current, 0) :: Incomplete(s.queue[i], s.current)
    ensures var n := Reach(q, s.queue, s.current, 0); Gone(q, s) == if n > 2 then n - 2 else 0
  {
    var n := Reach(q, s.queue, s.current, 0);
    TailIsAll(s.queue[..n], s.current);
    hide Reach, Tail, Delivered, LastNumber, Incomplete;
  }

  /** What waits for the current number is incomplete, and stands before what waits for later ones. */
  lemma SeenIncomplete(q: Layout, s: Loose, at: nat, e: Waiting)
    requires Proper(q) && Steady(q, s) && at <= |s.queue| && Ready(q, s.(queue := Insert(s.queue, at, e)))
    requires !e.unsequenced && e.base == s.base && e.command.number == s.current && e.command.remaining > 0
    requires forall j | 0 <= j < at :: Before(s.queue[j], e)
    requires forall j | at <= j < |s.queue| :: Before(e, s.queue[j])
    ensures var n, s1 := Reach(q, s.queue, s.current, 0), s.(queue := Insert(s.queue, at, e));
            && Reach(q, s1.queue, s1.current, 0) == n + 1
            && forall i | 0 <= i < n + 1 :: Incomplete(s1.queue[i], s.current)
  {
    var n, queue := Reach(q, s.queue, s.current, 0), Insert(s.queue, at, e);
    SteadyReady(q, s);
    PassDivides(q, s);
    forall i | 0 <= i < n ensures s.queue[i].base == s.base && Incomplete(s.queue[i], s.current) {
      assert MayWait(q, s.queue[i], s.base, s.unreliable) && s.queue[..n][i] == s.queue[i];
    }
    hide Reach, Insert, Cut, Window, Ready, Steady, Seen, MayWait;
    assert at <= n || Before(s.queue[n], e);
    ReachIs(q, s.(queue := queue), n + 1);
  }

  /** With two packets of the current number in pieces, the first fragment of an earlier one is lost. */
  lemma ThirdIsLost()
    ensures var q, lim := LIBRARY, Limits(100, 100);
            var e2, e3 := Waiting(false, 0, 2, NewHalves(0)), Waiting(false, 0, 3, NewHalves(0));
            var s, c := Loose(0, 0, 0, [e2, e3], []), SendUnreliableFragment(0, 1, 0, 2, 0, 2, [7]);
            Proper(q) && Steady(q, s) && HandleLooseFragment(q, lim, s, false, 0, c) == s
  {
    var q, lim := LIBRARY, Limits(100, 100);
    var e2, e3 := Waiting(false, 0, 2, NewHalves(0)), Waiting(false, 0, 3, NewHalves(0));
    var s, c := Loose(0, 0, 0, [e2, e3], []), SendUnreliableFragment(0, 1, 0, 2, 0, 2, [7]);
    assert Steady(q, s) by { assert SequencedBefore(e2, e3); }
    assert R.FragmentInside(lim, 0, 2, 0, 2, 1) && |c.data| == 1;
    assert forall e | e in s.queue :: Incomplete(e, 0);
    hide Steady, R.NewCommand;
    LostFragment(q, s, c);
    assert InWindow(q, 0, 0);
    assert Search(s.queue, 0, 1, 0, 1) == Search(s.queue, 0, 1, 0, 0) == R.Gap(0);
    hide BeginLoose, TakeLoose, InWindow, Search;
  }

  lemma LostFragment(q: Layout, s: Loose, c: LooseCommand)
    requires Proper(q) && c.SendUnreliableFragment? && |s.queue| == 2 && c.number == s.current && 0 < c.count
    requires forall i | 0 <= i < |s.queue| :: Incomplete(s.queue[i], s.current)
    requires c.index < c.count && c.offset + |c.data| <= c.total
    ensures BeginLoose(q, s, 0, 0, c) == s
  {
    var s1 := s.(queue := Insert(s.queue, 0, NewFragments(0, c)));
    assert forall i | 0 <= i < 3 :: Incomplete(s1.queue[i], s.current);
    AllReached(q, s1, 0);
    GoneAll(q, s1);
    PassKeepsEnd(q, s1);
    BeginIs(q, s, 0, 0, c);
    NothingFrom(s1.queue, s.current);
    assert s1.queue[..3] == s1.queue;
    hide Reach, Delivered, LastNumber, Left;
  }

  lemma {:induction false} AllReached(q: Layout, s: Loose, k: nat)
    requires Proper(q) && k <= |s.queue| && forall i | 0 <= i < |s.queue| :: Incomplete(s.queue[i], s.current)
    ensures Reach(q, s.queue, s.current, k) == |s.queue|
    decreases |s.queue| - k
  {
    if k < |s.queue| { AllReached(q, s, k + 1); }
  }

  /** An incomplete command of two fragments. */
  function NewHalves(number: nat): R.Incoming {
    R.NewCommand(number, [0, 0], 2)
  }

  lemma {:induction false} NothingFrom(s: seq<Waiting>, current: nat)
    requires forall i | 0 <= i < |s| :: Incomplete(s[i], current)
    ensures Delivered(s, current) == []
    ensures forall u :: LastNumber(s, current, u) == u
    decreases |s|
  {
    if s != [] { NothingFrom(s[..|s| - 1], current); }
  }

  // ----- runs -----

  /** The network brings a copy of command j of packet k, or the reliable side moves on. */
  datatype Step = Brings(leaving: bool, k: nat, j: nat) | Advances(base: nat)

  predicate Exists(loose: seq<LoosePacket>, step: Step) {
    step.Brings? ==> step.k < |loose| && (loose[step.k].Sequenced? ==> step.j < Pieces(loose[step.k].message))
  }

  predicate AllExist(loose: seq<LoosePacket>, steps: seq<Step>) {
    forall i | 0 <= i < |steps| :: Exists(loose, steps[i])
  }

  function BaseOf(p: LoosePacket): nat {
    if p.Sequenced? then p.base else 0
  }

  function After(q: Layout, lim: Limits, loose: seq<LoosePacket>, s: Loose, step: Step): Loose
    requires Proper(q) && AllPacketable(loose) && Exists(loose, step)
  {
    match step
    case Brings(leaving, k, j) => HandleLoose(q, lim, s, leaving, BaseOf(loose[k]), LooseCommandOf(loose[k], j))
    case Advances(base) => Advance(q, s, base)
  }

  /** A copy no staler, and no further ahead, than tells old from new; and a
      move that outdates nothing that waits. */
  predicate Allowed(q: Layout, loose: seq<LoosePacket>, s: Loose, step: Step)
    requires Proper(q) && Exists(loose, step)
  {
    match step
    case Brings(_, k, _) =>
      loose[k].Sequenced? ==>
        && Window(q, loose[k].base) < Window(q, s.base) + q.windows
        && Window(q, s.base) <= Window(q, loose[k].base) + q.windows - q.free + 1
    case Advances(base) => s.base < base && !Outdates(q, s, base)
  }

  function Run(q: Layout, lim: Limits, loose: seq<LoosePacket>, s: Loose, steps: seq<Step>): Loose
    requires Proper(q) && AllPacketable(loose) && AllExist(loose, steps)
    decreases |steps|
  {
    if steps == [] then s else Run(q, lim, loose, After(q, lim, loose, s, steps[0]), steps[1..])
  }

  predicate AllAllowed(q: Layout, lim: Limits, loose: seq<LoosePacket>, s: Loose, steps: seq<Step>)
    requires Proper(q) && AllPacketable(loose) && AllExist(loose, steps)
    decreases |steps|
  {
    steps == [] ||
    (Allowed(q, loose, s, steps[0]) && AllAllowed(q, lim, loose, After(q, lim, loose, s, steps[0]), steps[1..]))
  }

  ghost predicate Holds(q: Layout, loose: seq<LoosePacket>, s: Loose)
    requires Proper(q)
  {
    Steady(q, s) && AllCame(loose, s.queue) && AllCame(loose, s.dispatched)
  }

  /** One copy of a command of packet k. */
  lemma BringHolds(q: Layout, lim: Limits, loose: seq<LoosePacket>, s: Loose, leaving: bool, k: nat, j: nat)
    requires Proper(q) && AllPacketable(loose) && AllLooseSendable(lim, loose) && Ordered(loose) && Holds(q, loose, s)
    requires Exists(loose, Brings(leaving, k, j)) && Allowed(q, loose, s, Brings(leaving, k, j))
    ensures var s' := After(q, lim, loose, s, Brings(leaving, k, j));
            Holds(q, loose, s') && s.dispatched <= s'.dispatched
  {
    var p, c := loose[k], LooseCommandOf(loose[k], j);
    assert LooseSendable(lim, p);
    match c {
      case SendUnreliable(number, unreliable, data) => BringWhole(q, loose, lim, s, leaving, k, j);
      case SendUnsequenced(_, data) =>
        var e := Waiting(true, 0, 0, R.NewCommand(0, data, 0));
        assert Came(loose, e, k);
        hide Steady, AllCame, Arrive;
        ArriveSteady(q, s, leaving, e);
        ArriveCame(q, loose, s, leaving, e);
      case SendUnreliableFragment(_, _, _, _, _, _, _) =>
        assert Admissible(q, s, NewFragments(p.base, c));
        assert FragmentOf(lim, loose, k, j, c);
        hide Steady, AllCame, HandleLooseFragment, Ordered, Admissible, NewFragments;
        FragmentSteady(q, lim, s, leaving, p.base, c);
        FragmentCame(q, lim, loose, s, leaving, k, j, c);
    }
  }

  lemma BringWhole(q: Layout, loose: seq<LoosePacket>, lim: Limits, s: Loose, leaving: bool, k: nat, j: nat)
    requires Proper(q) && AllPacketable(loose) && Ordered(loose) && Holds(q, loose, s)
    requires Exists(loose, Brings(leaving, k, j)) && Allowed(q, loose, s, Brings(leaving, k, j))
    requires loose[k].Sequenced? && loose[k].message.unit == 0 && Sendable(lim, loose[k].message)
    ensures var p := loose[k];
            var s' := Arrive(q, s, leaving, Waiting(false, p.base, p.unreliable,
                                                    R.NewCommand(Cut(p.base), p.message.data, 0)));
            Holds(q, loose, s') && s.dispatched <= s'.dispatched
  {
    var p := loose[k];
    var e := Waiting(false, p.base, p.unreliable, R.NewCommand(Cut(p.base), p.message.data, 0));
    D.NewEntry(lim, p.message, p.base);
    assert Came(loose, e, k);
    hide Steady, AllCame, Arrive, Ordered;
    ArriveSteady(q, s, leaving, e);
    ArriveCame(q, loose, s, leaving, e);
  }

  /** Over every run the packets come out in the order they were sent, and what waits or has come out is
      made of what was sent. */
  lemma {:induction false} RunHolds(q: Layout, lim: Limits, loose: seq<LoosePacket>, s: Loose, steps: seq<Step>)
    requires Proper(q) && AllPacketable(loose) && AllLooseSendable(lim, loose) && Ordered(loose) && Holds(q, loose, s)
    requires AllExist(loose, steps) && AllAllowed(q, lim, loose, s, steps)
    ensures var s' := Run(q, lim, loose, s, steps); Holds(q, loose, s') && s.dispatched <= s'.dispatched
    decreases |steps|
  {
    if steps != [] {
      assert Exists(loose, steps[0]);
      match steps[0] {
        case Brings(leaving, k, j) => BringHolds(q, lim, loose, s, leaving, k, j);
        case Advances(base) =>
          AdvanceSteady(q, s, base);
          AdvanceCame(q, loose, s, base);
      }
      hide Holds, HandleLoose, Advance, Ordered, AllLooseSendable;
      RunHolds(q, lim, loose, After(q, lim, loose, s, steps[0]), steps[1..]);
    }
  }

  // ----- a packet in pieces comes out -----

  /** Nothing that the packet numbered u would come after waits, or has come out, for the current reliable number. */
  predicate Undisturbed(s: Loose, u: nat) {
    s.unreliable < u && forall e | e in s.queue && !e.unsequenced && e.base == s.base :: e.unreliable <= u
  }

  /** The command of the packet numbered u, if there is one, still misses fragments. */
  predicate StillMissing(s: Loose, u: nat) {
    forall e | e in s.queue && !e.unsequenced && e.base == s.base && e.unreliable == u :: e.command.remaining > 0
  }

  /** That command is still there. */
  predicate Keeps(s: Loose, s': Loose, u: nat) {
    && s'.base == s.base && Undisturbed(s', u)
    && forall e | e in s.queue && !e.unsequenced && e.base == s.base && e.unreliable == u :: e in s'.queue
  }

  /** The pass keeps the last of the incomplete commands it has seen. */
  lemma PassKeepsLast(q: Layout, s: Loose, u: nat)
    requires Proper(q) && Ready(q, s) && Undisturbed(s, u) && StillMissing(s, u)
    ensures Keeps(s, Pass(q, s), u)
  {
    var n, s' := Reach(q, s.queue, s.current, 0), Pass(q, s);
    var seen := s.queue[..n];
    PassDivides(q, s);
    PassKeepsEnd(q, s);
    LastNumberBounds(seen, s.base, s.unreliable);
    assert s'.unreliable == LastNumber(seen, s.current, s.unreliable);
    forall e | e in s.queue && !e.unsequenced && e.base == s.base && e.unreliable == u ensures e in s'.queue {
      var i :| 0 <= i < |s.queue| && s.queue[i] == e;
      LastSeen(q, s, u, i);
    }
    hide Reach, Tail, Left, Delivered, LastNumber, Cut, Window, Ready;
  }

  lemma LastSeen(q: Layout, s: Loose, u: nat, i: nat)
    requires Proper(q) && Ready(q, s) && Undisturbed(s, u) && StillMissing(s, u)
    requires i < |s.queue| && !s.queue[i].unsequenced && s.queue[i].base == s.base && s.queue[i].unreliable == u
    ensures s.queue[i] in Pass(q, s).queue
  {
    var n := Reach(q, s.queue, s.current, 0);
    PassDivides(q, s);
    hide Reach, Delivered, LastNumber, Cut, Window, InOrder, Past;
    assert i < n;
    assert i + 1 < |s.queue| ==> SequencedBefore(s.queue[i], s.queue[i + 1]) && s.queue[i + 1] in s.queue;
    var seen := s.queue[..n];
    assert i + 1 == n;
    assert seen[i] == s.queue[i] && s.queue[i] in s.queue;
    assert Tail(seen, s.current) > 0;
    var left := Left(seen, s.current);
    assert left[|left| - 1] == s.queue[i];
  }

  /** What waits for the current number misses fragments. */
  lemma SteadyMisses(q: Layout, s: Loose, u: nat)
    requires Proper(q) && Steady(q, s)
    ensures StillMissing(s, u)
  {
    forall e | e in s.queue && !e.unsequenced && e.base == s.base ensures e.command.remaining > 0 {
      var i :| 0 <= i < |s.queue| && s.queue[i] == e;
      assert MayWait(q, s.queue[i], s.base, s.unreliable);
    }
  }

  /** A command that does not come after the packet numbered u, and is not of it. */
  predicate Elsewhere(s: Loose, u: nat, e: Waiting) {
    e.unsequenced || e.base != s.base || e.unreliable < u
  }

  lemma KeepsOn(s: Loose, s1: Loose, s2: Loose, u: nat)
    requires Keeps(s, s1, u) && Keeps(s1, s2, u)
    ensures Keeps(s, s2, u)
  {
  }

  lemma KeepsAll(s: Loose, u: nat)
    requires Undisturbed(s, u)
    ensures Keeps(s, s, u)
  {
  }

  /** A command is queued: one that does not disturb the packet, or the packet's own. */
  lemma InsertKeeps(q: Layout, s: Loose, at: nat, e: Waiting, u: nat)
    requires Proper(q) && Steady(q, s) && at <= |s.queue| && Ready(q, s.(queue := Insert(s.queue, at, e)))
    requires Undisturbed(s, u) && (Elsewhere(s, u, e) || (e.unreliable == u && e.command.remaining > 0))
    ensures var s' := Pass(q, s.(queue := Insert(s.queue, at, e)));
            Keeps(s, s', u) && (!Elsewhere(s, u, e) ==> e in s'.queue)
  {
    var s1 := s.(queue := Insert(s.queue, at, e));
    SteadyMisses(q, s, u);
    assert forall x :: x in s1.queue <==> x == e || x in s.queue;
    hide Insert, Steady, Ready, Pass;
    assert Keeps(s, s1, u) && StillMissing(s1, u);
    PassKeepsLast(q, s1, u);
    KeepsOn(s, s1, Pass(q, s1), u);
  }

  lemma ArriveKeeps(q: Layout, s: Loose, leaving: bool, e: Waiting, u: nat)
    requires Proper(q) && Steady(q, s) && Admissible(q, s, e) && Undisturbed(s, u) && Elsewhere(s, u, e)
    ensures Keeps(s, Arrive(q, s, leaving, e), u)
  {
    hide Steady, Admissible, Search, InWindow, Pass, Undisturbed, Elsewhere, Keeps, Ready;
    KeepsAll(s, u);
    if leaving {
    } else if e.unsequenced {
      UnsequencedReady(q, s, e);
      InsertKeeps(q, s, 0, e, u);
    } else if InWindow(q, e.command.number, s.current)
              && !(e.command.number == s.current && e.unreliable <= s.unreliable) {
      match Search(s.queue, e.command.number, e.unreliable, s.current, |s.queue|)
      case Taken(_) =>
      case Gap(at) =>
        ArrivalReady(q, s, at, e);
        InsertKeeps(q, s, at, e, u);
    }
  }

  lemma StoreKeeps(q: Layout, s: Loose, at: nat, command: R.Incoming, u: nat)
    requires Proper(q) && Steady(q, s) && Undisturbed(s, u) && at < |s.queue| && Elsewhere(s, u, s.queue[at])
    requires command.number == s.queue[at].command.number
    ensures Keeps(s, Store(q, s, at, command), u)
  {
    var e := s.queue[at].(command := command);
    var s1 := s.(queue := s.queue[at := e]);
    SteadyMisses(q, s, u);
    StoreReady(q, s, at, command);
    hide Steady, Ready, Pass;
    assert forall x :: x in s1.queue ==> x == e || x in s.queue;
    forall x | x in s.queue && !x.unsequenced && x.base == s.base && x.unreliable == u ensures x in s1.queue {
      var i :| 0 <= i < |s.queue| && s.queue[i] == x;
      assert s1.queue[i] == x;
    }
    assert s.queue[at] in s.queue;
    assert Keeps(s, s1, u) && StillMissing(s1, u);
    if command.remaining == 0 {
      PassKeepsLast(q, s1, u);
      KeepsOn(s, s1, Pass(q, s1), u);
    }
  }

  lemma TakeKeeps(q: Layout, s: Loose, at: nat, c: LooseCommand, u: nat)
    requires Proper(q) && Steady(q, s) && c.SendUnreliableFragment? && at < |s.queue|
    requires R.Assembles(s.queue[at].command, c.count, c.total) && c.index < c.count && c.offset + |c.data| <= c.total
    requires Undisturbed(s, u) && Elsewhere(s, u, s.queue[at])
    ensures Keeps(s, TakeLoose(q, s, at, c), u)
  {
    var command := s.queue[at].command;
    hide Steady, Store, R.Marked, Bit, Keeps, Undisturbed, Elsewhere;
    KeepsAll(s, u);
    MarkedNumber(command, c.index, c.offset, c.data);
    StoreKeeps(q, s, at, R.Marked(command, c.index, c.offset, c.data), u);
  }

  lemma MarkedNumber(e: R.Incoming, index: nat, offset: nat, data: seq<byte>)
    requires index / 32 < |e.fragments| && offset + |data| <= |e.data|
    ensures R.Marked(e, index, offset, data).number == e.number
  {
  }

  lemma BeginKeeps(q: Layout, s: Loose, at: nat, base: nat, c: LooseCommand, u: nat)
    requires Proper(q) && Steady(q, s) && c.SendUnreliableFragment?
    requires Admissible(q, s, NewFragments(base, c)) && InWindow(q, c.number, s.current)
    requires !(c.number == s.current && c.start <= s.unreliable)
    requires Search(s.queue, c.number, c.start, s.current, |s.queue|) == R.Gap(at)
    requires c.index < c.count && c.offset + |c.data| <= c.total
    requires Undisturbed(s, u) && Elsewhere(s, u, NewFragments(base, c))
    ensures Keeps(s, BeginLoose(q, s, at, base, c), u)
  {
    hide *;
    NewFragmentsIs(base, c);
    var e := NewFragments(base, c);
    var s1 := s.(queue := Insert(s.queue, at, e));
    var s2 := Pass(q, s1);
    ArriveAt(q, s, at, e);
    ArriveSteady(q, s, false, e);
    ArrivalReady(q, s, at, e);
    InsertKeeps(q, s, at, e, u);
    BeginIs(q, s, at, base, c);
    if at >= Gone(q, s1) {
      StillThere(q, s, at, base, c);
      StillElsewhere(s, s2, e, u);
      TakeKeeps(q, s2, at - Gone(q, s1), c, u);
      KeepsOn(s, s2, BeginLoose(q, s, at, base, c), u);
    }
  }

  lemma StillElsewhere(s: Loose, s': Loose, e: Waiting, u: nat)
    requires Keeps(s, s', u) && Elsewhere(s, u, e)
    ensures Elsewhere(s', u, e) && Undisturbed(s', u)
  {
  }

  lemma FragmentKeeps(q: Layout, lim: Limits, s: Loose, leaving: bool, base: nat, c: LooseCommand, u: nat)
    requires Proper(q) && Steady(q, s) && c.SendUnreliableFragment? && Admissible(q, s, NewFragments(base, c))
    requires Undisturbed(s, u) && Elsewhere(s, u, NewFragments(base, c))
    ensures Keeps(s, HandleLooseFragment(q, lim, s, leaving, base, c), u)
  {
    NewFragmentsIs(base, c);
    KeepsAll(s, u);
    hide Steady, TakeLoose, BeginLoose, Admissible, NewFragments, InWindow, Search, R.Assembles, Keeps, Undisturbed;
    if |c.data| > lim.packetSize || !InWindow(q, c.number, s.current)
        || (c.number == s.current && c.start <= s.unreliable)
       || !R.FragmentInside(lim, c.index, c.count, c.offset, c.total, |c.data|) { return; }
    match Search(s.queue, c.number, c.start, s.current, |s.queue|)
    case Taken(at) =>
      FoundIs(q, s, NewFragments(base, c), at);
      if R.Assembles(s.queue[at].command, c.count, c.total) { TakeKeeps(q, s, at, c, u); }
    case Gap(at) => if !leaving { BeginKeeps(q, s, at, base, c, u); }
  }

  /** A copy of packet k, or of one that k does not come before on its reliable number. */
  predicate Undisturbing(loose: seq<LoosePacket>, k: nat, step: Step)
    requires Exists(loose, step) && k < |loose| && loose[k].Sequenced?
  {
    && step.Brings? && (step.k == k ==> !step.leaving)
    && (step.k > k && loose[step.k].Sequenced? ==> loose[step.k].base != loose[k].base)
  }

  lemma OtherKeeps(q: Layout, lim: Limits, loose: seq<LoosePacket>, s: Loose, k: nat, step: Step)
    requires Proper(q) && AllPacketable(loose) && Ordered(loose) && Steady(q, s) && Exists(loose, step)
    requires k < |loose| && loose[k].Sequenced? && loose[k].base == s.base && Undisturbed(s, loose[k].unreliable)
    requires Undisturbing(loose, k, step) && step.k != k && Allowed(q, loose, s, step)
    ensures Keeps(s, After(q, lim, loose, s, step), loose[k].unreliable)
  {
    var u, p, c := loose[k].unreliable, loose[step.k], LooseCommandOf(loose[step.k], step.j);
    assert Precedes(loose[step.k], loose[k]) || step.k > k;
    KeepsAll(s, u);
    match c {
      case SendUnreliable(number, unreliable, data) =>
        var e := Waiting(false, p.base, unreliable, R.NewCommand(number, data, 0));
        hide Steady, Keeps, Undisturbed, Arrive;
        ArriveKeeps(q, s, step.leaving, e, u);
      case SendUnsequenced(_, data) =>
        var e := Waiting(true, 0, 0, R.NewCommand(0, data, 0));
        hide Steady, Keeps, Undisturbed, Arrive;
        ArriveKeeps(q, s, step.leaving, e, u);
      case SendUnreliableFragment(_, _, _, _, _, _, _) =>
        assert Admissible(q, s, NewFragments(p.base, c)) && Elsewhere(s, u, NewFragments(p.base, c));
        hide Steady, Keeps, Undisturbed, HandleLooseFragment, Admissible, NewFragments;
        FragmentKeeps(q, lim, s, step.leaving, p.base, c, u);
    }
  }

  /** Packet k has come out, whole. */
  ghost predicate Out(loose: seq<LoosePacket>, s: Loose, k: nat) {
    exists e :: e in s.dispatched && !e.unsequenced && Came(loose, e, k) && e.command.data == loose[k].message.data
  }

  /** Its command waits and has piece j. */
  ghost predicate HasPart(loose: seq<LoosePacket>, s: Loose, k: nat, j: nat) {
    exists e :: e in s.queue && !e.unsequenced && Came(loose, e, k) && Bit(e.command.fragments, j)
  }

  /** Packet k goes out in fragments, for the number the channel stands at. */
  predicate InPieces(lim: Limits, loose: seq<LoosePacket>, s: Loose, k: nat) {
    && k < |loose| && loose[k].Sequenced? && Sendable(lim, loose[k].message) && loose[k].message.unit > 0
    && loose[k].base == s.base
  }

  /** What a piece of packet k is to bring about. */
  ghost predicate Added(loose: seq<LoosePacket>, s: Loose, s': Loose, k: nat, j: nat)
    requires k < |loose| && loose[k].Sequenced?
  {
    Out(loose, s', k)
    || (&& Undisturbed(s', loose[k].unreliable) && HasPart(loose, s', k, j)
        && forall i: nat | HasPart(loose, s, k, i) :: HasPart(loose, s', k, i))
  }

  /** Only one command of the packet waits. */
  lemma OneWaits(q: Layout, loose: seq<LoosePacket>, s: Loose, k: nat, at: nat, e: Waiting)
    requires Proper(q) && Steady(q, s) && at < |s.queue| && Came(loose, s.queue[at], k)
    requires e in s.queue && !e.unsequenced && Came(loose, e, k)
    ensures e == s.queue[at]
  {
    assert forall i | 0 <= i < |s.queue| :: MayWait(q, s.queue[i], s.base, s.unreliable);
    AllApart(s.queue);
    var i :| 0 <= i < |s.queue| && s.queue[i] == e;
    hide Cut, Window, D.Entry;
  }

  /** The piece is stored in the packet's command. */
  lemma StoreAdds(q: Layout, lim: Limits, loose: seq<LoosePacket>, s: Loose, k: nat, j: nat, at: nat)
    requires Proper(q) && Steady(q, s) && InPieces(lim, loose, s, k) && j < Pieces(loose[k].message)
    requires Undisturbed(s, loose[k].unreliable) && at < |s.queue| && !s.queue[at].unsequenced
    requires Came(loose, s.queue[at], k) && !Bit(s.queue[at].command.fragments, j)
    ensures var m, x := loose[k].message, s.queue[at].command;
            && j / 32 < |x.fragments| && Offset(m, j) + |Piece(m, j)| <= |x.data|
            && Added(loose, s, Store(q, s, at, R.Marked(x, j, Offset(m, j), Piece(m, j))), k, j)
  {
    var m, e := loose[k].message, s.queue[at];
    D.MarkedEntry(lim, m, e.base, e.command, j);
    var e' := e.(command := R.Marked(e.command, j, Offset(m, j), Piece(m, j)));
    var s' := Store(q, s, at, e'.command);
    MarkedNumber(e.command, j, Offset(m, j), Piece(m, j));
    StoreDelivers(q, s, at, e'.command);
    assert Came(loose, e', k);
    if e'.command.remaining == 0 {
      D.EntryComplete(m, e.base, e'.command);
      hide Store, Steady, Bit, R.Marked, Offset, Piece, Pieces, D.Entry, Undisturbed;
      assert Out(loose, s', k);
    } else {
      hide Steady, Bit, R.Marked, Offset, Piece, Pieces, D.Entry, Came, Sendable, Pass;
      PartsKept(q, loose, s, s', k, j, at, e');
    }
  }

  lemma PartsKept(q: Layout, loose: seq<LoosePacket>, s: Loose, s': Loose, k: nat, j: nat, at: nat, e': Waiting)
    requires Proper(q) && Steady(q, s) && k < |loose| && loose[k].Sequenced? && Undisturbed(s, loose[k].unreliable)
    requires at < |s.queue| && Came(loose, s.queue[at], k) && Came(loose, e', k)
    requires e' == s.queue[at].(command := e'.command) && !e'.unsequenced && s' == s.(queue := s.queue[at := e'])
    requires forall i: nat :: Bit(e'.command.fragments, i) <==> i == j || Bit(s.queue[at].command.fragments, i)
    ensures Added(loose, s, s', k, j)
  {
    hide Steady, Bit, Came, Out;
    assert s'.queue[at] == e';
    forall i: nat | HasPart(loose, s, k, i) ensures HasPart(loose, s', k, i) {
      var x :| x in s.queue && !x.unsequenced && Came(loose, x, k) && Bit(x.command.fragments, i);
      OneWaits(q, loose, s, k, at, x);
      assert e' in s'.queue && Bit(e'.command.fragments, i);
    }
    assert e' in s'.queue && Bit(e'.command.fragments, j);
    forall x | x in s'.queue && !x.unsequenced && x.base == s'.base ensures x.unreliable <= loose[k].unreliable {
      assert x == e' || x in s.queue;
      assert s.queue[at] in s.queue;
    }
  }

  /** The fields of a piece, which the receiver lets in. */
  lemma PieceFields(lim: Limits, p: LoosePacket, j: nat)
    requires p.Sequenced? && Sendable(lim, p.message) && p.message.unit > 0 && j < Pieces(p.message)
    ensures var m := p.message;
            && LooseCommandOf(p, j) == SendUnreliableFragment(Cut(p.base), p.unreliable, j, Pieces(m), Offset(m, j),
                                                              |m.data|, Piece(m, j))
            && |Piece(m, j)| <= lim.packetSize && 1 < Pieces(m)
            && R.FragmentInside(lim, j, Pieces(m), Offset(m, j), |m.data|, |Piece(m, j)|)
  {
    PieceBounds(p.message, j);
  }

  /** A piece of the packet when its command waits. */
  lemma PieceAdded(q: Layout, lim: Limits, loose: seq<LoosePacket>, s: Loose, k: nat, j: nat, at: nat)
    requires Proper(q) && Steady(q, s) && InPieces(lim, loose, s, k) && j < Pieces(loose[k].message)
    requires Undisturbed(s, loose[k].unreliable) && at < |s.queue| && !s.queue[at].unsequenced
    requires Came(loose, s.queue[at], k)
    ensures Added(loose, s, HandleLoose(q, lim, s, false, s.base, LooseCommandOf(loose[k], j)), k, j)
  {
    var c, e := LooseCommandOf(loose[k], j), s.queue[at];
    PieceFields(lim, loose[k], j);
    assert MayWait(q, e, s.base, s.unreliable);
    assert R.Assembles(e.command, c.count, c.total);
    FragmentTaken(q, lim, s, false, s.base, c, at);
    hide Steady, HandleLoose, Store, R.Marked, Bit, D.Entry, LooseCommandOf, R.FragmentInside, R.Assembles;
    if Bit(e.command.fragments, j) {
      assert HasPart(loose, s, k, j);
    } else {
      StoreAdds(q, lim, loose, s, k, j, at);
    }
  }

  /** The first piece of the packet to come. */
  lemma PieceBegins(q: Layout, lim: Limits, loose: seq<LoosePacket>, s: Loose, k: nat, j: nat)
    requires Proper(q) && Steady(q, s) && AllCame(loose, s.queue) && Ordered(loose) && InPieces(lim, loose, s, k)
    requires j < Pieces(loose[k].message) && Undisturbed(s, loose[k].unreliable)
    requires forall e | e in s.queue && !e.unsequenced :: !Came(loose, e, k)
    ensures Added(loose, s, HandleLoose(q, lim, s, false, s.base, LooseCommandOf(loose[k], j)), k, j)
  {
    var u, c := loose[k].unreliable, LooseCommandOf(loose[k], j);
    var e := NewFragments(s.base, c);
    PieceFields(lim, loose[k], j);
    AcceptedNumbers(q, s.base, s.base);
    assert Admissible(q, s, e) && FragmentOf(lim, loose, k, j, c);
    var at := NotFound(q, loose, s, k, e);
    HandlesBegin(q, lim, s, c, at);
    hide Steady, HandleLoose, BeginLoose, NewFragments, LooseCommandOf, R.FragmentInside, Admissible, InWindow, Search,
        FragmentOf, HasPart, Out, Came;
    var s' := BeginAdds(q, lim, loose, s, k, j, c, at);
    assert forall i: nat :: !HasPart(loose, s, k, i) by { NoParts(loose, s, k); }
  }

  lemma NoParts(loose: seq<LoosePacket>, s: Loose, k: nat)
    requires forall e | e in s.queue && !e.unsequenced :: !Came(loose, e, k)
    ensures forall i: nat :: !HasPart(loose, s, k, i)
  {
  }

  /** The command that is queued for it stays, and takes the piece. */
  lemma BeginAdds(q: Layout, lim: Limits, loose: seq<LoosePacket>, s: Loose, k: nat, j: nat, c: LooseCommand, at: nat)
    returns (s2: Loose)
    requires Proper(q) && Steady(q, s) && InPieces(lim, loose, s, k) && FragmentOf(lim, loose, k, j, c)
    requires Undisturbed(s, loose[k].unreliable)
    requires c.SendUnreliableFragment? && c.index < c.count && c.offset + |c.data| <= c.total
    requires Admissible(q, s, NewFragments(s.base, c)) && InWindow(q, c.number, s.current)
    requires !(c.number == s.current && c.start <= s.unreliable)
    requires Search(s.queue, c.number, c.start, s.current, |s.queue|) == R.Gap(at)
    ensures Added(loose, s2, BeginLoose(q, s, at, s.base, c), k, j)
  {
    hide *;
    s2 := Pass(q, s.(queue := Insert(s.queue, at, NewFragments(s.base, c))));
    NewPieceIs(lim, loose, s, k, j, c);
    var place := BeginStays(q, s, at, c, loose[k].unreliable);
    StillInPieces(lim, loose, s, s2, k);
    TakeStores(q, s2, place, c);
    StoreAdds(q, lim, loose, s2, k, j, place);
  }

  lemma BeginStays(q: Layout, s: Loose, at: nat, c: LooseCommand, u: nat) returns (place: nat)
    requires Proper(q) && Steady(q, s) && c.SendUnreliableFragment? && Undisturbed(s, u) && c.start == u
    requires c.index < c.count && c.offset + |c.data| <= c.total
    requires Admissible(q, s, NewFragments(s.base, c)) && InWindow(q, c.number, s.current)
    requires !(c.number == s.current && c.start <= s.unreliable)
    requires Search(s.queue, c.number, c.start, s.current, |s.queue|) == R.Gap(at)
    ensures var e := NewFragments(s.base, c);
            var s2 := Pass(q, s.(queue := Insert(s.queue, at, e)));
            && Keeps(s, s2, u) && Steady(q, s2) && place < |s2.queue| && s2.queue[place] == e
            && R.Assembles(e.command, c.count, c.total)
            && BeginLoose(q, s, at, s.base, c) == TakeLoose(q, s2, place, c)
  {
    var e := NewFragments(s.base, c);
    var s1 := s.(queue := Insert(s.queue, at, e));
    assert e.command.remaining > 0 && !Elsewhere(s, u, e);
    NewFragmentsIs(s.base, c);
    hide *;
    ArriveAt(q, s, at, e);
    ArriveSteady(q, s, false, e);
    ArrivalReady(q, s, at, e);
    InsertKeeps(q, s, at, e, u);
    StaysAt(q, s, at, e);
    BeginIs(q, s, at, s.base, c);
    StillThere(q, s, at, s.base, c);
    place := at - Gone(q, s1);
  }

  /** A command that has just been queued for the packet. */
  lemma NewPieceIs(lim: Limits, loose: seq<LoosePacket>, s: Loose, k: nat, j: nat, c: LooseCommand)
    requires FragmentOf(lim, loose, k, j, c) && InPieces(lim, loose, s, k) && c.SendUnreliableFragment?
    ensures k < |loose| && loose[k].Sequenced?
    ensures var e, m := NewFragments(s.base, c), loose[k].message;
            && Came(loose, e, k) && !e.unsequenced && !Bit(e.command.fragments, j)
            && c.index == j < Pieces(m) && c.start == loose[k].unreliable
            && (m.unit > 0 ==> |m.data| > m.unit) && c.offset == Offset(m, j) && c.data == Piece(m, j)
  {
    NewCame(lim, loose, k, j, c);
    NoBit(Words(c.count), j);
  }

  lemma StillInPieces(lim: Limits, loose: seq<LoosePacket>, s: Loose, s': Loose, k: nat)
    requires InPieces(lim, loose, s, k) && Keeps(s, s', loose[k].unreliable)
    ensures InPieces(lim, loose, s', k) && Undisturbed(s', loose[k].unreliable)
  {
  }

  lemma TakeStores(q: Layout, s: Loose, at: nat, c: LooseCommand)
    requires Proper(q) && c.SendUnreliableFragment? && at < |s.queue|
    requires R.Assembles(s.queue[at].command, c.count, c.total) && c.index < c.count && c.offset + |c.data| <= c.total
    requires !Bit(s.queue[at].command.fragments, c.index)
    ensures c.index / 32 < |s.queue[at].command.fragments|
    ensures TakeLoose(q, s, at, c) == Store(q, s, at, R.Marked(s.queue[at].command, c.index, c.offset, c.data))
  {
    hide Store, R.Marked, Bit;
  }

  /** A command that a pass keeps is kept where it was put. */
  lemma StaysAt(q: Layout, s: Loose, at: nat, e: Waiting)
    requires Proper(q) && at <= |s.queue| && !e.unsequenced && Ready(q, s.(queue := Insert(s.queue, at, e)))
    requires e in Pass(q, s.(queue := Insert(s.queue, at, e))).queue
    ensures at >= Gone(q, s.(queue := Insert(s.queue, at, e)))
  {
    var s1 := s.(queue := Insert(s.queue, at, e));
    PassKeepsEnd(q, s1);
    hide Pass;
    assert s1.queue[at] == e && !Before(e, e);
    var i :| 0 <= i < |Pass(q, s1).queue| && Pass(q, s1).queue[i] == e;
    assert s1.queue[Gone(q, s1) + i] == e;
    assert at < Gone(q, s1) ==> SequencedBefore(s1.queue[at], s1.queue[Gone(q, s1) + i]);
  }

  lemma HandlesBegin(q: Layout, lim: Limits, s: Loose, c: LooseCommand, at: nat)
    requires Proper(q) && c.SendUnreliableFragment? && |c.data| <= lim.packetSize && InWindow(q, c.number, s.current)
    requires !(c.number == s.current && c.start <= s.unreliable)
    requires R.FragmentInside(lim, c.index, c.count, c.offset, c.total, |c.data|)
    requires Search(s.queue, c.number, c.start, s.current, |s.queue|) == R.Gap(at)
    ensures HandleLoose(q, lim, s, false, s.base, c) == BeginLoose(q, s, at, s.base, c)
  {
    hide BeginLoose, InWindow, Search;
  }

  /** The search for a packet none of which has come. */
  lemma NotFound(q: Layout, loose: seq<LoosePacket>, s: Loose, k: nat, e: Waiting) returns (at: nat)
    requires Proper(q) && Steady(q, s) && AllCame(loose, s.queue) && Ordered(loose)
    requires k < |loose| && loose[k].Sequenced? && loose[k].base == e.base && loose[k].unreliable == e.unreliable
    requires Admissible(q, s, e) && !e.unsequenced && InWindow(q, e.command.number, s.current)
    requires forall x | x in s.queue && !x.unsequenced :: !Came(loose, x, k)
    ensures Search(s.queue, e.command.number, e.unreliable, s.current, |s.queue|) == R.Gap(at) && at <= |s.queue|
  {
    hide Steady, Admissible, Came, Ordered, InWindow, Search;
    match Search(s.queue, e.command.number, e.unreliable, s.current, |s.queue|)
    case Taken(i) =>
      FoundCame(q, loose, s, k, e, i);
      assert false;
    case Gap(i) => at := i;
  }

  lemma OwnPiece(q: Layout, lim: Limits, loose: seq<LoosePacket>, s: Loose, k: nat, j: nat)
    requires Proper(q) && Steady(q, s) && AllCame(loose, s.queue) && Ordered(loose) && InPieces(lim, loose, s, k)
    requires j < Pieces(loose[k].message) && Undisturbed(s, loose[k].unreliable)
    ensures Added(loose, s, HandleLoose(q, lim, s, false, s.base, LooseCommandOf(loose[k], j)), k, j)
  {
    if at :| 0 <= at < |s.queue| && !s.queue[at].unsequenced && Came(loose, s.queue[at], k) {
      hide *;
      PieceAdded(q, lim, loose, s, k, j, at);
    } else {
      hide *;
      PieceBegins(q, lim, loose, s, k, j);
    }
  }

  /** Packet k is on its way: it has come out, or nothing has disturbed it. */
  ghost predicate OnItsWay(q: Layout, lim: Limits, loose: seq<LoosePacket>, s: Loose, k: nat)
    requires Proper(q)
  {
    && Holds(q, loose, s) && InPieces(lim, loose, s, k)
    && (Out(loose, s, k) || Undisturbed(s, loose[k].unreliable))
  }

  /** Unless it has come out, the command that waits for it has the piece. */
  ghost predicate Arrived(loose: seq<LoosePacket>, s: Loose, k: nat, j: nat) {
    Out(loose, s, k) || HasPart(loose, s, k, j)
  }

  lemma StepOnItsWay(q: Layout, lim: Limits, loose: seq<LoosePacket>, s: Loose, k: nat, step: Step, j: nat)
    requires Proper(q) && AllPacketable(loose) && AllLooseSendable(lim, loose) && Ordered(loose)
    requires OnItsWay(q, lim, loose, s, k) && Exists(loose, step) && Allowed(q, loose, s, step)
    requires Undisturbing(loose, k, step)
    ensures var s' := After(q, lim, loose, s, step);
            && OnItsWay(q, lim, loose, s', k)
            && (Arrived(loose, s, k, j) || step == Brings(false, k, j) ==> Arrived(loose, s', k, j))
  {
    var s' := After(q, lim, loose, s, step);
    BringHolds(q, lim, loose, s, step.leaving, step.k, step.j);
    if Out(loose, s, k) {
      StillOut(loose, s, s', k);
      BaseStays(q, lim, loose, s, step);
      hide HandleLoose, Holds, Out;
    } else if step.k == k {
      hide HandleLoose, Steady, AllCame, Undisturbed, Out, HasPart, Ordered, LooseCommandOf;
      OwnPiece(q, lim, loose, s, k, step.j);
      BaseStays(q, lim, loose, s, step);
    } else {
      OtherKeeps(q, lim, loose, s, k, step);
      BaseStays(q, lim, loose, s, step);
      if HasPart(loose, s, k, j) { PartStays(loose, s, s', k, j); }
      hide HandleLoose, Steady, AllCame, Undisturbed, Out, HasPart;
    }
  }

  lemma StillOut(loose: seq<LoosePacket>, s: Loose, s': Loose, k: nat)
    requires s.dispatched <= s'.dispatched && Out(loose, s, k)
    ensures Out(loose, s', k)
  {
    hide Came;
  }

  lemma PartStays(loose: seq<LoosePacket>, s: Loose, s': Loose, k: nat, j: nat)
    requires k < |loose| && loose[k].Sequenced? && loose[k].base == s.base
    requires Keeps(s, s', loose[k].unreliable) && HasPart(loose, s, k, j)
    ensures HasPart(loose, s', k, j)
  {
    hide Bit, D.Entry;
  }

  lemma BaseStays(q: Layout, lim: Limits, loose: seq<LoosePacket>, s: Loose, step: Step)
    requires Proper(q) && AllPacketable(loose) && Exists(loose, step) && step.Brings?
    ensures After(q, lim, loose, s, step).base == s.base
  {
    hide Search, InWindow, Reach, Left, Delivered, LastNumber, Bit, R.Marked, LooseCommandOf, R.FragmentInside, Insert,
        Gone, R.Assembles, NewFragments;
  }

  predicate AllUndisturbing(loose: seq<LoosePacket>, k: nat, steps: seq<Step>)
    requires AllExist(loose, steps) && k < |loose| && loose[k].Sequenced?
  {
    forall i | 0 <= i < |steps| :: Undisturbing(loose, k, steps[i])
  }

  lemma ItsPacket(q: Layout, lim: Limits, loose: seq<LoosePacket>, s: Loose, k: nat)
    requires Proper(q) && OnItsWay(q, lim, loose, s, k)
    ensures k < |loose| && loose[k].Sequenced?
  {
  }

  lemma FirstStep(loose: seq<LoosePacket>, k: nat, steps: seq<Step>)
    requires AllExist(loose, steps) && k < |loose| && loose[k].Sequenced? && AllUndisturbing(loose, k, steps)
    requires steps != []
    ensures Exists(loose, steps[0]) && Undisturbing(loose, k, steps[0])
    ensures AllExist(loose, steps[1..]) && AllUndisturbing(loose, k, steps[1..])
  {
    assert forall i | 0 <= i < |steps| :: Exists(loose, steps[i]);
    hide Exists, Undisturbing;
  }

  lemma {:induction false} RunOnItsWay(q: Layout, lim: Limits, loose: seq<LoosePacket>, s: Loose, k: nat,
                                       steps: seq<Step>, j: nat)
    requires Proper(q) && AllPacketable(loose) && AllLooseSendable(lim, loose) && Ordered(loose)
    requires OnItsWay(q, lim, loose, s, k) && AllExist(loose, steps) && AllAllowed(q, lim, loose, s, steps)
    requires AllUndisturbing(loose, k, steps)
    ensures var s' := Run(q, lim, loose, s, steps);
            && OnItsWay(q, lim, loose, s', k)
            && (Arrived(loose, s, k, j) || Brings(false, k, j) in steps ==> Arrived(loose, s', k, j))
    decreases |steps|
  {
    hide OnItsWay, Arrived, Ordered, AllLooseSendable, AllPacketable, After, Undisturbing, Exists, Allowed;
    if steps != [] {
      ItsPacket(q, lim, loose, s, k);
      FirstStep(loose, k, steps);
      StepOnItsWay(q, lim, loose, s, k, steps[0], j);
      RunOnItsWay(q, lim, loose, After(q, lim, loose, s, steps[0]), k, steps[1..], j);
      assert steps == [steps[0]] + steps[1..];
    }
  }

  /** A command that has every piece cannot wait for the current number. */
  lemma NotAllWait(q: Layout, lim: Limits, loose: seq<LoosePacket>, s: Loose, k: nat)
    requires Proper(q) && OnItsWay(q, lim, loose, s, k)
    requires forall j: nat | j < Pieces(loose[k].message) :: Arrived(loose, s, k, j)
    ensures Out(loose, s, k)
  {
    if !Out(loose, s, k) {
      var m := loose[k].message;
      PieceBounds(m, 0) by { PiecesPositive(m); }
      assert Arrived(loose, s, k, 0);
      var e :| e in s.queue && !e.unsequenced && Came(loose, e, k) && Bit(e.command.fragments, 0);
      var at :| 0 <= at < |s.queue| && s.queue[at] == e;
      assert MayWait(q, s.queue[at], s.base, s.unreliable);
      hide Out, Bit, InOrder, Past, Pieces;
      forall j: nat | j < Pieces(m) ensures Bit(e.command.fragments, j) {
        assert Arrived(loose, s, k, j);
        var x :| x in s.queue && !x.unsequenced && Came(loose, x, k) && Bit(x.command.fragments, j);
        OneWaits(q, loose, s, k, at, x);
      }
      ClearIsNone(e.command.fragments, Pieces(m));
      assert false;
    }
  }

  /** A packet in fragments for the number the channel stands at, with none of those it comes before waiting or out
      yet: once every piece has come, in any order and however often, and whatever comes of other packets so long as
      it does not come before them, it is out, with its bytes. */
  lemma PiecesComeOut(q: Layout, lim: Limits, loose: seq<LoosePacket>, s: Loose, k: nat, steps: seq<Step>)
    requires Proper(q) && AllPacketable(loose) && AllLooseSendable(lim, loose) && Ordered(loose) && Holds(q, loose, s)
    requires AllExist(loose, steps) && AllAllowed(q, lim, loose, s, steps)
    requires InPieces(lim, loose, s, k) && Undisturbed(s, loose[k].unreliable) && AllUndisturbing(loose, k, steps)
    requires forall j: nat | j < Pieces(loose[k].message) :: Brings(false, k, j) in steps
    ensures exists e :: e in Run(q, lim, loose, s, steps).dispatched && !e.unsequenced && e.base == loose[k].base
                        && e.unreliable == loose[k].unreliable && e.command.data == loose[k].message.data
  {
    var s' := Run(q, lim, loose, s, steps);
    RunOnItsWay(q, lim, loose, s, k, steps, 0);
    forall j: nat | j < Pieces(loose[k].message) ensures Arrived(loose, s', k, j) {
      RunOnItsWay(q, lim, loose, s, k, steps, j);
    }
    hide Run, OnItsWay, Arrived, AllAllowed;
    NotAllWait(q, lim, loose, s', k);
  }

  /** What came out, against what was sent: packet ids[i] each time, with its bytes. */
  ghost predicate Traced(loose: seq<LoosePacket>, dispatched: seq<Waiting>, ids: seq<nat>) {
    && |ids| == |dispatched|
    && forall i | 0 <= i < |ids| ::
         && ids[i] < |loose| && (dispatched[i].unsequenced <==> loose[ids[i]].Unsequenced?)
         && dispatched[i].command.data ==
            if loose[ids[i]].Unsequenced? then loose[ids[i]].data else loose[ids[i]].message.data
  }

  /** End to end: the sequenced packets that come out of a channel are a subsequence of those sent, each
      with the bytes it was sent with, whatever is dropped, duplicated or reordered within the staleness
      bounds. */
  lemma DispatchedIsSubsequence(q: Layout, lim: Limits, loose: seq<LoosePacket>, steps: seq<Step>)
    returns (ids: seq<nat>)
    requires Proper(q) && AllPacketable(loose) && AllLooseSendable(lim, loose) && Ordered(loose)
    requires AllExist(loose, steps) && AllAllowed(q, lim, loose, FRESH, steps)
    ensures var d := Run(q, lim, loose, FRESH, steps).dispatched;
            && Traced(loose, d, ids)
            && forall i, j | 0 <= i < j < |ids| && !d[i].unsequenced && !d[j].unsequenced :: ids[i] < ids[j]
  {
    RunHolds(q, lim, loose, FRESH, steps);
    var d := Run(q, lim, loose, FRESH, steps).dispatched;
    hide Steady, Run, AllPacketable, AllLooseSendable, AllAllowed;
    assert InOrder(d) by { SteadyInOrder(q, Run(q, lim, loose, FRESH, steps)); }
    ids := Trace(loose, d);
  }

  lemma SteadyInOrder(q: Layout, s: Loose)
    requires Proper(q) && Steady(q, s)
    ensures InOrder(s.dispatched)
  {
  }

  lemma Trace(loose: seq<LoosePacket>, d: seq<Waiting>) returns (ids: seq<nat>)
    requires Ordered(loose) && InOrder(d) && AllCame(loose, d)
    ensures Traced(loose, d, ids)
    ensures forall i, j | 0 <= i < j < |ids| && !d[i].unsequenced && !d[j].unsequenced :: ids[i] < ids[j]
  {
    ids := [];
    while |ids| < |d|
      invariant |ids| <= |d| && forall i | 0 <= i < |ids| :: Came(loose, d[i], ids[i])
    {
      assert Origin(loose, d[|ids|]);
      var k: nat :| Came(loose, d[|ids|], k);
      ids := ids + [k];
    }
    forall i | 0 <= i < |ids| && !d[i].unsequenced ensures d[i].command.data == loose[ids[i]].message.data {
      D.EntryComplete(loose[ids[i]].message, d[i].base, d[i].command);
    }
    forall i, j | 0 <= i < j < |ids| && !d[i].unsequenced && !d[j].unsequenced ensures ids[i] < ids[j] {
      assert SequencedBefore(d[i], d[j]);
    }
  }
}
