/** The window a peer keeps over the groups of unsequenced packets: which copies are let through. */
module Unsequenced {
  import opened Bitmap
  import opened Constants
  import opened Windows

  /** ENET_PEER_UNSEQUENCED_WINDOW_SIZE, in words, and ENET_PEER_FREE_UNSEQUENCED_WINDOWS. */
  datatype Groups = Groups(words: nat, free: nat)

  function Size(g: Groups): nat {
    32 * g.words
  }

  /** How far ahead of the window's first group a copy may lie. */
  function Free(g: Groups): nat {
    g.free * Size(g)
  }

  predicate Fitting(g: Groups) {
    0 < g.words && 0 < g.free && SPAN % Size(g) == 0 && Free(g) < SPAN
  }

  /** The place of a group in its window. */
  function Place(g: Groups, n: nat): (i: nat)
    requires 0 < g.words
    ensures i < Size(g) && i <= n && i / 32 < g.words
  {
    Remainder(n, Size(g));
    n % Size(g)
  }

  lemma Remainder(n: nat, w: nat)
    requires 0 < w
    ensures n == n / w * w + n % w && 0 <= n % w < w && n % w <= n
  {
  }

  /** incomingUnsequencedGroup and unsequencedWindow. */
  datatype Seen = Seen(base: nat, bits: seq<bv32>)

  predicate Shaped(g: Groups, s: Seen) {
    s.base < SPAN && |s.bits| == g.words
  }

  /** How far ahead of the window's first group the code finds a group. */
  function Ahead(base: nat, group: nat): nat
    requires base < SPAN
  {
    if group < base then group + SPAN - base else group - base
  }

  /** The part of enet_protocol_handle_send_unsequenced that decides about a copy. */
  function Take(g: Groups, s: Seen, group: nat): (r: (Seen, bool))
    requires 0 < g.words && Shaped(g, s) && group < SPAN
    ensures Shaped(g, r.0)
  {
    var index := Place(g, group);
    if Ahead(s.base, group) >= Free(g) then (s, false)
    else if group - index != s.base then (Seen(group - index, WithBit(Zeros(g.words), index)), true)
    else if Bit(s.bits, index) then (s, false)
    else (s.(bits := WithBit(s.bits, index)), true)
  }

  /** ENetPeer, as far as unsequenced packets go. */
  class UnsequencedWindow {
    const g: Groups
    var incomingUnsequencedGroup: nat
    const unsequencedWindow: array<bv32>

    ghost predicate Valid()
      reads this
    {
      0 < g.words && Shaped(g, Seen(incomingUnsequencedGroup, seq(unsequencedWindow.Length, _ => 0)))
    }

    ghost function State(): Seen
      reads this, unsequencedWindow
    {
      Seen(incomingUnsequencedGroup, unsequencedWindow[..])
    }

    constructor (g: Groups)
      requires 0 < g.words
      ensures Valid() && this.g == g && fresh(unsequencedWindow) && State() == Seen(0, Zeros(g.words))
    {
      this.g := g;
      incomingUnsequencedGroup := 0;
      unsequencedWindow := new bv32[g.words](_ => 0);
    }

    /** Whether the copy goes on to the queue of its channel; a copy that does is noted. */
    method HandleSendUnsequenced(group: nat) returns (taken: bool)
      requires Valid() && group < SPAN
      modifies this`incomingUnsequencedGroup, unsequencedWindow
      ensures Valid() && (State(), taken) == Take(g, old(State()), group)
    {
      hide Size, Free, Place, Mask, Meets, WithBit;
      var index, unsequencedGroup := Place(g, group), group;
      if unsequencedGroup < incomingUnsequencedGroup { unsequencedGroup := unsequencedGroup + 0x1_0000; }
      if unsequencedGroup >= incomingUnsequencedGroup + Free(g) { return false; }
      unsequencedGroup := unsequencedGroup % 0x1_0000;
      if unsequencedGroup - index != incomingUnsequencedGroup {
        incomingUnsequencedGroup := unsequencedGroup - index;
        ClearWindow();
      } else if Meets(unsequencedWindow[index / 32], Mask(index % 32)) {
        return false;
      }
      Note(index);
      taken := true;
    }

    method Note(index: nat)
      requires index / 32 < unsequencedWindow.Length
      modifies unsequencedWindow
      ensures unsequencedWindow[..] == WithBit(old(unsequencedWindow[..]), index)
    {
      hide Mask, Or;
      unsequencedWindow[index / 32] := Or(unsequencedWindow[index / 32], Mask(index % 32));
    }

    /** memset of the window. */
    method ClearWindow()
      modifies unsequencedWindow
      ensures unsequencedWindow[..] == Zeros(unsequencedWindow.Length)
    {
      for k := 0 to unsequencedWindow.Length
        invariant forall i | 0 <= i < k :: unsequencedWindow[i] == 0
      {
        unsequencedWindow[k] := 0;
      }
    }
  }

  // ----- the unbounded numbers -----

  /** base is the unbounded number of the window's first group, taken the groups let through so far. */
  ghost predicate Tracks(g: Groups, s: Seen, base: nat, taken: seq<nat>)
    requires 0 < g.words
  {
    && Shaped(g, s) && Place(g, base) == 0 && s.base == Cut(base) && OnceEach(taken)
    && (forall n | n in taken :: n < base + Size(g))
    && (forall i | 0 <= i < Size(g) :: Bit(s.bits, i) <==> base + i in taken)
  }

  ghost predicate OnceEach(taken: seq<nat>) {
    forall i, j | 0 <= i < j < |taken| :: taken[i] != taken[j]
  }

  /** A copy neither more stale nor further ahead than tells old from new. */
  predicate Near(g: Groups, base: nat, n: nat) {
    n < base + SPAN && base + Free(g) <= n + SPAN
  }

  /** Where the window stands after group n has been let through. */
  function Moved(g: Groups, base: nat, n: nat): nat
    requires 0 < g.words
  {
    if n < base + Size(g) then base else n - Place(g, n)
  }

  lemma PlaceOfCut(g: Groups, n: nat)
    requires Fitting(g)
    ensures Place(g, Cut(n)) == Place(g, n)
  {
    hide Free;
    var w := Size(g);
    var lap, s, k := n / SPAN, n % SPAN, SPAN / w;
    assert SPAN == k * w;
    var c, r := s / w, s % w;
    assert s == c * w + r;
    Laps(lap, k, c, w, r);
  }

  lemma Laps(lap: nat, k: nat, c: nat, w: nat, r: nat)
    requires r < w
    ensures (lap * (k * w) + (c * w + r)) % w == r
  {
    assert lap * (k * w) + (c * w + r) == (lap * k + c) * w + r;
    Divided(lap * k + c, r, w);
  }

  lemma AheadIs(base: nat, n: nat)
    requires n < base + SPAN && base < n + SPAN
    ensures Ahead(Cut(base), Cut(n)) == if base <= n then n - base else n + SPAN - base
  {
    if base <= n { CutPlus(base, n - base); } else { CutPlus(n, base - n); }
  }

  /** The window of a group that is not behind: the present one, or one that starts at its end or later. */
  lemma WindowStart(g: Groups, base: nat, n: nat)
    requires 0 < g.words && Place(g, base) == 0 && base <= n
    ensures var start := n - Place(g, n);
            && Place(g, start) == 0
            && if n < base + Size(g) then start == base else base + Size(g) <= start
  {
    Starts(base, n, Size(g));
  }

  lemma Starts(base: nat, n: nat, w: nat)
    requires 0 < w && base % w == 0 && base <= n
    ensures 0 <= n - n % w && (n - n % w) % w == 0
    ensures if n < base + w then n - n % w == base else base + w <= n - n % w
  {
    var a, b := base / w, n / w;
    Remainder(base, w);
    Remainder(n, w);
    Divided(b, 0, w);
    Laid(a, b, n % w, w);
  }

  lemma Laid(a: nat, b: nat, r: nat, w: nat)
    requires r < w && a * w <= b * w + r
    ensures if b * w + r < a * w + w then a * w == b * w else a * w + w <= b * w
  {
    if b < a { Product(b + 1, a, w); }
    if a < b { Product(a + 1, b, w); }
  }

  lemma StartCut(g: Groups, n: nat)
    requires Fitting(g)
    ensures Cut(n) - Place(g, n) == Cut(n - Place(g, n))
  {
    PlaceOfCut(g, n);
    hide Place, Size, Free;
    var start := n - Place(g, n);
    assert 0 <= Cut(n) - Place(g, n);
    CutPlus(Cut(n) - Place(g, n), Place(g, n));
    SubCut(n, Place(g, n));
  }

  lemma SubCut(n: nat, r: nat)
    requires r <= Cut(n) && r <= n
    ensures Cut(n - r) == Cut(n) - r
  {
    Divided(n / SPAN, Cut(n) - r, SPAN);
  }

  /** Exactly the groups in or ahead of the window that have not been let through before are let
      through. */
  lemma TakeTracks(g: Groups, s: Seen, base: nat, taken: seq<nat>, n: nat)
    requires Fitting(g) && Tracks(g, s, base, taken) && Near(g, base, n)
    ensures var (s', ok) := Take(g, s, Cut(n));
            && (ok <==> base <= n < base + Free(g) && n !in taken)
            && if ok then Tracks(g, s', Moved(g, base, n), taken + [n]) else s' == s
  {
    AheadIs(base, n);
    if base <= n < base + Free(g) {
      WindowStart(g, base, n);
      PlaceOfCut(g, n);
      StartCut(g, n);
      var start := n - Place(g, n);
      LaterIsGreater(base, start, base);
      if n < base + Size(g) {
        if !Bit(s.bits, n - base) { BitTaken(g, s, base, taken, n); }
      } else {
        NewWindow(g, base, taken, start, Place(g, n));
      }
      hide Cut, Bit, WithBit, Place, Size, Free, Ahead, Later;
    }
  }

  /** The number a copy is taken for, which may be laps later than its own. */
  function TakenFor(base: nat, n: nat): (m: nat)
    ensures base <= m < base + SPAN
  {
    base + (n - base) % SPAN
  }

  lemma TakenForIs(base: nat, n: nat)
    ensures Cut(TakenFor(base, n)) == Cut(n)
    ensures n < base + SPAN && base <= n + SPAN ==> TakenFor(base, n) == if base <= n then n else n + SPAN
  {
    var laps, lap := (n - base) / SPAN, n / SPAN;
    assert TakenFor(base, n) == (lap - laps) * SPAN + n % SPAN;
    Divided(lap - laps, n % SPAN, SPAN);
  }

  /** Exactly which copies are let through, however stale or far ahead they are. */
  lemma LetThrough(g: Groups, s: Seen, base: nat, taken: seq<nat>, n: nat)
    requires Fitting(g) && Tracks(g, s, base, taken)
    ensures var m := TakenFor(base, n); Take(g, s, Cut(n)).1 <==> m < base + Free(g) && m !in taken
  {
    TakenForIs(base, n);
    hide Take, Tracks;
    TakeTracks(g, s, base, taken, TakenFor(base, n));
  }

  /** When a group that has been let through is let through again.  Less than a lap behind the window, that is
      when the group a lap later is near enough and has not been let through itself. */
  lemma LetThroughAgain(g: Groups, s: Seen, base: nat, taken: seq<nat>, n: nat)
    requires Fitting(g) && Tracks(g, s, base, taken) && n in taken
    ensures Take(g, s, Cut(n)).1 <==>
            n < base && TakenFor(base, n) < base + Free(g) && TakenFor(base, n) !in taken
    ensures base <= n + SPAN ==>
              (Take(g, s, Cut(n)).1 <==> n < base && n + SPAN < base + Free(g) && n + SPAN !in taken)
  {
    LetThrough(g, s, base, taken, n);
    TakenForIs(base, n);
    assert n < base + SPAN by { SizeFits(g); }
    hide Take;
  }

  lemma SizeFits(g: Groups)
    requires Fitting(g)
    ensures Size(g) <= Free(g) < SPAN
  {
    Product(1, g.free, Size(g));
  }

  lemma BitTaken(g: Groups, s: Seen, base: nat, taken: seq<nat>, n: nat)
    requires 0 < g.words && Tracks(g, s, base, taken) && base <= n < base + Size(g) && n !in taken
    ensures (n - base) / 32 < |s.bits|
    ensures Tracks(g, s.(bits := WithBit(s.bits, n - base)), base, taken + [n])
  {
    hide Bit, WithBit, Cut, Place;
    var bits, all := WithBit(s.bits, n - base), taken + [n];
    forall i | 0 <= i < Size(g) ensures Bit(bits, i) <==> base + i in all {
      SetOnly(s.bits, n - base, i);
    }
  }

  lemma NewWindow(g: Groups, base: nat, taken: seq<nat>, start: nat, index: nat)
    requires 0 < g.words && OnceEach(taken) && (forall m | m in taken :: m < base + Size(g))
    requires base + Size(g) <= start && Place(g, start) == 0 && index < Size(g) && index / 32 < g.words
    ensures Tracks(g, Seen(Cut(start), WithBit(Zeros(g.words), index)), start, taken + [start + index])
  {
    var zeros, all := Zeros(g.words), taken + [start + index];
    hide Bit, WithBit, Zeros, Place;
    assert start + index !in taken;
    var bits := WithBit(zeros, index);
    forall i | 0 <= i < Size(g) ensures Bit(bits, i) <==> start + i in all {
      SetOnly(zeros, index, i);
      NoBit(g.words, i);
      assert start + i !in taken;
      assert all[|taken|] == start + index;
    }
  }

  // ----- runs -----

  /** What has come of the copies so far: the window, where it stands and the groups let through. */
  datatype Progress = Progress(s: Seen, base: nat, taken: seq<nat>)

  function Start(g: Groups): Progress {
    Progress(Seen(0, Zeros(g.words)), 0, [])
  }

  function Next(g: Groups, p: Progress, n: nat): (r: Progress)
    requires 0 < g.words && Shaped(g, p.s)
    ensures Shaped(g, r.s)
  {
    var (s, ok) := Take(g, p.s, Cut(n));
    if ok then Progress(s, Moved(g, p.base, n), p.taken + [n]) else p.(s := s)
  }

  function Run(g: Groups, p: Progress, copies: seq<nat>): (r: Progress)
    requires 0 < g.words && Shaped(g, p.s)
    ensures Shaped(g, r.s)
    decreases |copies|
  {
    if copies == [] then p else Run(g, Next(g, p, copies[0]), copies[1..])
  }

  predicate AllNear(g: Groups, p: Progress, copies: seq<nat>)
    requires 0 < g.words && Shaped(g, p.s)
    decreases |copies|
  {
    copies == [] || (Near(g, p.base, copies[0]) && AllNear(g, Next(g, p, copies[0]), copies[1..]))
  }

  lemma {:induction false} RunTracks(g: Groups, p: Progress, copies: seq<nat>)
    requires Fitting(g) && Tracks(g, p.s, p.base, p.taken) && AllNear(g, p, copies)
    ensures var r := Run(g, p, copies);
            && Tracks(g, r.s, r.base, r.taken) && p.base <= r.base && p.taken <= r.taken
            && forall n | n in r.taken :: n in p.taken || n in copies
    decreases |copies|
  {
    if copies != [] {
      TakeTracks(g, p.s, p.base, p.taken, copies[0]);
      assert p.base <= copies[0] ==> p.base <= Moved(g, p.base, copies[0]) by {
        if p.base <= copies[0] { WindowStart(g, p.base, copies[0]); }
      }
      hide Take, Tracks, Moved, Near, Fitting;
      RunTracks(g, Next(g, p, copies[0]), copies[1..]);
    }
  }

  /** Over every run of copies no group is let through twice, none that did not come, and the window
      only moves forward. */
  lemma AtMostOnce(g: Groups, copies: seq<nat>, more: seq<nat>)
    requires Fitting(g) && AllNear(g, Start(g), copies) && AllNear(g, Run(g, Start(g), copies), more)
    ensures var p, r := Run(g, Start(g), copies), Run(g, Run(g, Start(g), copies), more);
            && OnceEach(r.taken) && p.taken <= r.taken && p.base <= r.base
            && forall n | n in r.taken :: n in copies || n in more
  {
    StartTracks(g);
    RunTracks(g, Start(g), copies);
    RunTracks(g, Run(g, Start(g), copies), more);
  }

  lemma StartTracks(g: Groups)
    requires Fitting(g)
    ensures Tracks(g, Start(g).s, 0, [])
  {
    forall i | 0 <= i < Size(g) ensures !Bit(Zeros(g.words), i) { NoBit(g.words, i); }
  }

  /** With the library's numbers: once the window has moved on by 33 of its lengths, a copy of an old
      group is let through a second time. */
  lemma StaleGroupTwice()
    ensures var g, copies := Groups(32, 32), [5, 20000, 33800];
            && Fitting(g) && AllNear(g, Start(g), copies) && !Near(g, Run(g, Start(g), copies).base, 5)
            && Run(g, Run(g, Start(g), copies), [5]).taken == copies + [5]
  {
    var g := Groups(32, 32);
    var p0 := Start(g);
    StartTracks(g);
    var p1 := FirstTime(g, p0, 5);
    var p2 := FirstTime(g, p1, 20000);
    var p3 := FirstTime(g, p2, 33800);
    assert p3.base == 33792 && p3.taken == [5, 20000, 33800];
    assert Next(g, p3, 5).taken == p3.taken + [5] by { assert Place(g, 5) == 5; }
    hide Next, Tracks, Take;
    RunOne(g, p0, 5, [20000, 33800]);
    RunOne(g, p1, 20000, [33800]);
    RunOne(g, p2, 33800, []);
    RunOne(g, p3, 5, []);
    assert [5] + [20000, 33800] == [5, 20000, 33800] && [20000] + [33800] == [20000, 33800];
  }

  lemma FirstTime(g: Groups, p: Progress, n: nat) returns (r: Progress)
    requires Fitting(g) && Tracks(g, p.s, p.base, p.taken) && Near(g, p.base, n)
    requires p.base <= n < p.base + Free(g) && n !in p.taken
    ensures r == Next(g, p, n) && r.base == Moved(g, p.base, n) && r.taken == p.taken + [n]
    ensures Tracks(g, r.s, r.base, r.taken)
  {
    TakeTracks(g, p.s, p.base, p.taken, n);
    hide Tracks, Moved;
    r := Next(g, p, n);
  }

  lemma RunOne(g: Groups, p: Progress, n: nat, rest: seq<nat>)
    requires 0 < g.words && Shaped(g, p.s)
    ensures Run(g, p, [n] + rest) == Run(g, Next(g, p, n), rest)
    ensures AllNear(g, p, [n] + rest) <==> Near(g, p.base, n) && AllNear(g, Next(g, p, n), rest)
  {
    hide Next, Near;
    assert ([n] + rest)[1..] == rest;
  }
}
