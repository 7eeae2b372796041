/** What the model of compress.c knows after a message, told by the message itself.

    A context is a run of two bytes, one or none.  It hears of a byte that follows it in the message unless
    the run that is a byte longer has known that byte before, and nothing else changes it. */
module Prediction {
  import opened Bytes
  import opened RangeCoding
  import opened ContextModel
  import opened Codec

  // ----- counting in the message -----

  predicate Ends(msg: seq<byte>, p: Path) {
    |p| <= |msg| && msg[|msg| - |p|..] == p
  }

  /** v has followed p somewhere in the message. */
  predicate Seen(msg: seq<byte>, p: Path, v: byte) {
    exists i: nat :: i < |msg| && msg[i] == v && Ends(msg[..i], p)
  }

  /** A value v that comes next is counted after p: the message ends in p, and p is as long as can be, or
      v has never followed the run that is a byte longer. */
  predicate Counts(msg: seq<byte>, p: Path, v: byte) {
    Ends(msg, p) && (|p| == 2 || |p| == |msg| || !Seen(msg, msg[|msg| - |p| - 1..], v))
  }

  // ----- what a context hears -----

  /** What the values below w weigh: at the root a value weighs 1 more than its count. */
  function WeightBelow(p: Path, counts: Table, w: nat): nat
    requires w <= 256
  {
    if w == 0 then 0 else WeightBelow(p, counts, w - 1) + counts[w - 1] + if p == [] then 1 else 0
  }

  function HalfUp(n: nat): nat {
    (n + 1) / 2
  }

  /** A context hears of v: its count goes up by 2, at the root by 3, and a value it has not heard of before adds 5
      to what stands for the unheard ones.  If another count of v would no longer fit 8 bits, or the total is within
      256 of 2^16, everything is halved, rounding up. */
  function Hear(p: Path, c: Ctx, v: byte): Ctx {
    var counts := c.freq[v := c.freq[v] + if p == [] then 3 else 2];
    var escapes := if p != [] && c.freq[v] == 0 then c.escapes + 5 else c.escapes;
    if c.freq[v] > (if p == [] then 249 else 251) || escapes + WeightBelow(p, counts, 256) > 0xFF00
    then Ctx(seq(256, w requires 0 <= w < 256 => HalfUp(counts[w])), HalfUp(escapes))
    else Ctx(counts, escapes)
  }

  /** What the context p has come to after the message. */
  function Heard(msg: seq<byte>, p: Path): Ctx {
    if msg == [] then Ctx(NoSymbols(), if p == [] then 1 else 0)
    else
      var before, v := msg[..|msg| - 1], msg[|msg| - 1];
      if Counts(before, p, v) then Hear(p, Heard(before, p), v) else Heard(before, p)
  }

  // ----- how full the pool is -----

  /** v, coming next, is new to the run of the last k bytes. */
  predicate NewTo(msg: seq<byte>, k: nat, v: byte) {
    k <= |msg| && var p := msg[|msg| - k..]; Counts(msg, p, v) && !Seen(msg, p, v)
  }

  function One(b: bool): nat {
    if b then 1 else 0
  }

  /** The symbols in the pool: the root, and one for every context and value new to it. */
  function Symbols(msg: seq<byte>): (n: nat)
    ensures n <= 1 + 3 * |msg|
  {
    if msg == [] then 1
    else
      var before, v := msg[..|msg| - 1], msg[|msg| - 1];
      Symbols(before) + One(NewTo(before, 0, v)) + One(NewTo(before, 1, v)) + One(NewTo(before, 2, v))
  }

  /** The part of the message since the model last began anew, which it does when there is no room for another
      byte's symbols. */
  function Since(msg: seq<byte>): seq<byte> {
    if msg == [] then []
    else
      var s := Since(msg[..|msg| - 1]) + [msg[|msg| - 1]];
      if Symbols(s) >= 4094 then [] else s
  }

  function LastTwo(msg: seq<byte>): (r: seq<byte>)
    ensures |r| <= 2
  {
    if |msg| <= 2 then msg else msg[|msg| - 2..]
  }

  // ----- how a message is coded -----

  /** The steps that code v after a message, from p on: an escape for every context that has heard of something but
      not of v. */
  function CodedByte(msg: seq<byte>, p: Path, v: byte): seq<Step>
    decreases |p|
  {
    var c := Heard(msg, p);
    var total := c.escapes + WeightBelow(p, c.freq, 256);
    if p == [] || c.freq[v] > 0
    then [Step(c.escapes + WeightBelow(p, c.freq, v), c.freq[v] + (if p == [] then 1 else 0), total)]
    else (if 0 < c.escapes < total then [Step(0, c.escapes, total)] else []) + CodedByte(msg, p[1..], v)
  }

  function Coded(msg: seq<byte>): seq<Step> {
    if msg == [] then []
    else
      var before := msg[..|msg| - 1];
      Coded(before) + CodedByte(Since(before), LastTwo(Since(before)), msg[|msg| - 1])
  }

  // ----- what has been seen -----

  lemma EndsShorter(msg: seq<byte>, p: Path)
    requires Ends(msg, p) && p != []
    ensures Ends(msg, p[1..])
  {
    var k := |msg| - |p|;
    assert msg[k..][1..] == msg[k + 1..];
  }

  lemma SeenShorter(msg: seq<byte>, p: Path, v: byte)
    requires Seen(msg, p, v) && p != []
    ensures Seen(msg, p[1..], v)
  {
    var i: nat :| i < |msg| && msg[i] == v && Ends(msg[..i], p);
    EndsShorter(msg[..i], p);
  }

  lemma SeenNext(msg: seq<byte>, p: Path, v: byte)
    requires msg != []
    ensures var n := |msg| - 1; Seen(msg, p, v) <==> Seen(msg[..n], p, v) || (msg[n] == v && Ends(msg[..n], p))
  {
    var n := |msg| - 1;
    forall i: nat | i < n ensures msg[..n][..i] == msg[..i] && msg[..n][i] == msg[i] {
    }
    if Seen(msg[..n], p, v) {
      var i: nat :| i < n && msg[..n][i] == v && Ends(msg[..n][..i], p);
      assert msg[i] == v && Ends(msg[..i], p);
    }
    if Seen(msg, p, v) {
      var i: nat :| i < |msg| && msg[i] == v && Ends(msg[..i], p);
      assert i < n ==> msg[..n][i] == v && Ends(msg[..n][..i], p);
    }
    hide Ends;
  }

  /** The longer run, without its first byte, is the shorter one. */
  lemma LongerDrops(msg: seq<byte>, p: Path)
    requires Ends(msg, p) && |p| < |msg|
    ensures var r := msg[|msg| - |p| - 1..]; |r| == |p| + 1 && r[1..] == p && Ends(msg, r)
  {
  }

  /** A value that is not counted after a run it follows has followed it before. */
  lemma CountsOrSeen(msg: seq<byte>, p: Path, v: byte)
    requires |p| <= 2
    ensures Counts(msg, p, v) ==> Ends(msg, p)
    ensures Ends(msg, p) ==> Counts(msg, p, v) || Seen(msg, p, v)
  {
    if Ends(msg, p) && !Counts(msg, p, v) {
      LongerDrops(msg, p);
      SeenShorter(msg, msg[|msg| - |p| - 1..], v);
    }
    hide Seen;
  }

  // ----- which contexts learn -----

  /** Learning v from p on comes to q: every longer context on the way has not seen v. */
  predicate Reached(ctxs: map<Path, Ctx>, p: Path, q: Path, v: byte)
    decreases |p|
  {
    p == q || (p != [] && Get(ctxs, p).freq[v] == 0 && Reached(ctxs, p[1..], q, v))
  }

  lemma {:induction false} ReachedFrame(ctxs: map<Path, Ctx>, r: Path, c: Ctx, p: Path, q: Path, v: byte)
    requires |r| > |p|
    ensures Reached(ctxs[r := c], p, q, v) <==> Reached(ctxs, p, q, v)
    decreases |p|
  {
    if p != q && p != [] { ReachedFrame(ctxs, r, c, p[1..], q, v); }
  }

  lemma {:induction false} ReachedShorter(ctxs: map<Path, Ctx>, p: Path, q: Path, v: byte)
    requires Reached(ctxs, p, q, v)
    ensures |q| <= |p|
    decreases |p|
  {
    if p != q { ReachedShorter(ctxs, p[1..], q, v); }
  }

  lemma {:induction false} LearnEffect(ctxs: map<Path, Ctx>, p: Path, q: Path, v: byte)
    ensures Get(Learn(ctxs, p, v), q) ==
            if Reached(ctxs, p, q, v) then Bump(q, Get(ctxs, q), v) else Get(ctxs, q)
    decreases |p|
  {
    hide Bump;
    var c := Bump(p, Get(ctxs, p), v);
    if p != [] && Get(ctxs, p).freq[v] == 0 {
      LearnEffect(ctxs[p := c], p[1..], q, v);
      ReachedFrame(ctxs, p, c, p[1..], q, v);
      if Reached(ctxs, p[1..], q, v) { ReachedShorter(ctxs, p[1..], q, v); }
    }
  }

  /** The contexts that learning comes to. */
  lemma ReachedCases(ctxs: map<Path, Ctx>, h: Path, p: Path, v: byte)
    requires |h| <= 2
    ensures Reached(ctxs, h, p, v) <==>
            || p == h || (|h| > 0 && Get(ctxs, h).freq[v] == 0 && p == h[1..])
            || (|h| == 2 && Get(ctxs, h).freq[v] == 0 && Get(ctxs, h[1..]).freq[v] == 0 && p == [])
  {
    hide Get;
    assert |h| == 1 ==> h[1..] == [];
    assert |h| == 2 ==> h[1..][1..] == [];
  }

  /** And those that count. */
  lemma CountsCases(msg: seq<byte>, p: Path, v: byte)
    requires |p| <= 2
    ensures var h := LastTwo(msg);
            Counts(msg, p, v) <==>
            || p == h || (|h| > 0 && !Seen(msg, h, v) && p == h[1..])
            || (|h| == 2 && !Seen(msg, h[1..], v) && p == [])
  {
    hide Seen;
    var h, n := LastTwo(msg), |msg|;
    assert msg[n..] == [];
    if n >= 2 {
      assert msg[n - 2..][1..] == msg[n - 1..];
      assert h == msg[n - 2..];
    } else if n == 1 {
      assert h[1..] == [] && msg[0..] == msg;
    }
    if |p| == 1 && Ends(msg, p) { assert p == msg[n - 1..]; }
  }

  // ----- a context that learns hears -----

  lemma {:induction false} StartIsWeight(p: Path, f: Table, w: nat)
    requires w <= 256
    ensures Start(f, Minimum(p), w) == WeightBelow(p, f, w)
    decreases w
  {
    if w > 0 {
      StartIsWeight(p, f, w - 1);
      StartNext(f, Minimum(p), w - 1);
      hide Start;
    }
  }

  lemma HearIsBump(p: Path, c: Ctx, v: byte)
    ensures Hear(p, c, v) == Bump(p, c, v)
  {
    var d := Raised(p, c, v);
    StartIsWeight(p, d.freq, 256);
    hide Start, WeightBelow;
    assert Halve(d.freq) == seq(256, w requires 0 <= w < 256 => HalfUp(d.freq[w]));
  }

  lemma HeardNext(msg: seq<byte>, p: Path, v: byte)
    ensures Heard(msg + [v], p) == if Counts(msg, p, v) then Bump(p, Heard(msg, p), v) else Heard(msg, p)
  {
    assert (msg + [v])[..|msg|] == msg;
    HearIsBump(p, Heard(msg, p), v);
    hide Counts, Hear, Bump;
  }

  lemma HeardStart(p: Path, v: byte)
    requires |p| <= 2
    ensures Sound(p, Heard([], p)) && Heard([], p).freq[v] == 0 && Get(Fresh().ctxs, p) == Heard([], p)
    ensures !Seen([], p, v)
  {
    hide Sound, Total, AllSound;
    FreshGood();
    SoundAt(Fresh().ctxs, p);
  }

  lemma SoundAt(ctxs: map<Path, Ctx>, p: Path)
    requires AllSound(ctxs)
    ensures Sound(p, Get(ctxs, p))
  {
    hide Sound, Get;
  }

  /** Contexts keep in bounds, and have heard of what has followed them. */
  lemma {:induction false} HeardSound(msg: seq<byte>, p: Path, v: byte)
    requires |p| <= 2
    ensures Sound(p, Heard(msg, p)) && (Heard(msg, p).freq[v] > 0 <==> Seen(msg, p, v))
    decreases |msg|
  {
    hide *;
    if msg == [] {
      HeardStart(p, v);
    } else {
      var before, w := msg[..|msg| - 1], msg[|msg| - 1];
      assert msg == before + [w];
      HeardSound(before, p, v);
      HeardNext(before, p, w);
      BumpSound(p, Heard(before, p), w);
      SeenNext(msg, p, v);
      CountsOrSeen(before, p, w);
      CountsOrSeen(before, p, v);
    }
  }

  // ----- the model after a message -----

  ghost predicate Matches(msg: seq<byte>, m: Model) {
    && m.hist == LastTwo(msg) && m.used == Symbols(msg)
    && forall p: Path {:trigger Get(m.ctxs, p)} | |p| <= 2 :: Get(m.ctxs, p) == Heard(msg, p)
  }

  lemma MatchesAt(msg: seq<byte>, m: Model, p: Path, v: byte)
    requires Matches(msg, m) && |p| <= 2
    ensures Get(m.ctxs, p) == Heard(msg, p) && (Get(m.ctxs, p).freq[v] == 0 <==> !Seen(msg, p, v))
  {
    HeardSound(msg, p, v);
    hide Heard, Sound, Seen, Symbols;
  }

  /** Learning comes to the contexts that are to hear of the value. */
  lemma ReachedIsCounts(msg: seq<byte>, m: Model, p: Path, v: byte)
    requires Matches(msg, m) && |p| <= 2
    ensures Reached(m.ctxs, m.hist, p, v) <==> Counts(msg, p, v)
  {
    hide Seen, Reached, Counts, Heard, Get, Symbols;
    var h := m.hist;
    ReachedCases(m.ctxs, h, p, v);
    CountsCases(msg, p, v);
    MatchesAt(msg, m, h, v);
    if h != [] {
      MatchesAt(msg, m, h[1..], v);
      if Seen(msg, h, v) { SeenShorter(msg, h, v); }
    }
  }

  lemma CreatedCases(ctxs: map<Path, Ctx>, h: Path, v: byte)
    requires |h| <= 2
    ensures var n := One(Get(ctxs, []).freq[v] == 0);
            Created(ctxs, h, v) ==
            if h == [] then n
            else if Get(ctxs, h).freq[v] > 0 then 0
            else if |h| == 1 then 1 + n
            else if Get(ctxs, h[1..]).freq[v] > 0 then 1 else 2 + n
  {
    hide Get;
    assert |h| == 1 ==> h[1..] == [];
    assert |h| == 2 ==> h[1..][1..] == [];
  }

  lemma NewToBoth(msg: seq<byte>, h: Path, v: byte)
    requires |h| == 2 && |msg| >= 2 && h == LastTwo(msg)
    ensures NewTo(msg, 2, v) <==> !Seen(msg, h, v)
    ensures NewTo(msg, 1, v) <==> !Seen(msg, h, v) && !Seen(msg, h[1..], v)
    ensures NewTo(msg, 0, v) <==> !Seen(msg, h[1..], v) && !Seen(msg, [], v)
  {
    hide Seen, Counts;
    var n := |msg|;
    assert msg[n..] == [] && msg[n - 1..] == h[1..] && msg[n - 2..] == h;
    CountsCases(msg, h, v);
    CountsCases(msg, h[1..], v);
    CountsCases(msg, [], v);
  }

  lemma NewToOne(msg: seq<byte>, v: byte)
    requires |msg| == 1
    ensures !NewTo(msg, 2, v) && (NewTo(msg, 1, v) <==> !Seen(msg, msg, v))
    ensures NewTo(msg, 0, v) <==> !Seen(msg, msg, v) && !Seen(msg, [], v)
  {
    hide Seen, Counts;
    assert msg[1..] == [] && msg[0..] == msg;
    CountsCases(msg, msg, v);
    CountsCases(msg, [], v);
  }

  lemma NewToNone(v: byte)
    ensures !NewTo([], 2, v) && !NewTo([], 1, v) && (NewTo([], 0, v) <==> !Seen([], [], v))
  {
  }

  /** And makes a symbol in those it is new to. */
  lemma CreatedIsNew(msg: seq<byte>, m: Model, v: byte)
    requires Matches(msg, m)
    ensures Created(m.ctxs, m.hist, v) == One(NewTo(msg, 0, v)) + One(NewTo(msg, 1, v)) + One(NewTo(msg, 2, v))
  {
    hide Seen, Created, NewTo, Heard, Get, Symbols;
    var h := m.hist;
    CreatedCases(m.ctxs, h, v);
    MatchesAt(msg, m, [], v);
    if |msg| == 0 {
      NewToNone(v);
    } else {
      MatchesAt(msg, m, h, v);
      if |msg| == 1 {
        NewToOne(msg, v);
      } else {
        NewToBoth(msg, h, v);
        MatchesAt(msg, m, h[1..], v);
        if Seen(msg, h, v) { SeenShorter(msg, h, v); }
      }
    }
  }

  lemma {:induction false} AfterNext(m: Model, msg: seq<byte>, v: byte)
    ensures After(m, msg + [v]) == Advance(After(m, msg), v)
    decreases |msg|
  {
    hide Advance;
    if msg == [] {
      assert [v][1..] == [];
      assert After(Advance(m, v), []) == Advance(m, v);
    } else {
      assert (msg + [v])[1..] == msg[1..] + [v];
      AfterNext(Advance(m, msg[0]), msg[1..], v);
    }
  }

  lemma ExtendLastTwo(msg: seq<byte>, v: byte)
    ensures Extend(LastTwo(msg), v) == LastTwo(msg + [v])
  {
  }

  lemma MatchesStart()
    ensures Matches([], Fresh())
  {
    FreshStart();
    forall p: Path | |p| <= 2 ensures Get(Fresh().ctxs, p) == Heard([], p) { HeardStart(p, 0); }
  }

  lemma HeardAfter(msg: seq<byte>, m: Model, p: Path, v: byte)
    requires Matches(msg, m) && |p| <= 2
    ensures Get(Learn(m.ctxs, m.hist, v), p) == Heard(msg + [v], p)
  {
    hide *;
    LearnEffect(m.ctxs, m.hist, p, v);
    ReachedIsCounts(msg, m, p, v);
    MatchesAt(msg, m, p, v);
    HeardNext(msg, p, v);
  }

  lemma SymbolsNext(msg: seq<byte>, v: byte)
    ensures Symbols(msg + [v]) ==
            Symbols(msg) + One(NewTo(msg, 0, v)) + One(NewTo(msg, 1, v)) + One(NewTo(msg, 2, v))
  {
    assert (msg + [v])[..|msg|] == msg;
    hide NewTo;
  }

  lemma AdvanceMatches(msg: seq<byte>, m: Model, v: byte)
    requires Matches(msg, m)
    ensures Matches(if Symbols(msg + [v]) >= 4094 then [] else msg + [v], Advance(m, v))
  {
    hide Learn, Created, Fresh, Extend, LastTwo, Symbols, Heard, Get, NewTo;
    MatchesStart();
    CreatedIsNew(msg, m, v);
    SymbolsNext(msg, v);
    ExtendLastTwo(msg, v);
    forall p: Path | |p| <= 2 ensures Get(Learn(m.ctxs, m.hist, v), p) == Heard(msg + [v], p) {
      HeardAfter(msg, m, p, v);
    }
  }

  lemma {:induction false} AfterMatches(msg: seq<byte>)
    ensures Matches(Since(msg), After(Fresh(), msg))
    decreases |msg|
  {
    hide Matches, Fresh, Advance, Symbols;
    if msg == [] {
      MatchesStart();
    } else {
      var before, v := msg[..|msg| - 1], msg[|msg| - 1];
      assert msg == before + [v];
      AfterMatches(before);
      AfterNext(Fresh(), before, v);
      AdvanceMatches(Since(before), After(Fresh(), before), v);
    }
  }

  /** What the model knows after any message: the last two bytes, and what each context has heard, since it last began
      anew. */
  lemma ModelAfter(msg: seq<byte>, p: Path)
    requires |p| <= 2
    ensures var m, s := After(Fresh(), msg), Since(msg);
            m.hist == (if |s| <= 2 then s else s[|s| - 2..]) && Get(m.ctxs, p) == Heard(s, p) && m.used == Symbols(s)
  {
    AfterMatches(msg);
    hide After, Fresh, Get, Heard, Since, Symbols;
  }

  /** Up to 1364 bytes it does not begin anew. */
  lemma {:induction false} ShortSince(msg: seq<byte>)
    requires |msg| <= 1364
    ensures Since(msg) == msg
    decreases |msg|
  {
    hide Symbols;
    if msg != [] {
      ShortSince(msg[..|msg| - 1]);
      assert msg == msg[..|msg| - 1] + [msg[|msg| - 1]];
    }
  }

  lemma {:induction false} ByteIsCoded(msg: seq<byte>, m: Model, p: Path, v: byte)
    requires Matches(msg, m) && |p| <= 2
    ensures ByteSteps(m.ctxs, p, v) == CodedByte(msg, p, v)
    decreases |p|
  {
    hide Start, WeightBelow, Heard, Matches, Get;
    var c := Get(m.ctxs, p);
    MatchesAt(msg, m, p, v);
    StartIsWeight(p, c.freq, 256);
    StartIsWeight(p, c.freq, v);
    if p != [] { ByteIsCoded(msg, m, p[1..], v); }
  }

  lemma {:induction false} StepsNext(m: Model, msg: seq<byte>, v: byte)
    ensures MessageSteps(m, msg + [v]) ==
            MessageSteps(m, msg) + ByteSteps(After(m, msg).ctxs, After(m, msg).hist, v)
    decreases |msg|
  {
    hide Advance, ByteSteps;
    if msg == [] {
      assert [v][1..] == [];
      assert MessageSteps(Advance(m, v), []) == [];
    } else {
      assert (msg + [v])[1..] == msg[1..] + [v];
      StepsNext(Advance(m, msg[0]), msg[1..], v);
    }
  }

  lemma {:induction false} StepsAreCoded(msg: seq<byte>)
    ensures MessageSteps(Fresh(), msg) == Coded(msg)
    decreases |msg|
  {
    hide MessageSteps, Fresh, CodedByte, ByteSteps, After, Since, LastTwo, Heard, Symbols;
    if msg != [] {
      var before, v := msg[..|msg| - 1], msg[|msg| - 1];
      assert msg == before + [v];
      AfterMatches(before);
      StepsAreCoded(before);
      StepsNext(Fresh(), before, v);
      ByteIsCoded(Since(before), After(Fresh(), before), LastTwo(Since(before)), v);
    } else {
      NoSteps();
    }
  }

  lemma NoSteps()
    ensures MessageSteps(Fresh(), []) == []
  {
  }

  /** The stream of any message is that of the steps its own counts give. */
  lemma StreamIsCoded(msg: seq<byte>)
    ensures ValidSteps(Coded(msg)) && Stream(msg) == Emit(WHOLE, Coded(msg))
  {
    FreshGood();
    MessageStepsValid(Fresh(), msg);
    StepsAreCoded(msg);
    hide Emit, MessageSteps, Coded, Fresh;
  }

  // ----- counts in closed form -----

  /** How often v has been counted after p. */
  function Times(msg: seq<byte>, p: Path, v: byte): nat {
    if msg == [] then 0
    else
      var n := |msg| - 1;
      Times(msg[..n], p, v) + if msg[n] == v && Counts(msg[..n], p, v) then 1 else 0
  }

  /** How many of the values below w have been counted after p. */
  function KindsBelow(msg: seq<byte>, p: Path, w: nat): nat
    requires w <= 256
  {
    if w == 0 then 0 else KindsBelow(msg, p, w - 1) + if Times(msg, p, w - 1) > 0 then 1 else 0
  }

  function Kinds(msg: seq<byte>, p: Path): nat {
    KindsBelow(msg, p, 256)
  }

  /** Messages for which no count is halved. */
  ghost predicate Calm(msg: seq<byte>) {
    |msg| <= 1364 && forall p: Path, v: byte | |p| <= 2 :: Times(msg, p, v) <= if p == [] then 84 else 126
  }

  lemma {:induction false} TimesAtMost(msg: seq<byte>, p: Path, v: byte)
    ensures Times(msg, p, v) <= |msg|
    decreases |msg|
  {
    if msg != [] { TimesAtMost(msg[..|msg| - 1], p, v); }
  }

  /** All short messages are. */
  lemma ShortIsCalm(msg: seq<byte>)
    requires |msg| <= 84
    ensures Calm(msg)
  {
    forall p: Path, v: byte ensures Times(msg, p, v) <= 84 { TimesAtMost(msg, p, v); }
  }

  lemma CalmBefore(msg: seq<byte>)
    requires Calm(msg) && msg != []
    ensures Calm(msg[..|msg| - 1])
  {
    var before := msg[..|msg| - 1];
    forall p: Path, v: byte | |p| <= 2 ensures Times(before, p, v) <= if p == [] then 84 else 126 {
      assert Times(before, p, v) <= Times(msg, p, v);
    }
  }

  /** The count of v after p, and what stands for a value not seen there. */
  function CountOf(msg: seq<byte>, p: Path, v: byte): nat {
    if p == [] then 3 * Times(msg, p, v) else 2 * Times(msg, p, v)
  }

  function EscapesOf(msg: seq<byte>, p: Path): nat {
    if p == [] then 1 else 5 * Kinds(msg, p)
  }

  ghost predicate Knows(msg: seq<byte>, p: Path, c: Ctx) {
    && (forall v: byte :: c.freq[v] == CountOf(msg, p, v)) && c.escapes == EscapesOf(msg, p)
    && Total(p, c) <= 257 + 8 * |msg|
  }

  lemma TimesNext(msg: seq<byte>, p: Path, v: byte, w: byte)
    ensures Times(msg + [v], p, w) == Times(msg, p, w) + if w == v && Counts(msg, p, v) then 1 else 0
  {
    assert (msg + [v])[..|msg|] == msg;
    hide Counts;
  }

  lemma {:induction false} KindsNext(msg: seq<byte>, p: Path, v: byte, w: nat)
    requires w <= 256
    ensures KindsBelow(msg + [v], p, w) ==
            KindsBelow(msg, p, w) + if v < w && Counts(msg, p, v) && Times(msg, p, v) == 0 then 1 else 0
    decreases w
  {
    hide Times, Counts;
    if w > 0 {
      KindsNext(msg, p, v, w - 1);
      TimesNext(msg, p, v, w - 1);
    }
  }

  lemma {:induction false} NoKinds(p: Path, w: nat)
    requires w <= 256
    ensures KindsBelow([], p, w) == 0
    decreases w
  {
    if w > 0 { NoKinds(p, w - 1); }
  }

  lemma KnowsStart(p: Path)
    requires |p| <= 2
    ensures Knows([], p, Heard([], p))
  {
    hide Total, AllSound, Sound;
    NoKinds(p, 256);
    FreshGood();
    HeardStart(p, 0);
    if p != [] { UnvisitedSound(p); }
  }

  lemma KnowsRaised(msg: seq<byte>, p: Path, c: Ctx, v: byte)
    requires Knows(msg, p, c) && Counts(msg, p, v)
    ensures Knows(msg + [v], p, Raised(p, c, v))
  {
    RaisedTotal(p, c, v);
    KindsNext(msg, p, v, 256);
    hide Total, Counts, Times, KindsBelow;
    var d := Raised(p, c, v);
    forall w: byte ensures d.freq[w] == CountOf(msg + [v], p, w) { TimesNext(msg, p, v, w); }
  }

  lemma KnowsSame(msg: seq<byte>, p: Path, c: Ctx, v: byte)
    requires Knows(msg, p, c) && !Counts(msg, p, v)
    ensures Knows(msg + [v], p, c)
  {
    KindsNext(msg, p, v, 256);
    hide Total, Counts, Times, KindsBelow;
    forall w: byte ensures c.freq[w] == CountOf(msg + [v], p, w) { TimesNext(msg, p, v, w); }
  }

  lemma NotRescaled(msg: seq<byte>, p: Path, c: Ctx, v: byte)
    requires Knows(msg, p, c) && |p| <= 2 && Calm(msg + [v]) && Counts(msg, p, v)
    ensures Bump(p, c, v) == Raised(p, c, v)
  {
    RaisedTotal(p, c, v);
    TimesNext(msg, p, v, v);
    assert Times(msg + [v], p, v) <= if p == [] then 84 else 126;
    assert c.freq[v] == CountOf(msg, p, v);
    hide Total, Counts, Times, Kinds, Add;
  }

  /** A count that is due is made, and none is halved. */
  lemma KnowsNext(msg: seq<byte>, p: Path, c: Ctx, v: byte)
    requires Knows(msg, p, c) && |p| <= 2 && Calm(msg + [v])
    ensures Knows(msg + [v], p, if Counts(msg, p, v) then Bump(p, c, v) else c)
  {
    hide *;
    if Counts(msg, p, v) {
      KnowsRaised(msg, p, c, v);
      NotRescaled(msg, p, c, v);
    } else {
      KnowsSame(msg, p, c, v);
    }
  }

  lemma {:induction false} HeardKnows(msg: seq<byte>, p: Path)
    requires Calm(msg) && |p| <= 2
    ensures Knows(msg, p, Heard(msg, p))
    decreases |msg|
  {
    hide *;
    if msg == [] {
      KnowsStart(p);
    } else {
      var before, v := msg[..|msg| - 1], msg[|msg| - 1];
      assert msg == before + [v];
      CalmBefore(msg);
      HeardKnows(before, p);
      HeardNext(before, p, v);
      KnowsNext(before, p, Heard(before, p), v);
    }
  }

  /** While nothing is halved, a count is 2 for each time the value has been heard of, 3 at the root, and each kind of
      value heard of makes 5 escapes. */
  lemma HeardTimes(msg: seq<byte>, p: Path, v: byte)
    requires Calm(msg) && |p| <= 2
    ensures Heard(msg, p).freq[v] == if p == [] then 3 * Times(msg, p, v) else 2 * Times(msg, p, v)
    ensures Heard(msg, p).escapes == if p == [] then 1 else 5 * Kinds(msg, p)
  {
    HeardKnows(msg, p);
    hide Heard, Times, Kinds, Total;
  }
}
