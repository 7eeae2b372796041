/** The adaptive order-2 model of compress.c as plain frequency tables.

    A context is named by the bytes that lead to it: [] is the root, [v] the root's symbol v,
    and p + [v] the symbol v of context p.  This is the simple form; SymbolPool.dfy holds the
    form the source uses, binary search trees threaded through one array.
 */
module ContextModel {
  import opened Bytes
  import opened RangeCoding

  // ----- frequency tables -----

  type Table = f: seq<nat> | |f| == 256 witness seq(256, _ => 0)

  function NoSymbols(): Table { seq(256, _ => 0) }

  /** The counts of all values below v. */
  function Below(f: Table, v: nat): nat
    requires v <= 256
  {
    if v == 0 then 0 else Below(f, v - 1) + f[v - 1]
  }

  /** Where the code range of value v starts when every value weighs `minimum` more than its count. */
  function Start(f: Table, minimum: nat, v: nat): nat
    requires v <= 256
  {
    Below(f, v) + minimum * v
  }

  lemma StartNext(f: Table, minimum: nat, v: byte)
    ensures Start(f, minimum, v + 1) == Start(f, minimum, v) + f[v] + minimum
  {
    assert minimum * (v + 1) == minimum * v + minimum;
  }

  lemma {:induction false} StartMonotone(f: Table, minimum: nat, v: nat, w: nat)
    requires v <= w <= 256
    ensures Start(f, minimum, v) <= Start(f, minimum, w)
    decreases w
  {
    if v < w {
      StartMonotone(f, minimum, v, w - 1);
      assert minimum * w == minimum * (w - 1) + minimum;
    }
  }

  /** The value whose code range holds code, by looking at every value from v upwards. */
  function Lookup(f: Table, minimum: nat, code: nat, v: nat): (r: byte)
    requires v < 256 && Start(f, minimum, v) <= code < Start(f, minimum, 256)
    ensures Start(f, minimum, r) <= code < Start(f, minimum, r + 1)
    decreases 256 - v
  {
    if code < Start(f, minimum, v + 1) then v else Lookup(f, minimum, code, v + 1)
  }

  /** Every code below the total belongs to exactly one value. */
  lemma LookupUnique(f: Table, minimum: nat, code: nat, v: byte)
    requires Start(f, minimum, v) <= code < Start(f, minimum, v + 1)
    ensures Start(f, minimum, 0) <= code < Start(f, minimum, 256)
    ensures Lookup(f, minimum, code, 0) == v
  {
    hide Start;
    StartMonotone(f, minimum, 0, v);
    StartMonotone(f, minimum, v + 1, 256);
    var r := Lookup(f, minimum, code, 0);
    if r < v { StartMonotone(f, minimum, r + 1, v); }
    if v < r { StartMonotone(f, minimum, v + 1, r); }
  }

  function Add(f: Table, v: byte, delta: nat): Table {
    f[v := f[v] + delta]
  }

  /** Each count less its half rounded down, that is its half rounded up. */
  function Halve(f: Table): Table {
    seq(256, v requires 0 <= v < 256 => f[v] - f[v] / 2)
  }

  lemma {:induction false} BelowAdd(f: Table, v: byte, delta: nat, w: nat)
    requires w <= 256
    ensures Below(Add(f, v, delta), w) == Below(f, w) + if v < w then delta else 0
    decreases w
  {
    if w > 0 { BelowAdd(f, v, delta, w - 1); }
  }

  lemma {:induction false} BelowHalve(f: Table, w: nat)
    requires w <= 256
    ensures Below(f, w) <= 2 * Below(Halve(f), w) <= Below(f, w) + w
    decreases w
  {
    if w > 0 { BelowHalve(f, w - 1); }
  }

  lemma {:induction false} BelowAtLeast(f: Table, v: byte, w: nat)
    requires v < w <= 256
    ensures f[v] <= Below(f, w)
    decreases w
  {
    if v < w - 1 { BelowAtLeast(f, v, w - 1); }
  }

  lemma {:induction false} BelowEmpty(w: nat)
    requires w <= 256
    ensures Below(NoSymbols(), w) == 0
    decreases w
  {
    if w > 0 { BelowEmpty(w - 1); }
  }

  // ----- contexts -----

  type Path = seq<byte>

  datatype Ctx = Ctx(freq: Table, escapes: nat)

  const ORDER: nat := 2
  const ESCAPE_DELTA: nat := 5
  const TOTAL_LIMIT: nat := BOTTOM - 0x100

  /** A symbol just created, seen as a context. */
  function Unvisited(): Ctx { Ctx(NoSymbols(), 0) }
  function FreshRoot(): Ctx { Ctx(NoSymbols(), 1) }

  function Minimum(p: Path): nat { if p == [] then 1 else 0 }
  function Delta(p: Path): nat { if p == [] then 3 else 2 }

  function Total(p: Path, c: Ctx): nat {
    c.escapes + Start(c.freq, Minimum(p), 256)
  }

  /** What every context keeps between steps. */
  ghost predicate Sound(p: Path, c: Ctx) {
    && Total(p, c) <= TOTAL_LIMIT
    && (forall v: byte :: c.freq[v] + Delta(p) <= 255)
    && (p == [] || Below(c.freq, 256) > 0 ==> c.escapes > 0)
  }

  function Rescale(c: Ctx): Ctx {
    Ctx(Halve(c.freq), c.escapes - c.escapes / 2)
  }

  /** Context p after it has been asked for value v: the count goes up, a miss below the root
      makes escapes likelier, and counts are halved before they can outgrow their fields. */
  function Raised(p: Path, c: Ctx, v: byte): Ctx {
    Ctx(Add(c.freq, v, Delta(p)),
        if p != [] && c.freq[v] == 0 then c.escapes + ESCAPE_DELTA else c.escapes)
  }

  function Bump(p: Path, c: Ctx, v: byte): Ctx {
    var d := Raised(p, c, v);
    if c.freq[v] > 255 - 2 * Delta(p) || Total(p, d) > TOTAL_LIMIT then Rescale(d) else d
  }

  lemma RaisedTotal(p: Path, c: Ctx, v: byte)
    ensures Total(p, Raised(p, c, v)) ==
            Total(p, c) + Delta(p) + if p != [] && c.freq[v] == 0 then ESCAPE_DELTA else 0
  {
    BelowAdd(c.freq, v, Delta(p), 256);
  }

  /** The model never outgrows its 8-bit counts and 16-bit totals, not even before a rescale. */
  lemma BumpSound(p: Path, c: Ctx, v: byte)
    requires Sound(p, c)
    ensures Sound(p, Bump(p, c, v))
    ensures Total(p, Raised(p, c, v)) < BOTTOM
    ensures forall w: byte :: Raised(p, c, v).freq[w] <= 255
    ensures Bump(p, c, v).freq[v] > 0
    ensures forall w: byte | w != v :: Bump(p, c, v).freq[w] > 0 <==> c.freq[w] > 0
  {
    var d := Raised(p, c, v);
    RaisedTotal(p, c, v);
    BelowHalve(d.freq, 256);
    BelowAtLeast(d.freq, v, 256);
  }

  // ----- the context chain -----

  datatype Model = Model(ctxs: map<Path, Ctx>, used: nat, hist: Path)

  const POOL: nat := 4096
  function Fresh(): Model { Model(map[[] := FreshRoot()], 1, []) }

  function Get(ctxs: map<Path, Ctx>, p: Path): Ctx {
    if p in ctxs then ctxs[p] else Unvisited()
  }

  ghost predicate AllSound(ctxs: map<Path, Ctx>) {
    forall p: Path {:trigger Get(ctxs, p)} :: Sound(p, Get(ctxs, p))
  }

  ghost predicate GoodModel(m: Model) {
    AllSound(m.ctxs) && |m.hist| <= ORDER
  }

  lemma UnvisitedSound(p: Path)
    requires p != []
    ensures Sound(p, Unvisited()) && Total(p, Unvisited()) == 0
  {
    BelowEmpty(256);
  }

  lemma FreshGood()
    ensures GoodModel(Fresh())
    ensures Total([], FreshRoot()) == 257
  {
    BelowEmpty(256);
    forall p: Path ensures Sound(p, Get(Fresh().ctxs, p)) {
      if p != [] { UnvisitedSound(p); }
    }
  }

  lemma FreshStart()
    ensures Fresh().used == 1 && Fresh().hist == []
  {
  }

  /** Every context from p down to the first that has seen v, or the root, learns v. */
  function Learn(ctxs: map<Path, Ctx>, p: Path, v: byte): map<Path, Ctx>
    decreases |p|
  {
    var c := Get(ctxs, p);
    var next := ctxs[p := Bump(p, c, v)];
    if p == [] || c.freq[v] > 0 then next else Learn(next, p[1..], v)
  }

  function Created(ctxs: map<Path, Ctx>, p: Path, v: byte): (n: nat)
    ensures n <= |p| + 1
    decreases |p|
  {
    var c := Get(ctxs, p);
    if c.freq[v] > 0 then 0 else if p == [] then 1 else 1 + Created(ctxs, p[1..], v)
  }

  function Advance(m: Model, v: byte): Model {
    var used := m.used + Created(m.ctxs, m.hist, v);
    if used >= POOL - ORDER then Fresh()
    else Model(Learn(m.ctxs, m.hist, v), used, Extend(m.hist, v))
  }

  function Extend(hist: Path, v: byte): Path {
    if |hist| >= ORDER then (hist + [v])[1..] else hist + [v]
  }

  lemma {:induction false} LearnSound(ctxs: map<Path, Ctx>, p: Path, v: byte)
    requires AllSound(ctxs)
    ensures AllSound(Learn(ctxs, p, v))
    decreases |p|
  {
    var c := Get(ctxs, p);
    BumpSound(p, c, v);
    var next := ctxs[p := Bump(p, c, v)];
    forall q: Path ensures Sound(q, Get(next, q)) {
      assert Sound(q, Get(ctxs, q));
    }
    if p != [] && c.freq[v] == 0 { LearnSound(next, p[1..], v); }
  }

  lemma AdvanceGood(m: Model, v: byte)
    requires GoodModel(m)
    ensures GoodModel(Advance(m, v))
  {
    hide AllSound, Learn, Created, Fresh;
    FreshGood();
    LearnSound(m.ctxs, m.hist, v);
  }

  // ----- coding a byte -----

  function ValueStep(p: Path, c: Ctx, v: byte): Step {
    Step(c.escapes + Start(c.freq, Minimum(p), v), c.freq[v] + Minimum(p), Total(p, c))
  }

  function EscapeStep(p: Path, c: Ctx): Step {
    Step(0, c.escapes, Total(p, c))
  }

  /** The steps that code value v: an escape for every context that could have said v but never
      saw it, then v itself. */
  function ByteSteps(ctxs: map<Path, Ctx>, p: Path, v: byte): (steps: seq<Step>)
    decreases |p|
  {
    var c := Get(ctxs, p);
    var total := Total(p, c);
    if p == [] || c.freq[v] > 0 then [ValueStep(p, c, v)]
    else (if 0 < c.escapes < total then [EscapeStep(p, c)] else []) + ByteSteps(ctxs, p[1..], v)
  }

  lemma ValueStepValid(p: Path, c: Ctx, v: byte)
    requires Sound(p, c) && (p == [] || c.freq[v] > 0)
    ensures ValidStep(ValueStep(p, c, v))
  {
    StartMonotone(c.freq, Minimum(p), v + 1, 256);
    StartNext(c.freq, Minimum(p), v);
  }

  lemma {:induction false} ByteStepsValid(ctxs: map<Path, Ctx>, p: Path, v: byte)
    requires AllSound(ctxs)
    ensures ValidSteps(ByteSteps(ctxs, p, v))
    decreases |p|
  {
    var c := Get(ctxs, p);
    assert Sound(p, c);
    if p == [] || c.freq[v] > 0 {
      ValueStepValid(p, c, v);
    } else {
      ByteStepsValid(ctxs, p[1..], v);
    }
  }

  function MessageSteps(m: Model, msg: seq<byte>): seq<Step>
    decreases |msg|
  {
    if msg == [] then [] else ByteSteps(m.ctxs, m.hist, msg[0]) + MessageSteps(Advance(m, msg[0]), msg[1..])
  }

  lemma {:induction false} MessageStepsValid(m: Model, msg: seq<byte>)
    requires GoodModel(m)
    ensures ValidSteps(MessageSteps(m, msg))
    decreases |msg|
  {
    if msg != [] {
      ByteStepsValid(m.ctxs, m.hist, msg[0]);
      AdvanceGood(m, msg[0]);
      MessageStepsValid(Advance(m, msg[0]), msg[1..]);
    }
  }

  /** Coding from p on looks only at p and its suffixes. */
  lemma {:induction false} ByteStepsFrame(ctxs: map<Path, Ctx>, q: Path, c: Ctx, p: Path, v: byte)
    requires |q| > |p|
    ensures ByteSteps(ctxs[q := c], p, v) == ByteSteps(ctxs, p, v)
    ensures Created(ctxs[q := c], p, v) == Created(ctxs, p, v)
    decreases |p|
  {
    if p != [] { ByteStepsFrame(ctxs, q, c, p[1..], v); }
  }

  // ----- what the decoder learns -----

  /** Whether e is one of the contexts the chain from p runs through. */
  predicate OnChain(p: Path, e: Path) {
    |e| <= |p| && e == p[|p| - |e|..]
  }

  lemma ChainSelf(p: Path)
    ensures OnChain(p, p)
  {
  }

  lemma ChainNext(p: Path, e: Path)
    requires OnChain(p, e) && e != []
    ensures OnChain(p, e[1..])
  {
    var k := |p| - |e|;
    assert p[k..][1..] == p[k + 1..];
  }

  lemma ChainLength(p: Path, e: Path)
    requires OnChain(p, e)
    ensures |e| <= |p| && (|e| == |p| ==> e == p)
  {
  }

  lemma ChainDrop(p: Path, e: Path)
    requires OnChain(p, e) && |e| < |p|
    ensures OnChain(p[1..], e)
  {
  }

  /** Every context from p down to e learns v.  The decoder updates the contexts it has skipped,
      whether or not they know v. */
  function LearnTo(ctxs: map<Path, Ctx>, p: Path, e: Path, v: byte): map<Path, Ctx>
    decreases |p|
  {
    var next := ctxs[p := Bump(p, Get(ctxs, p), v)];
    if |p| <= |e| then next else LearnTo(next, p[1..], e, v)
  }

  function CreatedTo(ctxs: map<Path, Ctx>, p: Path, e: Path, v: byte): (n: nat)
    ensures n <= |p| + 1
    decreases |p|
  {
    var here := if Get(ctxs, p).freq[v] > 0 then 0 else 1;
    if |p| <= |e| || p == [] then here else here + CreatedTo(ctxs, p[1..], e, v)
  }

  function AdvanceTo(m: Model, v: byte, e: Path): Model {
    var used := m.used + CreatedTo(m.ctxs, m.hist, e, v);
    if used >= POOL - ORDER then Fresh()
    else Model(LearnTo(m.ctxs, m.hist, e, v), used, Extend(m.hist, v))
  }

  lemma {:induction false} LearnToSound(ctxs: map<Path, Ctx>, p: Path, e: Path, v: byte)
    requires AllSound(ctxs)
    ensures AllSound(LearnTo(ctxs, p, e, v))
    decreases |p|
  {
    BumpSound(p, Get(ctxs, p), v);
    var next := ctxs[p := Bump(p, Get(ctxs, p), v)];
    forall q: Path ensures Sound(q, Get(next, q)) {
      assert Sound(q, Get(ctxs, q));
    }
    if |p| > |e| { LearnToSound(next, p[1..], e, v); }
  }

  lemma AdvanceToGood(m: Model, v: byte, e: Path)
    requires GoodModel(m)
    ensures GoodModel(AdvanceTo(m, v, e))
  {
    hide AllSound, LearnTo, CreatedTo, Fresh;
    FreshGood();
    LearnToSound(m.ctxs, m.hist, e, v);
  }

  /** The context at which the encoder stops. */
  function Exit(ctxs: map<Path, Ctx>, p: Path, v: byte): (e: Path)
    ensures |e| <= |p|
    decreases |p|
  {
    if p == [] || Get(ctxs, p).freq[v] > 0 then p else Exit(ctxs, p[1..], v)
  }

  lemma {:induction false} ExitFrame(ctxs: map<Path, Ctx>, q: Path, c: Ctx, p: Path, v: byte)
    requires |q| > |p|
    ensures Exit(ctxs[q := c], p, v) == Exit(ctxs, p, v)
    decreases |p|
  {
    if p != [] { ExitFrame(ctxs, q, c, p[1..], v); }
  }

  /** A decoder that leaves the chain where the encoder did learns what the encoder learnt. */
  lemma {:induction false} LearnToExit(ctxs: map<Path, Ctx>, p: Path, v: byte)
    ensures LearnTo(ctxs, p, Exit(ctxs, p, v), v) == Learn(ctxs, p, v)
    ensures CreatedTo(ctxs, p, Exit(ctxs, p, v), v) == Created(ctxs, p, v)
    decreases |p|
  {
    if p != [] && Get(ctxs, p).freq[v] == 0 {
      var c := Bump(p, Get(ctxs, p), v);
      LearnToExit(ctxs[p := c], p[1..], v);
      LearnToExit(ctxs, p[1..], v);
      ExitFrame(ctxs, p, c, p[1..], v);
    }
  }

  lemma AdvanceToExit(m: Model, v: byte)
    ensures AdvanceTo(m, v, Exit(m.ctxs, m.hist, v)) == Advance(m, v)
  {
    LearnToExit(m.ctxs, m.hist, v);
  }

  /** The decoder's order of work: e itself has learnt v already, the contexts above it follow. */
  function Patch(ctxs: map<Path, Ctx>, p: Path, e: Path, v: byte): map<Path, Ctx>
    decreases |p|
  {
    if |p| <= |e| then ctxs else Patch(ctxs[p := Bump(p, Get(ctxs, p), v)], p[1..], e, v)
  }

  lemma {:induction false} PatchIsLearnTo(ctxs: map<Path, Ctx>, p: Path, e: Path, v: byte)
    requires OnChain(p, e)
    ensures Patch(ctxs[e := Bump(e, Get(ctxs, e), v)], p, e, v) == LearnTo(ctxs, p, e, v)
    decreases |p|
  {
    if |p| <= |e| {
      assert e == p;
    } else {
      ChainDrop(p, e);
      hide OnChain, Bump;
      var ce, cp := Bump(e, Get(ctxs, e), v), Bump(p, Get(ctxs, p), v);
      assert ctxs[e := ce][p := cp] == ctxs[p := cp][e := ce];
      PatchIsLearnTo(ctxs[p := cp], p[1..], e, v);
    }
  }

  /** The symbols created in the contexts above e. */
  function CreatedAbove(ctxs: map<Path, Ctx>, p: Path, e: Path, v: byte): (n: nat)
    ensures |e| <= |p| ==> n <= |p| - |e|
    decreases |p|
  {
    if |p| <= |e| then 0
    else (if Get(ctxs, p).freq[v] > 0 then 0 else 1) + CreatedAbove(ctxs, p[1..], e, v)
  }

  lemma {:induction false} CreatedSplit(ctxs: map<Path, Ctx>, p: Path, e: Path, v: byte)
    requires OnChain(p, e)
    ensures CreatedTo(ctxs, p, e, v) ==
            CreatedAbove(ctxs, p, e, v) + if Get(ctxs, e).freq[v] > 0 then 0 else 1
    decreases |p|
  {
    if |p| <= |e| {
      assert e == p;
    } else {
      ChainDrop(p, e);
      hide OnChain;
      CreatedSplit(ctxs, p[1..], e, v);
    }
  }

  lemma {:induction false} CreatedAboveFrame(ctxs: map<Path, Ctx>, q: Path, c: Ctx, p: Path, e: Path, v: byte)
    requires |q| > |p| || |q| <= |e|
    ensures CreatedAbove(ctxs[q := c], p, e, v) == CreatedAbove(ctxs, p, e, v)
    decreases |p|
  {
    if |p| > |e| { CreatedAboveFrame(ctxs, q, c, p[1..], e, v); }
  }

  /** One round of patching: p learns v and the rest of the work stays the same. */
  lemma PatchRound(ctxs: map<Path, Ctx>, p: Path, e: Path, v: byte)
    requires |p| > |e| && AllSound(ctxs)
    ensures var next := ctxs[p := Bump(p, Get(ctxs, p), v)];
            && AllSound(next)
            && Patch(ctxs, p, e, v) == Patch(next, p[1..], e, v)
            && CreatedAbove(ctxs, p, e, v) ==
               CreatedAbove(next, p[1..], e, v) + if Get(ctxs, p).freq[v] > 0 then 0 else 1
  {
    var c := Bump(p, Get(ctxs, p), v);
    BumpKeepsSound(ctxs, p, v);
    CreatedAboveFrame(ctxs, p, c, p[1..], e, v);
  }

  lemma BumpKeepsSound(ctxs: map<Path, Ctx>, p: Path, v: byte)
    requires AllSound(ctxs)
    ensures AllSound(ctxs[p := Bump(p, Get(ctxs, p), v)])
  {
    BumpSound(p, Get(ctxs, p), v);
    var next := ctxs[p := Bump(p, Get(ctxs, p), v)];
    forall q: Path ensures Sound(q, Get(next, q)) {
      assert Sound(q, Get(ctxs, q));
    }
  }

  /** All a decoder does for one value, in its own order. */
  lemma DecoderWork(m: Model, e: Path, v: byte)
    requires GoodModel(m) && OnChain(m.hist, e)
    ensures var first := m.ctxs[e := Bump(e, Get(m.ctxs, e), v)];
            && AllSound(first)
            && Patch(first, m.hist, e, v) == LearnTo(m.ctxs, m.hist, e, v)
            && CreatedAbove(first, m.hist, e, v) + (if Get(m.ctxs, e).freq[v] > 0 then 0 else 1) ==
               CreatedTo(m.ctxs, m.hist, e, v)
  {
    BumpKeepsSound(m.ctxs, e, v);
    PatchIsLearnTo(m.ctxs, m.hist, e, v);
    CreatedSplit(m.ctxs, m.hist, e, v);
    CreatedAboveFrame(m.ctxs, e, Bump(e, Get(m.ctxs, e), v), m.hist, e, v);
  }
}
