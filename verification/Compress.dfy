/** enet_range_coder_compress, proved to send exactly the stream of Codec.dfy. */
module Compress {
  import opened Bytes
  import opened Constants
  import opened RangeCoding
  import opened ContextModel
  import opened Codec
  import opened SymbolTree
  import opened PoolInvariant
  import opened SymbolPool

  /** The bytes a run of steps sends before any flush, and the interval it leaves. */
  function Send(i: Interval, steps: seq<Step>): (r: (seq<byte>, Interval))
    requires Ready(i) && ValidSteps(steps)
    ensures Ready(r.1)
    decreases |steps|
  {
    if steps == [] then ([], i)
    else
      var (bytes, j) := EncodeStep(i, steps[0]);
      var (more, last) := Send(j, steps[1..]);
      (bytes + more, last)
  }

  lemma {:induction false} EmitIsSend(i: Interval, steps: seq<Step>, rest: seq<Step>)
    requires Ready(i) && ValidSteps(steps) && ValidSteps(rest)
    ensures ValidSteps(steps + rest)
    ensures Emit(i, steps + rest) == Send(i, steps).0 + Emit(Send(i, steps).1, rest)
    decreases |steps|
  {
    if steps == [] {
      assert steps + rest == rest && [] + Emit(i, rest) == Emit(i, rest);
    } else {
      assert (steps + rest)[1..] == steps[1..] + rest && (steps + rest)[0] == steps[0];
      hide EncodeStep;
      var (bytes, j) := EncodeStep(i, steps[0]);
      EmitIsSend(j, steps[1..], rest);
      Assoc(bytes, Send(j, steps[1..]).0, Emit(Send(j, steps[1..]).1, rest));
    }
  }

  lemma Assoc(a: seq<byte>, b: seq<byte>, c: seq<byte>)
    ensures a + (b + c) == a + b + c
  {
  }

  /** encodeLow, encodeRange and the output pointer of compress, with the macros on them. */
  class RangeEncoder {
    var low: nat
    var range: nat
    var pos: nat
    const out: array<byte>
    const limit: nat

    ghost predicate Valid()
      reads this
    {
      Ready(State()) && pos <= limit <= out.Length
    }

    ghost function State(): Interval
      reads this
    {
      Interval(low, range)
    }

    ghost function Sent(): seq<byte>
      reads this, out
      requires pos <= out.Length
    {
      out[..pos]
    }

    constructor (out: array<byte>, limit: nat)
      requires limit <= out.Length
      ensures this.out == out && this.limit == limit && Valid() && State() == WHOLE && Sent() == []
    {
      low, range, pos := 0, WORD - 1, 0;
      this.out, this.limit := out, limit;
    }

    /** ENET_RANGE_CODER_OUTPUT. */
    method Output(b: byte) returns (ok: bool)
      requires pos <= limit <= out.Length
      modifies this`pos, out
      ensures ok <==> old(pos) < limit
      ensures pos == old(pos) + (if ok then 1 else 0)
      ensures ok ==> Sent() == old(Sent()) + [b]
    {
      ok := pos < limit;
      if ok {
        out[pos] := b;
        pos := pos + 1;
      }
    }

    /** ENET_RANGE_CODER_ENCODE, in 32-bit arithmetic; fails when the output is full. */
    method Encode(under: nat, count: nat, total: nat) returns (ok: bool)
      requires Valid() && ValidStep(Step(under, count, total))
      modifies this`low, this`range, this`pos, out
      ensures pos <= limit
      ensures var (bytes, j) := EncodeStep(old(State()), Step(under, count, total));
              && (ok <==> old(pos) + |bytes| <= limit)
              && (ok ==> Valid() && State() == j && Sent() == old(Sent()) + bytes)
    {
      NarrowedWord(State(), Step(under, count, total));
      NarrowInside(State(), Step(under, count, total));
      range := range / total;
      low := (low + under * range) % WORD;
      range := range * count % WORD;
      ok := Normalise();
    }

    /** The loop of ENET_RANGE_CODER_ENCODE. */
    method Normalise() returns (ok: bool)
      requires Open(State()) && pos <= limit <= out.Length
      modifies this`low, this`range, this`pos, out
      ensures pos <= limit
      ensures var (bytes, j) := Renormalise(old(State()));
              && (ok <==> old(pos) + |bytes| <= limit)
              && (ok ==> State() == j && Sent() == old(Sent()) + bytes)
    {
      hide Renormalise, Narrow, Aligned, Shift, Leading;
      ghost var goal := Renormalise(State());
      while true
        invariant pos <= limit <= out.Length && Open(State())
        invariant Sent() + Renormalise(State()).0 == old(Sent()) + goal.0
        invariant Renormalise(State()).1 == goal.1
        decreases low + range < WORD, WORD - range
      {
        if low / TOP != (low + range) % WORD / TOP && range >= BOTTOM {
          RenormaliseStop(State());
          break;
        }
        RenormaliseTurn(State());
        ok := SendLeading();
        if !ok { return; }
      }
      ok := true;
    }

    /** One turn of that loop that does not leave it. */
    method SendLeading() returns (ok: bool)
      requires Open(State()) && pos <= limit <= out.Length
      requires TopByteDiffers(State()) ==> range < BOTTOM
      modifies this`low, this`range, this`pos, out
      ensures pos <= limit
      ensures ok <==> old(pos) < limit
      ensures ok ==> State() == Shift(Aligned(old(State()))) && Sent() == old(Sent()) + [Leading(old(State()))]
    {
      if low / TOP != (low + range) % WORD / TOP {
        range := (BOTTOM - low % BOTTOM) % BOTTOM;
      }
      ok := Output(low / TOP);
      if ok {
        range := range * 256 % WORD;
        low := low * 256 % WORD;
      }
    }

    /** ENET_RANGE_CODER_FLUSH. */
    method FlushLow() returns (ok: bool)
      requires Valid()
      modifies this`low, this`pos, out
      ensures pos <= limit
      ensures ok <==> old(pos) + |Flush(old(low))| <= limit
      ensures ok ==> Sent() == old(Sent()) + Flush(old(low))
    {
      while low != 0
        invariant pos <= limit <= out.Length && low < WORD
        invariant Sent() + Flush(low) == old(Sent()) + Flush(old(low))
        decreases FlushWidth(low)
      {
        FlushShrinks(low);
        var sent := Output(low / TOP);
        if !sent { return false; }
        low := low * 256 % WORD;
      }
      ok := true;
    }
  }

  /** The steps context p itself contributes to coding v. */
  function OwnSteps(p: Path, c: Ctx, v: byte): seq<Step> {
    if p == [] || c.freq[v] > 0 then [ValueStep(p, c, v)]
    else if 0 < c.escapes < Total(p, c) then [EscapeStep(p, c)]
    else []
  }

  lemma OwnStepsValid(p: Path, c: Ctx, v: byte)
    requires Sound(p, c)
    ensures ValidSteps(OwnSteps(p, c, v))
  {
    if p == [] || c.freq[v] > 0 { ValueStepValid(p, c, v); }
  }

  lemma SendOne(i: Interval, s: Step)
    requires Ready(i) && ValidStep(s)
    ensures ValidSteps([s]) && Send(i, [s]) == EncodeStep(i, s)
  {
    assert [s] + [] == [s];
    var bytes := EncodeStep(i, s).0;
    assert bytes + [] == bytes;
  }

  /** One round of the loop over contexts, root included: look the value up, code it or an escape,
      and let the context learn it. */
  method EncodeContext(
      coder: RangeCoder, enc: RangeEncoder, k: nat, v: byte, delta: nat, minimum: nat, parent: Pointer,
      ghost pending: set<nat>)
    returns (ok: bool, symbol: nat, count: nat)
    requires coder.Holds(pending, -1) && enc.Valid() && coder.symbols as object != enc.out
    requires k < coder.nextSymbol < POOL && |coder.names[k]| <= ORDER && AllSound(coder.ctxs)
    requires delta == Delta(coder.names[k]) && minimum == Minimum(coder.names[k])
    requires coder.Awaits(parent, coder.names[k], v, pending)
    modifies coder, coder.symbols, enc`low, enc`range, enc`pos, enc.out
    ensures enc.pos <= enc.limit
    ensures var p := old(coder.names)[k];
            var c := Get(old(coder.ctxs), p);
            && ValidSteps(OwnSteps(p, c, v))
            && var (bytes, j) := Send(old(enc.State()), OwnSteps(p, c, v));
            && (ok <==> old(enc.pos) + |bytes| <= enc.limit)
            && count == c.freq[v] + minimum
            && (ok ==>
                  && enc.Valid() && enc.State() == j && enc.Sent() == old(enc.Sent()) + bytes
                  && coder.Holds(Waiting({}, p, c.freq[v] > 0, symbol), -1)
                  && coder.names == Named(old(coder.names), p, c.freq[v] > 0, v)
                  && coder.ctxs == old(coder.ctxs)[p := Bump(p, c, v)]
                  && symbol < coder.nextSymbol && coder.names[symbol] == p + [v]
                  && coder.order == old(coder.order)
                  && coder.predicted == if parent.ToPredicted? then symbol else old(coder.predicted))
  {
    ghost var p, c := coder.names[k], Get(coder.ctxs, coder.names[k]);
    assert Sound(p, c);
    hide Bump, Named, Pool, OwnSteps, Send, EncodeStep, Sound, Start, Total;
    var under;
    symbol, under, count := coder.Visit(k, v, delta, minimum, parent, pending);
    ok := SendOwn(enc, coder.symbols[k].escapes, coder.symbols[k].total, under, count, minimum, p, c, v);
    if ok { coder.Settle(k, v, count, delta, minimum, Waiting({}, p, c.freq[v] > 0, symbol)); }
  }

  /** What is coded there: the value if the context knew it, or an escape if it has one to offer. */
  method SendOwn(
      enc: RangeEncoder, escapes: nat, total: nat, under: nat, count: nat, minimum: nat, ghost p: Path, ghost c: Ctx,
      ghost v: byte)
    returns (ok: bool)
    requires enc.Valid() && Sound(p, c) && escapes == c.escapes && total == Total(p, c) && minimum == Minimum(p)
    requires under == Start(c.freq, minimum, v) && count == c.freq[v] + minimum
    modifies enc`low, enc`range, enc`pos, enc.out
    ensures enc.pos <= enc.limit && ValidSteps(OwnSteps(p, c, v))
    ensures var (bytes, j) := Send(old(enc.State()), OwnSteps(p, c, v));
            && (ok <==> old(enc.pos) + |bytes| <= enc.limit)
            && (ok ==> enc.Valid() && enc.State() == j && enc.Sent() == old(enc.Sent()) + bytes)
  {
    OwnStepsValid(p, c, v);
    ghost var i := enc.State();
    if count > 0 {
      ValueStepValid(p, c, v);
      SendOne(i, ValueStep(p, c, v));
      ok := enc.Encode(escapes + under, count, total);
    } else if escapes > 0 && escapes < total {
      SendOne(i, EscapeStep(p, c));
      ok := enc.Encode(0, escapes, total);
    } else {
      ok := true;
    }
  }

  /** Whether the walk down the contexts ends at p. */
  predicate Last(p: Path, c: Ctx, v: byte) {
    p == [] || c.freq[v] > 0
  }

  /** A round at context p: its own steps come first, and what the shorter contexts contribute
      does not depend on what p has just learnt. */
  lemma Round(ctxs: map<Path, Ctx>, p: Path, v: byte)
    requires AllSound(ctxs)
    ensures var c := Get(ctxs, p);
            var next := ctxs[p := Bump(p, c, v)];
            && AllSound(next) && ValidSteps(OwnSteps(p, c, v)) && |OwnSteps(p, c, v)| <= 1
            && (Last(p, c, v) ==>
                  && ByteSteps(ctxs, p, v) == OwnSteps(p, c, v)
                  && Learn(ctxs, p, v) == next && Created(ctxs, p, v) == if c.freq[v] > 0 then 0 else 1)
            && (!Last(p, c, v) ==>
                  && ValidSteps(ByteSteps(next, p[1..], v))
                  && ByteSteps(ctxs, p, v) == OwnSteps(p, c, v) + ByteSteps(next, p[1..], v)
                  && Learn(ctxs, p, v) == Learn(next, p[1..], v)
                  && Created(ctxs, p, v) == 1 + Created(next, p[1..], v))
  {
    var c := Get(ctxs, p);
    assert Sound(p, c);
    BumpSound(p, c, v);
    var next := ctxs[p := Bump(p, c, v)];
    forall q: Path ensures Sound(q, Get(next, q)) {
      assert Sound(q, Get(ctxs, q));
    }
    OwnStepsValid(p, c, v);
    if p != [] {
      ByteStepsFrame(ctxs, p, Bump(p, c, v), p[1..], v);
      ByteStepsValid(next, p[1..], v);
    }
  }

  /** What is left to send of a byte before a round is what the round sends and what is left after. */
  lemma RoundSends(i: Interval, own: seq<Step>, lower: seq<Step>)
    requires Ready(i) && ValidSteps(own) && ValidSteps(lower) && |own| <= 1
    ensures ValidSteps(own + lower)
    ensures var (bytes, j) := Send(i, own);
            Send(i, own + lower) == (bytes + Send(j, lower).0, Send(j, lower).1)
  {
    if own == [] {
      assert own + lower == lower && [] + Send(i, lower).0 == Send(i, lower).0;
    } else {
      assert own == [own[0]];
      SendOne(i, own[0]);
    }
  }

  /** The coder in the middle of byte v, about to ask context p in slot k; m is the model before. */
  ghost predicate Walking(
      coder: RangeCoder, m: Model, v: byte, p: Path, k: nat, parent: Pointer, pending: set<nat>)
    reads coder, coder.symbols
  {
    && coder.Holds(pending, -1) && AllSound(coder.ctxs)
    && k < |coder.names| && coder.names[k] == p && |p| <= |m.hist| <= ORDER && m.used < POOL - ORDER
    && coder.nextSymbol <= m.used + |m.hist| - |p|
    && coder.Awaits(parent, p, v, pending) && coder.order == |m.hist|
    && (|p| == |m.hist| <==> parent.ToPredicted?)
    && (|p| == |m.hist| ==> p == m.hist)
    && (|p| < |m.hist| ==> coder.predicted < |coder.names| && coder.names[coder.predicted] == m.hist + [v])
    && Learn(coder.ctxs, p, v) == Learn(m.ctxs, m.hist, v)
    && coder.nextSymbol + Created(coder.ctxs, p, v) == m.used + Created(m.ctxs, m.hist, v)
  }

  /** The coder after the last round of byte v. */
  ghost predicate Walked(coder: RangeCoder, m: Model, v: byte)
    reads coder, coder.symbols
  {
    && coder.Holds({}, -1)
    && coder.predicted < coder.nextSymbol && coder.names[coder.predicted] == m.hist + [v]
    && coder.order == |m.hist|
    && coder.ctxs == Learn(m.ctxs, m.hist, v) && coder.nextSymbol == m.used + Created(m.ctxs, m.hist, v)
  }

  /** One round and the step to the next context, if there is one. */
  method EncodeRound(
      coder: RangeCoder, enc: RangeEncoder, ghost m: Model, v: byte, ghost p: Path, k: nat, parent: Pointer,
      ghost pending: set<nat>)
    returns (ok: bool, last: bool, k': nat, parent': Pointer, ghost pending': set<nat>)
    requires Walking(coder, m, v, p, k, parent, pending) && enc.Valid() && coder.symbols as object != enc.out
    modifies coder, coder.symbols, enc`low, enc`range, enc`pos, enc.out
    ensures enc.pos <= enc.limit
    ensures var c := Get(old(coder.ctxs), p);
            && ValidSteps(OwnSteps(p, c, v))
            && var (bytes, j) := Send(old(enc.State()), OwnSteps(p, c, v));
            && (ok <==> old(enc.pos) + |bytes| <= enc.limit)
            && (ok ==>
                  && enc.Valid() && enc.State() == j && enc.Sent() == old(enc.Sent()) + bytes
                  && coder.ctxs == old(coder.ctxs)[p := Bump(p, c, v)]
                  && last == Last(p, c, v)
                  && (last ==> Walked(coder, m, v))
                  && (!last ==> Walking(coder, m, v, p[1..], k', parent', pending')))
  {
    hide Send, EncodeStep, OwnSteps, Learn, Created, Bump, ByteSteps, Pool, Sound;
    ghost var c := Get(coder.ctxs, p);
    Round(coder.ctxs, p, v);
    PoolRoot(coder.symbols[..], coder.names, coder.trees, coder.ctxs, pending, -1, k);
    var delta, minimum := if k != 0 then 2 else 3, if k != 0 then 0 else 1;
    var symbol, count;
    ok, symbol, count := EncodeContext(coder, enc, k, v, delta, minimum, parent, pending);
    last, k', parent', pending' := k == 0 || count > 0, k, parent, {};
    if ok && !last {
      parent', pending' := ParentOf(symbol), {symbol};
      assert Waiting({}, p, false, symbol) == pending';
      PoolParent(coder.symbols[..], coder.names, coder.trees, coder.ctxs, pending', -1, k);
      k' := coder.symbols[k].parent;
    }
  }

  /** Compressing one byte: the steps of the byte are sent and the model advances over it. */
  method EncodeByte(coder: RangeCoder, enc: RangeEncoder, v: byte) returns (ok: bool)
    requires coder.Idle() && enc.Valid() && coder.symbols as object != enc.out
    modifies coder, coder.symbols, enc`low, enc`range, enc`pos, enc.out
    ensures enc.pos <= enc.limit
    ensures var m := old(coder.ModelHeld());
            && ValidSteps(ByteSteps(m.ctxs, m.hist, v))
            && var (bytes, j) := Send(old(enc.State()), ByteSteps(m.ctxs, m.hist, v));
            && (ok <==> old(enc.pos) + |bytes| <= enc.limit)
            && (ok ==>
                  && enc.Valid() && enc.State() == j && enc.Sent() == old(enc.Sent()) + bytes
                  && coder.Idle() && coder.ModelHeld() == Advance(m, v))
  {
    hide Send, EncodeStep, OwnSteps, Learn, Created, Bump, ByteSteps, Pool, Sound;
    ghost var m := coder.ModelHeld();
    ByteStepsValid(m.ctxs, m.hist, v);
    ghost var goal := Send(enc.State(), ByteSteps(m.ctxs, m.hist, v));
    var subcontext, parent := coder.predicted, ToPredicted;
    ghost var p, pending: set<nat> := m.hist, {};
    while true
      invariant Walking(coder, m, v, p, subcontext, parent, pending)
      invariant enc.Valid() && ValidSteps(ByteSteps(coder.ctxs, p, v))
      invariant enc.Sent() + Send(enc.State(), ByteSteps(coder.ctxs, p, v)).0 == old(enc.Sent()) + goal.0
      invariant Send(enc.State(), ByteSteps(coder.ctxs, p, v)).1 == goal.1
      decreases |p|
    {
      ghost var ctxs, c, i := coder.ctxs, Get(coder.ctxs, p), enc.State();
      Round(ctxs, p, v);
      if !Last(p, c, v) {
        RoundSends(i, OwnSteps(p, c, v), ByteSteps(ctxs[p := Bump(p, c, v)], p[1..], v));
      }
      var last;
      ok, last, subcontext, parent, pending := EncodeRound(coder, enc, m, v, p, subcontext, parent, pending);
      if !ok { return; }
      if last { break; }
      p := p[1..];
    }
    LearnSound(m.ctxs, m.hist, v);
    coder.NextInput(m.hist, v);
  }

  function Concat(buffers: seq<seq<byte>>): seq<byte> {
    if buffers == [] then [] else buffers[0] + Concat(buffers[1..])
  }

  /** What is left of a message before a byte is the byte's own part and what is left after it. */
  lemma ByteOfMessage(m: Model, v: byte, rest: seq<byte>, i: Interval)
    requires GoodModel(m) && Ready(i)
    ensures GoodModel(Advance(m, v))
    ensures ValidSteps(MessageSteps(m, [v] + rest)) && ValidSteps(MessageSteps(Advance(m, v), rest))
    ensures ValidSteps(ByteSteps(m.ctxs, m.hist, v))
    ensures var (bytes, j) := Send(i, ByteSteps(m.ctxs, m.hist, v));
            Emit(i, MessageSteps(m, [v] + rest)) == bytes + Emit(j, MessageSteps(Advance(m, v), rest))
  {
    hide EncodeStep, ByteSteps, Advance, Sound;
    AdvanceGood(m, v);
    MessageStepsValid(Advance(m, v), rest);
    ByteStepsValid(m.ctxs, m.hist, v);
    assert ([v] + rest)[1..] == rest;
    EmitIsSend(i, ByteSteps(m.ctxs, m.hist, v), MessageSteps(Advance(m, v), rest));
  }

  lemma NothingLeft(m: Model, i: Interval)
    requires Ready(i)
    ensures ValidSteps(MessageSteps(m, [])) && Emit(i, MessageSteps(m, [])) == Flush(i.low)
  {
  }

  /** One turn of the loop over the input. */
  method EncodeNext(coder: RangeCoder, enc: RangeEncoder, value: byte, ghost rest: seq<byte>) returns (ok: bool)
    requires coder.Idle() && enc.Valid() && coder.symbols as object != enc.out
    requires ValidSteps(MessageSteps(coder.ModelHeld(), [value] + rest))
    modifies coder, coder.symbols, enc`low, enc`range, enc`pos, enc.out
    ensures enc.pos <= enc.limit
    ensures ok ==>
              && coder.Idle() && enc.Valid() && ValidSteps(MessageSteps(coder.ModelHeld(), rest))
              && enc.Sent() + Emit(enc.State(), MessageSteps(coder.ModelHeld(), rest)) ==
                 old(enc.Sent() + Emit(enc.State(), MessageSteps(coder.ModelHeld(), [value] + rest)))
    ensures !ok ==>
              enc.limit < |old(enc.Sent() + Emit(enc.State(), MessageSteps(coder.ModelHeld(), [value] + rest)))|
  {
    hide Send, EncodeStep, Emit, MessageSteps, ByteSteps, Advance, Pool, Sound;
    ByteOfMessage(coder.ModelHeld(), value, rest, enc.State());
    ok := EncodeByte(coder, enc, value);
  }

  lemma FirstByte(a: seq<byte>, b: seq<byte>)
    requires a != []
    ensures a + b == [a[0]] + (a[1..] + b)
  {
  }

  lemma NoBuffers()
    ensures [] + Concat([]) == []
  {
  }

  lemma NextBuffer(rest: seq<seq<byte>>)
    requires rest != []
    ensures [] + Concat(rest) == rest[0] + Concat(rest[1..])
  {
  }

  /** The loop over the input buffers. */
  method EncodeAll(coder: RangeCoder, enc: RangeEncoder, inBuffers: seq<seq<byte>>) returns (ok: bool)
    requires coder.Idle() && enc.Valid() && coder.symbols as object != enc.out
    requires inBuffers != [] && forall k | 0 < k < |inBuffers| :: inBuffers[k] != []
    requires ValidSteps(MessageSteps(coder.ModelHeld(), Concat(inBuffers)))
    modifies coder, coder.symbols, enc`low, enc`range, enc`pos, enc.out
    ensures enc.pos <= enc.limit
    ensures ok ==>
              && enc.Valid()
              && enc.Sent() + Flush(enc.low) ==
                 old(enc.Sent() + Emit(enc.State(), MessageSteps(coder.ModelHeld(), Concat(inBuffers))))
    ensures !ok ==>
              enc.limit < |old(enc.Sent() + Emit(enc.State(), MessageSteps(coder.ModelHeld(), Concat(inBuffers))))|
  {
    hide Send, EncodeStep, Emit, MessageSteps, ByteSteps, Advance, Pool, Sound, Concat, RangeCoder.Holds;
    ghost var stream := enc.Sent() + Emit(enc.State(), MessageSteps(coder.ModelHeld(), Concat(inBuffers)));
    var inData, rest := inBuffers[0], inBuffers[1..];
    NextBuffer(inBuffers);
    assert [] + Concat(inBuffers) == Concat(inBuffers);
    while true
      invariant coder.Idle() && enc.Valid()
      invariant forall k | 0 <= k < |rest| :: rest[k] != []
      invariant ValidSteps(MessageSteps(coder.ModelHeld(), inData + Concat(rest)))
      invariant enc.Sent() + Emit(enc.State(), MessageSteps(coder.ModelHeld(), inData + Concat(rest))) == stream
      decreases |inData| + |Concat(rest)|, |rest|
    {
      if inData == [] {
        if rest == [] { break; }
        NextBuffer(rest);
        inData, rest := rest[0], rest[1..];
      }
      var value := inData[0];
      FirstByte(inData, Concat(rest));
      inData := inData[1..];
      ok := EncodeNext(coder, enc, value, inData + Concat(rest));
      if !ok { return; }
    }
    NoBuffers();
    NothingLeft(coder.ModelHeld(), enc.State());
    ok := true;
  }

  /** enet_range_coder_compress.  The source reads a byte as soon as it has moved on to a buffer,
      so none but the first may be empty. */
  method Compress(
      coder: RangeCoder?, inBuffers: seq<seq<byte>>, inLimit: nat, out: array<byte>, outLimit: nat)
    returns (n: nat)
    requires coder != null ==> coder.symbols.Length == POOL && coder.symbols as object != out
    requires forall k | 0 < k < |inBuffers| :: inBuffers[k] != []
    requires outLimit <= out.Length
    modifies coder, if coder == null then {} else {coder.symbols}, out
    ensures n <= outLimit
    ensures var msg := Concat(inBuffers);
            var refused := coder == null || inBuffers == [] || inLimit == 0 || outLimit < |Stream(msg)|;
            && (refused ==> n == 0)
            && (!refused ==> out[..n] == Stream(msg))
  {
    hide Emit, MessageSteps, Pool, AllSound, Concat, Flush, Fresh;
    if coder == null || inBuffers == [] || inLimit == 0 { return 0; }
    var enc := new RangeEncoder(out, outLimit);
    coder.Reset();
    FreshGood();
    MessageStepsValid(Fresh(), Concat(inBuffers));
    var ok := EncodeAll(coder, enc, inBuffers);
    if !ok { return 0; }
    ok := enc.FlushLow();
    if !ok { return 0; }
    n := enc.pos;
  }
}
