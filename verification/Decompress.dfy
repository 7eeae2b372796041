/** enet_range_coder_decompress, proved to compute Codec.Decode for every input. */
module Decompress {
  import opened Bytes
  import opened Constants
  import opened RangeCoding
  import opened ContextModel
  import opened Codec
  import opened SymbolTree
  import opened PoolInvariant
  import opened SymbolPool

  lemma NextCodeWord(s: seq<byte>, k: nat)
    ensures CodeWord(Drop(s, k + 1)) == CodeWord(Drop(s, k)) * 256 % WORD + At(s, k + 4)
  {
    var a, b := Drop(s, k), Drop(s, k + 1);
    assert At(b, 0) == At(a, 1) && At(b, 1) == At(a, 2) && At(b, 2) == At(a, 3) && At(b, 3) == At(s, k + 4);
    var x := At(a, 1) * 0x1_0000 + At(a, 2) * 0x100 + At(a, 3);
    assert CodeWord(a) * 256 == At(a, 0) * WORD + x * 256;
    Residue(At(a, 0), WORD, x * 256);
  }

  /** decodeLow, decodeRange, decodeCode and the input pointer of decompress. */
  class RangeDecoder {
    var low: nat
    var range: nat
    var code: nat
    var pos: nat
    const input: seq<byte>
    ghost var shifted: nat     // how many bytes have left the code word

    /** The code word is the next four bytes of the stream, zeros after its end. */
    ghost predicate Reads()
      reads this
    {
      code == CodeWord(Stream()) && pos == if shifted + 4 <= |input| then shifted + 4 else |input|
    }

    ghost predicate Valid()
      reads this
    {
      Ready(State()) && Reads()
    }

    ghost function State(): Interval
      reads this
    {
      Interval(low, range)
    }

    ghost function Stream(): seq<byte>
      reads this
    {
      Drop(input, shifted)
    }

    ghost function Here(): Cursor
      reads this
    {
      Cursor(State(), Stream())
    }

    /** ENET_RANGE_CODER_SEED. */
    constructor (input: seq<byte>)
      ensures this.input == input && Valid() && Here() == Cursor(WHOLE, input)
    {
      this.input := input;
      var p: nat, w: nat := 0, 0;
      if p < |input| { w := w + (input[p] as nat) * 0x100_0000; p := p + 1; }
      if p < |input| { w := w + (input[p] as nat) * 0x1_0000; p := p + 1; }
      if p < |input| { w := w + (input[p] as nat) * 0x100; p := p + 1; }
      if p < |input| { w := w + input[p]; p := p + 1; }
      low, code, range, pos, shifted := 0, w, WORD - 1, p, 0;
    }

    /** ENET_RANGE_CODER_READ, stored to a 16-bit variable; divides the range on the way. */
    method Read(total: nat) returns (q: nat)
      requires Valid() && 0 < total <= range
      modifies this`range
      ensures range == old(range) / total && q == Quote(old(State()), Stream(), total)
    {
      range := range / total;
      q := (code - low) % WORD / range % 0x1_0000;
    }

    /** ENET_RANGE_CODER_DECODE, after a Read that divided the range of i by total. */
    method Decode(under: nat, count: nat, ghost total: nat, ghost i: Interval)
      requires Reads() && Ready(i) && ValidStep(Step(under, count, total))
      requires low == i.low && range == i.range / total
      modifies this`low, this`range, this`code, this`pos, this`shifted
      ensures Valid() && Here() == Apply(Cursor(i, old(Stream())), Step(under, count, total))
    {
      hide Renormalise;
      ghost var s := Step(under, count, total);
      NarrowInside(i, s);
      NarrowedWord(i, s);
      low := (low + under * range) % WORD;
      range := range * count % WORD;
      assert State() == Narrow(i, s);
      Normalise();
    }

    /** The loop of ENET_RANGE_CODER_DECODE. */
    method Normalise()
      requires Open(State()) && Reads()
      modifies this`low, this`range, this`code, this`pos, this`shifted
      ensures Valid() && State() == Renormalise(old(State())).1
      ensures shifted == old(shifted) + |Renormalise(old(State())).0|
      ensures Stream() == Drop(old(Stream()), |Renormalise(old(State())).0|)
    {
      hide Renormalise, Aligned, Shift, Leading;
      while true
        invariant Open(State()) && Reads()
        invariant shifted + |Renormalise(State()).0| == old(shifted) + |Renormalise(old(State())).0|
        invariant Renormalise(State()).1 == Renormalise(old(State())).1
        decreases low + range < WORD, WORD - range
      {
        if low / TOP != (low + range) % WORD / TOP && range >= BOTTOM {
          RenormaliseStop(State());
          break;
        }
        RenormaliseTurn(State());
        ShiftByte();
      }
    }

    /** One turn of that loop that does not leave it. */
    method ShiftByte()
      requires Open(State()) && Reads() && (TopByteDiffers(State()) ==> range < BOTTOM)
      modifies this`low, this`range, this`code, this`pos, this`shifted
      ensures State() == Shift(Aligned(old(State()))) && Reads() && shifted == old(shifted) + 1
    {
      if low / TOP != (low + range) % WORD / TOP {
        range := (BOTTOM - low % BOTTOM) % BOTTOM;
      }
      NextCodeWord(input, shifted);
      code := code * 256 % WORD;
      if pos < |input| {
        code := code + input[pos];
        pos := pos + 1;
      }
      range := range * 256 % WORD;
      low := low * 256 % WORD;
      shifted := shifted + 1;
    }
  }

  /** What one round of the loop over contexts comes to. */
  datatype Round =
    | Found(value: byte, symbol: nat)
    | Escaped
    | EndOfStream
    | Refused
    | OutOfRange

  /** One round: read a quotient in the context of slot k; follow its escape, or find and count the
      value it stands for.  For the root, a quotient beyond the total is reported as OutOfRange:
      the source goes on with a value cut to 8 bits. */
  method DecodeContext(coder: RangeCoder, dec: RangeDecoder, k: nat, delta: nat, minimum: nat) returns (r: Round)
    requires coder.Holds({}, -1) && AllSound(coder.ctxs) && dec.Valid()
    requires k < coder.nextSymbol < POOL && |coder.names[k]| <= ORDER
    requires delta == Delta(coder.names[k]) && minimum == Minimum(coder.names[k])
    modifies coder`nextSymbol, coder`names, coder`trees, coder`ctxs, coder.symbols,
             dec`low, dec`range, dec`code, dec`pos, dec`shifted
    ensures !r.Found? ==>
              coder.Holds({}, -1) && coder.names == old(coder.names) && coder.ctxs == old(coder.ctxs)
    ensures var p := old(coder.names)[k];
            var c, cur := Get(old(coder.ctxs), p), old(dec.Here());
            Sound(p, c) &&
            if p != [] && (c.escapes == 0 || c.escapes >= Total(p, c)) then r == Escaped && dec.Valid()
                && dec.Here() == cur
            else
              && 0 < Total(p, c) <= cur.i.range
              && match Choose(p, c, Quote(cur.i, cur.stream, Total(p, c)))
                 case Escape =>
                   && dec.Valid() && dec.Here() == Apply(cur, EscapeStep(p, c))
                   && r == if p == [] then EndOfStream else Escaped
                 case Beyond => r == if p == [] then OutOfRange else Refused
                 case Symbol(v) =>
                   && r.Found? && r.value == v && dec.Valid() && dec.Here() == Apply(cur, ValueStep(p, c, v))
                   && coder.Holds({}, -1)
                   && coder.names == Named(old(coder.names), p, c.freq[v] > 0, v)
                   && coder.ctxs == old(coder.ctxs)[p := Bump(p, c, v)]
                   && r.symbol < coder.nextSymbol && coder.names[r.symbol] == p + [v]
  {
    ghost var p, c, cur := coder.names[k], Get(coder.ctxs, coder.names[k]), dec.Here();
    SlotNumbers(coder, k);
    hide Choose, Lookup, Start, Total, EncodeStep, Sound, Pool, Bump, CodeWord, Quote, ValueStep, AllSound;
    var escapes, total := coder.symbols[k].escapes, coder.symbols[k].total;
    if minimum == 0 && (escapes <= 0 || escapes >= total) { return Escaped; }
    var code := dec.Read(total);
    ChooseMeaning(p, c, code);
    if code < escapes {
      dec.Decode(0, escapes, total, cur.i);
      return if minimum == 0 then Escaped else EndOfStream;
    }
    if minimum > 0 && code >= total { return OutOfRange; }
    r := TakeValue(coder, dec, k, code, delta, minimum, escapes, total, cur.i);
  }

  /** The rest of a round, once the quotient is known to be no escape. */
  method TakeValue(
      coder: RangeCoder, dec: RangeDecoder, k: nat, code: nat, delta: nat, minimum: nat, escapes: nat, total: nat,
      ghost i: Interval)
    returns (r: Round)
    requires coder.Holds({}, -1) && dec.Reads() && Ready(i)
    requires k < coder.nextSymbol < POOL && |coder.names[k]| <= ORDER
    requires delta == Delta(coder.names[k]) && minimum == Minimum(coder.names[k])
    requires var p := coder.names[k]; var c := Get(coder.ctxs, p);
             && Sound(p, c) && total == Total(p, c) && escapes == c.escapes <= code && 0 < total
                 && (p == [] ==> code < total)
    requires dec.low == i.low && total <= i.range && dec.range == i.range / total
    modifies coder`nextSymbol, coder`names, coder`trees, coder`ctxs, coder.symbols,
             dec`low, dec`range, dec`code, dec`pos, dec`shifted
    ensures var p := old(coder.names)[k]; var c := Get(old(coder.ctxs), p);
            match Choose(p, c, code)
            case Escape => false
            case Beyond => r == Refused && coder.Holds({}, -1) && coder.names == old(coder.names)
                && coder.ctxs == old(coder.ctxs)
            case Symbol(v) =>
              && r.Found? && r.value == v
              && dec.Valid() && dec.Here() == Apply(Cursor(i, old(dec.Stream())), ValueStep(p, c, v))
              && coder.Holds({}, -1)
              && coder.names == Named(old(coder.names), p, c.freq[v] > 0, v)
              && coder.ctxs == old(coder.ctxs)[p := Bump(p, c, v)]
              && r.symbol < coder.nextSymbol && coder.names[r.symbol] == p + [v]
  {
    hide Choose, Lookup, Start, Total, EncodeStep, Sound, Pool, Bump, CodeWord, ValueStep, Carries;
    ghost var p, c := coder.names[k], Get(coder.ctxs, coder.names[k]);
    ChooseMeaning(p, c, code);
    var hit, symbol, value, under, count := coder.ContextDecode(k, code - escapes, delta, minimum, minimum > 0);
    if !hit { return Refused; }
    dec.Decode(escapes + under, count, total, i);
    coder.Settle(k, value, count, delta, minimum, {});
    r := Found(value, symbol);
  }

  lemma SlotNumbers(coder: RangeCoder, k: nat)
    requires coder.Holds({}, -1) && AllSound(coder.ctxs) && k < coder.nextSymbol
    ensures k < coder.symbols.Length
    ensures var p := coder.names[k]; var c := Get(coder.ctxs, p);
            && Sound(p, c)
            && coder.symbols[k].escapes == c.escapes && coder.symbols[k].total == Total(p, c)
            && (p == [] || c.escapes > 0 ==> 0 < Total(p, c) < BOTTOM)
  {
    assert CarriesCtx(coder.symbols[..], coder.names, coder.trees, coder.ctxs, k);
    assert Sound(coder.names[k], Get(coder.ctxs, coder.names[k]));
  }

  /** The walk down the contexts until one yields a value. */
  method FindValue(coder: RangeCoder, dec: RangeDecoder) returns (r: Round, subcontext: nat)
    requires coder.Idle() && dec.Valid()
    modifies coder`nextSymbol, coder`names, coder`trees, coder`ctxs, coder.symbols,
             dec`low, dec`range, dec`code, dec`pos, dec`shifted
    ensures var m := old(coder.ModelHeld());
            match DecodeByte(m.ctxs, m.hist, old(dec.Here()))
            case End => r == EndOfStream
            case Rejected => r == Refused
            case Stray => r == OutOfRange
            case Value(v, e, next) =>
              && r.Found? && r.value == v && dec.Valid() && dec.Here() == next
              && subcontext < |old(coder.names)| && old(coder.names)[subcontext] == e && OnChain(m.hist, e)
              && coder.Holds({}, -1)
              && coder.names == Named(old(coder.names), e, Get(m.ctxs, e).freq[v] > 0, v)
              && coder.ctxs == m.ctxs[e := Bump(e, Get(m.ctxs, e), v)]
              && r.symbol < coder.nextSymbol && coder.names[r.symbol] == e + [v]
  {
    hide Choose, EncodeStep, Sound, AllSound, Pool, Bump, Apply, Quote, ValueStep, EscapeStep, Total, OnChain;
    ghost var m, goal := coder.ModelHeld(), DecodeByte(coder.ctxs, coder.ModelHeld().hist, dec.Here());
    subcontext := coder.predicted;
    ghost var p := m.hist;
    ChainSelf(p);
    while true
      invariant coder.Holds({}, -1) && coder.names == old(coder.names) && coder.ctxs == m.ctxs && dec.Valid()
      invariant subcontext < |coder.names| && coder.names[subcontext] == p && OnChain(m.hist, p)
      invariant DecodeByte(m.ctxs, p, dec.Here()) == goal
      decreases |p|
    {
      PoolRoot(coder.symbols[..], coder.names, coder.trees, coder.ctxs, {}, -1, subcontext);
      ghost var here := dec.Here();
      var delta, minimum := if subcontext != 0 then 2 else 3, if subcontext != 0 then 0 else 1;
      r := DecodeContext(coder, dec, subcontext, delta, minimum);
      if !r.Escaped? { return; }
      PoolParent(coder.symbols[..], coder.names, coder.trees, coder.ctxs, {}, -1, subcontext);
      subcontext := coder.symbols[subcontext].parent;
      ChainNext(m.hist, p);
      p := p[1..];
    }
  }

  /** patchContexts: the contexts that were skipped on the way down learn the value as well, and
      its slots are linked, ending at `bottom`, the slot the value was found in. */
  method PatchContexts(
      coder: RangeCoder, v: byte, subcontext: nat, bottom: nat, ghost m: Model, ghost e: Path)
    requires coder.Holds({}, -1) && GoodModel(m) && m.used < POOL - ORDER && OnChain(m.hist, e)
    requires coder.predicted < |coder.names| && coder.names[coder.predicted] == m.hist && coder.order == |m.hist|
    requires subcontext < |coder.names| && coder.names[subcontext] == e
    requires bottom < |coder.names| && coder.names[bottom] == e + [v]
    requires coder.ctxs == m.ctxs[e := Bump(e, Get(m.ctxs, e), v)]
    requires coder.nextSymbol == m.used + if Get(m.ctxs, e).freq[v] > 0 then 0 else 1
    modifies coder, coder.symbols
    ensures coder.Holds({}, -1) && coder.order == old(coder.order)
    ensures coder.predicted < coder.nextSymbol && coder.names[coder.predicted] == m.hist + [v]
    ensures coder.ctxs == LearnTo(m.ctxs, m.hist, e, v)
    ensures coder.nextSymbol == m.used + CreatedTo(m.ctxs, m.hist, e, v)
  {
    hide Sound, AllSound, Pool, Bump, LearnTo, CreatedTo, OnChain;
    ChainLength(m.hist, e);
    DecoderWork(m, e, v);
    var patch, parent := coder.predicted, ToPredicted;
    ghost var p, pending: set<nat> := m.hist, {};
    while patch != subcontext
      invariant Patching(coder, m, v, e, p, patch, subcontext, bottom, parent, pending)
      decreases |p|
    {
      PatchDiffers(coder, m, v, e, p, patch, subcontext, bottom, parent, pending);
      patch, parent, pending := PatchOne(coder, v, patch, subcontext, bottom, parent, m, e, p, pending);
      p := p[1..];
    }
    assert p == e;
    coder.Link(parent, bottom, pending, -1);
    if parent.ParentOf? { assert pending - {parent.slot} == {}; }
  }

  /** In the middle of patching, about to patch context p in slot `patch`. */
  ghost predicate Patching(
      coder: RangeCoder, m: Model, v: byte, e: Path, p: Path, patch: nat, subcontext: nat, bottom: nat,
      parent: Pointer, pending: set<nat>)
    reads coder, coder.symbols
  {
    && coder.Holds(pending, -1) && coder.Awaits(parent, p, v, pending)
    && patch < |coder.names| && coder.names[patch] == p
    && subcontext < |coder.names| && coder.names[subcontext] == e
    && bottom < |coder.names| && coder.names[bottom] == e + [v]
    && coder.order == |m.hist|
    && (|p| == |m.hist| <==> parent.ToPredicted?)
    && (|p| < |m.hist| ==> coder.predicted < |coder.names| && coder.names[coder.predicted] == m.hist + [v])
    && PatchProgress(coder.ctxs, |coder.names|, m, v, e, p)
  }

  /** The model's side of it: what has been learnt and created and what is still to be. */
  ghost predicate PatchProgress(ctxs: map<Path, Ctx>, used: nat, m: Model, v: byte, e: Path, p: Path) {
    && AllSound(ctxs)
    && |e| <= |p| <= |m.hist| <= ORDER && OnChain(p, e) && (|p| == |m.hist| ==> p == m.hist)
    && m.used < POOL - ORDER && used <= m.used + 1 + |m.hist| - |p|
    && Patch(ctxs, p, e, v) == LearnTo(m.ctxs, m.hist, e, v)
    && used + CreatedAbove(ctxs, p, e, v) == m.used + CreatedTo(m.ctxs, m.hist, e, v)
  }

  lemma PatchProgresses(ctxs: map<Path, Ctx>, used: nat, m: Model, v: byte, e: Path, p: Path)
    requires PatchProgress(ctxs, used, m, v, e, p) && |p| > |e|
    ensures 0 < |p| <= ORDER && |p| <= |m.hist| && (|p| == |m.hist| ==> p == m.hist) && used < POOL
    ensures var c := Get(ctxs, p);
            var used' := used + if c.freq[v] > 0 then 0 else 1;
            PatchProgress(ctxs[p := Bump(p, c, v)], used', m, v, e, p[1..])
  {
    hide AllSound, Bump, LearnTo, CreatedTo, Patch, CreatedAbove, OnChain;
    PatchRound(ctxs, p, e, v);
    ChainDrop(p, e);
  }

  lemma PatchDiffers(
      coder: RangeCoder, m: Model, v: byte, e: Path, p: Path, patch: nat, subcontext: nat, bottom: nat,
      parent: Pointer, pending: set<nat>)
    requires Patching(coder, m, v, e, p, patch, subcontext, bottom, parent, pending) && patch != subcontext
    ensures |p| > |e|
  {
    if |p| == |e| { Same(coder.names, patch, subcontext); }
  }

  /** One turn of the patching loop. */
  method PatchOne(
      coder: RangeCoder, v: byte, patch: nat, subcontext: nat, bottom: nat, parent: Pointer,
      ghost m: Model, ghost e: Path, ghost p: Path, ghost pending: set<nat>)
    returns (patch': nat, parent': Pointer, ghost pending': set<nat>)
    requires Patching(coder, m, v, e, p, patch, subcontext, bottom, parent, pending) && |p| > |e|
    modifies coder, coder.symbols
    ensures Patching(coder, m, v, e, p[1..], patch', subcontext, bottom, parent', pending')
  {
    hide Bump, PatchProgress, Get, RangeCoder.Holds, Pool;
    PatchProgresses(coder.ctxs, |coder.names|, m, v, e, p);
    HeldCount(coder, pending);
    var symbol;
    symbol, pending' := Relearn(coder, v, patch, parent, p, pending);
    parent', patch' := ParentOf(symbol), coder.symbols[patch].parent;
  }

  lemma HeldCount(coder: RangeCoder, pending: set<nat>)
    requires coder.Holds(pending, -1)
    ensures coder.nextSymbol == |coder.names|
  {
  }

  /** A skipped context looks the value up, counting it, and learns. */
  method Relearn(
      coder: RangeCoder, v: byte, patch: nat, parent: Pointer, ghost p: Path, ghost pending: set<nat>)
    returns (symbol: nat, ghost pending': set<nat>)
    requires coder.Holds(pending, -1) && patch < coder.nextSymbol < POOL && coder.names[patch] == p
    requires 0 < |p| <= ORDER && coder.Awaits(parent, p, v, pending)
    modifies coder, coder.symbols
    ensures var c := Get(old(coder.ctxs), p);
            && coder.Holds(pending', -1) && pending' <= {symbol}
            && coder.ctxs == old(coder.ctxs)[p := Bump(p, c, v)]
            && coder.names == Named(old(coder.names), p, c.freq[v] > 0, v) && |coder.names| == coder.nextSymbol
            && symbol < |coder.names| && coder.names[symbol] == p + [v]
            && patch < coder.symbols.Length && coder.symbols[patch].parent < |coder.names|
            && coder.names[coder.symbols[patch].parent] == p[1..]
    ensures coder.order == old(coder.order)
    ensures coder.predicted == if parent.ToPredicted? then symbol else old(coder.predicted)
  {
    hide Pool, Bump;
    ghost var c := Get(coder.ctxs, p);
    var under, count;
    symbol, under, count := coder.Visit(patch, v, 2, 0, parent, pending);
    pending' := Waiting({}, p, c.freq[v] > 0, symbol);
    coder.Settle(patch, v, count, 2, 0, pending');
    SettledParent(coder, c, p, v, patch, symbol);
  }

  lemma SettledParent(coder: RangeCoder, c: Ctx, p: Path, v: byte, patch: nat, symbol: nat)
    requires coder.Holds(Waiting({}, p, c.freq[v] > 0, symbol), -1) && p != []
    requires patch < |coder.names| && coder.names[patch] == p
    requires symbol < |coder.names| && coder.names[symbol] == p + [v]
    ensures patch < coder.symbols.Length
    ensures coder.symbols[patch].parent < |coder.names| && coder.names[coder.symbols[patch].parent] == p[1..]
  {
    assert p + [v] != p;
    PoolParent(coder.symbols[..], coder.names, coder.trees, coder.ctxs, Waiting({}, p, c.freq[v] > 0, symbol), -1,
               patch);
  }

  /** One turn of decompress: a value and the model after it, or the reason to stop. */
  method DecodeNext(coder: RangeCoder, dec: RangeDecoder) returns (r: Round)
    requires coder.Idle() && dec.Valid()
    modifies coder, coder.symbols, dec`low, dec`range, dec`code, dec`pos, dec`shifted
    ensures var m := old(coder.ModelHeld());
            GoodModel(m) &&
            match DecodeByte(m.ctxs, m.hist, old(dec.Here()))
            case End => r == EndOfStream
            case Rejected => r == Refused
            case Stray => r == OutOfRange
            case Value(v, e, next) =>
              && r.Found? && r.value == v && dec.Valid() && dec.Here() == next
              && coder.Idle() && coder.ModelHeld() == AdvanceTo(m, v, e)
  {
    hide Sound, AllSound, Pool, Bump, LearnTo, CreatedTo, DecodeByte, OnChain, Fresh;
    ghost var m := coder.ModelHeld();
    ghost var d := DecodeByte(m.ctxs, m.hist, dec.Here());
    var subcontext;
    r, subcontext := FindValue(coder, dec);
    if r.Found? {
      PatchContexts(coder, r.value, subcontext, r.symbol, m, d.exit);
      LearnToSound(m.ctxs, m.hist, d.exit, r.value);
      coder.NextInput(m.hist, r.value);
    }
  }

  /** enet_range_coder_decompress.  offModel: the input was no stream of compress and made the
      decoder read a quotient beyond the root's total. */
  method Decompress(coder: RangeCoder?, input: seq<byte>, out: array<byte>, outLimit: nat)
    returns (n: nat, offModel: bool)
    requires coder != null ==> coder.symbols.Length == POOL && coder.symbols as object != out
    requires outLimit <= out.Length
    modifies coder, if coder == null then {} else {coder.symbols}, out
    ensures n <= outLimit
    ensures if coder == null || input == [] then n == 0 && !offModel
            else match Decode(input, outLimit)
                 case Message(msg) => !offModel && out[..n] == msg
                 case Failed => !offModel && n == 0
                 case OffModel => offModel
  {
    hide Decode;
    if coder == null || input == [] { return 0, false; }
    n, offModel := DecodeStream(coder, input, out, outLimit);
  }

  /** The same from ENET_CONTEXT_CREATE on. */
  method DecodeStream(coder: RangeCoder, input: seq<byte>, out: array<byte>, outLimit: nat)
    returns (n: nat, offModel: bool)
    requires coder.symbols.Length == POOL && coder.symbols as object != out && outLimit <= out.Length
    modifies coder, coder.symbols, out
    ensures n <= outLimit
    ensures match Decode(input, outLimit)
            case Message(msg) => !offModel && out[..n] == msg
            case Failed => !offModel && n == 0
            case OffModel => offModel
  {
    DecodeIsAll(input, outLimit);
    hide *;
    coder.Reset();
    var dec := new RangeDecoder(input);
    n, offModel := DecodeLoop(coder, dec, out, outLimit);
  }

  lemma DecodeIsAll(input: seq<byte>, room: nat)
    ensures GoodModel(Fresh()) && Ready(WHOLE)
    ensures Decode(input, room) == DecodeAll(Fresh(), Cursor(WHOLE, input), room)
  {
    FreshGood();
  }

  lemma PrependMore(before: seq<byte>, v: byte, r: Codec.Result)
    ensures Prepend(before, Prepend([v], r)) == Prepend(before + [v], r)
  {
    if r.Message? { assert before + ([v] + r.msg) == before + [v] + r.msg; }
  }

  method DecodeLoop(coder: RangeCoder, dec: RangeDecoder, out: array<byte>, outLimit: nat)
    returns (n: nat, offModel: bool)
    requires coder.Idle() && dec.Valid() && coder.symbols as object != out && outLimit <= out.Length
    modifies coder, coder.symbols, dec, out
    ensures n <= outLimit
    ensures var m := old(coder.ModelHeld());
            GoodModel(m) &&
            match DecodeAll(m, old(dec.Here()), outLimit)
            case Message(msg) => !offModel && out[..n] == msg
            case Failed => !offModel && n == 0
            case OffModel => offModel
  {
    hide Sound, AllSound, Pool, DecodeByte, AdvanceTo, RangeCoder.Holds, RangeDecoder.Reads, Ready;
    ghost var m := coder.ModelHeld();
    ghost var goal := DecodeAll(m, dec.Here(), outLimit);
    n, offModel := 0, false;
    assert out[..0] == [];
    while true
      invariant n <= outLimit && !offModel
      invariant coder.Idle() && dec.Valid()
      invariant Prepend(out[..n], DecodeAll(coder.ModelHeld(), dec.Here(), outLimit - n)) == goal
      decreases outLimit - n
    {
      ghost var before := out[..n];
      var r := DecodeNext(coder, dec);
      match r {
        case EndOfStream => assert out[..n] + [] == out[..n]; return;
        case OutOfRange => offModel := true; return;
        case Found(value, _) =>
          if n >= outLimit { return 0, false; }
          out[n] := value;
          n := n + 1;
          assert out[..n] == before + [value];
          PrependMore(before, value, DecodeAll(coder.ModelHeld(), dec.Here(), outLimit - n));
        case Refused => return 0, false;
        case Escaped => assert false;
      }
    }
  }
}
