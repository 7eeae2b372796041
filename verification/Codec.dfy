/** What compress and decompress compute, on the plain model, and the round trip between them. */
module Codec {
  import opened Bytes
  import opened RangeCoding
  import opened ContextModel

  /** The stream for a message: every byte coded in turn, then the coder flushed. */
  function Stream(msg: seq<byte>): seq<byte> {
    FreshGood(); MessageStepsValid(Fresh(), msg);
    Emit(WHOLE, MessageSteps(Fresh(), msg))
  }

  // ----- the decoder -----

  /** The decoder's interval and the stream from the four bytes it looks at onwards. */
  datatype Cursor = Cursor(i: Interval, stream: seq<byte>)

  /** What decoding one byte comes to.  `Stray`: the code word lies in no value's range at the
      root, which no stream of the encoder leads to. */
  datatype Decoded =
    | Value(v: byte, exit: Path, next: Cursor)
    | End
    | Rejected
    | Stray

  function Apply(c: Cursor, s: Step): (r: Cursor)
    requires Ready(c.i) && ValidStep(s)
    ensures Ready(r.i)
  {
    var (bytes, j) := EncodeStep(c.i, s);
    Cursor(j, Drop(c.stream, |bytes|))
  }

  /** What a quotient means in context p. */
  datatype Choice = Escape | Symbol(v: byte) | Beyond

  function Choose(p: Path, c: Ctx, code: nat): (r: Choice)
    requires Sound(p, c)
    ensures r.Escape? ==> ValidStep(EscapeStep(p, c))
    ensures r.Symbol? ==> ValidStep(ValueStep(p, c, r.v))
  {
    if code < c.escapes then Escape
    else if code >= Total(p, c) then Beyond
    else
      var v := Lookup(c.freq, Minimum(p), code - c.escapes, 0);
      ValueFound(p, c, v, code - c.escapes);
      Symbol(v)
  }

  lemma ChooseMeaning(p: Path, c: Ctx, code: nat)
    requires Sound(p, c)
    ensures Total(p, c) == c.escapes + Start(c.freq, Minimum(p), 256)
    ensures code < c.escapes ==> Choose(p, c, code) == Escape && ValidStep(EscapeStep(p, c))
    ensures c.escapes <= code && Total(p, c) <= code ==> Choose(p, c, code) == Beyond
    ensures c.escapes <= code < Total(p, c) ==>
              var v := Lookup(c.freq, Minimum(p), code - c.escapes, 0);
              && Choose(p, c, code) == Symbol(v) && ValidStep(ValueStep(p, c, v))
              && ValueStep(p, c, v) == Step(c.escapes + Start(c.freq, Minimum(p), v), c.freq[v] + Minimum(p),
                                            Total(p, c))
  {
  }

  /** Walks down the contexts from p until one of them yields a value. */
  function DecodeByte(ctxs: map<Path, Ctx>, p: Path, cur: Cursor): (r: Decoded)
    requires AllSound(ctxs) && Ready(cur.i)
    ensures r.Value? ==> Ready(r.next.i)
    decreases |p|
  {
    var c := Get(ctxs, p);
    assert Sound(p, c);
    var total := Total(p, c);
    if p != [] && (c.escapes == 0 || c.escapes >= total) then DecodeByte(ctxs, p[1..], cur)
    else
      assert 0 < total by { BelowAtMostTotal(p, c); }
      match Choose(p, c, Quote(cur.i, cur.stream, total))
      case Escape => if p == [] then End else DecodeByte(ctxs, p[1..], Apply(cur, EscapeStep(p, c)))
      case Beyond => if p == [] then Stray else Rejected
      case Symbol(v) => Value(v, p, Apply(cur, ValueStep(p, c, v)))
  }

  lemma BelowAtMostTotal(p: Path, c: Ctx)
    requires Sound(p, c) && (p == [] || c.escapes > 0)
    ensures Total(p, c) > 0
  {
  }

  lemma ValueFound(p: Path, c: Ctx, v: byte, code: nat)
    requires Sound(p, c) && Start(c.freq, Minimum(p), v) <= code < Start(c.freq, Minimum(p), v + 1)
    ensures p == [] || c.freq[v] > 0
    ensures ValidStep(ValueStep(p, c, v))
  {
    StartNext(c.freq, Minimum(p), v);
    ValueStepValid(p, c, v);
  }

  datatype Result =
    | Message(msg: seq<byte>)
    | Failed
    | OffModel

  function Prepend(before: seq<byte>, r: Result): Result {
    if r.Message? then Message(before + r.msg) else r
  }

  /** Decodes until the end of the stream; a message that does not fit into room fails. */
  function DecodeAll(m: Model, cur: Cursor, room: nat): Result
    requires GoodModel(m) && Ready(cur.i)
    decreases room
  {
    match DecodeByte(m.ctxs, m.hist, cur)
    case End => Message([])
    case Rejected => Failed
    case Stray => OffModel
    case Value(v, exit, next) =>
      if room == 0 then Failed
      else AdvanceToGood(m, v, exit); Prepend([v], DecodeAll(AdvanceTo(m, v, exit), next, room - 1))
  }

  function Decode(stream: seq<byte>, room: nat): Result {
    FreshGood();
    DecodeAll(Fresh(), Cursor(WHOLE, stream), room)
  }

  // ----- the round trip -----

  /** The quotients that mean v are those of its step, no others. */
  lemma ChooseSymbol(p: Path, c: Ctx, v: byte, code: nat)
    requires Sound(p, c) && (p == [] || c.freq[v] > 0)
    ensures var s := ValueStep(p, c, v);
            Choose(p, c, code) == Symbol(v) <==> s.under <= code < s.under + s.count
  {
    hide Start, Lookup;
    StartNext(c.freq, Minimum(p), v);
    StartMonotone(c.freq, Minimum(p), v + 1, 256);
    if c.escapes + Start(c.freq, Minimum(p), v) <= code < c.escapes + Start(c.freq, Minimum(p), v + 1) {
      LookupUnique(c.freq, Minimum(p), code - c.escapes, v);
    }
  }

  lemma ValueRoundTrip(ctxs: map<Path, Ctx>, p: Path, v: byte, i: Interval, rest: seq<Step>)
    requires AllSound(ctxs) && Ready(i) && ValidSteps(rest)
    requires p == [] || Get(ctxs, p).freq[v] > 0
    ensures var s := ValueStep(p, Get(ctxs, p), v);
            && ValidStep(s) && ValidSteps([s] + rest)
            && var j := EncodeStep(i, s).1;
            DecodeByte(ctxs, p, Cursor(i, Emit(i, [s] + rest))) == Value(v, p, Cursor(j, Emit(j, rest)))
  {
    var c := Get(ctxs, p);
    assert Sound(p, c);
    var s := ValueStep(p, c, v);
    ValueStepValid(p, c, v);
    QuoteInStep(i, s, rest);
    ChooseSymbol(p, c, v, Quote(i, Emit(i, [s] + rest), s.total));
    if p != [] { EscapesBelowTotal(p, c, v); }
    DecodeFollows(i, s, rest);
  }

  /** A context that does not know v: decoding its escape leads to the next context. */
  lemma EscapeRoundTrip(ctxs: map<Path, Ctx>, p: Path, i: Interval, rest: seq<Step>)
    requires AllSound(ctxs) && Ready(i) && ValidSteps(rest)
    requires p != [] && 0 < Get(ctxs, p).escapes < Total(p, Get(ctxs, p))
    ensures var s := EscapeStep(p, Get(ctxs, p));
            && ValidStep(s) && ValidSteps([s] + rest)
            && var j := EncodeStep(i, s).1;
            DecodeByte(ctxs, p, Cursor(i, Emit(i, [s] + rest))) == DecodeByte(ctxs, p[1..], Cursor(j, Emit(j, rest)))
  {
    var c := Get(ctxs, p);
    assert Sound(p, c);
    var s := EscapeStep(p, c);
    QuoteInStep(i, s, rest);
    DecodeFollows(i, s, rest);
  }

  /** Decoding where the encoder coded v: the same value comes out, and the decoder is left where
      the encoder was after v. */
  lemma {:induction false} ByteRoundTrip(ctxs: map<Path, Ctx>, p: Path, v: byte, i: Interval, rest: seq<Step>)
    requires AllSound(ctxs) && Ready(i) && ValidSteps(rest)
    ensures ValidSteps(ByteSteps(ctxs, p, v)) && ValidSteps(ByteSteps(ctxs, p, v) + rest)
    ensures var j := EncodeSteps(i, ByteSteps(ctxs, p, v));
            var d := DecodeByte(ctxs, p, Cursor(i, Emit(i, ByteSteps(ctxs, p, v) + rest)));
            d == Value(v, Exit(ctxs, p, v), Cursor(j, Emit(j, rest)))
    decreases |p|
  {
    ByteStepsValid(ctxs, p, v);
    var c, steps := Get(ctxs, p), ByteSteps(ctxs, p, v);
    assert Sound(p, c);
    if p == [] || c.freq[v] > 0 {
      ValueRoundTrip(ctxs, p, v, i, rest);
      assert steps == [steps[0]] + [];
    } else {
      ByteStepsValid(ctxs, p[1..], v);
      var lower := ByteSteps(ctxs, p[1..], v);
      if 0 < c.escapes < Total(p, c) {
        var s := EscapeStep(p, c);
        assert steps == [s] + lower && steps + rest == [s] + (lower + rest);
        EscapeRoundTrip(ctxs, p, i, lower + rest);
        ByteRoundTrip(ctxs, p[1..], v, EncodeStep(i, s).1, rest);
      } else {
        assert steps == lower;
        ByteRoundTrip(ctxs, p[1..], v, i, rest);
      }
    }
  }

  lemma EscapesBelowTotal(p: Path, c: Ctx, v: byte)
    requires Sound(p, c) && p != [] && c.freq[v] > 0
    ensures 0 < c.escapes < Total(p, c)
  {
    BelowAtLeast(c.freq, v, 256);
  }

  /** At the end of the stream every context escapes and so does the root. */
  lemma {:induction false} EndRoundTrip(ctxs: map<Path, Ctx>, p: Path, i: Interval)
    requires AllSound(ctxs) && Ready(i)
    ensures DecodeByte(ctxs, p, Cursor(i, Emit(i, []))) == End
    decreases |p|
  {
    var c := Get(ctxs, p);
    assert Sound(p, c);
    var total := Total(p, c);
    if p != [] && (c.escapes == 0 || c.escapes >= total) {
      EndRoundTrip(ctxs, p[1..], i);
    } else {
      EndQuote(i, total);
      if p != [] {
        var s := EscapeStep(p, c);
        EndFollows(i, s);
        EndRoundTrip(ctxs, p[1..], EncodeStep(i, s).1);
      }
    }
  }

  lemma {:induction false} MessageRoundTrip(m: Model, msg: seq<byte>, i: Interval, room: nat)
    requires GoodModel(m) && Ready(i)
    ensures ValidSteps(MessageSteps(m, msg))
    ensures DecodeAll(m, Cursor(i, Emit(i, MessageSteps(m, msg))), room) ==
            if |msg| <= room then Message(msg) else Failed
    decreases |msg|
  {
    hide EncodeStep, EncodeSteps, Emit, DecodeByte, ByteSteps, Advance, AdvanceTo, Sound;
    MessageStepsValid(m, msg);
    if msg == [] {
      EndRoundTrip(m.ctxs, m.hist, i);
    } else {
      var v := msg[0];
      AdvanceGood(m, v);
      MessageStepsValid(Advance(m, v), msg[1..]);
      var rest := MessageSteps(Advance(m, v), msg[1..]);
      ByteRoundTrip(m.ctxs, m.hist, v, i, rest);
      if room > 0 {
        AdvanceToExit(m, v);
        MessageRoundTrip(Advance(m, v), msg[1..], EncodeSteps(i, ByteSteps(m.ctxs, m.hist, v)), room - 1);
        assert [v] + msg[1..] == msg;
      }
    }
  }

  /** Round trip: the stream of any message decodes to exactly that message, and stops there, if
      and only if there is room for it. */
  lemma RoundTrip(msg: seq<byte>, room: nat)
    ensures Decode(Stream(msg), room) == if |msg| <= room then Message(msg) else Failed
  {
    FreshGood();
    MessageRoundTrip(Fresh(), msg, WHOLE, room);
  }

  /** Two messages never share a stream. */
  lemma StreamInjective(a: seq<byte>, b: seq<byte>)
    requires Stream(a) == Stream(b)
    ensures a == b
  {
    var room := |a| + |b|;
    RoundTrip(a, room);
    RoundTrip(b, room);
  }

  /** Compression of a non-empty message always sends something. */
  lemma StreamNotEmpty(msg: seq<byte>)
    requires msg != []
    ensures Stream(msg) != []
  {
    if Stream(msg) == [] {
      RoundTrip(msg, |msg|);
      RoundTrip([], |msg|);
    }
  }

  // ----- bounds -----

  /** The model after a message. */
  function After(m: Model, msg: seq<byte>): Model
    decreases |msg|
  {
    if msg == [] then m else After(Advance(m, msg[0]), msg[1..])
  }

  lemma {:induction false} AfterGood(m: Model, msg: seq<byte>)
    requires GoodModel(m) && m.used < POOL - ORDER
    ensures GoodModel(After(m, msg)) && After(m, msg).used < POOL - ORDER
    decreases |msg|
  {
    hide Created, Learn, GoodModel;
    if msg != [] {
      AdvanceGood(m, msg[0]);
      FreshStart();
      AfterGood(Advance(m, msg[0]), msg[1..]);
    }
  }

  /** Whatever has been coded, counts fit 8 bits and totals 16, a byte makes at most three symbols, and
      the pool has room for them. */
  lemma RunBounds(msg: seq<byte>, p: Path, v: byte)
    ensures var m := After(Fresh(), msg);
            && Total(p, Get(m.ctxs, p)) <= 65280 && Get(m.ctxs, p).freq[v] <= 255
            && Created(m.ctxs, m.hist, v) <= 3 && m.used + Created(m.ctxs, m.hist, v) <= POOL
  {
    FreshGood();
    FreshStart();
    AfterGood(Fresh(), msg);
    hide After, Created, Total;
    assert Sound(p, Get(After(Fresh(), msg).ctxs, p));
  }
}
