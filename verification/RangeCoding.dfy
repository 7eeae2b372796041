/** The carry-less 32-bit range coder of compress.c as arithmetic on intervals.

    A coder state is the half-open interval [low, low + range) of 32-bit code words that are
    still possible.  Encoding a step narrows the interval, renormalising sends its leading
    bytes away.  The stream a run of steps produces is `Emit`; that its first four bytes always
    lie in the current interval is what lets the decoder follow the encoder.
 */
module RangeCoding {
  import opened Bytes
  import opened Constants
  import opened Words

  const TOP: nat := 0x100_0000
  const BOTTOM: nat := 0x1_0000

  datatype Interval = Interval(low: nat, range: nat)

  /** One coding step: the part [under, under + count) out of total. */
  datatype Step = Step(under: nat, count: nat, total: nat)

  const WHOLE := Interval(0, WORD - 1)

  predicate ValidStep(s: Step) {
    0 < s.count && s.under + s.count <= s.total < BOTTOM
  }

  /** What holds at the head of the renormalisation loop.  The last conjunct: an interval that
      ends exactly at 2^32, where the 32-bit sum wraps to 0, never starts below 2^24. */
  predicate Open(i: Interval) {
    && 0 < i.range
    && i.low + i.range <= WORD
    && (i.low + i.range == WORD ==> TOP <= i.low)
  }

  /** What holds on entry to each coding step. */
  predicate Ready(i: Interval) {
    Open(i) && BOTTOM <= i.range
  }

  predicate Contains(i: Interval, code: nat) {
    i.low <= code < i.low + i.range
  }

  /** The comparison `(low ^ (low + range)) >= TOP` on 32-bit words. */
  predicate TopByteDiffers(i: Interval) {
    i.low / TOP != ((i.low + i.range) % WORD) / TOP
  }

  function Narrow(i: Interval, s: Step): Interval
    requires 0 < s.total
  {
    Interval(i.low + s.under * (i.range / s.total), (i.range / s.total) * s.count)
  }

  /** `range = -low & (BOTTOM - 1)`. */
  function Truncate(i: Interval): Interval {
    Interval(i.low, (BOTTOM - i.low % BOTTOM) % BOTTOM)
  }

  function Shift(i: Interval): Interval {
    Interval(i.low * 256 % WORD, i.range * 256 % WORD)
  }

  function Leading(i: Interval): byte
    requires i.low < WORD
  {
    i.low / TOP
  }

  /** The bit operations of the source, on the words of low and low + range, mean what the arithmetic above
      says. */
  lemma TopByteComparison(i: Interval, low: bv32, high: bv32)
    requires Value(low) == i.low && Value(high) == (i.low + i.range) % WORD
    ensures (low ^ high) >= 0x100_0000 <==> TopByteDiffers(i)
  {
    TopDiffers(low, high);
    hide Value;
  }

  lemma TruncationMask(i: Interval, low: bv32)
    requires Value(low) == i.low
    ensures Value((0 - low) & 0xFFFF) == Truncate(i).range
  {
    LowHalfNegated(low);
    hide Value;
  }

  // ----- one step -----

  /** Narrowing stays inside the old interval and never empties it. */
  lemma NarrowInside(i: Interval, s: Step)
    requires Ready(i) && ValidStep(s)
    ensures Open(Narrow(i, s))
    ensures i.low <= Narrow(i, s).low
    ensures Narrow(i, s).low + Narrow(i, s).range <= i.low + i.range
    ensures 0 < i.range / s.total
  {
    var q := i.range / s.total;
    assert 1 <= q by { Quotient(i.range, s.total); }
    assert q * s.total <= i.range;
    assert s.under * q + q * s.count == (s.under + s.count) * q;
    Scale(s.under + s.count, s.total, q);
    assert 1 <= q * s.count by { Scale(1, s.count, q); }
  }

  /** The 32-bit products and sums of a step do not wrap. */
  lemma NarrowedWord(i: Interval, s: Step)
    requires Ready(i) && ValidStep(s)
    ensures (i.low + s.under * (i.range / s.total)) % WORD == Narrow(i, s).low
    ensures (i.range / s.total) * s.count % WORD == Narrow(i, s).range
  {
    NarrowInside(i, s);
  }

  lemma Quotient(a: nat, b: nat)
    requires 0 < b <= a
    ensures 1 <= a / b
  {
  }

  lemma Scale(a: nat, b: nat, q: nat)
    requires a <= b
    ensures a * q <= b * q
  {
  }

  /** The loop either stops or shifts; before a shift the interval has one leading byte. */
  function Aligned(i: Interval): Interval {
    if TopByteDiffers(i) then Truncate(i) else i
  }

  /** A 16-bit truncation never yields 0, keeps the start and stays inside; and the end of what
      is then shifted does not pass the leading byte, so nothing ever carries into bytes sent. */
  lemma AlignedInside(i: Interval)
    requires Open(i) && (TopByteDiffers(i) ==> i.range < BOTTOM)
    ensures 0 < Aligned(i).range <= i.range
    ensures i.low % TOP + Aligned(i).range <= TOP
    ensures TopByteDiffers(i) <==> i.low % TOP + Aligned(i).range == TOP
    ensures i.low + i.range == WORD ==> Aligned(i) == i
  {
    var b, l := i.low / TOP, i.low % TOP;
    assert i.low == b * TOP + l;
    if TopByteDiffers(i) {
      if i.low + i.range == WORD {
        assert b == 255;
      } else {
        assert (i.low + i.range) % WORD == i.low + i.range;
        assert (i.low + i.range) / TOP == b + 1;
      }
      assert l + i.range >= TOP;
      assert TOP - BOTTOM < l < TOP;
      assert i.low % BOTTOM == l % BOTTOM == l - (TOP - BOTTOM);
    }
  }

  lemma ShiftOpen(i: Interval)
    requires Open(i) && (TopByteDiffers(i) ==> i.range < BOTTOM)
    ensures var j := Shift(Aligned(i)); Open(j)
    ensures var j := Shift(Aligned(i)); j.low == i.low % TOP * 256 && j.range == Aligned(i).range * 256
    ensures var j := Shift(Aligned(i)); j.low + j.range == WORD <==> TopByteDiffers(i)
  {
    AlignedInside(i);
    var b, l := i.low / TOP, i.low % TOP;
    assert i.low * 256 == b * WORD + l * 256;
    assert Aligned(i).range * 256 < WORD;
  }

  /** The renormalisation loop: the bytes it sends and the interval it leaves. */
  function Renormalise(i: Interval): (r: (seq<byte>, Interval))
    requires Open(i)
    ensures Ready(r.1)
    decreases i.low + i.range < WORD, WORD - i.range
  {
    if TopByteDiffers(i) && BOTTOM <= i.range then ([], i)
    else
      ShiftOpen(i); AlignedInside(i);
      var (bytes, j) := Renormalise(Shift(Aligned(i)));
      ([Leading(i)] + bytes, j)
  }

  /** One turn of that loop. */
  lemma RenormaliseTurn(i: Interval)
    requires Open(i) && (TopByteDiffers(i) ==> i.range < BOTTOM)
    ensures var next := Shift(Aligned(i));
            && Open(next)
            && Renormalise(i) == ([Leading(i)] + Renormalise(next).0, Renormalise(next).1)
            && (next.low + next.range < WORD ==> i.low + i.range < WORD)
            && ((next.low + next.range < WORD <==> i.low + i.range < WORD) ==> i.range < next.range)
  {
    ShiftOpen(i);
    AlignedInside(i);
  }

  lemma RenormaliseStop(i: Interval)
    requires Open(i) && TopByteDiffers(i) && BOTTOM <= i.range
    ensures Renormalise(i) == ([], i)
  {
  }

  // ----- the stream -----

  function At(s: seq<byte>, k: nat): byte {
    if k < |s| then s[k] else 0
  }

  /** The first four bytes of a stream, padded with zeros, as a 32-bit code word. */
  function CodeWord(s: seq<byte>): (w: nat)
    ensures w < WORD
  {
    At(s, 0) * 0x100_0000 + At(s, 1) * 0x1_0000 + At(s, 2) * 0x100 + At(s, 3)
  }

  lemma CodeWordCons(b: byte, s: seq<byte>)
    ensures CodeWord([b] + s) == b * TOP + CodeWord(s) / 256
  {
    var t := [b] + s;
    assert At(t, 0) == b && At(t, 1) == At(s, 0) && At(t, 2) == At(s, 1) && At(t, 3) == At(s, 2);
  }

  function FlushWidth(low: nat): nat {
    if low == 0 then 0
    else if low % 0x100_0000 == 0 then 1
    else if low % 0x1_0000 == 0 then 2
    else if low % 0x100 == 0 then 3
    else 4
  }

  lemma FlushShrinks(low: nat)
    requires 0 < low < WORD
    ensures FlushWidth(low * 256 % WORD) < FlushWidth(low)
    ensures low * 256 % WORD == low % TOP * 256
  {
    var b3, l := low / TOP, low % TOP;
    Residue(b3, WORD, l * 256);
    var b2, m := l / 0x1_0000, l % 0x1_0000;
    Residue(b2, TOP, m * 256);
    var b1, b0 := m / 0x100, m % 0x100;
    Residue(b1, 0x1_0000, b0 * 256);
    Residue(b3 * 0x100 + b2, 0x1_0000, m);
    Residue(b3 * 0x1_0000 + b2 * 0x100 + b1, 0x100, b0);
    Residue(b2 * 0x100 + b1, 0x1_0000, b0 * 256);
    Residue(b2 * 0x1_0000 + b1 * 0x100 + b0, 0x100, 0);
  }

  lemma Residue(a: nat, k: nat, b: nat)
    requires b < k
    ensures (a * k + b) % k == b
  {
    var x := a * k + b;
    var q, r := x / k, x % k;
    assert q * k + r == a * k + b;
    if a < q {
      Scale(a + 1, q, k);
    } else if q < a {
      Scale(q + 1, a, k);
    }
  }

  /** ENET_RANGE_CODER_FLUSH: the bytes of low up to the last that is not zero. */
  function Flush(low: nat): (s: seq<byte>)
    requires low < WORD
    decreases FlushWidth(low)
  {
    if low == 0 then [] else FlushShrinks(low); [low / TOP] + Flush(low * 256 % WORD)
  }

  lemma {:induction false} FlushIsLow(low: nat)
    requires low < WORD
    ensures CodeWord(Flush(low)) == low
    decreases FlushWidth(low)
  {
    if low != 0 {
      FlushShrinks(low);
      FlushIsLow(low * 256 % WORD);
      CodeWordCons(low / TOP, Flush(low * 256 % WORD));
    }
  }

  predicate ValidSteps(steps: seq<Step>) {
    forall k | 0 <= k < |steps| :: ValidStep(steps[k])
  }

  /** Everything an encoder in state i still sends when it encodes these steps and flushes. */
  function Emit(i: Interval, steps: seq<Step>): seq<byte>
    requires Ready(i) && ValidSteps(steps)
    decreases |steps|
  {
    if steps == [] then Flush(i.low)
    else
      var (bytes, j) := EncodeStep(i, steps[0]);
      bytes + Emit(j, steps[1..])
  }

  function EncodeStep(i: Interval, s: Step): (r: (seq<byte>, Interval))
    requires Ready(i) && ValidStep(s)
    ensures Ready(r.1)
  {
    NarrowInside(i, s);
    Renormalise(Narrow(i, s))
  }

  function EncodeSteps(i: Interval, steps: seq<Step>): (j: Interval)
    requires Ready(i) && ValidSteps(steps)
    ensures Ready(j)
    decreases |steps|
  {
    if steps == [] then i else EncodeSteps(EncodeStep(i, steps[0]).1, steps[1..])
  }

  /** Renormalising backwards: what lies in the interval after lies, with the bytes sent in
      front of it, in the interval before. */
  lemma {:induction false} RenormaliseContains(i: Interval, s: seq<byte>)
    requires Open(i)
    requires Contains(Renormalise(i).1, CodeWord(s))
    ensures Contains(i, CodeWord(Renormalise(i).0 + s))
    decreases i.low + i.range < WORD, WORD - i.range
  {
    var (bytes, j) := Renormalise(i);
    if TopByteDiffers(i) && BOTTOM <= i.range {
      assert bytes + s == s;
    } else {
      ShiftOpen(i); AlignedInside(i);
      var next := Shift(Aligned(i));
      var tail := Renormalise(next).0;
      assert bytes == [Leading(i)] + tail;
      RenormaliseContains(next, s);
      assert bytes + s == [Leading(i)] + (tail + s);
      CodeWordCons(Leading(i), tail + s);
    }
  }

  /** The carry-less coder is exact: at every point of a run, the code word made of the bytes
      still to be sent lies in the interval the coder holds. */
  lemma {:induction false} EmitInInterval(i: Interval, steps: seq<Step>)
    requires Ready(i) && ValidSteps(steps)
    ensures Contains(i, CodeWord(Emit(i, steps)))
    decreases |steps|
  {
    if steps == [] {
      FlushIsLow(i.low);
    } else {
      var (bytes, j) := EncodeStep(i, steps[0]);
      EmitInInterval(j, steps[1..]);
      NarrowInside(i, steps[0]);
      RenormaliseContains(Narrow(i, steps[0]), Emit(j, steps[1..]));
    }
  }

  // ----- the decoder's side -----

  function Drop(s: seq<byte>, k: nat): seq<byte> {
    if k <= |s| then s[k..] else []
  }

  /** ENET_RANGE_CODER_READ followed by the store to a 16-bit variable, for any code word. */
  function Quote(i: Interval, stream: seq<byte>, total: nat): (q: nat)
    requires 0 < total <= i.range && i.low < WORD
    ensures q < 0x1_0000
  {
    (CodeWord(stream) - i.low) % WORD / (i.range / total) % 0x1_0000
  }

  /** The decoder's quotient falls inside the step that was encoded. */
  lemma QuoteInStep(i: Interval, s: Step, rest: seq<Step>)
    requires Ready(i) && ValidStep(s) && ValidSteps(rest)
    ensures ValidSteps([s] + rest)
    ensures var q := Quote(i, Emit(i, [s] + rest), s.total); s.under <= q < s.under + s.count
  {
    var steps := [s] + rest;
    assert steps[1..] == rest;
    var (bytes, j) := EncodeStep(i, s);
    EmitInInterval(j, rest);
    NarrowInside(i, s);
    RenormaliseContains(Narrow(i, s), Emit(j, rest));
    QuoteContained(i, s, Emit(i, steps));
  }

  lemma QuoteContained(i: Interval, s: Step, stream: seq<byte>)
    requires Ready(i) && ValidStep(s) && 0 < i.range / s.total
    requires Contains(Narrow(i, s), CodeWord(stream)) && Contains(i, CodeWord(stream))
    ensures s.under <= Quote(i, stream, s.total) < s.under + s.count
  {
    hide CodeWord;
    var x, r := CodeWord(stream) - i.low, i.range / s.total;
    assert s.under * r <= x < s.under * r + r * s.count;
    assert x % WORD == x;
    QuotientBetween(x, r, s.under, s.count);
  }

  lemma QuotientBetween(x: nat, r: nat, under: nat, count: nat)
    requires 0 < r && under * r <= x < under * r + r * count
    ensures under <= x / r < under + count
  {
    var q := x / r;
    assert q * r <= x < (q + 1) * r;
    if q < under { Scale(q + 1, under, r); }
    if under + count <= q { Scale(under + count, q, r); }
  }

  /** After the decoder applies the step the encoder took, it sees the encoder's later bytes. */
  lemma DecodeFollows(i: Interval, s: Step, rest: seq<Step>)
    requires Ready(i) && ValidStep(s) && ValidSteps(rest)
    ensures ValidSteps([s] + rest)
    ensures var (bytes, j) := EncodeStep(i, s);
            Drop(Emit(i, [s] + rest), |bytes|) == Emit(j, rest)
  {
    assert ([s] + rest)[1..] == rest;
  }

  /** At the end of the stream every quotient is 0: the encoder flushes low itself. */
  lemma EndQuote(i: Interval, total: nat)
    requires Ready(i) && 0 < total < BOTTOM
    ensures Quote(i, Emit(i, []), total) == 0
  {
    FlushIsLow(i.low);
    Quotient(i.range, total);
    assert (CodeWord(Emit(i, [])) - i.low) % WORD == 0;
    QuotientBetween(0, i.range / total, 0, 1);
  }

  lemma {:induction false} FlushAfterRenormalise(i: Interval)
    requires Open(i)
    ensures Drop(Flush(i.low), |Renormalise(i).0|) == Flush(Renormalise(i).1.low)
    decreases i.low + i.range < WORD, WORD - i.range
  {
    if TopByteDiffers(i) && BOTTOM <= i.range {
    } else {
      ShiftOpen(i); AlignedInside(i);
      var next := Shift(Aligned(i));
      FlushAfterRenormalise(next);
      if i.low == 0 {
        assert Flush(next.low) == [];
      } else {
        FlushShrinks(i.low);
        assert Flush(i.low) == [Leading(i)] + Flush(next.low);
      }
    }
  }

  /** Reading an escape (a step that starts at 0) at the end of the stream stays at its end. */
  lemma EndFollows(i: Interval, s: Step)
    requires Ready(i) && ValidStep(s) && s.under == 0
    ensures var (bytes, j) := EncodeStep(i, s);
            Drop(Emit(i, []), |bytes|) == Emit(j, [])
  {
    NarrowInside(i, s);
    FlushAfterRenormalise(Narrow(i, s));
  }
}
