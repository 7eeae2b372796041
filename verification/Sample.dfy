/** One message and the stream it is compressed to, worked out step by step. */
module Sample {
  import opened Bytes
  import opened Constants
  import opened RangeCoding
  import opened ContextModel
  import opened Codec
  import opened Prediction

  // ----- what the contexts have heard -----

  /** Counts for the bytes "a" and "b" alone. */
  function Two(a: nat, b: nat): Table {
    seq(256, x requires 0 <= x < 256 => if x == 97 then a else if x == 98 then b else 0)
  }

  lemma {:induction false} TwoWeights(p: Path, a: nat, b: nat, w: nat)
    requires w <= 256
    ensures WeightBelow(p, Two(a, b), w) ==
            (if 97 < w then a else 0) + (if 98 < w then b else 0) + if p == [] then w else 0
    decreases w
  {
    if w > 0 { TwoWeights(p, a, b, w - 1); }
  }

  lemma HearA(p: Path, a: nat, b: nat, escapes: nat)
    requires a <= 100 && b <= 100 && escapes <= 100
    ensures Hear(p, Ctx(Two(a, b), escapes), 97) ==
            if p == [] then Ctx(Two(a + 3, b), escapes)
            else Ctx(Two(a + 2, b), if a == 0 then escapes + 5 else escapes)
  {
    var a' := a + if p == [] then 3 else 2;
    assert Two(a, b)[97 := a'] == Two(a', b);
    TwoWeights(p, a', b, 256);
    hide WeightBelow;
  }

  lemma HearB(p: Path, a: nat, b: nat, escapes: nat)
    requires a <= 100 && b <= 100 && escapes <= 100
    ensures Hear(p, Ctx(Two(a, b), escapes), 98) ==
            if p == [] then Ctx(Two(a, b + 3), escapes)
            else Ctx(Two(a, b + 2), if b == 0 then escapes + 5 else escapes)
  {
    var b' := b + if p == [] then 3 else 2;
    assert Two(a, b)[98 := b'] == Two(a, b');
    TwoWeights(p, a, b', 256);
    hide WeightBelow;
  }

  lemma HeardHears(msg: seq<byte>, p: Path, v: byte)
    ensures Heard(msg + [v], p) == if Counts(msg, p, v) then Hear(p, Heard(msg, p), v) else Heard(msg, p)
  {
    assert (msg + [v])[..|msg|] == msg;
    hide Counts, Hear;
  }

  const AABAAB: seq<byte> := [97, 97, 98, 97, 97, 98]

  function Prefix(n: nat): seq<byte>
    requires n <= 6
  {
    AABAAB[..n]
  }

  lemma PrefixNext(n: nat)
    requires n < 6
    ensures Prefix(n + 1) == Prefix(n) + [AABAAB[n]] && |Prefix(n)| == n
  {
  }

  lemma NotSeen()
    ensures !Seen(Prefix(1), [97], 97) && !Seen(Prefix(2), [97], 98) && !Seen(Prefix(2), [97, 97], 98)
  {
    assert Prefix(1) == [97] && Prefix(2) == [97, 97] && Prefix(1)[..0] == [];
  }

  lemma Root()
    ensures Heard(Prefix(0), []) == Ctx(Two(0, 0), 1) && Heard(Prefix(1), []) == Ctx(Two(3, 0), 1)
    ensures Heard(Prefix(2), []) == Ctx(Two(6, 0), 1) && Heard(Prefix(3), []) == Ctx(Two(6, 3), 1)
  {
    NotSeen();
    hide Seen, Hear;
    assert Prefix(0) == [] && Prefix(1) == [97] && Prefix(2) == [97, 97];
    assert NoSymbols() == Two(0, 0);
    PrefixNext(0);
    PrefixNext(1);
    PrefixNext(2);
    HeardHears(Prefix(0), [], 97);
    HeardHears(Prefix(1), [], 97);
    HeardHears(Prefix(2), [], 98);
    HearA([], 0, 0, 1);
    HearA([], 3, 0, 1);
    HearB([], 6, 0, 1);
    assert Prefix(1)[1..] == [] && Prefix(1)[0..] == [97] && Prefix(2)[2..] == [] && Prefix(2)[1..] == [97];
  }

  /** After "a". */
  lemma AfterA()
    ensures Heard(Prefix(1), [97]) == Ctx(Two(0, 0), 0) && Heard(Prefix(2), [97]) == Ctx(Two(2, 0), 5)
    ensures Heard(Prefix(4), [97]) == Ctx(Two(2, 2), 10)
  {
    NotSeen();
    hide Seen, Hear;
    assert Prefix(0) == [] && Prefix(1) == [97] && Prefix(2) == [97, 97] && Prefix(3) == [97, 97, 98];
    assert NoSymbols() == Two(0, 0);
    PrefixNext(0);
    PrefixNext(1);
    PrefixNext(2);
    PrefixNext(3);
    HeardHears(Prefix(0), [97], 97);
    HeardHears(Prefix(1), [97], 97);
    HeardHears(Prefix(2), [97], 98);
    HeardHears(Prefix(3), [97], 97);
    HearA([97], 0, 0, 0);
    HearB([97], 2, 0, 5);
    assert Prefix(1)[0..] == [97] && Prefix(2)[1..] == [97] && Prefix(2)[0..] == [97, 97] && Prefix(3)[2..] == [98];
  }

  /** After "aa". */
  lemma AfterAa()
    ensures Heard(Prefix(2), [97, 97]) == Ctx(Two(0, 0), 0) && Heard(Prefix(5), [97, 97]) == Ctx(Two(0, 2), 5)
  {
    hide Seen, Hear;
    var p: Path := [97, 97];
    assert Prefix(0) == [] && Prefix(1) == [97] && Prefix(2) == p && Prefix(3) == [97, 97, 98];
    assert Prefix(4) == [97, 97, 98, 97] && NoSymbols() == Two(0, 0);
    PrefixNext(0);
    PrefixNext(1);
    PrefixNext(2);
    PrefixNext(3);
    PrefixNext(4);
    HeardHears(Prefix(0), p, 97);
    HeardHears(Prefix(1), p, 97);
    HeardHears(Prefix(2), p, 98);
    HeardHears(Prefix(3), p, 97);
    HeardHears(Prefix(4), p, 97);
    HearB(p, 0, 0, 0);
    assert Prefix(2)[0..] == p && Prefix(3)[1..] == [97, 98] && Prefix(4)[2..] == [98, 97];
  }

  /** And after what has not come before. */
  lemma AfterOthers()
    ensures Heard(Prefix(3), [97, 98]) == Ctx(Two(0, 0), 0) && Heard(Prefix(3), [98]) == Ctx(Two(0, 0), 0)
    ensures Heard(Prefix(4), [98, 97]) == Ctx(Two(0, 0), 0)
  {
    hide Heard, Seen, Counts;
    assert NoSymbols() == Two(0, 0);
    forall k: nat | k < 4
      ensures k < 3 ==> !Ends(Prefix(k), [97, 98]) && !Ends(Prefix(k), [98])
      ensures !Ends(Prefix(k), [98, 97])
    {
      Endings(k);
    }
    NotYet(3, [97, 98]);
    NotYet(3, [98]);
    NotYet(4, [98, 97]);
  }

  lemma Endings(k: nat)
    requires k < 4
    ensures k < 3 ==> !Ends(Prefix(k), [97, 98]) && !Ends(Prefix(k), [98])
    ensures !Ends(Prefix(k), [98, 97])
  {
    var m := Prefix(k);
    assert k > 0 ==> m[|m| - 1..][0] == AABAAB[k - 1];
    assert k > 1 ==> m[|m| - 2..][0] == AABAAB[k - 2] && m[|m| - 2..][1] == AABAAB[k - 1];
  }

  /** A run that no earlier part of the message ends in. */
  lemma {:induction false} NotYet(n: nat, p: Path)
    requires n <= 6 && p != [] && forall k: nat | k < n :: !Ends(Prefix(k), p)
    ensures Heard(Prefix(n), p) == Ctx(NoSymbols(), 0)
  {
    hide Seen, Hear;
    if n == 0 {
      assert Prefix(0) == [];
    } else {
      NotYet(n - 1, p);
      PrefixNext(n - 1);
      HeardHears(Prefix(n - 1), p, AABAAB[n - 1]);
      assert !Ends(Prefix(n - 1), p);
    }
  }

  // ----- the steps -----

  lemma CodedNext(msg: seq<byte>, v: byte)
    requires |msg| < 1364
    ensures Coded(msg + [v]) == Coded(msg) + CodedByte(msg, LastTwo(msg), v)
  {
    assert (msg + [v])[..|msg|] == msg;
    ShortSince(msg);
    hide Since, CodedByte;
  }

  /** A context that has counted nothing is passed over. */
  lemma Skips(msg: seq<byte>, p: Path, v: byte)
    requires p != [] && Heard(msg, p) == Ctx(Two(0, 0), 0)
    ensures CodedByte(msg, p, v) == CodedByte(msg, p[1..], v)
  {
    TwoWeights(p, 0, 0, 256);
    hide Heard, WeightBelow;
  }

  lemma Codes(msg: seq<byte>, p: Path, v: byte, a: nat, b: nat, escapes: nat)
    requires Heard(msg, p) == Ctx(Two(a, b), escapes) && (v == 97 || v == 98)
    requires p == [] || (if v == 97 then a else b) > 0
    ensures var one := if p == [] then 1 else 0;
            CodedByte(msg, p, v) ==
            [Step(escapes + one * v + (if v == 98 then a else 0), (if v == 97 then a else b) + one,
                  escapes + one * 256 + a + b)]
  {
    hide Heard, WeightBelow;
    TwoWeights(p, a, b, v);
    TwoWeights(p, a, b, 256);
    assert Two(a, b)[v] == if v == 97 then a else b;
    hide Two;
  }

  lemma Escapes(msg: seq<byte>, p: Path, a: nat, escapes: nat)
    requires p != [] && a > 0 && escapes > 0 && Heard(msg, p) == Ctx(Two(a, 0), escapes)
    ensures CodedByte(msg, p, 98) == [Step(0, escapes, escapes + a)] + CodedByte(msg, p[1..], 98)
  {
    TwoWeights(p, a, 0, 256);
    hide Heard, WeightBelow;
  }

  lemma First3()
    ensures CodedByte(Prefix(0), [], 97) == [Step(98, 1, 257)]
    ensures CodedByte(Prefix(1), [97], 97) == [Step(98, 4, 260)]
    ensures CodedByte(Prefix(2), [97, 97], 98) == [Step(0, 5, 7), Step(105, 1, 263)]
  {
    hide Heard, WeightBelow, CodedByte;
    Root();
    AfterA();
    AfterAa();
    assert [97][1..] == [] && [97, 97][1..] == [97];
    Skips(Prefix(1), [97], 97);
    Skips(Prefix(2), [97, 97], 98);
    Escapes(Prefix(2), [97], 2, 5);
    Codes(Prefix(0), [], 97, 0, 0, 1);
    Codes(Prefix(1), [], 97, 3, 0, 1);
    Codes(Prefix(2), [], 98, 6, 0, 1);
  }

  lemma Last3()
    ensures CodedByte(Prefix(3), [97, 98], 97) == [Step(98, 7, 266)]
    ensures CodedByte(Prefix(4), [98, 97], 97) == [Step(10, 2, 14)]
    ensures CodedByte(Prefix(5), [97, 97], 98) == [Step(5, 2, 7)]
  {
    hide Heard, WeightBelow, CodedByte;
    Root();
    AfterA();
    AfterAa();
    AfterOthers();
    assert [97, 98][1..] == [98] && [98][1..] == [] && [98, 97][1..] == [97];
    Skips(Prefix(3), [97, 98], 97);
    Skips(Prefix(3), [98], 97);
    Skips(Prefix(4), [98, 97], 97);
    Codes(Prefix(3), [], 97, 6, 3, 1);
    Codes(Prefix(4), [97], 97, 2, 2, 10);
    Codes(Prefix(5), [97, 97], 98, 0, 2, 5);
  }

  const STEPS: seq<Step> :=
    [Step(98, 1, 257), Step(98, 4, 260), Step(0, 5, 7), Step(105, 1, 263), Step(98, 7, 266), Step(10, 2, 14),
     Step(5, 2, 7)]

  lemma StepsAre()
    ensures Coded(Prefix(6)) == STEPS
  {
    hide CodedByte, Coded, LastTwo;
    First3();
    Last3();
    CodedNone();
    forall n: nat | n < 6
      ensures Coded(Prefix(n + 1)) == Coded(Prefix(n)) + CodedByte(Prefix(n), LastTwo(Prefix(n)), AABAAB[n])
    {
      PrefixNext(n);
      CodedNext(Prefix(n), AABAAB[n]);
    }
    LastTwos();
  }

  lemma CodedNone()
    ensures Coded(Prefix(0)) == []
  {
  }

  lemma LastTwos()
    ensures LastTwo(Prefix(0)) == [] && LastTwo(Prefix(1)) == [97] && LastTwo(Prefix(2)) == [97, 97]
    ensures LastTwo(Prefix(3)) == [97, 98] && LastTwo(Prefix(4)) == [98, 97] && LastTwo(Prefix(5)) == [97, 97]
  {
  }

  // ----- the bytes -----

  /** A step leads to j, from where the loop that renormalises sends bytes and ends at k. */
  lemma Emits(i: Interval, s: Step, rest: seq<Step>, j: Interval, bytes: seq<byte>, k: Interval)
    requires Ready(i) && ValidStep(s) && ValidSteps(rest) && Narrow(i, s) == j
    requires Open(j) && Renormalise(j) == (bytes, k)
    ensures ValidSteps([s] + rest) && Emit(i, [s] + rest) == bytes + Emit(k, rest)
  {
    hide Narrow, Renormalise, Flush;
    assert ([s] + rest)[1..] == rest;
  }

  lemma FirstSteps(rest: seq<Step>)
    requires ValidSteps(rest)
    ensures var k, head := Interval(1644068678, 183645), [Step(98, 1, 257), Step(98, 4, 260), Step(0, 5, 7)];
            Ready(k) && ValidSteps(head + rest) && Emit(WHOLE, head + rest) == Emit(k, rest)
  {
    var i, j, k := Interval(1637769630, 16711935), Interval(1644068678, 257104), Interval(1644068678, 183645);
    RenormaliseStop(i);
    RenormaliseStop(j);
    RenormaliseStop(k);
    hide Emit, Renormalise;
    Emits(j, Step(0, 5, 7), rest, k, [], k);
    Emits(i, Step(98, 4, 260), [Step(0, 5, 7)] + rest, j, [], j);
    Emits(WHOLE, Step(98, 1, 257), [Step(98, 4, 260)] + ([Step(0, 5, 7)] + rest), i, [], i);
    assert [Step(98, 1, 257), Step(98, 4, 260), Step(0, 5, 7)] + rest ==
           [Step(98, 1, 257)] + ([Step(98, 4, 260)] + ([Step(0, 5, 7)] + rest));
  }

  /** The top bytes agree: one of them is sent. */
  lemma Sends(i: Interval, b: byte, j: Interval, bytes: seq<byte>, k: Interval)
    requires Open(i) && i.low / 0x100_0000 == b == (i.low + i.range) / 0x100_0000 && i.low + i.range < 0x1_0000_0000
    requires i.low * 256 == b * 0x1_0000_0000 + j.low && j.low < 0x1_0000_0000
    requires i.range * 256 == j.range < 0x1_0000_0000
    requires Open(j) && Renormalise(j) == (bytes, k)
    ensures Renormalise(i) == ([b] + bytes, k)
  {
    hide Renormalise, Shift;
    assert !TopByteDiffers(i);
    ShiftedTo(i, b, j);
    assert Leading(i) == b && Aligned(i) == i;
    hide *;
    RenormaliseTurn(i);
  }

  lemma ShiftedTo(i: Interval, b: byte, j: Interval)
    requires i.low * 256 == b * 0x1_0000_0000 + j.low && j.low < 0x1_0000_0000
    requires i.range * 256 == j.range < 0x1_0000_0000
    ensures Shift(i) == j
  {
    Residue(b, WORD, j.low);
  }

  lemma SendTwo()
    ensures Open(Interval(1644141968, 698))
    ensures Renormalise(Interval(1644141968, 698)) == ([97, 255], Interval(2643460096, 45744128))
  {
    RenormaliseStop(Interval(2643460096, 45744128));
    hide Renormalise;
    assert [255] + [] == [255] && [97] + [255] == [97, 255];
    Sends(Interval(4288516096, 178688), 255, Interval(2643460096, 45744128), [], Interval(2643460096, 45744128));
    Sends(Interval(1644141968, 698), 97, Interval(4288516096, 178688), [255], Interval(2643460096, 45744128));
  }

  lemma SendOne()
    ensures Open(Interval(2660313156, 1203790)) && Open(Interval(2686902708, 12578376))
    ensures Renormalise(Interval(2660313156, 1203790)) == ([158], Interval(2435335168, 308170240))
    ensures Renormalise(Interval(2686902708, 12578376)) == ([160], Interval(652325888, 3220064256))
  {
    RenormaliseStop(Interval(2435335168, 308170240));
    RenormaliseStop(Interval(652325888, 3220064256));
    hide Renormalise;
    assert [158] + [] == [158] && [160] + [] == [160];
    Sends(Interval(2660313156, 1203790), 158, Interval(2435335168, 308170240), [], Interval(2435335168, 308170240));
    Sends(Interval(2686902708, 12578376), 160, Interval(652325888, 3220064256), [], Interval(652325888, 3220064256));
  }

  lemma NextStep(rest: seq<Step>)
    requires ValidSteps(rest)
    ensures var i, k, s := Interval(1644068678, 183645), Interval(2643460096, 45744128), Step(105, 1, 263);
            && Ready(i) && Ready(k) && ValidSteps([s] + rest)
            && Emit(i, [s] + rest) == [97, 255] + Emit(k, rest)
  {
    hide Emit, Renormalise;
    SendTwo();
    Emits(Interval(1644068678, 183645), Step(105, 1, 263), rest, Interval(1644141968, 698), [97, 255],
          Interval(2643460096, 45744128));
  }

  lemma LaterSteps(rest: seq<Step>)
    requires ValidSteps(rest)
    ensures var i, k, head := Interval(2643460096, 45744128), Interval(652325888, 3220064256),
                              [Step(98, 7, 266), Step(10, 2, 14), Step(5, 2, 7)];
            && Ready(i) && Ready(k) && ValidSteps(head + rest)
            && Emit(i, head + rest) == [158, 160] + Emit(k, rest)
  {
    hide Emit, Renormalise;
    var i, j, k, l := Interval(2643460096, 45744128), Interval(2435335168, 308170240),
                      Interval(2655456768, 44024320), Interval(652325888, 3220064256);
    SendOne();
    RenormaliseStop(k);
    Emits(k, Step(5, 2, 7), rest, Interval(2686902708, 12578376), [160], l);
    Emits(j, Step(10, 2, 14), [Step(5, 2, 7)] + rest, k, [], k);
    Emits(i, Step(98, 7, 266), [Step(10, 2, 14)] + ([Step(5, 2, 7)] + rest), Interval(2660313156, 1203790), [158], j);
    assert [Step(98, 7, 266), Step(10, 2, 14), Step(5, 2, 7)] + rest ==
           [Step(98, 7, 266)] + ([Step(10, 2, 14)] + ([Step(5, 2, 7)] + rest));
    assert [158] + ([] + ([160] + Emit(l, rest))) == [158, 160] + Emit(l, rest);
  }

  lemma Flushed()
    ensures Flush(652325888) == [38, 225, 180]
  {
    assert Flush(0xB400_0000) == [180];
    assert Flush(0xE1B4_0000) == [225, 180];
  }

  /** Known answer: the stream of "aabaab". */
  lemma StreamOfAabaab()
    ensures Stream(AABAAB) == [97, 255, 158, 160, 38, 225, 180]
  {
    hide Coded, Emit, Flush, Stream;
    var a, b, c := [Step(98, 1, 257), Step(98, 4, 260), Step(0, 5, 7)], [Step(105, 1, 263)],
                   [Step(98, 7, 266), Step(10, 2, 14), Step(5, 2, 7)];
    StreamIsCoded(AABAAB);
    StepsAre();
    assert Prefix(6) == AABAAB && STEPS == a + (b + (c + []));
    LaterSteps([]);
    NextStep(c + []);
    FirstSteps(b + (c + []));
    EmptyEmit();
    Flushed();
  }

  lemma EmptyEmit()
    ensures Ready(Interval(652325888, 3220064256)) && Emit(Interval(652325888, 3220064256), []) == Flush(652325888)
  {
  }
}
