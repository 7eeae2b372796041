/** 32-bit words as numbers: what the bit operations of the range coder do to the numbers it computes with. */
module Words {
  /** The byte of a word that j bytes follow. */
  function ByteAt(w: bv32, j: nat): bv8
    requires j < 4
  {
    if j == 0 then (w & 0xFF) as bv8
    else if j == 1 then ((w >> 8) & 0xFF) as bv8
    else if j == 2 then ((w >> 16) & 0xFF) as bv8
    else ((w >> 24) & 0xFF) as bv8
  }

  function Digit(b: bv8): nat {
    b as nat
  }

  /** The number with these digits to the base 2^8. */
  function Number(a: nat, b: nat, c: nat, d: nat): nat {
    a * 0x100_0000 + b * 0x1_0000 + c * 0x100 + d
  }

  /** The number a word stands for. */
  function Value(w: bv32): nat {
    Number(Digit(ByteAt(w, 3)), Digit(ByteAt(w, 2)), Digit(ByteAt(w, 1)), Digit(ByteAt(w, 0)))
  }

  // ----- one byte -----

  lemma DigitBound(b: bv8)
    ensures Digit(b) < 0x100
  {
  }

  lemma DigitKnown(a: bv8, b: bv8)
    ensures Digit(a) == Digit(b) <==> a == b
  {
    assert Digit(a) as bv8 == a && Digit(b) as bv8 == b;
  }

  lemma DigitNegated(b: bv8)
    ensures Digit(0 - b) == if Digit(b) == 0 then 0 else 0x100 - Digit(b)
  {
  }

  lemma DigitFlipped(b: bv8)
    ensures Digit(!b) == 0xFF - Digit(b)
  {
  }

  lemma DigitZero(b: bv8)
    ensures Digit(b) == 0 <==> b == 0
  {
  }

  // ----- bytes of words -----

  lemma TopBytes(v: bv32, w: bv32)
    ensures (v ^ w) >= 0x100_0000 <==> ByteAt(v, 3) != ByteAt(w, 3)
  {
  }

  lemma NegatedBytes(w: bv32)
    ensures var r := (0 - w) & 0xFFFF;
            && ByteAt(r, 3) == 0 && ByteAt(r, 2) == 0
            && ByteAt(r, 1) == (if ByteAt(w, 0) == 0 then 0 - ByteAt(w, 1) else !ByteAt(w, 1))
            && ByteAt(r, 0) == 0 - ByteAt(w, 0)
  {
  }

  // ----- numbers of words -----

  lemma ValueDivided(w: bv32)
    ensures Value(w) / 0x100_0000 == Digit(ByteAt(w, 3))
    ensures Value(w) % 0x1_0000 == Digit(ByteAt(w, 1)) * 0x100 + Digit(ByteAt(w, 0))
  {
    hide Digit, ByteAt, Number;
    DigitBound(ByteAt(w, 2));
    DigitBound(ByteAt(w, 1));
    DigitBound(ByteAt(w, 0));
    TopOf(Digit(ByteAt(w, 3)), Digit(ByteAt(w, 2)), Digit(ByteAt(w, 1)), Digit(ByteAt(w, 0)));
    LowHalfOf(Digit(ByteAt(w, 3)), Digit(ByteAt(w, 2)), Digit(ByteAt(w, 1)), Digit(ByteAt(w, 0)));
  }

  lemma TopOf(a: nat, b: nat, c: nat, d: nat)
    requires b < 0x100 && c < 0x100 && d < 0x100
    ensures Number(a, b, c, d) / 0x100_0000 == a
  {
  }

  lemma LowHalfOf(a: nat, b: nat, c: nat, d: nat)
    requires c < 0x100 && d < 0x100
    ensures Number(a, b, c, d) % 0x1_0000 == c * 0x100 + d
  {
    assert Number(a, b, c, d) == (a * 0x100 + b) * 0x1_0000 + (c * 0x100 + d);
  }

  /** `(v ^ w) >= 2^24` tells whether the highest bytes of the numbers differ. */
  lemma TopDiffers(v: bv32, w: bv32)
    ensures (v ^ w) >= 0x100_0000 <==> Value(v) / 0x100_0000 != Value(w) / 0x100_0000
  {
    TopBytes(v, w);
    ValueDivided(v);
    ValueDivided(w);
    DigitKnown(ByteAt(v, 3), ByteAt(w, 3));
    hide *;
  }

  /** What a digit lacks to 2^8, one less if there is a digit below it that is not 0. */
  function Missing(c: nat, below: nat): (m: nat)
    requires c < 0x100
    ensures m < 0x100
  {
    if below != 0 then 0xFF - c else if c == 0 then 0 else 0x100 - c
  }

  lemma MissingDigit(c: bv8, d: bv8)
    ensures Digit(c) < 0x100 && Digit(if d == 0 then 0 - c else !c) == Missing(Digit(c), Digit(d))
  {
    DigitBound(c);
    DigitNegated(c);
    DigitFlipped(c);
    DigitZero(d);
  }

  /** The digits of `-w & 0xFFFF`. */
  lemma NegatedDigits(w: bv32)
    ensures var c, d := Digit(ByteAt(w, 1)), Digit(ByteAt(w, 0));
            c < 0x100 && d < 0x100 && Value((0 - w) & 0xFFFF) == Number(0, 0, Missing(c, d), Missing(d, 0))
  {
    NegatedBytes(w);
    MissingDigit(ByteAt(w, 1), ByteAt(w, 0));
    MissingDigit(ByteAt(w, 0), 0);
    DigitZero(0);
    hide ByteAt, Number, Missing, Digit;
  }

  lemma MissingNumber(c: nat, d: nat)
    requires c < 0x100 && d < 0x100
    ensures Number(0, 0, Missing(c, d), Missing(d, 0)) == Lacks(c * 0x100 + d)
  {
    assert c * 0x100 + d < 0x1_0000;
    assert c * 0x100 + d == 0 ==> c == 0 && d == 0;
  }

  /** What a number below 2^16 lacks to a multiple of it. */
  function Lacks(h: nat): nat
    requires h < 0x1_0000
  {
    if h == 0 then 0 else 0x1_0000 - h
  }

  /** `-w & 0xFFFF` is what the number lacks to the next multiple of 2^16. */
  lemma LowHalfNegated(w: bv32)
    ensures Value((0 - w) & 0xFFFF) == Lacks(Value(w) % 0x1_0000)
  {
    NegatedDigits(w);
    ValueDivided(w);
    hide *;
    MissingNumber(Digit(ByteAt(w, 1)), Digit(ByteAt(w, 0)));
  }

  // ----- every number has its word -----

  lemma DigitNext(b: bv8)
    requires b != 0xFF
    ensures Digit(b + 1) == Digit(b) + 1
  {
  }

  lemma {:induction false} ByteOf(n: nat) returns (b: bv8)
    requires n < 0x100
    ensures Digit(b) == n
  {
    b := 0;
    DigitZero(b);
    if n > 0 {
      b := ByteOf(n - 1);
      DigitKnown(b, 0xFF);
      DigitFlipped(0);
      DigitNext(b);
      b := b + 1;
    }
  }

  lemma Joined(a: bv8, b: bv8, c: bv8, d: bv8) returns (w: bv32)
    ensures ByteAt(w, 3) == a && ByteAt(w, 2) == b && ByteAt(w, 1) == c && ByteAt(w, 0) == d
  {
    w := (a as bv32 << 24) | (b as bv32 << 16) | (c as bv32 << 8) | d as bv32;
  }

  lemma Digits(n: nat)
    ensures n == Number(n / 0x100_0000, n / 0x1_0000 % 0x100, n / 0x100 % 0x100, n % 0x100)
  {
    var c := n / 0x100;
    var b := c / 0x100;
    assert n / 0x1_0000 == b && n / 0x100_0000 == b / 0x100;
  }

  lemma WordOf(n: nat) returns (w: bv32)
    requires n < 0x1_0000_0000
    ensures Value(w) == n
  {
    hide Digit, ByteAt, Number;
    var a := ByteOf(n / 0x100_0000);
    var b := ByteOf(n / 0x1_0000 % 0x100);
    var c := ByteOf(n / 0x100 % 0x100);
    var d := ByteOf(n % 0x100);
    w := Joined(a, b, c, d);
    Digits(n);
  }
}
