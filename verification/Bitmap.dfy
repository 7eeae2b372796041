/** Bit sets kept in 32-bit words: the fragments of a packet and the unsequenced window. */
module Bitmap {
  function Words(bits: nat): nat {
    (bits + 31) / 32
  }

  /** `1 << (k % 32)`. */
  function Mask(k: nat): (m: bv32)
    requires k < 32
  {
    1 << k
  }

  predicate Meets(v: bv32, m: bv32) {
    v & m != 0
  }

  function Or(a: bv32, b: bv32): bv32 {
    a | b
  }

  /** `words [k / 32] & (1 << (k % 32))`. */
  predicate Bit(words: seq<bv32>, k: nat) {
    k / 32 < |words| && Meets(words[k / 32], Mask(k % 32))
  }

  /** `words [k / 32] |= 1 << (k % 32)`. */
  function WithBit(words: seq<bv32>, k: nat): (r: seq<bv32>)
    requires k / 32 < |words|
    ensures |r| == |words|
  {
    words[k / 32 := Or(words[k / 32], Mask(k % 32))]
  }

  function Zeros(n: nat): (r: seq<bv32>)
    ensures |r| == n
  {
    seq(n, _ => 0)
  }

  lemma MasksDisjoint(i: nat, j: nat)
    requires i < 32 && j < 32
    ensures Mask(i) != 0
    ensures i != j ==> Mask(i) & Mask(j) == 0
  {
  }

  /** Setting a bit sets that bit and no other. */
  lemma SetOnly(words: seq<bv32>, k: nat, j: nat)
    requires k / 32 < |words|
    ensures Bit(WithBit(words, k), j) <==> j == k || Bit(words, j)
  {
    MasksDisjoint(k % 32, j % 32);
    hide Mask, Meets, Or;
    if k / 32 == j / 32 {
      assert k % 32 == j % 32 <==> k == j;
      if k == j {
      } else {
      }
    }
  }

  lemma NoBit(n: nat, k: nat)
    ensures !Bit(Zeros(n), k)
  {
    if k / 32 < n {
      assert Zeros(n)[k / 32] == 0;
    }
  }

  /** How many of the first n bits are clear. */
  function Clear(words: seq<bv32>, n: nat): (c: nat)
    ensures c <= n
  {
    if n == 0 then 0 else Clear(words, n - 1) + if Bit(words, n - 1) then 0 else 1
  }

  lemma {:induction false} ClearAfterSet(words: seq<bv32>, k: nat, n: nat)
    requires k / 32 < |words|
    ensures Clear(WithBit(words, k), n) == Clear(words, n) - if k < n && !Bit(words, k) then 1 else 0
    decreases n
  {
    hide Bit, WithBit;
    if n > 0 {
      SetOnly(words, k, n - 1);
      ClearAfterSet(words, k, n - 1);
    }
  }

  lemma {:induction false} ClearZeros(m: nat, n: nat)
    ensures Clear(Zeros(m), n) == n
    decreases n
  {
    if n > 0 {
      NoBit(m, n - 1);
      ClearZeros(m, n - 1);
    }
  }

  /** A count of zero means that every bit is set, and only then. */
  lemma {:induction false} ClearIsNone(words: seq<bv32>, n: nat)
    ensures Clear(words, n) == 0 <==> forall k: nat | k < n :: Bit(words, k)
    decreases n
  {
    if n > 0 { ClearIsNone(words, n - 1); }
  }

  /** A count of n means that no bit is set. */
  lemma {:induction false} ClearIsAll(words: seq<bv32>, n: nat)
    ensures Clear(words, n) == n <==> forall k: nat | k < n :: !Bit(words, k)
    decreases n
  {
    if n > 0 { ClearIsAll(words, n - 1); }
  }
}
