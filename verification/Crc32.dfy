/** The CRC-32 of packet.c: the table-driven loop over buffers is the bit-serial register of
    ITU-T V.42, section 8.1.1.6.2, over the bits of all the buffers in the order they are sent. */
module Crc32 {
  import opened Bitmap

  // ----- the register, bit by bit -----

  /** The generator 0x04c11db7, lowest power in the top bit. */
  const GENERATOR: bv32 := 0xEDB88320

  function Half(v: bv32): bv32 {
    v >> 1
  }

  function Xor(a: bv32, b: bv32): bv32 {
    a ^ b
  }

  function Double(v: bv32): bv32 {
    v << 1
  }

  function And(a: bv32, b: bv32): bv32 {
    a & b
  }

  function Eighth(v: bv32): bv32 {
    v >> 8
  }

  /** One bit goes in at the high-order end of the division. */
  function Shifted(c: bv32, bit: bool): bv32 {
    if Meets(c, 1) != bit then Xor(Half(c), GENERATOR) else Half(c)
  }

  function Register(c: bv32, bits: seq<bool>): bv32 {
    if bits == [] then c else Shifted(Register(c, bits[..|bits| - 1]), bits[|bits| - 1])
  }

  /** The bits of a byte, low-order first. */
  function BitsOf(b: bv32): (bits: seq<bool>)
    ensures |bits| == 8
  {
    seq(8, k requires 0 <= k < 8 => Meets(b, Mask(k)))
  }

  function Bits(data: seq<bv8>): seq<bool> {
    if data == [] then [] else Bits(data[..|data| - 1]) + BitsOf(data[|data| - 1] as bv32)
  }

  function Concat(buffers: seq<seq<bv8>>): seq<bv8> {
    if buffers == [] then [] else Concat(buffers[..|buffers| - 1]) + buffers[|buffers| - 1]
  }

  /** The CRC of a message: the ones' complement of the register that starts with all ones. */
  function Crc(bits: seq<bool>): bv32 {
    !Register(0xFFFF_FFFF, bits)
  }

  lemma {:induction false} RegisterConcat(c: bv32, a: seq<bool>, b: seq<bool>)
    ensures Register(c, a + b) == Register(Register(c, a), b)
    decreases |b|
  {
    if b == [] {
      assert a + b == a;
    } else {
      assert (a + b)[..|a + b| - 1] == a + b[..|b| - 1];
      RegisterConcat(c, a, b[..|b| - 1]);
    }
  }

  // ----- eight bits at once -----

  function Stepped(c: bv32, n: nat): bv32 {
    if n == 0 then c else Shifted(Stepped(c, n - 1), false)
  }

  function Dropped(v: bv32, n: nat): bv32 {
    if n == 0 then v else Half(Dropped(v, n - 1))
  }

  lemma LowXor(c: bv32, d: bv32)
    ensures Meets(Xor(c, d), 1) <==> Meets(c, 1) != Meets(d, 1)
  {
  }

  lemma HalfXor(c: bv32, d: bv32)
    ensures Half(Xor(c, d)) == Xor(Half(c), Half(d))
  {
  }

  lemma XorAssociates(a: bv32, b: bv32, c: bv32)
    ensures Xor(Xor(a, b), c) == Xor(a, Xor(b, c))
  {
  }

  lemma XorSwap(a: bv32, b: bv32, g: bv32)
    ensures Xor(Xor(a, b), g) == Xor(Xor(a, g), b)
  {
    hide Xor;
    XorAssociates(a, b, g);
    XorCommutes(b, g);
    XorAssociates(a, g, b);
  }

  lemma HalfMeets(v: bv32, m: bv32)
    requires !Meets(m, 0x8000_0000)
    ensures Meets(Half(v), m) <==> Meets(v, m << 1)
  {
  }

  lemma XorIn(c: bv32, d: bv32)
    ensures Shifted(Xor(c, d), false) == Xor(Shifted(c, Meets(d, 1)), Half(d))
  {
    hide Meets, Half, Xor;
    LowXor(c, d);
    HalfXor(c, d);
    XorSwap(Half(c), Half(d), GENERATOR);
  }

  lemma MaskNext(k: nat)
    requires k < 31
    ensures Mask(k) << 1 == Mask(k + 1)
  {
  }

  lemma MaskSingle(k: nat)
    requires k < 32
    ensures Mask(k) & (Mask(k) - 1) == 0 && Mask(k) != 0
  {
  }

  lemma MaskLow(k: nat)
    requires k < 31
    ensures !Meets(Mask(k), 0x8000_0000)
  {
    MasksDisjoint(k, 31);
    assert Mask(31) == 0x8000_0000;
  }

  lemma {:induction false} DroppedBit(v: bv32, n: nat, j: nat)
    requires n + j < 32
    ensures Meets(Dropped(v, n), Mask(j)) <==> Meets(v, Mask(n + j))
    decreases n
  {
    hide Mask, Meets, Half;
    if n > 0 {
      MaskLow(j);
      MaskNext(j);
      HalfMeets(Dropped(v, n - 1), Mask(j));
      DroppedBit(v, n - 1, j + 1);
    }
  }

  lemma BitsFirst(b: bv32, n: nat)
    requires 0 < n <= 8
    ensures BitsOf(b)[..n][..n - 1] == BitsOf(b)[..n - 1] && BitsOf(b)[..n][n - 1] == Meets(b, Mask(n - 1))
  {
    hide Meets, Mask;
  }

  /** Taking in the first n bits of a byte one by one is taking in the byte and stepping n times. */
  lemma {:induction false} FirstBits(c: bv32, b: bv32, n: nat)
    requires n <= 8
    ensures Stepped(Xor(c, b), n) == Xor(Register(c, BitsOf(b)[..n]), Dropped(b, n))
    decreases n
  {
    hide Shifted, Mask, Meets, Xor, Half, BitsOf;
    if n > 0 {
      FirstBits(c, b, n - 1);
      BitsFirst(b, n);
      XorIn(Register(c, BitsOf(b)[..n - 1]), Dropped(b, n - 1));
      DroppedBit(b, n - 1, 0);
      MaskZero();
    }
  }

  lemma MaskZero()
    ensures Mask(0) == 1
  {
  }

  // ----- a byte at a time, by table -----

  /** The entry for a byte: what eight steps make of it. */
  function Entry(b: bv32): bv32 {
    Stepped(b, 8)
  }

  lemma {:induction false} HighBits(lo: bv32, hi: bv32, n: nat)
    requires n <= 8 && forall j | 0 <= j < n :: !Meets(hi, Mask(j))
    ensures Stepped(Xor(lo, hi), n) == Xor(Stepped(lo, n), Dropped(hi, n))
    decreases n
  {
    hide Shifted, Mask, Meets, Xor, Half;
    if n > 0 {
      HighBits(lo, hi, n - 1);
      XorIn(Stepped(lo, n - 1), Dropped(hi, n - 1));
      DroppedBit(hi, n - 1, 0);
      MaskZero();
    }
  }

  function Right(v: bv32, k: nat): bv32
    requires k < 32
  {
    v >> k
  }

  lemma HalfRight(v: bv32, k: nat)
    requires 1 <= k <= 7
    ensures Half(Right(v, k)) == Right(v, k + 1)
  {
    RightIs(v);
    HalvesAre(v);
    hide Half, Right;
    assert k == 1 || k == 2 || k == 3 || k == 4 || k == 5 || k == 6 || k == 7;
  }

  lemma RightIs(v: bv32)
    ensures Right(v, 1) == v >> 1 && Right(v, 2) == v >> 2 && Right(v, 3) == v >> 3 && Right(v, 4) == v >> 4
    ensures Right(v, 5) == v >> 5 && Right(v, 6) == v >> 6 && Right(v, 7) == v >> 7 && Right(v, 8) == v >> 8
  {
  }

  lemma HalvesAre(v: bv32)
    ensures Half(v >> 1) == v >> 2 && Half(v >> 2) == v >> 3 && Half(v >> 3) == v >> 4 && Half(v >> 4) == v >> 5
    ensures Half(v >> 5) == v >> 6 && Half(v >> 6) == v >> 7 && Half(v >> 7) == v >> 8
  {
  }

  lemma RightEnds(v: bv32)
    ensures Right(v, 1) == Half(v) && Right(v, 8) == Eighth(v)
  {
  }

  lemma {:induction false} DroppedIsRight(v: bv32, k: nat)
    requires 1 <= k <= 8
    ensures Dropped(v, k) == Right(v, k)
    decreases k
  {
    hide Half, Right;
    RightEnds(v);
    if k > 1 {
      DroppedIsRight(v, k - 1);
      HalfRight(v, k - 1);
    } else {
      assert Dropped(v, 0) == v;
    }
  }

  lemma DroppedEight(v: bv32)
    ensures Dropped(v, 8) == Eighth(v)
  {
    DroppedIsRight(v, 8);
    RightEnds(v);
    hide *;
  }

  /** The entry looked up, and the part of the register it does not depend on. */
  function Index(c: bv32, b: bv32): bv32 {
    (c & 0xFF) ^ b
  }

  function High(c: bv32, b: bv32): bv32 {
    (c ^ b) & !0xFF
  }

  lemma SplitWhole(c: bv32, b: bv32)
    requires b <= 0xFF
    ensures Xor(Index(c, b), High(c, b)) == Xor(c, b)
  {
  }

  lemma SplitHigh(c: bv32, b: bv32)
    requires b <= 0xFF
    ensures Eighth(High(c, b)) == Eighth(c)
  {
  }

  lemma NoLowBits(v: bv32, j: nat)
    requires j < 8
    ensures !Meets(v & !0xFF, Mask(j))
  {
  }

  lemma NoHighBits(c: bv32, b: bv32, j: nat)
    requires j < 8
    ensures !Meets(High(c, b), Mask(j))
  {
    NoLowBits(c ^ b, j);
    hide Mask;
  }

  /** One round of the inner loop does to the register what the eight bits of the byte do. */
  lemma ByteStep(c: bv32, b: bv32)
    requires b <= 0xFF
    ensures Index(c, b) <= 0xFF
    ensures Xor(Eighth(c), Entry(Index(c, b))) == Register(c, BitsOf(b))
  {
    SplitWhole(c, b);
    SplitHigh(c, b);
    forall j | 0 <= j < 8 ensures !Meets(High(c, b), Mask(j)) { NoHighBits(c, b, j); }
    hide Index, High, Eighth, Xor, Meets, Mask, Stepped, Dropped, Register, BitsOf;
    HighBits(Index(c, b), High(c, b), 8);
    FirstBits(c, b, 8);
    DroppedEight(High(c, b));
    DroppedEight(b);
    assert BitsOf(b)[..8] == BitsOf(b);
    XorCommutes(Eighth(c), Entry(Index(c, b)));
  }

  lemma XorCommutes(a: bv32, b: bv32)
    ensures Xor(a, b) == Xor(b, a)
  {
  }

  // ----- the table, computed from the other end -----

  /** The 32 bits in reverse. */
  function Mirrored(v: bv32): bv32 {
    var v1 := ((v >> 1) & 0x5555_5555) | ((v & 0x5555_5555) << 1);
    var v2 := ((v1 >> 2) & 0x3333_3333) | ((v1 & 0x3333_3333) << 2);
    var v3 := ((v2 >> 4) & 0x0F0F_0F0F) | ((v2 & 0x0F0F_0F0F) << 4);
    var v4 := ((v3 >> 8) & 0x00FF_00FF) | ((v3 & 0x00FF_00FF) << 8);
    (v4 >> 16) | (v4 << 16)
  }

  /** One step of the loop over offset in initialize_crc32. */
  function Divided(crc: bv32): bv32 {
    if Meets(crc, 0x8000_0000) then Xor(Double(crc), 0x04C1_1DB7) else Double(crc)
  }

  lemma MirroredXorRaw(a: bv32, b: bv32)
    ensures Mirrored(a ^ b) == Mirrored(a) ^ Mirrored(b)
  {
  }

  lemma MirroredXor(a: bv32, b: bv32)
    ensures Mirrored(Xor(a, b)) == Xor(Mirrored(a), Mirrored(b))
  {
    hide Mirrored;
    MirroredXorRaw(a, b);
  }

  lemma MirroredOrRaw(a: bv32, b: bv32)
    ensures Mirrored(a | b) == Mirrored(a) | Mirrored(b)
  {
  }

  lemma MirroredOr(a: bv32, b: bv32)
    ensures Mirrored(Or(a, b)) == Or(Mirrored(a), Mirrored(b))
  {
    hide Mirrored;
    MirroredOrRaw(a, b);
  }

  lemma MirroredShiftRaw(v: bv32)
    ensures Mirrored(v << 1) == Mirrored(v) >> 1
  {
  }

  lemma MirroredShift(v: bv32)
    ensures Mirrored(Double(v)) == Half(Mirrored(v))
  {
    hide Mirrored;
    MirroredShiftRaw(v);
  }

  lemma MirroredTopRaw(v: bv32)
    ensures v & 0x8000_0000 != 0 <==> Mirrored(v) & 1 != 0
  {
  }

  lemma MirroredTop(v: bv32)
    ensures Meets(v, 0x8000_0000) <==> Meets(Mirrored(v), 1)
  {
    hide Mirrored;
    MirroredTopRaw(v);
  }

  lemma MirroredGenerator()
    ensures Mirrored(0x04C1_1DB7) == GENERATOR
  {
  }

  /** Dividing from the top is stepping the mirrored register. */
  lemma MirroredStep(crc: bv32)
    ensures Mirrored(Divided(crc)) == Shifted(Mirrored(crc), false)
  {
    MirroredGenerator();
    hide Mirrored, Meets, Xor, Half, Double;
    MirroredTop(crc);
    MirroredShift(crc);
    MirroredXor(Double(crc), 0x04C1_1DB7);
  }

  /** reflect_crc, of a byte or of a whole register. */
  method ReflectCrc(value: bv32, bits: nat) returns (result: bv32)
    requires bits == 8 || bits == 32
    ensures result == if bits == 32 then Mirrored(value) else Mirrored(value & 0xFF) >> 24
  {
    var val := value;
    var bit := 0;
    result := 0;
    NothingMirrored(value);
    hide *;
    while bit < bits
      invariant bit <= bits && val == Dropped(value, bit) && Partly(value, bits, bit, result)
    {
      OneMirrored(value, bits, bit, result);
      if Meets(val, 1) { result := Or(result, Mask(bits - 1 - bit)); }
      val := Half(val);
      bit := bit + 1;
    }
    AllMirrored(value, bits, result);
  }

  // the lowest `bit` bits of value, mirrored, and the bit that comes next

  function Below(bit: nat): bv32
    requires bit <= 32
  {
    if bit == 32 then 0xFFFF_FFFF else Mask(bit) - 1
  }

  function Placed(v: bv32, bits: nat): bv32 {
    if bits == 32 then v else v >> 24
  }

  predicate Partly(value: bv32, bits: nat, bit: nat, result: bv32)
    requires bit <= 32
  {
    result == Placed(Mirrored(And(value, Below(bit))), bits)
  }

  lemma NothingMirrored(value: bv32)
    ensures Partly(value, 8, 0, 0) && Partly(value, 32, 0, 0)
    ensures value == Dropped(value, 0)
  {
    assert Mask(0) == 1;
    assert Mirrored(0) == 0;
  }

  lemma AllMirrored(value: bv32, bits: nat, result: bv32)
    requires (bits == 8 || bits == 32) && Partly(value, bits, bits, result)
    ensures result == if bits == 32 then Mirrored(value) else Mirrored(value & 0xFF) >> 24
  {
    assert Mask(8) == 0x100;
    assert value & 0xFFFF_FFFF == value;
    hide Mirrored, Mask;
  }

  lemma BelowNext(bit: nat)
    requires bit < 32
    ensures Below(bit + 1) == Or(Below(bit), Mask(bit))
  {
    MaskSingle(bit);
    if bit < 31 { MaskNext(bit); } else { assert Mask(31) == 0x8000_0000; }
    hide Mask;
  }

  lemma {:induction false} MirroredMask(k: nat)
    requires k < 32
    ensures Mirrored(Mask(k)) == Mask(31 - k)
    decreases k
  {
    if k == 0 {
      assert Mask(0) == 1 && Mask(31) == 0x8000_0000;
    } else {
      hide Mirrored, Mask, Half;
      MirroredMask(k - 1);
      MaskNext(k - 1);
      MirroredShift(Mask(k - 1));
      MaskHalf(31 - k);
    }
  }

  lemma MaskHalf(k: nat)
    requires k < 31
    ensures Half(Mask(k + 1)) == Mask(k)
  {
    MaskNext(k);
    MaskSingle(k);
    MaskSingle(k + 1);
    hide Mask;
  }

  lemma MaskDown(k: nat)
    requires 24 <= k < 32
    ensures Mask(k) >> 24 == Mask(k - 24)
  {
    assert k == 24 || k == 25 || k == 26 || k == 27 || k == 28 || k == 29 || k == 30 || k == 31;
  }

  lemma PlacedMask(bits: nat, bit: nat)
    requires (bits == 8 || bits == 32) && bit < bits
    ensures Placed(Mask(31 - bit), bits) == Mask(bits - 1 - bit)
  {
    if bits == 8 { MaskDown(31 - bit); }
  }

  lemma PlacedOr(a: bv32, b: bv32, bits: nat)
    ensures Placed(Or(a, b), bits) == Or(Placed(a, bits), Placed(b, bits))
  {
    assert (a | b) >> 24 == (a >> 24) | (b >> 24);
  }

  lemma AndOr(v: bv32, a: bv32, b: bv32)
    ensures And(v, Or(a, b)) == Or(And(v, a), And(v, b))
  {
    assert v & (a | b) == (v & a) | (v & b);
  }

  lemma OrZero(v: bv32)
    ensures Or(v, 0) == v
  {
  }

  lemma MaskPart(v: bv32, k: nat)
    requires k < 32
    ensures And(v, Mask(k)) == if Meets(v, Mask(k)) then Mask(k) else 0
  {
    MaskSingle(k);
    hide Mask;
  }

  /** The next bit goes in, mirrored. */
  lemma NextMirrored(value: bv32, bits: nat, bit: nat, result: bv32)
    requires (bits == 8 || bits == 32) && bit < bits && Partly(value, bits, bit, result)
    ensures Partly(value, bits, bit + 1,
                   if Meets(value, Mask(bit)) then Or(result, Placed(Mask(31 - bit), bits)) else result)
  {
    hide Mirrored, Below, Mask, Placed, And, Or, Meets;
    var before, at := And(value, Below(bit)), And(value, Mask(bit));
    BelowNext(bit);
    AndOr(value, Below(bit), Mask(bit));
    MaskPart(value, bit);
    OrZero(before);
    MirroredOr(before, Mask(bit));
    MirroredMask(bit);
    PlacedOr(Mirrored(before), Mask(31 - bit), bits);
  }

  /** One round of reflect_crc. */
  lemma OneMirrored(value: bv32, bits: nat, bit: nat, result: bv32)
    requires (bits == 8 || bits == 32) && bit < bits && Partly(value, bits, bit, result)
    ensures Partly(value, bits, bit + 1,
                   if Meets(Dropped(value, bit), 1) then Or(result, Mask(bits - 1 - bit)) else result)
    ensures Dropped(value, bit + 1) == Half(Dropped(value, bit))
  {
    hide Mirrored, Below, Mask, Placed, Partly, Meets, Or, Half;
    DroppedBit(value, bit, 0);
    MaskZero();
    PlacedMask(bits, bit);
    NextMirrored(value, bits, bit, result);
  }

  // ----- the checksum -----

  lemma AsByte(b: nat)
    requires b < 256
    ensures b as bv32 <= 0xFF
  {
  }

  /** crcTable and initializedCRC32. */
  class Checksum {
    var initializedCRC32: bool
    const crcTable: array<bv32>

    ghost predicate Filled()
      reads this, crcTable
    {
      crcTable.Length == 256 && forall b | 0 <= b < 256 :: crcTable[b] == Entry(b as bv32)
    }

    ghost predicate Valid()
      reads this, crcTable
    {
      crcTable.Length == 256 && (initializedCRC32 ==> Filled())
    }

    constructor ()
      ensures Valid() && fresh(crcTable)
    {
      initializedCRC32 := false;
      crcTable := new bv32[256];
    }

    /** initialize_crc32 */
    method InitializeCrc32()
      requires crcTable.Length == 256
      modifies this, crcTable
      ensures initializedCRC32 && Filled()
    {
      hide Entry, Mirrored;
      for byte := 0 to 256
        invariant forall b | 0 <= b < byte :: crcTable[b] == Entry(b as bv32)
      {
        crcTable[byte] := TableEntry(byte);
      }
      initializedCRC32 := true;
    }

    method TableEntry(byte: nat) returns (entry: bv32)
      requires byte < 256
      ensures entry == Entry(byte as bv32)
    {
      AsByte(byte);
      hide Mirrored, Shifted, Meets, Xor, Double;
      var crc := ReflectCrc(byte as bv32, 8);
      crc := crc << 24;
      var offset := 0;
      while offset < 8
        invariant offset <= 8 && Mirrored(crc) == Stepped(byte as bv32, offset)
      {
        MirroredStep(crc);
        crc := if Meets(crc, 0x8000_0000) then Xor(Double(crc), 0x04C1_1DB7) else Double(crc);
        offset := offset + 1;
      }
      entry := ReflectCrc(crc, 32);
    }

    /** enet_crc32: the checksum of all the buffers is the bit-serial CRC of their bytes together. */
    method EnetCrc32(buffers: seq<seq<bv8>>) returns (r: bv32)
      requires Valid()
      modifies this, crcTable
      ensures Valid() && r == Crc(Bits(Concat(buffers)))
    {
      if !initializedCRC32 { InitializeCrc32(); }
      hide Register, Bits, Concat, Entry, Index, Eighth, Xor;
      var crc: bv32 := 0xFFFF_FFFF;
      for i := 0 to |buffers|
        invariant Filled() && Reads(crc, buffers, i)
      {
        crc := Fold(crc, buffers[i]);
        BufferRead(buffers, i);
      }
      r := !crc;
      assert buffers[..|buffers|] == buffers;
    }

    /** The inner loop, over one buffer. */
    method Fold(start: bv32, data: seq<bv8>) returns (crc: bv32)
      requires Filled()
      ensures crc == Register(start, Bits(data))
    {
      crc := start;
      var k := 0;
      hide Register, Bits, Entry, Index, Eighth, Xor;
      NoBits(start, data);
      while k < |data|
        invariant k <= |data| && crc == Register(start, Bits(data[..k]))
      {
        var b := data[k] as bv32;
        OneByte(start, data, k);
        ByteStep(crc, b);
        crc := Xor(Eighth(crc), crcTable[Index(crc, b) as nat]);
        k := k + 1;
      }
      assert data[..k] == data;
    }
  }

  ghost predicate Reads(crc: bv32, buffers: seq<seq<bv8>>, i: nat)
    requires i <= |buffers|
  {
    crc == Register(0xFFFF_FFFF, Bits(Concat(buffers[..i])))
  }

  lemma {:induction false} BitsConcat(a: seq<bv8>, b: seq<bv8>)
    ensures Bits(a + b) == Bits(a) + Bits(b)
    decreases |b|
  {
    hide BitsOf;
    if b == [] {
      assert a + b == a;
    } else {
      assert (a + b)[..|a + b| - 1] == a + b[..|b| - 1];
      BitsConcat(a, b[..|b| - 1]);
    }
  }

  lemma BufferRead(buffers: seq<seq<bv8>>, i: nat)
    requires i < |buffers|
    ensures forall c | Reads(c, buffers, i) :: Reads(Register(c, Bits(buffers[i])), buffers, i + 1)
  {
    assert buffers[..i + 1][..i] == buffers[..i];
    BitsConcat(Concat(buffers[..i]), buffers[i]);
    RegisterConcat(0xFFFF_FFFF, Bits(Concat(buffers[..i])), Bits(buffers[i]));
    hide Register, Bits;
  }

  lemma NoBits(c: bv32, data: seq<bv8>)
    ensures Register(c, Bits(data[..0])) == c
  {
  }

  lemma OneByte(c: bv32, data: seq<bv8>, k: nat)
    requires k < |data|
    ensures data[k] as bv32 <= 0xFF
    ensures Register(c, Bits(data[..k + 1])) == Register(Register(c, Bits(data[..k])), BitsOf(data[k] as bv32))
  {
    assert data[..k + 1][..k] == data[..k];
    hide BitsOf;
    RegisterConcat(c, Bits(data[..k]), BitsOf(data[k] as bv32));
  }

  // ----- what the checksum is for -----

  lemma HalfTop(c: bv32)
    ensures !Meets(Half(c), 0x8000_0000)
  {
  }

  lemma XorTop(c: bv32)
    requires !Meets(c, 0x8000_0000)
    ensures Meets(Xor(c, GENERATOR), 0x8000_0000)
  {
  }

  lemma XorCancel(a: bv32, b: bv32)
    requires Xor(a, GENERATOR) == Xor(b, GENERATOR)
    ensures a == b
  {
  }

  function Rebuilt(half: bv32, low: bool): bv32 {
    (half << 1) | if low then 1 else 0
  }

  lemma RebuiltIs(c: bv32)
    ensures Rebuilt(Half(c), Meets(c, 1)) == c
  {
    assert ((c >> 1) << 1) | (c & 1) == c;
    assert c & 1 == 0 || c & 1 == 1;
  }

  lemma SameHalves(c: bv32, d: bv32)
    requires Half(c) == Half(d) && Meets(c, 1) == Meets(d, 1)
    ensures c == d
  {
    RebuiltIs(c);
    RebuiltIs(d);
    hide Half, Meets;
  }

  /** The top bit of the register tells whether the generator went in. */
  lemma TopBit(c: bv32, x: bool)
    ensures Meets(Shifted(c, x), 0x8000_0000) <==> Meets(c, 1) != x
  {
    hide Meets, Half, Xor;
    HalfTop(c);
    XorTop(Half(c));
  }

  /** Registers that differ stay different, and different bits make equal registers differ. */
  lemma ShiftedApart(c: bv32, d: bv32, x: bool, y: bool)
    requires if c == d then x != y else x == y
    ensures Shifted(c, x) != Shifted(d, y)
  {
    hide Meets, Half, Xor;
    TopBit(c, x);
    TopBit(d, y);
    if c != d && Shifted(c, x) == Shifted(d, y) {
      if Meets(c, 1) != x { XorCancel(Half(c), Half(d)); }
      SameHalves(c, d);
    }
  }

  predicate OnlyAt(a: seq<bool>, b: seq<bool>, k: nat) {
    k < |a| == |b| && a[k] != b[k] && forall i | 0 <= i < |a| && i != k :: a[i] == b[i]
  }

  lemma {:induction false} RegisterApart(c: bv32, a: seq<bool>, b: seq<bool>, k: nat)
    requires OnlyAt(a, b, k)
    ensures Register(c, a) != Register(c, b)
    decreases |a|
  {
    var n := |a| - 1;
    hide Shifted;
    if k == n {
      assert a[..n] == b[..n];
    } else {
      RegisterApart(c, a[..n], b[..n], k);
    }
    ShiftedApart(Register(c, a[..n]), Register(c, b[..n]), a[n], b[n]);
  }

  /** A datagram with one bit changed on the way, any bit, has another checksum. */
  lemma OneBitDetected(a: seq<bool>, b: seq<bool>, k: nat)
    requires OnlyAt(a, b, k)
    ensures Crc(a) != Crc(b)
  {
    RegisterApart(0xFFFF_FFFF, a, b, k);
  }

}
