// The packet checksum and the validity test of a packet (keemash_mesh_core.c:188-227).
//
// A packet is a 26-byte header (include/keemash_mesh_proto.h:306-317) and its payload; the header's
// last two bytes hold the checksum, computed with those bytes taken as zero.
module Crc16 {

  type Octet = bv8

  const HEADER: nat := 26
  const PAYLOAD_MAX: nat := 192
  const MAGIC: Octet := 0xA5
  const VERSION: Octet := 2
  const LEN_AT: nat := 16
  const CRC_AT: nat := 24

  predicate TopSet(crc: bv16) {
    crc & 0x8000 != 0
  }

  function Shifted(crc: bv16): bv16 {
    crc << 1
  }

  function Reduced(crc: bv16): bv16 {
    Shifted(crc) ^ 0x1021
  }

  function BitStep(crc: bv16): bv16 {
    if TopSet(crc) then Reduced(crc) else Shifted(crc)
  }

  function BitSteps(crc: bv16, n: nat): bv16 {
    if n == 0 then crc else BitStep(BitSteps(crc, n - 1))
  }

  function Absorb(crc: bv16, b: Octet): bv16 {
    crc ^ ((b as bv16) << 8)
  }

  function ByteStep(crc: bv16, b: Octet): bv16 {
    BitSteps(Absorb(crc, b), 8)
  }

  // crc16_update
  function Update(crc: bv16, data: seq<Octet>): bv16 {
    if |data| == 0 then crc else ByteStep(Update(crc, data[..|data| - 1]), data[|data| - 1])
  }

  function LengthField(p: seq<Octet>): nat
    requires |p| >= HEADER
  {
    (p[LEN_AT] as nat) + 256 * (p[LEN_AT + 1] as nat)
  }

  // The bytes the checksum covers: the packet with its checksum field zeroed.
  function Covered(p: seq<Octet>): seq<Octet>
    requires |p| >= HEADER
  {
    p[CRC_AT := 0][CRC_AT + 1 := 0]
  }

  function CrcField(p: seq<Octet>): bv16
    requires |p| >= HEADER
  {
    (p[CRC_AT] as bv16) | ((p[CRC_AT + 1] as bv16) << 8)
  }

  predicate Valid(p: seq<Octet>) {
    && |p| >= HEADER && p[0] == MAGIC && p[1] == VERSION
    && LengthField(p) <= PAYLOAD_MAX && |p| == HEADER + LengthField(p)
    && Update(0xFFFF, Covered(p)) == CrcField(p)
  }

  // ---- The code's loops

  method Crc16Update(start: bv16, data: array<Octet>, from: nat, to: nat) returns (crc: bv16)
    requires from <= to <= data.Length
    ensures crc == Update(start, data[from..to])
  {
    crc := start;
    for k := from to to
      invariant crc == Update(start, data[from..k])
    {
      crc := Absorb(crc, data[k]);
      ghost var absorbed := crc;
      for i := 0 to 8
        invariant crc == BitSteps(absorbed, i)
      {
        crc := BitStep(crc);
      }
      assert data[from..k + 1][..k - from] == data[from..k];
    }
  }

  lemma {:induction false} UpdateJoin(crc: bv16, a: seq<Octet>, b: seq<Octet>)
    ensures Update(crc, a + b) == Update(Update(crc, a), b)
  {
    if |b| == 0 {
      assert a + b == a;
    } else {
      assert (a + b)[..|a + b| - 1] == a + b[..|b| - 1];
      UpdateJoin(crc, a, b[..|b| - 1]);
    }
  }

  // packet_crc: the copied header, then the payload
  method PacketCrc(p: array<Octet>) returns (crc: bv16)
    requires p.Length >= HEADER
    ensures crc == Update(0xFFFF, Covered(p[..]))
  {
    var copy := new Octet[HEADER](i requires 0 <= i < HEADER reads p => p[i]);
    copy[CRC_AT], copy[CRC_AT + 1] := 0, 0;
    crc := Crc16Update(0xFFFF, copy, 0, HEADER);
    crc := Crc16Update(crc, p, HEADER, p.Length);
    UpdateJoin(0xFFFF, copy[0..HEADER], p[HEADER..p.Length]);
    assert Covered(p[..]) == copy[0..HEADER] + p[HEADER..p.Length];
  }

  // packet_valid
  method PacketValid(p: array<Octet>) returns (ok: bool)
    ensures ok == Valid(p[..])
  {
    hide Update, Covered, CrcField, LengthField;
    if p.Length < HEADER || p[0] != MAGIC || p[1] != VERSION {
      return false;
    }
    var len := LengthField(p[..]);
    if len > PAYLOAD_MAX || p.Length != HEADER + len {
      return false;
    }
    var crc := PacketCrc(p);
    return crc == CrcField(p[..]);
  }

  // ---- The checksum is the remainder of a polynomial division
  //
  // A polynomial over two elements is its coefficients, by exponent; adding is exclusive or.

  function Mask(n: int): bv16 {
    match n
    case 0 => 0x1 case 1 => 0x2 case 2 => 0x4 case 3 => 0x8
    case 4 => 0x10 case 5 => 0x20 case 6 => 0x40 case 7 => 0x80
    case 8 => 0x100 case 9 => 0x200 case 10 => 0x400 case 11 => 0x800
    case 12 => 0x1000 case 13 => 0x2000 case 14 => 0x4000 case 15 => 0x8000
    case _ => 0
  }

  // The coefficient of x^n in a word.
  predicate Bit(a: bv16, n: int) {
    a & Mask(n) != 0
  }

  // x^16 + x^12 + x^5 + 1
  predicate Generator(n: int) {
    n == 16 || n == 12 || n == 5 || n == 0
  }

  // Its product with q.
  predicate Multiple(q: int -> bool, n: int) {
    (q(n - 16) != q(n - 12)) != (q(n - 5) != q(n))
  }

  ghost predicate Within(q: int -> bool, size: nat) {
    forall n :: q(n) ==> 0 <= n < size
  }

  // The bytes as a polynomial, the first one highest.
  predicate InData(data: seq<Octet>, n: int) {
    0 <= n < 8 * |data| && Bit(data[|data| - 1 - n / 8] as bv16, n % 8)
  }

  // The bytes times x^16, with the start value added to their first 16 bits.
  predicate Dividend(start: bv16, data: seq<Octet>, n: int) {
    Bit(start, n - 8 * |data|) != InData(data, n - 16)
  }

  ghost predicate Divides(start: bv16, data: seq<Octet>, crc: bv16, q: int -> bool) {
    forall n :: Dividend(start, data, n) <==> Bit(crc, n) != Multiple(q, n)
  }

  // crc, of degree below 16, is what dividing leaves.
  ghost predicate IsRemainder(start: bv16, data: seq<Octet>, crc: bv16) {
    exists q, size :: Within(q, size) && Divides(start, data, crc, q)
  }

  lemma {:induction false} MaskShifts(n: int)
    ensures 1 <= n < 16 ==> Mask(n) == Mask(n - 1) << 1 && Mask(n - 1) & 0x8000 == 0
    ensures 8 <= n < 16 ==> Mask(n) == Mask(n - 8) << 8 && Mask(n - 8) & 0xFF00 == 0
    ensures 0 <= n < 8 ==> Mask(n) & 0xFF00 == 0
  {
  }

  lemma {:induction false} MaskOne(n: int)
    ensures Mask(n) & (Mask(n) - 1) == 0
  {
  }

  lemma {:induction false} ShiftBit(c: bv16, m: bv16)
    requires m & 0x8000 == 0
    ensures Shifted(c) & (m << 1) != 0 <==> c & m != 0
  {
  }

  lemma {:induction false} ShiftByte(b: Octet, m: bv16)
    requires m & 0xFF00 == 0
    ensures ((b as bv16) << 8) & (m << 8) != 0 <==> (b as bv16) & m != 0
    ensures ((b as bv16) << 8) & m == 0
  {
  }

  lemma {:induction false} XorBit(a: bv16, b: bv16, m: bv16)
    requires m & (m - 1) == 0
    ensures (a ^ b) & m != 0 <==> (a & m != 0) != (b & m != 0)
  {
  }

  lemma {:induction false} MiddleBit(c: bv16, n: int)
    requires 1 <= n < 16
    ensures Bit(c, n - 1) <==> Bit(Shifted(c), n)
  {
    hide Mask, Shifted;
    MaskShifts(n);
    ShiftBit(c, Mask(n - 1));
  }

  lemma {:induction false} EndBits(c: bv16)
    ensures Bit(c, 15) <==> TopSet(c)
    ensures !Bit(Shifted(c), 0)
  {
    assert (c << 1) & 1 == 0;
  }

  lemma {:induction false} ShiftedBits(c: bv16, n: int)
    ensures Bit(c, n - 1) <==> Bit(Shifted(c), n) != (TopSet(c) && n == 16)
  {
    hide Bit, Shifted, TopSet;
    EndBits(c);
    if 1 <= n < 16 {
      MiddleBit(c, n);
    } else {
      NoBit(Shifted(c), n);
      NoBit(c, n - 1);
    }
  }

  lemma {:induction false} ReducedBits(c: bv16, n: int)
    ensures Bit(Reduced(c), n) <==> Bit(Shifted(c), n) != (Generator(n) && n != 16)
  {
    MaskOne(n);
    assert Bit(0x1021, n) <==> Generator(n) && n != 16;
    hide Mask, Shifted;
    XorBit(Shifted(c), 0x1021, Mask(n));
  }

  // A step multiplies by x and takes the polynomial away when that reaches degree 16.
  lemma {:induction false} BitStepReduces(crc: bv16, n: int)
    ensures Bit(crc, n - 1) <==> Bit(BitStep(crc), n) != (TopSet(crc) && Generator(n))
  {
    hide Bit, TopSet, Shifted, Reduced;
    ShiftedBits(crc, n);
    ReducedBits(crc, n);
    NoBit(Reduced(crc), n);
    NoBit(Shifted(crc), n);
  }

  lemma {:induction false} NoBit(a: bv16, n: int)
    ensures n < 0 || n >= 16 ==> !Bit(a, n)
  {
  }

  lemma {:induction false} NoHighBit(b: Octet, n: int)
    requires n < 0 || n >= 8
    ensures !Bit(b as bv16, n)
  {
    if 8 <= n < 16 {
      hide Mask;
      MaskShifts(n);
      ShiftByte(b, Mask(n - 8));
      assert (b as bv16) & (Mask(n - 8) << 8) == 0;
    }
  }

  lemma {:induction false} HighBits(b: Octet, n: int)
    requires 0 <= n < 16
    ensures ((b as bv16) << 8) & Mask(n) != 0 <==> Bit(b as bv16, n - 8)
  {
    hide Mask;
    MaskShifts(n);
    if n < 8 {
      NoHighBit(b, n - 8);
      ShiftByte(b, Mask(n));
    } else {
      ShiftByte(b, Mask(n - 8));
    }
  }

  lemma {:induction false} AbsorbBit(crc: bv16, b: Octet, n: int)
    ensures Bit(Absorb(crc, b), n) <==> Bit(crc, n) != (((b as bv16) << 8) & Mask(n) != 0)
  {
    hide Mask;
    MaskOne(n);
    XorBit(crc, (b as bv16) << 8, Mask(n));
  }

  lemma {:induction false} AbsorbAdds(crc: bv16, b: Octet, n: int)
    ensures Bit(Absorb(crc, b), n) <==> Bit(crc, n) != Bit(b as bv16, n - 8)
  {
    hide Absorb, Bit, Mask;
    if 0 <= n < 16 {
      HighBits(b, n);
      AbsorbBit(crc, b, n);
    } else {
      NoBit(crc, n);
      NoBit(Absorb(crc, b), n);
      NoHighBit(b, n - 8);
    }
  }

  // The quotient of one step more, and of eight.
  function OneMore(q: int -> bool, taken: bool): int -> bool {
    n => q(n - 1) != (n == 0 && taken)
  }

  function EightMore(q: int -> bool, eight: int -> bool): int -> bool {
    n => q(n - 8) != eight(n)
  }

  lemma {:induction false} OneMoreMultiple(q: int -> bool, taken: bool, n: int)
    ensures Multiple(OneMore(q, taken), n) <==> Multiple(q, n - 1) != (taken && Generator(n))
  {
  }

  lemma {:induction false} EightMoreMultiple(q: int -> bool, eight: int -> bool, n: int)
    ensures Multiple(EightMore(q, eight), n) <==> Multiple(q, n - 8) != Multiple(eight, n)
  {
  }

  lemma {:induction false} BitStepsDivide(crc: bv16, k: nat) returns (q: int -> bool)
    ensures Within(q, k)
    ensures forall n :: Bit(crc, n - k) <==> Bit(BitSteps(crc, k), n) != Multiple(q, n)
  {
    hide Bit, BitStep, TopSet, Generator, Multiple;
    if k == 0 {
      q := n => false;
      forall n ensures Bit(crc, n - k) <==> Bit(BitSteps(crc, k), n) != Multiple(q, n) {
        NoMultiple(q, n);
      }
    } else {
      var front := BitStepsDivide(crc, k - 1);
      var r := BitSteps(crc, k - 1);
      q := OneMore(front, TopSet(r));
      forall n ensures Bit(crc, n - k) <==> Bit(BitSteps(crc, k), n) != Multiple(q, n) {
        assert Bit(crc, (n - 1) - (k - 1)) <==> Bit(r, n - 1) != Multiple(front, n - 1);
        OneMoreMultiple(front, TopSet(r), n);
        BitStepReduces(r, n);
      }
    }
  }

  lemma {:induction false} NoMultiple(q: int -> bool, n: int)
    requires forall m :: !q(m)
    ensures !Multiple(q, n)
  {
  }

  lemma {:induction false} UpdateDivides(start: bv16, data: seq<Octet>) returns (q: int -> bool)
    ensures Within(q, 8 * |data|) && Divides(start, data, Update(start, data), q)
  {
    hide Bit, Absorb, BitSteps, Multiple, Dividend;
    if |data| == 0 {
      q := n => false;
      forall n ensures Dividend(start, data, n) <==> Bit(start, n) != Multiple(q, n) {
        NoMultiple(q, n);
        EmptyDividend(start, data, n);
      }
    } else {
      var rest, b := data[..|data| - 1], data[|data| - 1];
      var front := UpdateDivides(start, rest);
      var r := Update(start, rest);
      var eight := BitStepsDivide(Absorb(r, b), 8);
      q := EightMore(front, eight);
      forall n ensures Dividend(start, data, n) <==> Bit(ByteStep(r, b), n) != Multiple(q, n) {
        NextDividend(start, data, r, front, eight, n);
      }
    }
  }

  lemma {:induction false} NextDividend(start: bv16, data: seq<Octet>, r: bv16, front: int -> bool,
                                        eight: int -> bool, n: int)
    requires |data| > 0 && Divides(start, data[..|data| - 1], r, front)
    requires var a := Absorb(r, data[|data| - 1]);
             forall m :: Bit(a, m - 8) <==> Bit(BitSteps(a, 8), m) != Multiple(eight, m)
    ensures Dividend(start, data, n) <==>
            Bit(ByteStep(r, data[|data| - 1]), n) != Multiple(EightMore(front, eight), n)
  {
    hide Bit, Absorb, BitSteps, Multiple, Dividend, EightMore;
    var rest, b := data[..|data| - 1], data[|data| - 1];
    assert Dividend(start, rest, n - 8) <==> Bit(r, n - 8) != Multiple(front, n - 8);
    assert Bit(Absorb(r, b), n - 8) <==> Bit(ByteStep(r, b), n) != Multiple(eight, n);
    AbsorbAdds(r, b, n - 8);
    LastByte(start, data, n);
    EightMoreMultiple(front, eight, n);
  }

  lemma {:induction false} EmptyDividend(start: bv16, data: seq<Octet>, n: int)
    requires |data| == 0
    ensures Dividend(start, data, n) <==> Bit(start, n)
  {
    hide Bit;
  }

  lemma {:induction false} LastByte(start: bv16, data: seq<Octet>, n: int)
    requires |data| > 0
    ensures Dividend(start, data, n) <==>
            Dividend(start, data[..|data| - 1], n - 8) != Bit(data[|data| - 1] as bv16, n - 16)
  {
    hide Bit;
    if n < 16 || n >= 24 {
      NoHighBit(data[|data| - 1], n - 16);
    }
  }

  // A division leaves one remainder.
  lemma {:induction false} RemainderExactly(start: bv16, data: seq<Octet>, crc: bv16)
    ensures IsRemainder(start, data, crc) <==> crc == Update(start, data)
  {
    hide Bit, Update, Dividend, Multiple;
    var p := UpdateDivides(start, data);
    assert Within(p, 8 * |data|);
    if IsRemainder(start, data, crc) {
      var q, size: nat :| Within(q, size) && Divides(start, data, crc, q);
      forall n ensures Bit(crc, n) == Bit(Update(start, data), n) {
        SameCoefficient(start, data, crc, Update(start, data), q, p, size + 8 * |data|, n);
      }
      SameBits(crc, Update(start, data));
    }
  }

  lemma {:induction false} SameCoefficient(start: bv16, data: seq<Octet>, a: bv16, b: bv16, q: int -> bool,
                                           p: int -> bool, size: nat, n: int)
    requires Within(q, size) && Within(p, size) && Divides(start, data, a, q) && Divides(start, data, b, p)
    ensures Bit(a, n) == Bit(b, n)
  {
    hide Bit, Dividend;
    assert Dividend(start, data, n) <==> Bit(a, n) != Multiple(q, n);
    assert Dividend(start, data, n) <==> Bit(b, n) != Multiple(p, n);
    SameQuotient(start, data, a, b, q, p, size, n);
    SameQuotient(start, data, a, b, q, p, size, n - 5);
    SameQuotient(start, data, a, b, q, p, size, n - 12);
    SameQuotient(start, data, a, b, q, p, size, n - 16);
  }

  // The highest coefficient in which two quotients differed would show in the remainders.
  lemma {:induction false} SameQuotient(start: bv16, data: seq<Octet>, a: bv16, b: bv16, q: int -> bool,
                                        p: int -> bool, size: nat, n: int)
    requires Within(q, size) && Within(p, size) && Divides(start, data, a, q) && Divides(start, data, b, p)
    ensures q(n) == p(n)
    decreases size - n
  {
    hide Bit, Dividend;
    if 0 <= n < size {
      SameQuotient(start, data, a, b, q, p, size, n + 4);
      SameQuotient(start, data, a, b, q, p, size, n + 11);
      SameQuotient(start, data, a, b, q, p, size, n + 16);
      assert Dividend(start, data, n + 16) <==> Bit(a, n + 16) != Multiple(q, n + 16);
      assert Dividend(start, data, n + 16) <==> Bit(b, n + 16) != Multiple(p, n + 16);
      NoBit(a, n + 16);
      NoBit(b, n + 16);
    }
  }

  lemma {:induction false} SameBits(a: bv16, b: bv16)
    requires forall n :: Bit(a, n) == Bit(b, n)
    ensures a == b
  {
    assert a & 0xF == b & 0xF by {
      SameNibble(a, b, 0, 1, 2, 3);
    }
    assert a & 0xF0 == b & 0xF0 by {
      SameNibble(a, b, 4, 5, 6, 7);
    }
    assert a & 0xF00 == b & 0xF00 by {
      SameNibble(a, b, 8, 9, 10, 11);
    }
    assert a & 0xF000 == b & 0xF000 by {
      SameNibble(a, b, 12, 13, 14, 15);
    }
    hide Bit, Mask;
    SameNibbles(a, b);
  }

  lemma {:induction false} SameNibble(a: bv16, b: bv16, i: int, j: int, k: int, l: int)
    requires forall n :: Bit(a, n) == Bit(b, n)
    ensures var m := Mask(i) | Mask(j) | Mask(k) | Mask(l); a & m == b & m
  {
    SameMasked(a, b, i);
    SameMasked(a, b, j);
    SameMasked(a, b, k);
    SameMasked(a, b, l);
    hide Mask;
  }

  lemma {:induction false} SameMasked(a: bv16, b: bv16, n: int)
    requires forall n :: Bit(a, n) == Bit(b, n)
    ensures a & Mask(n) == b & Mask(n)
  {
    assert Bit(a, n) == Bit(b, n);
    MaskOne(n);
    hide Mask;
  }

  lemma {:induction false} SameNibbles(a: bv16, b: bv16)
    requires a & 0xF == b & 0xF && a & 0xF0 == b & 0xF0 && a & 0xF00 == b & 0xF00 && a & 0xF000 == b & 0xF000
    ensures a == b
  {
  }

  // A packet is valid exactly when its first two bytes are magic and version, its length is that of the header
  // and the payload length in it, at most 192, and its checksum field is the remainder of the division.
  lemma {:induction false} ValidExactly(p: seq<Octet>)
    ensures Valid(p) <==>
            && 26 <= |p| <= 218 && p[0] == 0xA5 && p[1] == 2 && |p| == 26 + (p[16] as nat) + 256 * (p[17] as nat)
            && IsRemainder(0xFFFF, p[24 := 0][25 := 0], (p[24] as bv16) | ((p[25] as bv16) << 8))
  {
    if |p| >= HEADER {
      RemainderExactly(0xFFFF, p[24 := 0][25 := 0], CrcField(p));
      hide Update, IsRemainder;
    }
  }

  // ---- Every step of the checksum is reversible

  // The low bit of the result tells which branch was taken.
  lemma {:induction false} BranchesApart(a: bv16, b: bv16)
    ensures Reduced(a) != Shifted(b)
  {
    assert ((a << 1) ^ 0x1021) & 1 == 1;
    assert (b << 1) & 1 == 0;
  }

  lemma {:induction false} ShiftedInjective(a: bv16, b: bv16)
    requires Shifted(a) == Shifted(b) && TopSet(a) == TopSet(b)
    ensures a == b
  {
    assert a & 0x8000 == b & 0x8000 by {
      assert a & 0x8000 == 0 || a & 0x8000 == 0x8000;
      assert b & 0x8000 == 0 || b & 0x8000 == 0x8000;
    }
  }

  lemma {:induction false} ReducedTells(a: bv16, b: bv16)
    requires Reduced(a) == Reduced(b)
    ensures Shifted(a) == Shifted(b)
  {
    hide Shifted;
    XorCancels(Shifted(a), Shifted(b));
  }

  lemma {:induction false} XorCancels(x: bv16, y: bv16)
    requires x ^ 0x1021 == y ^ 0x1021
    ensures x == y
  {
  }

  lemma {:induction false} BitStepInjective(a: bv16, b: bv16)
    requires BitStep(a) == BitStep(b)
    ensures a == b
  {
    hide TopSet, Shifted, Reduced;
    BranchesApart(a, b);
    BranchesApart(b, a);
    if TopSet(a) {
      ReducedTells(a, b);
    }
    ShiftedInjective(a, b);
  }

  lemma {:induction false} BitStepsInjective(a: bv16, b: bv16, n: nat)
    requires BitSteps(a, n) == BitSteps(b, n)
    ensures a == b
  {
    if n > 0 {
      BitStepInjective(BitSteps(a, n - 1), BitSteps(b, n - 1));
      BitStepsInjective(a, b, n - 1);
    }
  }

  lemma {:induction false} AbsorbInjective(a: bv16, b: bv16, x: Octet)
    requires Absorb(a, x) == Absorb(b, x)
    ensures a == b
  {
  }

  lemma {:induction false} AbsorbTells(a: bv16, x: Octet, y: Octet)
    requires Absorb(a, x) == Absorb(a, y)
    ensures x == y
  {
  }

  // Different states stay different whatever bytes follow.
  lemma {:induction false} DifferenceSurvives(a: bv16, b: bv16, data: seq<Octet>)
    requires a != b
    ensures Update(a, data) != Update(b, data)
  {
    if |data| > 0 {
      var rest, last := data[..|data| - 1], data[|data| - 1];
      DifferenceSurvives(a, b, rest);
      var x, y := Update(a, rest), Update(b, rest);
      if ByteStep(x, last) == ByteStep(y, last) {
        BitStepsInjective(Absorb(x, last), Absorb(y, last), 8);
        AbsorbInjective(x, y, last);
      }
    }
  }

  // Two strings that differ in exactly one byte have different checksums.
  lemma {:induction false} OneByteTells(crc: bv16, p: seq<Octet>, q: seq<Octet>, k: nat)
    requires |p| == |q| && k < |p| && p[k] != q[k]
    requires forall i :: 0 <= i < |p| && i != k ==> p[i] == q[i]
    ensures Update(crc, p) != Update(crc, q)
  {
    var before, after := p[..k], p[k + 1..];
    assert p == (before + [p[k]]) + after && q == (before + [q[k]]) + after;
    UpdateJoin(crc, before + [p[k]], after);
    UpdateJoin(crc, before + [q[k]], after);
    var s := Update(crc, before);
    assert (before + [p[k]])[..|before|] == before && (before + [q[k]])[..|before|] == before;
    if ByteStep(s, p[k]) == ByteStep(s, q[k]) {
      BitStepsInjective(Absorb(s, p[k]), Absorb(s, q[k]), 8);
      AbsorbTells(s, p[k], q[k]);
    }
    DifferenceSurvives(ByteStep(s, p[k]), ByteStep(s, q[k]), after);
  }

  lemma {:induction false} CrcFieldTells(p: seq<Octet>, q: seq<Octet>)
    requires |p| == |q| >= HEADER && CrcField(p) == CrcField(q)
    ensures p[CRC_AT] == q[CRC_AT] && p[CRC_AT + 1] == q[CRC_AT + 1]
  {
    FieldParts(p[CRC_AT], p[CRC_AT + 1], q[CRC_AT], q[CRC_AT + 1]);
  }

  lemma {:induction false} FieldParts(a: Octet, b: Octet, c: Octet, d: Octet)
    requires ((a as bv16) | ((b as bv16) << 8)) == ((c as bv16) | ((d as bv16) << 8))
    ensures a == c && b == d
  {
  }

  lemma {:induction false} OctetNumber(x: Octet, y: Octet)
    requires x != y
    ensures (x as nat) != (y as nat) && (x as nat) < 256
  {
  }

  lemma {:induction false} LengthTells(p: seq<Octet>, q: seq<Octet>, k: nat)
    requires |p| == |q| >= HEADER && (k == LEN_AT || k == LEN_AT + 1) && p[k] != q[k]
    requires forall i :: 0 <= i < |p| && i != k ==> q[i] == p[i]
    ensures LengthField(p) != LengthField(q)
  {
    OctetNumber(p[k], q[k]);
    var low, high, low', high' := p[LEN_AT] as nat, p[LEN_AT + 1] as nat, q[LEN_AT] as nat, q[LEN_AT + 1] as nat;
    assert low + 256 * high != low' + 256 * high';
  }

  // Any packet that differs from a valid one of the same length in exactly one byte is refused.
  lemma {:induction false} OneByteErrorRejected(p: seq<Octet>, q: seq<Octet>, k: nat)
    requires Valid(p) && |q| == |p| && k < |p| && q[k] != p[k]
    requires forall i :: 0 <= i < |p| && i != k ==> q[i] == p[i]
    ensures !Valid(q)
  {
    hide Update, CrcField, LengthField;
    if k == CRC_AT || k == CRC_AT + 1 {
      assert Covered(p) == Covered(q);
      if CrcField(p) == CrcField(q) {
        CrcFieldTells(p, q);
      }
    } else if k == LEN_AT || k == LEN_AT + 1 {
      LengthTells(p, q, k);
    } else {
      OneByteTells(0xFFFF, Covered(p), Covered(q), k);
      SameCrcField(p, q);
    }
  }

  lemma {:induction false} SameCrcField(p: seq<Octet>, q: seq<Octet>)
    requires |p| == |q| >= HEADER && p[CRC_AT] == q[CRC_AT] && p[CRC_AT + 1] == q[CRC_AT + 1]
    ensures CrcField(p) == CrcField(q)
  {
  }
}
