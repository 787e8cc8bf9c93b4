/** The GDL90 checksum (tools/gdl90_send.py): a table-driven loop over bytes, proved to compute
    the remainder of the message polynomial.  `bv16` shifts drop the bits above 15, which is
    what the source's "& 0xFFFF" does. */
module Gdl90Crc {
  import opened Common
  import opened Gf2

  // Words and their bits, highest first

  function Xor(r: bv16, s: bv16): bv16 {
    r ^ s
  }

  function HighByte(r: bv16): bv16 {
    r >> 8
  }

  function LowByte(r: bv16): bv16 {
    r & 0xFF
  }

  function Left8(r: bv16): bv16 {
    r << 8
  }

  predicate Test(r: bv16, mask: bv16) {
    r & mask != 0
  }

  predicate Top(r: bv16) {
    r & 0x8000 != 0
  }

  function Left(r: bv16): bv16 {
    r << 1
  }

  function BitAt(r: bv16, i: nat): bool
    decreases i
  {
    if i == 0 then Top(r) else BitAt(Left(r), i - 1)
  }

  function ToBits(r: bv16): (b: Bits)
    ensures |b| == DEGREE
  {
    seq(DEGREE, i requires 0 <= i < DEGREE => BitAt(r, i))
  }

  lemma TopOfXor(r: bv16, s: bv16)
    ensures Top(Xor(r, s)) <==> (Top(r) != Top(s))
  {
    assert (r ^ s) & 0x8000 == (r & 0x8000) ^ (s & 0x8000);
    assert r & 0x8000 == 0 || r & 0x8000 == 0x8000;
    assert s & 0x8000 == 0 || s & 0x8000 == 0x8000;
  }

  lemma LeftOfXor(r: bv16, s: bv16)
    ensures Left(Xor(r, s)) == Xor(Left(r), Left(s))
  {
  }

  lemma {:induction false} BitOfXor(r: bv16, s: bv16, i: nat)
    ensures BitAt(Xor(r, s), i) == (BitAt(r, i) != BitAt(s, i))
    decreases i
  {
    hide Top, Left, Xor;
    if i == 0 {
      TopOfXor(r, s);
    } else {
      LeftOfXor(r, s);
      BitOfXor(Left(r), Left(s), i - 1);
    }
  }

  function Mask(i: nat): bv16
    requires i < DEGREE
  {
    if i == 0 then 0x8000 else if i == 1 then 0x4000 else if i == 2 then 0x2000 else if i == 3 then 0x1000
    else if i == 4 then 0x800 else if i == 5 then 0x400 else if i == 6 then 0x200 else if i == 7 then 0x100
    else if i == 8 then 0x80 else if i == 9 then 0x40 else if i == 10 then 0x20 else if i == 11 then 0x10
    else if i == 12 then 8 else if i == 13 then 4 else if i == 14 then 2 else 1
  }

  lemma MaskStep(i: nat)
    requires 0 < i < DEGREE
    ensures Mask(i) == Mask(i - 1) >> 1
  {
  }

  lemma MaskShift(r: bv16, m: bv16)
    ensures Test(Left(r), m) <==> Test(r, m >> 1)
  {
    var x := r & (m >> 1);
    ShiftedMask(r, m);
    DoubleIsZero(x);
  }

  lemma ShiftedMask(r: bv16, m: bv16)
    ensures (r << 1) & m == (r & (m >> 1)) << 1
    ensures (r & (m >> 1)) & 0x8000 == 0
  {
  }

  lemma DoubleIsZero(x: bv16)
    requires x & 0x8000 == 0
    ensures x << 1 == 0 <==> x == 0
  {
  }

  /** Bit `i` as a mask test. */
  lemma {:induction false} BitByMask(r: bv16, i: nat)
    requires i < DEGREE
    ensures BitAt(r, i) == Test(r, Mask(i))
    decreases i
  {
    if i > 0 {
      hide Left, Mask, Test;
      BitByMask(Left(r), i - 1);
      MaskShift(r, Mask(i - 1));
      MaskStep(i);
    }
  }

  lemma ZeroMasks(r: bv16)
    requires !Test(r, 0x8000) && !Test(r, 0x4000) && !Test(r, 0x2000) && !Test(r, 0x1000)
    requires !Test(r, 0x800) && !Test(r, 0x400) && !Test(r, 0x200) && !Test(r, 0x100)
    requires !Test(r, 0x80) && !Test(r, 0x40) && !Test(r, 0x20) && !Test(r, 0x10)
    requires !Test(r, 8) && !Test(r, 4) && !Test(r, 2) && !Test(r, 1)
    ensures r == 0
  {
  }

  lemma AllBitsClear(r: bv16)
    requires forall i :: 0 <= i < DEGREE ==> !Test(r, Mask(i))
    ensures r == 0
  {
    hide Test;
    assert !Test(r, Mask(0)) && !Test(r, Mask(1)) && !Test(r, Mask(2)) && !Test(r, Mask(3));
    assert !Test(r, Mask(4)) && !Test(r, Mask(5)) && !Test(r, Mask(6)) && !Test(r, Mask(7));
    assert !Test(r, Mask(8)) && !Test(r, Mask(9)) && !Test(r, Mask(10)) && !Test(r, Mask(11));
    assert !Test(r, Mask(12)) && !Test(r, Mask(13)) && !Test(r, Mask(14)) && !Test(r, Mask(15));
    ZeroMasks(r);
  }

  lemma XorCancels(r: bv16, s: bv16)
    ensures Xor(Xor(r, s), s) == r
  {
  }

  lemma XorOfEqual(s: bv16)
    ensures Xor(0, s) == s && Xor(s, s) == 0
  {
  }

  lemma XorIsZero(r: bv16, s: bv16)
    ensures Xor(r, s) == 0 <==> r == s
  {
    hide Xor;
    XorCancels(r, s);
    XorOfEqual(s);
  }

  /** A word is determined by its bits. */
  lemma EqualBits(r: bv16, s: bv16)
    requires forall i :: 0 <= i < DEGREE ==> BitAt(r, i) == BitAt(s, i)
    ensures r == s
  {
    hide BitAt, Test, Mask, Xor;
    var x := Xor(r, s);
    forall i | 0 <= i < DEGREE
      ensures !Test(x, Mask(i))
    {
      BitOfXor(r, s, i);
      BitByMask(x, i);
    }
    AllBitsClear(x);
    XorIsZero(r, s);
  }

  lemma {:induction false} BitOfZero(i: nat)
    ensures !BitAt(0, i)
    decreases i
  {
    if i > 0 {
      assert Left(0) == 0;
      BitOfZero(i - 1);
    }
  }

  /** The bits of 1 and of the generator without its leading power. */
  lemma ConstantBits(i: nat)
    requires i < DEGREE
    ensures BitAt(1, i) == (i == 15)
    ensures BitAt(0x1021, i) == Generator()[i + 1]
  {
    BitByMask(1, i);
    BitByMask(0x1021, i);
  }

  lemma ShiftedOut(r: bv16)
    ensures !BitAt(r, 16)
  {
    assert !Test(Left(r), 1);
    hide Test, Left;
    BitByMask(Left(r), 15);
  }

  // Dividing bit by bit

  function Bit(x: bool): bv16 {
    if x then 1 else 0
  }

  function Append(r: bv16, bit: bool): bv16 {
    (r << 1) | Bit(bit)
  }

  /** Append one message bit to a remainder and reduce. */
  function Step(r: bv16, bit: bool): bv16 {
    if Top(r) then Xor(Append(r, bit), 0x1021) else Append(r, bit)
  }

  function StepAll(r: bv16, m: Bits): bv16 {
    if m == [] then r else Step(StepAll(r, m[..|m| - 1]), m[|m| - 1])
  }

  function BitCrc(m: Bits): bv16 {
    StepAll(0, m)
  }

  lemma OrIsXor(r: bv16)
    ensures (r << 1) | 1 == (r << 1) ^ 1
    ensures (r << 1) | 0 == (r << 1) ^ 0
  {
  }

  lemma AppendIsXor(r: bv16, bit: bool)
    ensures Append(r, bit) == Xor(Left(r), Bit(bit))
  {
    OrIsXor(r);
  }

  lemma StepBits(r: bv16, bit: bool, i: nat)
    requires i < DEGREE
    ensures BitAt(Step(r, bit), i) == ((if i == 15 then bit else BitAt(r, i + 1)) != (Top(r) && Generator()[i + 1]))
  {
    hide Xor, Append, Left, Top, Generator;
    AppendIsXor(r, bit);
    ConstantBits(i);
    BitOfZero(i);
    ShiftedOut(r);
    BitOfXor(Left(r), Bit(bit), i);
    BitOfXor(Append(r, bit), 0x1021, i);
    assert BitAt(r, i + 1) == BitAt(Left(r), i);
  }

  function Quotient(m: Bits): (q: Bits)
    ensures |q| == |m|
  {
    if m == [] then []
    else
      var k := |m| - 1;
      Quotient(m[..k]) + [Top(BitCrc(m[..k]))]
  }

  function Multiple(top: bool): (g: Bits)
    ensures |g| == DEGREE + 1
  {
    if top then Generator() else Zeros(DEGREE + 1)
  }

  /** One step is one line of the long division. */
  lemma StepDivides(r: bv16, bit: bool)
    ensures ToBits(r) + [bit] == Add(Multiple(Top(r)), [false] + ToBits(Step(r, bit)))
  {
    hide Step, Left, Top, BitAt, Generator, Multiple;
    var s, g := Step(r, bit), Multiple(Top(r));
    forall i: nat | 0 <= i < DEGREE + 1
      ensures (ToBits(r) + [bit])[i] == (g[i] != ([false] + ToBits(s))[i])
    {
      MultipleBits(Top(r), i);
      if i == 0 {
        TopIsBitZero(r);
      } else {
        StepBits(r, bit, i - 1);
      }
    }
  }

  lemma MultipleBits(top: bool, i: nat)
    requires i <= DEGREE
    ensures Multiple(top)[i] == (top && Generator()[i]) && Generator()[0]
  {
  }

  /** The checksum is the remainder of the message: a true polynomial division. */
  lemma {:induction false} CrcIsRemainder(m: Bits)
    ensures Divides(m, Quotient(m), ToBits(BitCrc(m)))
  {
    hide ToBits, Step, Top;
    if m == [] {
      ZeroToBits();
      assert Zeros(DEGREE) + m == Add(Times([]), Zeros(0) + ToBits(0));
    } else {
      var k := |m| - 1;
      CrcIsRemainder(m[..k]);
      DivisionStep(m[..k], m[k], Quotient(m[..k]), BitCrc(m[..k]));
      assert m[..k] + [m[k]] == m;
    }
  }

  lemma ZeroToBits()
    ensures ToBits(0) == Zeros(DEGREE)
  {
    hide BitAt;
    forall i | 0 <= i < DEGREE
      ensures !ToBits(0)[i]
    {
      BitOfZero(i);
    }
  }

  lemma DivisionStep(m: Bits, bit: bool, q: Bits, r: bv16)
    requires |q| == |m| && Divides(m, q, ToBits(r))
    ensures Divides(m + [bit], q + [Top(r)], ToBits(Step(r, bit)))
  {
    hide ToBits, Step, Top;
    var g, k := Multiple(Top(r)), |m|;
    var q', s := q + [Top(r)], [false] + ToBits(Step(r, bit));
    StepDivides(r, bit);
    assert q'[..k] == q;
    assert Times(q') == Add(Times(q) + [false], Zeros(k) + g);
    assert Zeros(k + 1) + ToBits(Step(r, bit)) == Zeros(k) + s;
    LongDivisionLine(Zeros(DEGREE) + m, bit, Times(q), ToBits(r), g, s, k);
    assert Zeros(DEGREE) + (m + [bit]) == (Zeros(DEGREE) + m) + [bit];
  }

  lemma LongDivisionLine(m: Bits, bit: bool, p: Bits, r: Bits, g: Bits, s: Bits, k: nat)
    requires |m| == |p| == k + DEGREE && |r| == DEGREE && |g| == |s| == DEGREE + 1
    requires m == Add(p, Zeros(k) + r) && r + [bit] == Add(g, s)
    ensures m + [bit] == Add(Add(p + [false], Zeros(k) + g), Zeros(k) + s)
  {
    forall i | 0 <= i < k + DEGREE + 1
      ensures (m + [bit])[i] == Add(Add(p + [false], Zeros(k) + g), Zeros(k) + s)[i]
    {
      if i >= k {
        assert (r + [bit])[i - k] == (g[i - k] != s[i - k]);
      }
    }
  }

  /** No other 16-bit value is a remainder of the message. */
  lemma CrcIsTheOnlyRemainder(m: Bits, q: Bits, r: bv16)
    requires |q| == |m| && Divides(m, q, ToBits(r))
    ensures r == BitCrc(m)
  {
    hide BitCrc, BitAt;
    CrcIsRemainder(m);
    RemainderIsUnique(m, q, ToBits(r), Quotient(m), ToBits(BitCrc(m)));
    forall i: nat | 0 <= i < DEGREE
      ensures BitAt(r, i) == BitAt(BitCrc(m), i)
    {
      assert ToBits(r)[i] == ToBits(BitCrc(m))[i];
    }
    EqualBits(r, BitCrc(m));
  }

  // What the checksum detects

  lemma StepIsLinear(r: bv16, s: bv16, x: bool, y: bool)
    ensures Step(Xor(r, s), x != y) == Xor(Step(r, x), Step(s, y))
  {
    hide Step, Top, BitAt, Xor, Generator;
    TopOfXor(r, s);
    var a, b := Step(r, x), Step(s, y);
    forall i: nat | 0 <= i < DEGREE
      ensures BitAt(Step(Xor(r, s), x != y), i) == BitAt(Xor(a, b), i)
    {
      BitOfXor(a, b, i);
      StepBits(Xor(r, s), x != y, i);
      StepBits(r, x, i);
      StepBits(s, y, i);
      BitOfXor(r, s, i + 1);
    }
    EqualBits(Step(Xor(r, s), x != y), Xor(a, b));
  }

  lemma LastStep(r: bv16, m: Bits)
    requires m != []
    ensures StepAll(r, m) == Step(StepAll(r, m[..|m| - 1]), m[|m| - 1])
  {
    hide Step;
  }

  lemma AddPrefix(m: Bits, n: Bits, k: nat)
    requires |m| == |n| && k <= |m|
    ensures Add(m, n)[..k] == Add(m[..k], n[..k])
  {
  }

  lemma {:induction false} StepAllIsLinear(r: bv16, s: bv16, m: Bits, n: Bits)
    requires |m| == |n|
    ensures StepAll(Xor(r, s), Add(m, n)) == Xor(StepAll(r, m), StepAll(s, n))
    decreases |m|
  {
    if m != [] {
      var k := |m| - 1;
      hide *;
      StepAllIsLinear(r, s, m[..k], n[..k]);
      AddPrefix(m, n, k);
      LastStep(r, m);
      LastStep(s, n);
      LastStep(Xor(r, s), Add(m, n));
      StepIsLinear(StepAll(r, m[..k]), StepAll(s, n[..k]), m[k], n[k]);
    }
  }

  lemma CrcIsLinear(m: Bits, n: Bits)
    requires |m| == |n|
    ensures BitCrc(Add(m, n)) == Xor(BitCrc(m), BitCrc(n))
  {
    assert Xor(0, 0) == 0;
    hide StepAll, Xor;
    StepAllIsLinear(0, 0, m, n);
  }

  lemma ZeroStepIsInjective(r: bv16)
    ensures Step(r, false) == 0 <==> r == 0
  {
    if Top(r) {
      assert (((r << 1) | 0) ^ 0x1021) & 1 == 1;
    } else {
      assert (r << 1) | 0 == 0 && r & 0x8000 == 0 <==> r == 0;
    }
  }

  /** Zero bits before or after an error pattern do not hide it. */
  lemma {:induction false} TrailingZeros(m: Bits, n: nat)
    requires n <= |m| && forall i :: n <= i < |m| ==> !m[i]
    ensures BitCrc(m) == 0 <==> BitCrc(m[..n]) == 0
  {
    if n == |m| {
      assert m[..n] == m;
    } else {
      hide Step;
      var k := |m| - 1;
      TrailingZeros(m[..k], n);
      assert m[..k][..n] == m[..n];
      ZeroStepIsInjective(BitCrc(m[..k]));
    }
  }

  lemma {:induction false} LeadingZeros(z: nat, m: Bits)
    ensures BitCrc(Zeros(z) + m) == BitCrc(m)
    decreases z + |m|
  {
    hide Step;
    ZeroStepIsInjective(0);
    var s := Zeros(z) + m;
    if m != [] {
      LeadingZeros(z, m[..|m| - 1]);
      assert s[..|s| - 1] == Zeros(z) + m[..|m| - 1];
    } else if z > 0 {
      LeadingZeros(z - 1, []);
      assert s[..z - 1] == Zeros(z - 1) + [];
    }
  }

  /** A nonzero pattern of at most 16 bits is not a multiple of the generator. */
  lemma ShortPatternIsNotAMultiple(w: Bits)
    requires |w| <= DEGREE && BitCrc(w) == 0
    ensures w == Zeros(|w|)
  {
    hide BitCrc, ToBits;
    CrcIsRemainder(w);
    ZeroToBits();
    var q := Quotient(w);
    var p := Add(Times(q), Zeros(|w|) + Zeros(DEGREE));
    assert p == Times(q);
    assert Zeros(DEGREE) + w == p;
    LowMultipleIsZero(q, |w|);
    ZeroTimes(q);
    forall i | 0 <= i < |w|
      ensures !w[i]
    {
      assert w[i] == (Zeros(DEGREE) + w)[DEGREE + i];
    }
  }

  /** Two messages of the same length that differ, but only within 16 consecutive bits, have
      different checksums, however long they are. */
  lemma BurstIsDetected(m: Bits, n: Bits, start: nat)
    requires |m| == |n| && m != n
    requires forall i :: 0 <= i < |m| && !(start <= i < start + DEGREE) ==> m[i] == n[i]
    ensures BitCrc(m) != BitCrc(n)
  {
    hide BitCrc;
    var e := Add(m, n);
    if BitCrc(m) == BitCrc(n) {
      CrcIsLinear(m, n);
      XorIsZero(BitCrc(m), BitCrc(n));
      var a := if start <= |m| then start else |m|;
      var b := if start + DEGREE <= |m| then start + DEGREE else |m|;
      TrailingZeros(e, b);
      assert e[..b] == Zeros(a) + e[a..b];
      LeadingZeros(a, e[a..b]);
      ShortPatternIsNotAMultiple(e[a..b]);
      forall i | 0 <= i < |m|
        ensures m[i] == n[i]
      {
        assert a <= i < b ==> e[a..b][i - a] == e[i];
      }
    }
  }

  lemma {:induction false} CrcParity(m: Bits)
    ensures Parity(ToBits(BitCrc(m))) == Parity(m)
  {
    hide Step, Top, ToBits;
    ZeroToBits();
    if m == [] {
      ParityOfZeroPadding([], DEGREE);
      assert Zeros(DEGREE) + [] == Zeros(DEGREE);
    } else {
      var k := |m| - 1;
      CrcParity(m[..k]);
      StepParity(BitCrc(m[..k]), m[k]);
    }
  }

  lemma StepParity(r: bv16, bit: bool)
    ensures Parity(ToBits(Step(r, bit))) == (Parity(ToBits(r)) != bit)
  {
    hide Step, Top, ToBits;
    StepDivides(r, bit);
    var s := ToBits(Step(r, bit));
    ParityOfGenerator();
    ParityOfZeroPadding([], DEGREE + 1);
    assert Zeros(DEGREE + 1) + [] == Zeros(DEGREE + 1);
    ParityIsLinear(Multiple(Top(r)), [false] + s);
    ParityOfZeroPadding(s, 1);
    assert Zeros(1) + s == [false] + s;
    assert (ToBits(r) + [bit])[..DEGREE] == ToBits(r);
  }

  /** Messages that differ in an odd number of bits have different checksums. */
  lemma OddErrorIsDetected(m: Bits, n: Bits)
    requires |m| == |n| && Parity(Add(m, n))
    ensures BitCrc(m) != BitCrc(n)
  {
    hide BitCrc;
    ParityIsLinear(m, n);
    CrcParity(m);
    CrcParity(n);
  }

  // The table-driven form

  function ByteBits(b: byte): (m: Bits)
    ensures |m| == 8
  {
    ToBits(b as bv16)[8..]
  }

  /** The message polynomial: all bytes, highest bit first. */
  function MessageBits(data: seq<byte>): (m: Bits)
    ensures |m| == 8 * |data|
  {
    if data == [] then [] else MessageBits(data[..|data| - 1]) + ByteBits(data[|data| - 1])
  }

  /** What the byte-wise checksum is meant to be. */
  function Crc(data: seq<byte>): bv16 {
    BitCrc(MessageBits(data))
  }

  function TableEntry(i: bv16): bv16 {
    StepAll(Left8(i), Zeros(8))
  }

  lemma {:induction false} StepAllOfConcat(r: bv16, m: Bits, n: Bits)
    ensures StepAll(r, m + n) == StepAll(StepAll(r, m), n)
    decreases |n|
  {
    hide Step;
    if n == [] {
      assert m + n == m;
    } else {
      StepAllOfConcat(r, m, n[..|n| - 1]);
      assert (m + n)[..|m + n| - 1] == m + n[..|n| - 1];
    }
  }

  /** As long as no set bit reaches the top, steps only shift. */
  lemma {:induction false} StepsShiftIn(r: bv16, m: Bits)
    requires |m| <= DEGREE && forall i :: 0 <= i < |m| ==> !BitAt(r, i)
    ensures ToBits(StepAll(r, m)) == ToBits(r)[|m|..] + m
    decreases |m|
  {
    hide Step, BitAt;
    if m != [] {
      var k := |m| - 1;
      StepsShiftIn(r, m[..k]);
      var s := StepAll(r, m[..k]);
      assert ToBits(s)[0] == ToBits(r)[k] == BitAt(r, k);
      assert BitAt(s, 0) == Top(s) by {
        TopIsBitZero(s);
      }
      forall i | 0 <= i < DEGREE
        ensures ToBits(StepAll(r, m))[i] == (ToBits(r)[|m|..] + m)[i]
      {
        StepBits(s, m[k], i);
        if i < 15 {
          assert ToBits(s)[i + 1] == (ToBits(r)[k..] + m[..k])[i + 1];
        }
      }
    }
  }

  lemma TopIsBitZero(s: bv16)
    ensures BitAt(s, 0) == Top(s)
  {
  }

  lemma MaskOfLowByte(r: bv16, m: bv16)
    ensures Test(LowByte(r), m) <==> Test(r, 0xFF & m)
    ensures Test(Left8(r), m) <==> Test(r, m >> 8)
    ensures !Test(r, 0)
  {
    Shifted8Mask(r, m);
    Times256IsZero(r & (m >> 8));
    LowMask(r, m);
  }

  lemma LowMask(r: bv16, m: bv16)
    ensures (r & 0xFF) & m == r & (0xFF & m)
  {
  }

  lemma Shifted8Mask(r: bv16, m: bv16)
    ensures (r << 8) & m == (r & (m >> 8)) << 8
    ensures (r & (m >> 8)) & 0xFF00 == 0
  {
  }

  lemma Times256IsZero(x: bv16)
    requires x & 0xFF00 == 0
    ensures x << 8 == 0 <==> x == 0
  {
  }

  lemma MaskShift8(i: nat)
    requires i < DEGREE
    ensures if i < 8 then 0xFF & Mask(i) == 0 && Mask(i + 8) == Mask(i) >> 8
            else 0xFF & Mask(i) == Mask(i) && Mask(i) >> 8 == 0
  {
  }

  lemma BitsOfLowByte(r: bv16, i: nat)
    requires i < DEGREE
    ensures BitAt(LowByte(r), i) == (i >= 8 && BitAt(r, i))
    ensures BitAt(Left8(r), i) == (i < 8 && BitAt(r, i + 8))
  {
    hide BitAt, Test, LowByte, Left8, Mask;
    BitByMask(LowByte(r), i);
    BitByMask(Left8(r), i);
    BitByMask(r, i);
    MaskOfLowByte(r, Mask(i));
    MaskShift8(i);
    if i < 8 {
      BitByMask(r, i + 8);
    }
  }

  lemma ByteRange(b: byte)
    ensures b as bv16 == LowByte(b as bv16)
  {
  }

  lemma LowByteShiftsIn(r: bv16, b: byte)
    ensures StepAll(LowByte(r), ByteBits(b)) == Xor(Left8(r), b as bv16)
  {
    hide BitAt, StepAll, Xor, LowByte, Left8;
    var lo, c := LowByte(r), b as bv16;
    ByteRange(b);
    forall i: nat | 0 <= i < DEGREE
      ensures BitAt(lo, i) == (i >= 8 && BitAt(r, i))
      ensures BitAt(c, i) ==> i >= 8
    {
      BitsOfLowByte(r, i);
      BitsOfLowByte(c, i);
    }
    var s := StepAll(lo, ByteBits(b));
    StepsShiftIn(lo, ByteBits(b));
    forall i: nat | 0 <= i < DEGREE
      ensures BitAt(s, i) == BitAt(Xor(Left8(r), c), i)
    {
      BitOfXor(Left8(r), c, i);
      BitsOfLowByte(r, i);
      assert ToBits(s)[i] == if i < 8 then ToBits(lo)[i + 8] else ToBits(c)[i];
    }
    EqualBits(s, Xor(Left8(r), c));
  }

  lemma SplitWord(r: bv16)
    ensures Xor(Left8(HighByte(r)), LowByte(r)) == r
  {
  }

  /** Looking up the high byte replaces eight single-bit steps. */
  lemma TableReplacesEightSteps(r: bv16, b: byte)
    ensures StepAll(r, ByteBits(b)) == Xor(TableEntry(HighByte(r)), Xor(Left8(r), b as bv16))
  {
    hide StepAll, ByteBits, Xor, Left8, HighByte, LowByte;
    var m := ByteBits(b);
    assert Add(Zeros(8), m) == m;
    SplitWord(r);
    StepAllIsLinear(Left8(HighByte(r)), LowByte(r), Zeros(8), m);
    LowByteShiftsIn(r, b);
  }

  predicate IsTable(table: seq<bv16>) {
    |table| == 256 && forall i :: 0 <= i < 256 ==> table[i] == TableEntry(i as bv16)
  }

  /** _crc16_ccitt_table */
  method BuildTable() returns (table: seq<bv16>)
    ensures IsTable(table)
  {
    hide Step;
    table := [];
    for i := 0 to 256
      invariant |table| == i
      invariant forall k :: 0 <= k < i ==> table[k] == TableEntry(k as bv16)
    {
      var crc := (i as bv16) << 8;
      ghost var start := crc;
      for n := 0 to 8
        invariant crc == StepAll(start, Zeros(n))
      {
        assert Zeros(n + 1)[..n] == Zeros(n);
        ShiftIsStep(crc, crc << 1);
        crc := if crc & 0x8000 != 0 then (crc << 1) ^ 0x1021 else crc << 1;
      }
      table := table + [crc];
    }
  }

  /** The branch of the inner loop is a step with a zero bit. */
  lemma ShiftIsStep(r: bv16, shifted: bv16)
    requires shifted == r << 1
    ensures Step(r, false) == if Top(r) then Xor(shifted, 0x1021) else shifted
  {
    OrZero(r);
    assert Append(r, false) == shifted;
    hide Append, Top, Xor;
  }

  lemma OrZero(r: bv16)
    ensures (r << 1) | 0 == r << 1
  {
  }

  /** gdl90_crc16: the table-driven loop computes the polynomial remainder. */
  method Crc16(table: seq<bv16>, data: seq<byte>) returns (crc: bv16)
    requires IsTable(table)
    ensures crc == Crc(data)
  {
    hide ByteBits, StepAll, IsTable;
    EmptyCrc();
    crc := 0;
    for i := 0 to |data|
      invariant crc == Crc(data[..i])
    {
      assert data[..i + 1][..i] == data[..i];
      StepAllOfConcat(0, MessageBits(data[..i]), ByteBits(data[i]));
      Lookup(table, crc, data[i]);
      crc := table[(crc >> 8) as int] ^ (crc << 8) ^ (data[i] as bv16);
    }
    assert data[..|data|] == data;
  }

  lemma Lookup(table: seq<bv16>, r: bv16, b: byte)
    requires IsTable(table)
    ensures |table| == 256 && (r >> 8) as int < 256
    ensures table[(r >> 8) as int] ^ (r << 8) ^ (b as bv16) == StepAll(r, ByteBits(b))
  {
    hide ByteBits, StepAll, TableEntry, Xor, HighByte, Left8;
    TableIndex(r);
    TableReplacesEightSteps(r, b);
    LookupForm(r, table[(r >> 8) as int], b);
  }

  lemma EmptyCrc()
    ensures Crc([]) == 0
  {
  }

  lemma HighByteIsSmall(r: bv16)
    ensures HighByte(r) <= 255
  {
  }

  lemma SmallWord(x: bv16)
    requires x <= 255
    ensures x as int <= 255 && (x as int) as bv16 == x
  {
  }

  lemma TableIndex(r: bv16)
    ensures (r >> 8) as int < 256 && (((r >> 8) as int) as bv16) == HighByte(r)
  {
    HighByteIsSmall(r);
    SmallWord(r >> 8);
  }

  lemma LookupForm(r: bv16, entry: bv16, b: byte)
    ensures entry ^ (r << 8) ^ (b as bv16) == Xor(entry, Xor(Left8(r), b as bv16))
  {
  }

  // The same facts about bytes

  function AddBytes(a: seq<byte>, b: seq<byte>): (c: seq<byte>)
    requires |a| == |b|
  {
    seq(|a|, i requires 0 <= i < |a| => XorByte(a[i], b[i]))
  }

  function XorByte(a: byte, b: byte): byte {
    a ^ b
  }

  lemma XorOfBytes(a: byte, b: byte)
    ensures XorByte(a, b) as bv16 == Xor(a as bv16, b as bv16)
    ensures a as bv16 == b as bv16 ==> a == b
  {
  }

  lemma ByteBitsAreLinear(a: byte, b: byte)
    ensures ByteBits(XorByte(a, b)) == Add(ByteBits(a), ByteBits(b))
  {
    XorOfBytes(a, b);
    hide BitAt, Xor, XorByte;
    var x, y, z := ToBits(a as bv16), ToBits(b as bv16), ToBits(XorByte(a, b) as bv16);
    forall i: nat | 8 <= i < DEGREE
      ensures z[i] == (x[i] != y[i])
    {
      BitOfXor(a as bv16, b as bv16, i);
    }
  }

  lemma ByteBitsAreInjective(a: byte, b: byte)
    requires ByteBits(a) == ByteBits(b)
    ensures a == b
  {
    hide BitAt, Xor, LowByte;
    var x, y := a as bv16, b as bv16;
    ByteRange(a);
    ByteRange(b);
    forall i: nat | 0 <= i < DEGREE
      ensures BitAt(x, i) == BitAt(y, i)
    {
      BitsOfLowByte(x, i);
      BitsOfLowByte(y, i);
      assert i >= 8 ==> ByteBits(a)[i - 8] == ByteBits(b)[i - 8];
    }
    EqualBits(x, y);
    XorOfBytes(a, b);
  }

  lemma {:induction false} MessageBitsAreLinear(a: seq<byte>, b: seq<byte>)
    requires |a| == |b|
    ensures MessageBits(AddBytes(a, b)) == Add(MessageBits(a), MessageBits(b))
  {
    if a != [] {
      hide ByteBits, XorByte, Add;
      var k := |a| - 1;
      MessageBitsAreLinear(a[..k], b[..k]);
      ByteBitsAreLinear(a[k], b[k]);
      assert AddBytes(a, b)[..k] == AddBytes(a[..k], b[..k]);
      AddOfConcat(MessageBits(a[..k]), ByteBits(a[k]), MessageBits(b[..k]), ByteBits(b[k]));
    }
  }

  lemma AddOfConcat(p: Bits, q: Bits, p': Bits, q': Bits)
    requires |p| == |p'| && |q| == |q'|
    ensures Add(p + q, p' + q') == Add(p, p') + Add(q, q')
  {
  }

  lemma {:induction false} MessageBitsAt(a: seq<byte>, k: nat)
    requires k < |a|
    ensures MessageBits(a)[8 * k..8 * k + 8] == ByteBits(a[k])
  {
    hide ByteBits;
    var n := |a| - 1;
    if k < n {
      MessageBitsAt(a[..n], k);
      assert MessageBits(a)[8 * k..8 * k + 8] == MessageBits(a[..n])[8 * k..8 * k + 8];
    }
  }

  /** The checksum is XOR-linear on messages of equal length. */
  lemma CrcOfXor(a: seq<byte>, b: seq<byte>)
    requires |a| == |b|
    ensures Crc(AddBytes(a, b)) == Xor(Crc(a), Crc(b))
  {
    hide BitCrc;
    MessageBitsAreLinear(a, b);
    CrcIsLinear(MessageBits(a), MessageBits(b));
  }

  /** Corrupting one or two adjacent bytes changes the checksum, at any message length. */
  lemma TwoByteCorruptionIsDetected(a: seq<byte>, b: seq<byte>, k: nat)
    requires |a| == |b| && a != b
    requires forall i :: 0 <= i < |a| && i != k && i != k + 1 ==> a[i] == b[i]
    ensures Crc(a) != Crc(b)
  {
    hide BitCrc, ByteBits, MessageBits;
    var m, n := MessageBits(a), MessageBits(b);
    forall i | 0 <= i < |m| && !(8 * k <= i < 8 * k + DEGREE)
      ensures m[i] == n[i]
    {
      var j := i / 8;
      MessageBitsAt(a, j);
      MessageBitsAt(b, j);
      assert m[i] == m[8 * j..8 * j + 8][i - 8 * j] && n[i] == n[8 * j..8 * j + 8][i - 8 * j];
    }
    var d :| 0 <= d < |a| && a[d] != b[d];
    MessageBitsAt(a, d);
    MessageBitsAt(b, d);
    if m == n {
      ByteBitsAreInjective(a[d], b[d]);
    }
    BurstIsDetected(m, n, 8 * k);
  }
}
