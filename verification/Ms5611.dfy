/** The MS5611 barometer (android/src/I2Cbaro.java): calibration coefficients, and the compensation
    of raw readings in 32-bit and 64-bit arithmetic. */
module Ms5611 {
  const TWO31: int := 0x8000_0000
  const TWO63: int := 0x8000_0000_0000_0000

  // Java arithmetic

  /** Two's complement wrap-around to -half .. half - 1. */
  function Wrap(x: int, half: int): int
    requires half > 0
  {
    (x + half) % (2 * half) - half
  }

  function Int(x: int): int {
    Wrap(x, TWO31)
  }

  function Long(x: int): int {
    Wrap(x, TWO63)
  }

  /** `/` truncates toward zero. */
  function Quotient(a: int, b: int): int
    requires b > 0
  {
    if a >= 0 then a / b else -((-a) / b)
  }

  /** `>>` on a long rounds down. */
  function Shift23(a: int): int {
    a / 0x80_0000
  }

  lemma WrapFits(x: int, half: int)
    requires half > 0
    ensures -half <= Wrap(x, half) < half
    ensures Wrap(x, half) == x <==> -half <= x < half
  {
    var y, m := x + half, 2 * half;
    var r := y % m;
    assert 0 <= r < m;
    if 0 <= y < m {
      DivisionIsUnique(y, m, 0, y);
    }
  }

  lemma WrapOnce(x: int, half: int)
    requires half > 0 && half <= x < 3 * half
    ensures Wrap(x, half) == x - 2 * half
  {
    var y, m := x + half, 2 * half;
    assert y == 1 * m + (y - m);
    assert 0 <= y - m < m;
    DivisionIsUnique(y, m, 1, y - m);
  }

  lemma DivisionIsUnique(y: int, m: int, q: int, r: int)
    requires m > 0 && y == q * m + r && 0 <= r < m
    ensures y / m == q && y % m == r
  {
    var d := q - y / m;
    assert d * m == y % m - r;
    assert d >= 1 ==> d * m >= m;
    assert d <= -1 ==> d * m <= -m;
  }

  lemma QuotientBounds(a: int, b: int)
    requires b > 0
    ensures -b < a - b * Quotient(a, b) < b
    ensures a >= 0 ==> 0 <= Quotient(a, b) && b * Quotient(a, b) <= a
    ensures a <= 0 ==> Quotient(a, b) <= 0 && b * Quotient(a, b) >= a
  {
  }

  lemma QuotientIsMonotone(a: int, a': int, b: int)
    requires b > 0 && a <= a'
    ensures Quotient(a, b) <= Quotient(a', b)
  {
    QuotientBounds(a, b);
    QuotientBounds(a', b);
    var d := Quotient(a, b) - Quotient(a', b);
    assert b * Quotient(a, b) - b * Quotient(a', b) == b * d;
    assert d >= 1 ==> b * d >= b;
  }

  // Calibration

  /** C1s, C2s and C5s are scaled when the PROM is read. */
  datatype Coefficients = Coefficients(c1s: int, c2s: int, c3: int, c4: int, c5s: int, c6: int) {
    predicate Valid() {
      && 0 <= c1s <= 65535 * 32768 && 0 <= c2s <= 65535 * 65536
      && 0 <= c3 <= 65535 && 0 <= c4 <= 65535 && 0 <= c5s <= 65535 * 256 && 0 <= c6 <= 65535
    }
  }

  predicate IsWord(x: int) {
    0 <= x < 0x1_0000
  }

  predicate IsReading(x: int) {
    0 <= x < 0x100_0000
  }

  function FromProm(prom: seq<int>): Coefficients
    requires |prom| == 8
  {
    Coefficients(Long(prom[1] * 32768), Long(prom[2] * 65536), prom[3], prom[4], Int(prom[5] * 256), prom[6])
  }

  function Zeros(prom: seq<int>): nat {
    if prom == [] then 0 else Zeros(prom[..|prom| - 1]) + (if prom[|prom| - 1] == 0 then 1 else 0)
  }

  lemma PromFits(prom: seq<int>)
    requires |prom| == 8 && forall i :: 0 <= i < 8 ==> IsWord(prom[i])
    ensures FromProm(prom)
            == Coefficients(prom[1] * 32768, prom[2] * 65536, prom[3], prom[4], prom[5] * 256, prom[6])
    ensures FromProm(prom).Valid()
  {
    WrapFits(prom[1] * 32768, TWO63);
    WrapFits(prom[2] * 65536, TWO63);
    WrapFits(prom[5] * 256, TWO31);
    assert IsWord(prom[3]) && IsWord(prom[4]) && IsWord(prom[6]);
  }

  // Compensation, as the program computes it

  function Difference(k: Coefficients, d2: int): int {
    Int(d2 - k.c5s)
  }

  function Temperature(k: Coefficients, dT: int): int {
    Int(Long(2000 + Shift23(Long(dT * k.c6))))
  }

  function Off2(t: int): int {
    if t >= 2000 then 0
    else
      var d := Int(Int(t - 2000) * Int(t - 2000));
      var off2 := Quotient(Int(5 * d), 2);
      if t >= -1500 then off2
      else
        var e := Int(Int(t + 1500) * Int(t + 1500));
        Int(off2 + Int(7 * e))
  }

  function Sens2(t: int): int {
    if t >= 2000 then 0
    else
      var d := Int(Int(t - 2000) * Int(t - 2000));
      var sens2 := Quotient(Int(5 * d), 4);
      if t >= -1500 then sens2
      else
        var e := Int(Int(t + 1500) * Int(t + 1500));
        Int(sens2 + Quotient(Int(11 * e), 2))
  }

  function Offset(k: Coefficients, dT: int, t: int): int {
    Long(Long(k.c2s + Quotient(Long(k.c4 * dT), 128)) - Off2(t))
  }

  function Sensitivity(k: Coefficients, dT: int, t: int): int {
    Long(Long(k.c1s + Quotient(Long(k.c3 * dT), 256)) - Sens2(t))
  }

  function Pressure(k: Coefficients, dT: int, t: int, d1: int): int {
    Int(Quotient(Long(Quotient(Long(d1 * Sensitivity(k, dT, t)), 0x20_0000) - Offset(k, dT, t)), 0x8000))
  }

  predicate IsSource(k: Coefficients, dT: int, temp: int, d2: int) {
    IsReading(d2) && dT == Difference(k, d2) && temp == Temperature(k, dT)
  }

  // The driver

  class Barometer {
    var k: Coefficients
    var dT: int
    var temp: int
    var loopCount: int

    constructor ()
      ensures k == Coefficients(0, 0, 0, 0, 0, 0) && dT == temp == loopCount == 0
    {
      k, dT, temp, loopCount := Coefficients(0, 0, 0, 0, 0, 0), 0, 0, 0;
    }

    /** The coefficients are in range, and the temperature comes from one reading. */
    ghost predicate Valid()
      reads this
    {
      && k.Valid() && -TWO31 <= loopCount < TWO31
      && (loopCount == 0 || exists d2 :: IsSource(k, dT, temp, d2))
    }

    /** setup5611: more than one zero word means that there is no barometer. */
    method Setup(prom: seq<int>) returns (ok: bool)
      requires |prom| == 8 && forall i :: 0 <= i < 8 ==> IsWord(prom[i])
      modifies this`k
      ensures ok <==> Zeros(prom) <= 1
      ensures k == if ok then FromProm(prom) else old(k)
      ensures ok ==> k.Valid()
    {
      var zeros := 0;
      for i := 0 to 8
        invariant zeros == Zeros(prom[..i])
      {
        assert prom[..i + 1][..i] == prom[..i];
        if prom[i] == 0 {
          zeros := zeros + 1;
        }
      }
      assert prom[..8] == prom;
      if zeros > 1 {
        return false;
      }
      PromFits(prom);
      k := FromProm(prom);
      ok := true;
    }

    /** loop5611: `d2` is read every tenth time only. */
    method Loop(d1: int, d2: int) returns (p: int)
      requires Valid() && IsReading(d1) && IsReading(d2)
      modifies this`dT, this`temp, this`loopCount
      ensures Valid()
      ensures loopCount == Int(old(loopCount) + 1)
      ensures dT == if old(loopCount) % 10 == 0 then Difference(k, d2) else old(dT)
      ensures temp == if old(loopCount) % 10 == 0 then Temperature(k, dT) else old(temp)
      ensures p == Pressure(k, dT, temp, d1)
    {
      hide Temperature, Difference, Off2, Sens2, Wrap;
      if loopCount % 10 == 0 {
        dT := Difference(k, d2);
        temp := Temperature(k, dT);
        assert IsSource(k, dT, temp, d2);
      }
      var off := Long(k.c2s + Quotient(Long(k.c4 * dT), 128));
      var sens := Long(k.c1s + Quotient(Long(k.c3 * dT), 256));
      var off2, sens2 := SecondOrder(temp);
      off := Long(off - off2);
      sens := Long(sens - sens2);
      p := Int(Quotient(Long(Quotient(Long(d1 * sens), 0x20_0000) - off), 0x8000));
      WrapFits(loopCount + 1, TWO31);
      loopCount := Int(loopCount + 1);
      assert k.Valid();
      assert -TWO31 <= loopCount < TWO31;
      assert exists d2 :: IsSource(k, dT, temp, d2);
    }
  }

  method SecondOrder(temp: int) returns (off2: int, sens2: int)
    ensures off2 == Off2(temp) && sens2 == Sens2(temp)
  {
    hide Wrap;
    off2, sens2 := 0, 0;
    if temp < 2000 {
      var d2 := Int(temp - 2000);
      d2 := Int(d2 * d2);
      off2 := Quotient(Int(5 * d2), 2);
      sens2 := Quotient(Int(5 * d2), 4);
      if temp < -1500 {
        d2 := Int(temp + 1500);
        d2 := Int(d2 * d2);
        off2 := Int(off2 + Int(7 * d2));
        sens2 := Int(sens2 + Quotient(Int(11 * d2), 2));
      }
    }
  }

  // No 64-bit operation overflows

  lemma ProductBound(a: int, b: int, limitA: int, limitB: int)
    requires 0 <= a <= limitA && -limitB <= b <= limitB
    ensures -(limitA * limitB) <= a * b <= limitA * limitB
  {
    assert a * b <= a * limitB <= limitA * limitB;
    assert a * b >= a * -limitB >= -(limitA * limitB);
  }

  /** For all words in the PROM and all readings, dT and TEMP are what unbounded arithmetic gives. */
  lemma TemperatureFits(k: Coefficients, d2: int)
    requires k.Valid() && IsReading(d2)
    ensures Difference(k, d2) == d2 - k.c5s && -0x100_0000 < Difference(k, d2) < 0x100_0000
    ensures Temperature(k, Difference(k, d2)) == 2000 + (d2 - k.c5s) * k.c6 / 0x80_0000
    ensures -129072 <= Temperature(k, Difference(k, d2)) <= 133072
  {
    hide Wrap;
    var dT := d2 - k.c5s;
    WrapFits(dT, TWO31);
    ProductBound(k.c6, dT, 65535, 0x100_0000);
    assert dT * k.c6 == k.c6 * dT;
    WrapFits(dT * k.c6, TWO63);
    WrapFits(2000 + Shift23(dT * k.c6), TWO63);
    WrapFits(2000 + Shift23(dT * k.c6), TWO31);
  }

  predicate InReach(dT: int, d1: int) {
    -0x100_0000 < dT < 0x100_0000 && IsReading(d1)
  }

  function PlainOffset(k: Coefficients, dT: int, off2: int): int {
    k.c2s + Quotient(k.c4 * dT, 128) - off2
  }

  function PlainSensitivity(k: Coefficients, dT: int, sens2: int): int {
    k.c1s + Quotient(k.c3 * dT, 256) - sens2
  }

  function PlainPressure(sens: int, off: int, d1: int): int {
    Quotient(Quotient(d1 * sens, 0x20_0000) - off, 0x8000)
  }

  lemma SecondOrderFits(t: int)
    ensures -TWO31 <= Off2(t) < TWO31 && -TWO31 <= Sens2(t) < TWO31
  {
    var d := Int(Int(t - 2000) * Int(t - 2000));
    var e := Int(Int(t + 1500) * Int(t + 1500));
    hide Wrap;
    WrapFits(5 * d, TWO31);
    QuotientBounds(Int(5 * d), 2);
    QuotientBounds(Int(5 * d), 4);
    WrapFits(Quotient(Int(5 * d), 2) + Int(7 * e), TWO31);
    WrapFits(Quotient(Int(5 * d), 4) + Quotient(Int(11 * e), 2), TWO31);
  }

  lemma OffsetFits(k: Coefficients, dT: int, t: int)
    requires k.Valid() && -0x100_0000 < dT < 0x100_0000
    ensures Offset(k, dT, t) == PlainOffset(k, dT, Off2(t))
    ensures Sensitivity(k, dT, t) == PlainSensitivity(k, dT, Sens2(t))
    ensures -0x4_0000_0000 <= Offset(k, dT, t) <= 0x4_0000_0000
    ensures -0x2_0000_0000 <= Sensitivity(k, dT, t) <= 0x2_0000_0000
  {
    hide Wrap, Off2, Sens2;
    SecondOrderFits(t);
    ProductBound(k.c4, dT, 65535, 0x100_0000);
    ProductBound(k.c3, dT, 65535, 0x100_0000);
    QuotientBounds(k.c4 * dT, 128);
    QuotientBounds(k.c3 * dT, 256);
    WrapFits(k.c4 * dT, TWO63);
    WrapFits(k.c3 * dT, TWO63);
    WrapFits(k.c2s + Quotient(k.c4 * dT, 128), TWO63);
    WrapFits(k.c1s + Quotient(k.c3 * dT, 256), TWO63);
    WrapFits(PlainOffset(k, dT, Off2(t)), TWO63);
    WrapFits(PlainSensitivity(k, dT, Sens2(t)), TWO63);
  }

  /** OFF, SENS and D1*SENS fit in 64 bits and P in 32, whatever the second-order terms: apart
      from those, the program computes what unbounded integers would give. */
  lemma NoWidthIsExceeded(k: Coefficients, dT: int, t: int, d1: int)
    requires k.Valid() && InReach(dT, d1)
    ensures Pressure(k, dT, t, d1)
            == PlainPressure(PlainSensitivity(k, dT, Sens2(t)), PlainOffset(k, dT, Off2(t)), d1)
    ensures -0x80_0000 <= Pressure(k, dT, t, d1) <= 0x80_0000
  {
    hide Wrap, Off2, Sens2, Offset, Sensitivity, PlainOffset, PlainSensitivity;
    OffsetFits(k, dT, t);
    var sens, off := Sensitivity(k, dT, t), Offset(k, dT, t);
    ProductBound(d1, sens, 0x100_0000, 0x2_0000_0000);
    QuotientBounds(d1 * sens, 0x20_0000);
    WrapFits(d1 * sens, TWO63);
    var n := Quotient(d1 * sens, 0x20_0000) - off;
    WrapFits(n, TWO63);
    QuotientBounds(n, 0x8000);
    WrapFits(Quotient(n, 0x8000), TWO31);
  }

  // The second-order terms

  function Square(x: int): int {
    x * x
  }

  function PlainOff2(t: int): int {
    if t >= 2000 then 0
    else 5 * Square(t - 2000) / 2 + (if t >= -1500 then 0 else 7 * Square(t + 1500))
  }

  function PlainSens2(t: int): int {
    if t >= 2000 then 0
    else 5 * Square(t - 2000) / 4 + (if t >= -1500 then 0 else 11 * Square(t + 1500) / 2)
  }

  lemma SquareIsMonotone(x: int, y: int)
    requires 0 <= x <= y || y <= x <= 0
    ensures 0 <= Square(x) <= Square(y)
  {
    if y <= x <= 0 {
      OppositeSquare(x);
      OppositeSquare(y);
      OrderedSquares(-x, -y);
    } else {
      OrderedSquares(x, y);
    }
  }

  lemma OppositeSquare(x: int)
    ensures Square(-x) == Square(x)
  {
  }

  lemma OrderedSquares(a: nat, b: nat)
    requires a <= b
    ensures 0 <= Square(a) <= Square(b)
  {
    var d := b - a;
    assert b * b == a * a + 2 * (a * d) + d * d;
    NotNegative(a, a);
    NotNegative(a, d);
    NotNegative(d, d);
  }

  lemma NotNegative(a: nat, b: nat)
    ensures 0 <= a * b
  {
  }

  /** What the program computes, for squares that fit in an int. */
  lemma TermsFromSquares(t: int)
    requires -TWO31 + 2000 <= t < 2000
    ensures var d, e := Square(t - 2000), Square(t + 1500);
            d < TWO31 && (t < -1500 ==> e < TWO31) ==>
              && Off2(t) == (if t >= -1500 then Quotient(Int(5 * d), 2) else Int(Quotient(Int(5 * d), 2) + Int(7 * e)))
              && Sens2(t) == (if t >= -1500 then Quotient(Int(5 * d), 4)
                              else Int(Quotient(Int(5 * d), 4) + Quotient(Int(11 * e), 2)))
  {
    hide Wrap;
    var d, e := Square(t - 2000), Square(t + 1500);
    assert d >= 0 && e >= 0;
    WrapFits(t - 2000, TWO31);
    WrapFits(t + 1500, TWO31);
    WrapFits(d, TWO31);
    WrapFits(e, TWO31);
  }

  lemma TermsAreExact(t: int)
    requires -15534 <= t
    ensures Off2(t) == PlainOff2(t)
    ensures t >= -15472 ==> Sens2(t) == PlainSens2(t)
  {
    if t < 2000 {
      hide Wrap, Square, Off2, Sens2;
      var d, e := Square(t - 2000), Square(t + 1500);
      SquareIsMonotone(t - 2000, -17534);
      TermsFromSquares(t);
      WrapFits(5 * d, TWO31);
      if t < -1500 {
        SquareIsMonotone(t + 1500, -14034);
        if t >= -15472 {
          SquareIsMonotone(t + 1500, -13972);
          SquareIsMonotone(t - 2000, -17472);
        }
        SquaresAtLimits();
        WrapFits(7 * e, TWO31);
        WrapFits(11 * e, TWO31);
        WrapFits(5 * d / 2 + 7 * e, TWO31);
        WrapFits(5 * d / 4 + 11 * e / 2, TWO31);
      }
    }
  }

  lemma SquaresAtLimits()
    ensures Square(-17534) == 307441156 && Square(-14034) == 196953156
    ensures Square(-17472) == 305270784 && Square(-13972) == 195216784
    ensures Square(-17535) == 307476225 && Square(-14035) == 196981225
    ensures Square(-17473) == 305305729 && Square(-13973) == 195244729
    ensures Square(-20725) == 429525625 && Square(-17225) == 296700625
    ensures Square(-20724) == 429484176 && Square(-17224) == 296666176
  {
  }

  lemma OffsetTermOverflows(t: int)
    requires t < -15534
    ensures PlainOff2(t) >= TWO31 && Off2(t) != PlainOff2(t)
  {
    hide Square, Off2;
    SquareIsMonotone(-17535, t - 2000);
    SquareIsMonotone(-14035, t + 1500);
    SquaresAtLimits();
    SecondOrderFits(t);
  }

  lemma SensitivityTermOverflows(t: int)
    requires t < -15472
    ensures Sens2(t) != PlainSens2(t)
  {
    hide Square, Sens2, Off2, Wrap;
    var d, e := Square(t - 2000), Square(t + 1500);
    SquaresAtLimits();
    if t < -18724 {
      SquareIsMonotone(-20725, t - 2000);
      SquareIsMonotone(-17225, t + 1500);
      SecondOrderFits(t);
    } else {
      SquareIsMonotone(-17473, t - 2000);
      SquareIsMonotone(-13973, t + 1500);
      SquareIsMonotone(t - 2000, -20724);
      SquareIsMonotone(t + 1500, -17224);
      TermsFromSquares(t);
      WrapFits(5 * d, TWO31);
      WrapOnce(11 * e, TWO31);
      WrapFits(Quotient(5 * d, 4) + Quotient(11 * e - 2 * TWO31, 2), TWO31);
    }
  }

  /** The second-order terms are computed without overflow exactly down to these temperatures
      (in hundredths of a degree); below, an int overflow makes them wrong. */
  lemma SecondOrderIsExactIff(t: int)
    ensures Off2(t) == PlainOff2(t) <==> t >= -15534
    ensures Sens2(t) == PlainSens2(t) <==> t >= -15472
  {
    hide *;
    if t >= -15534 {
      TermsAreExact(t);
    } else {
      OffsetTermOverflows(t);
    }
    if t < -15472 {
      SensitivityTermOverflows(t);
    }
  }

  /** Such temperatures come from readings that can occur: with the calibration in the example of
      the data sheet, a temperature reading of zero makes both terms wrong. */
  lemma ZeroReadingOverflows()
    ensures var k := FromProm([0, 40127, 36924, 23317, 23282, 33464, 28312, 1]);
            var t := Temperature(k, Difference(k, 0));
            && k.Valid() && IsReading(0) && t == -26914
            && Off2(t) != PlainOff2(t) && Sens2(t) != PlainSens2(t)
  {
    var prom := [0, 40127, 36924, 23317, 23282, 33464, 28312, 1];
    PromFits(prom);
    var k := FromProm(prom);
    TemperatureFits(k, 0);
    hide FromProm, Temperature, Difference, Off2, Sens2, PlainOff2, PlainSens2;
    assert k == Coefficients(40127 * 32768, 36924 * 65536, 23317, 23282, 33464 * 256, 28312);
    SecondOrderIsExactIff(-26914);
  }

  /** The example of the data sheet: 20.07 degrees and 1000.09 mbar. */
  lemma DataSheetExample()
    ensures var k := FromProm([0, 40127, 36924, 23317, 23282, 33464, 28312, 1]);
            var dT := Difference(k, 8569150);
            dT == 2366 && Temperature(k, dT) == 2007 && Pressure(k, dT, 2007, 9085466) == 100009
  {
    var prom := [0, 40127, 36924, 23317, 23282, 33464, 28312, 1];
    PromFits(prom);
    var k := FromProm(prom);
    TemperatureFits(k, 8569150);
    hide FromProm;
    assert k == Coefficients(40127 * 32768, 36924 * 65536, 23317, 23282, 33464 * 256, 28312);
    NoWidthIsExceeded(k, 2366, 2007, 9085466);
    NothingSecondOrder();
    hide Off2, Sens2, Temperature, Difference, Pressure;
    ExampleArithmetic();
  }

  lemma NothingSecondOrder()
    ensures Off2(2007) == 0 && Sens2(2007) == 0
  {
  }

  lemma ExampleArithmetic()
    ensures Quotient(23282 * 2366, 128) == 430353 && Quotient(23317 * 2366, 256) == 215500
    ensures PlainPressure(1315097036, 2420281617, 9085466) == 100009
  {
  }

  // Accuracy

  /** Four times, and twice, the second-order terms of the data sheet without any rounding. */
  function Sens2Times4(t: int): int {
    if t >= 2000 then 0 else 5 * Square(t - 2000) + (if t >= -1500 then 0 else 22 * Square(t + 1500))
  }

  function Off2Times2(t: int): int {
    if t >= 2000 then 0 else 5 * Square(t - 2000) + (if t >= -1500 then 0 else 14 * Square(t + 1500))
  }

  /** The compensated pressure by the formulas of the data sheet, without any rounding. */
  ghost function ExactPressure(k: Coefficients, dT: int, t: int, d1: int): real {
    var sens := k.c1s as real + (k.c3 * dT) as real / 256.0 - Sens2Times4(t) as real / 4.0;
    var off := k.c2s as real + (k.c4 * dT) as real / 128.0 - Off2Times2(t) as real / 2.0;
    (d1 as real * sens / 2097152.0 - off) / 32768.0
  }

  /** 2^44 times the exact pressure. */
  function Scaled(k: Coefficients, dT: int, t: int, d1: int): int {
    d1 * (256 * k.c1s + k.c3 * dT - 64 * Sens2Times4(t)) - 0x40_0000 * (128 * k.c2s + k.c4 * dT - 64 * Off2Times2(t))
  }

  lemma ProductOfReals(a: int, b: int)
    ensures (a * b) as real == a as real * b as real
  {
  }

  lemma ScaledIsExact(k: Coefficients, dT: int, t: int, d1: int)
    ensures Scaled(k, dT, t, d1) as real == ExactPressure(k, dT, t, d1) * 17592186044416.0
  {
    hide Sens2Times4, Off2Times2;
    var sens := 256 * k.c1s + k.c3 * dT - 64 * Sens2Times4(t);
    var off := 128 * k.c2s + k.c4 * dT - 64 * Off2Times2(t);
    ProductOfReals(d1, sens);
    var s := k.c1s as real + (k.c3 * dT) as real / 256.0 - Sens2Times4(t) as real / 4.0;
    assert sens as real == 256.0 * s;
    assert d1 as real * (256.0 * s) == 256.0 * (d1 as real * s);
  }

  /** How far truncation moves the offset and the sensitivity. */
  lemma TermErrors(k: Coefficients, dT: int, t: int)
    requires t >= -15472
    ensures -576 < 256 * PlainSensitivity(k, dT, Sens2(t)) - (256 * k.c1s + k.c3 * dT - 64 * Sens2Times4(t)) < 576
    ensures -192 < 128 * PlainOffset(k, dT, Off2(t)) - (128 * k.c2s + k.c4 * dT - 64 * Off2Times2(t)) < 192
  {
    hide Square, Sens2, Off2, Quotient;
    SecondOrderIsExactIff(t);
    QuotientBounds(k.c3 * dT, 256);
    QuotientBounds(k.c4 * dT, 128);
  }

  lemma ScaledError(k: Coefficients, dT: int, t: int, d1: int)
    requires k.Valid() && InReach(dT, d1) && t >= -15472
    ensures -0x1002_A000_0000 < 0x1000_0000_0000 * Pressure(k, dT, t, d1) - Scaled(k, dT, t, d1) < 0x1002_A000_0000
  {
    hide Sens2, Off2, Pressure, PlainSensitivity, PlainOffset, Quotient, Sens2Times4, Off2Times2;
    NoWidthIsExceeded(k, dT, t, d1);
    TermErrors(k, dT, t);
    var sens, off := PlainSensitivity(k, dT, Sens2(t)), PlainOffset(k, dT, Off2(t));
    var exactSens := 256 * k.c1s + k.c3 * dT - 64 * Sens2Times4(t);
    var error := 256 * sens - exactSens;
    QuotientBounds(d1 * sens, 0x20_0000);
    QuotientBounds(Quotient(d1 * sens, 0x20_0000) - off, 0x8000);
    ProductBound(d1, error, 0x100_0000, 576);
    assert d1 * error == 256 * (d1 * sens) - d1 * exactSens;
  }

  /** Where no second-order term overflows, the pressure is within 1.002 Pa of the exact value. */
  lemma PressureIsAccurate(k: Coefficients, dT: int, t: int, d1: int)
    requires k.Valid() && InReach(dT, d1) && t >= -15472
    ensures -1.002 < Pressure(k, dT, t, d1) as real - ExactPressure(k, dT, t, d1) < 1.002
  {
    hide Pressure, ExactPressure, Scaled;
    ScaledError(k, dT, t, d1);
    ScaledIsExact(k, dT, t, d1);
    var p, e := Pressure(k, dT, t, d1), Scaled(k, dT, t, d1);
    assert (0x1000_0000_0000 * p - e) as real == 17592186044416.0 * (p as real - ExactPressure(k, dT, t, d1));
  }

  /** The reported pressure does not fall when the raw reading rises, if the sensitivity is not
      negative; and does not rise if it is not positive. */
  lemma PressureIsMonotone(k: Coefficients, dT: int, t: int, d1: int, d1': int)
    requires k.Valid() && InReach(dT, d1) && InReach(dT, d1') && d1 <= d1'
    ensures Sensitivity(k, dT, t) >= 0 ==> Pressure(k, dT, t, d1) <= Pressure(k, dT, t, d1')
    ensures Sensitivity(k, dT, t) <= 0 ==> Pressure(k, dT, t, d1) >= Pressure(k, dT, t, d1')
  {
    hide Sens2, Off2, Pressure, Sensitivity, PlainSensitivity, PlainOffset, Quotient;
    NoWidthIsExceeded(k, dT, t, d1);
    NoWidthIsExceeded(k, dT, t, d1');
    OffsetFits(k, dT, t);
    var sens, off := PlainSensitivity(k, dT, Sens2(t)), PlainOffset(k, dT, Off2(t));
    if sens >= 0 {
      assert d1 * sens <= d1' * sens;
      PlainIsMonotone(d1 * sens, d1' * sens, off);
    }
    if sens <= 0 {
      assert d1' * sens <= d1 * sens;
      PlainIsMonotone(d1' * sens, d1 * sens, off);
    }
  }

  lemma PlainIsMonotone(a: int, a': int, off: int)
    requires a <= a'
    ensures Quotient(Quotient(a, 0x20_0000) - off, 0x8000) <= Quotient(Quotient(a', 0x20_0000) - off, 0x8000)
  {
    hide Quotient;
    QuotientIsMonotone(a, a', 0x20_0000);
    QuotientIsMonotone(Quotient(a, 0x20_0000) - off, Quotient(a', 0x20_0000) - off, 0x8000);
  }
}
