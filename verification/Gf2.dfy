/** Polynomials over GF(2), written as bits with the highest power first, and their division by
    x^16 + x^12 + x^5 + 1, the generator of the GDL90 checksum (section 2.2 of the GDL 90 Data
    Interface Specification). */
module Gf2 {
  type Bits = seq<bool>

  const DEGREE := 16

  function Zeros(n: nat): (z: Bits)
    ensures |z| == n && forall i :: 0 <= i < n ==> !z[i]
  {
    seq(n, _ => false)
  }

  /** x^16 + x^12 + x^5 + 1 */
  function Generator(): (g: Bits)
    ensures |g| == DEGREE + 1
  {
    seq(DEGREE + 1, i => i == 0 || i == 4 || i == 11 || i == 16)
  }

  /** Addition, which is also subtraction. */
  function Add(a: Bits, b: Bits): (c: Bits)
    requires |a| == |b|
    ensures |c| == |a| && forall i :: 0 <= i < |a| ==> c[i] == (a[i] != b[i])
  {
    seq(|a|, i requires 0 <= i < |a| => a[i] != b[i])
  }

  /** One row of a multiplication by the generator, below `k` others. */
  function Row(k: nat, bit: bool): (r: Bits)
    ensures |r| == k + DEGREE + 1
  {
    Zeros(k) + (if bit then Generator() else Zeros(DEGREE + 1))
  }

  /** The product of `q` and the generator, by schoolbook multiplication. */
  function Times(q: Bits): (p: Bits)
    ensures |p| == |q| + DEGREE
  {
    if q == [] then Zeros(DEGREE)
    else
      var k := |q| - 1;
      Add(Times(q[..k]) + [false], Row(k, q[k]))
  }

  /** `r` is a remainder of `m` with quotient `q`: m = q * generator + r. */
  predicate Divides(m: Bits, q: Bits, r: Bits)
    requires |q| == |m| && |r| == DEGREE
  {
    Zeros(DEGREE) + m == Add(Times(q), Zeros(|m|) + r)
  }

  lemma LastRow(q: Bits)
    requires q != []
    ensures var k := |q| - 1; Times(q) == Add(Times(q[..k]) + [false], Row(k, q[k]))
  {
  }

  lemma RowIsLinear(k: nat, a: bool, b: bool)
    ensures Row(k, a != b) == Add(Row(k, a), Row(k, b))
  {
    hide Zeros, Generator;
  }

  lemma AddTwice(a: Bits, b: Bits, r: Bits, s: Bits)
    requires |r| == |s| == |a| + 1 == |b| + 1
    ensures Add(Add(a + [false], r), Add(b + [false], s)) == Add(Add(a, b) + [false], Add(r, s))
  {
  }

  lemma {:induction false} TimesIsLinear(p: Bits, q: Bits)
    requires |p| == |q|
    ensures Times(Add(p, q)) == Add(Times(p), Times(q))
  {
    if |p| > 0 {
      var k := |p| - 1;
      assert Add(p, q)[..k] == Add(p[..k], q[..k]);
      hide *;
      TimesIsLinear(p[..k], q[..k]);
      LastRow(p);
      LastRow(q);
      LastRow(Add(p, q));
      RowIsLinear(k, p[k], q[k]);
      AddTwice(Times(p[..k]), Times(q[..k]), Row(k, p[k]), Row(k, q[k]));
    }
  }

  /** The leading coefficient of the product is that of the quotient. */
  lemma {:induction false} LeadingBit(q: Bits, i: nat)
    requires i < |q| && forall j :: 0 <= j < i ==> !q[j]
    ensures Times(q)[i] == q[i] && forall j :: 0 <= j < i ==> !Times(q)[j]
  {
    var k := |q| - 1;
    if i < k {
      LeadingBit(q[..k], i);
    } else if 0 < k {
      forall j | 0 <= j < k
        ensures !Times(q[..k])[j]
      {
        LeadingBit(q[..k], j);
      }
      ZeroTimes(q[..k]);
    }
  }

  lemma {:induction false} ZeroTimes(q: Bits)
    requires forall j :: 0 <= j < |q| ==> !q[j]
    ensures Times(q) == Zeros(|q| + DEGREE)
  {
    if |q| > 0 {
      ZeroTimes(q[..|q| - 1]);
    }
  }

  /** Only the zero polynomial has a multiple of degree below 16. */
  lemma {:induction false} LowMultipleIsZero(q: Bits, k: nat)
    requires k <= |q|
    requires forall i :: 0 <= i < |q| ==> !Times(q)[i]
    ensures forall j :: 0 <= j < k ==> !q[j]
  {
    if k > 0 {
      LowMultipleIsZero(q, k - 1);
      LeadingBit(q, k - 1);
    }
  }

  /** Quotient and remainder are unique. */
  lemma RemainderIsUnique(m: Bits, q: Bits, r: Bits, q': Bits, r': Bits)
    requires |q| == |m| == |q'| && |r| == DEGREE == |r'|
    requires Divides(m, q, r) && Divides(m, q', r')
    ensures q == q' && r == r'
  {
    var p, p' := Times(q), Times(q');
    var s, s' := Zeros(|m|) + r, Zeros(|m|) + r';
    var d := Add(q, q');
    TimesIsLinear(q, q');
    forall i | 0 <= i < |m| + DEGREE
      ensures Times(d)[i] == (s[i] != s'[i])
    {
      assert Add(p, s)[i] == Add(p', s')[i];
    }
    LowMultipleIsZero(d, |m|);
    assert forall i :: 0 <= i < |q| ==> !d[i];
    ZeroTimes(d);
    forall i | 0 <= i < DEGREE
      ensures r[i] == r'[i]
    {
      assert !Times(d)[|m| + i];
      assert s[|m| + i] == r[i] && s'[|m| + i] == r'[i];
    }
  }

  function Parity(m: Bits): bool {
    if m == [] then false else Parity(m[..|m| - 1]) != m[|m| - 1]
  }

  lemma {:induction false} ParityOfZeroPadding(m: Bits, n: nat)
    ensures Parity(m + Zeros(n)) == Parity(m) == Parity(Zeros(n) + m)
    decreases |m| + n
  {
    var s, t := m + Zeros(n), Zeros(n) + m;
    if n > 0 {
      ParityOfZeroPadding(m, n - 1);
      assert s[..|s| - 1] == m + Zeros(n - 1);
    } else {
      assert s == m == t;
    }
    if n > 0 && m != [] {
      ParityOfZeroPadding(m[..|m| - 1], n);
      assert t[..|t| - 1] == Zeros(n) + m[..|m| - 1];
    } else if m == [] {
      assert s == t;
    }
  }

  /** The generator has four terms. */
  lemma ParityOfGenerator()
    ensures !Parity(Generator())
  {
    var g := Generator();
    assert g[..4] == [true] + Zeros(3);
    assert g[..11] == g[..5] + Zeros(6);
    assert g[..16] == g[..12] + Zeros(4);
    ParityOfZeroPadding([true], 3);
    ParityOfZeroPadding(g[..5], 6);
    ParityOfZeroPadding(g[..12], 4);
    assert [true][..0] == [];
    assert g[..5][..4] == g[..4];
    assert g[..12][..11] == g[..11];
    assert Parity(g[..4]);
    assert !Parity(g[..5]);
    assert Parity(g[..12]);
  }

  lemma {:induction false} ParityIsLinear(m: Bits, n: Bits)
    requires |m| == |n|
    ensures Parity(Add(m, n)) == (Parity(m) != Parity(n))
  {
    if m != [] {
      var k := |m| - 1;
      ParityIsLinear(m[..k], n[..k]);
      assert Add(m, n)[..k] == Add(m[..k], n[..k]);
    }
  }
}
