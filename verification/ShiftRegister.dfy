/** The sixteen-bit shift register of the CRC, as arithmetic over GF(2) modulo the generator
    x^16 + x^12 + x^5 + 1 of ITU-T V.41.

    A bit string is a `seq<bool>`, most significant bit first.  The lemmas say which error
    patterns `Feed` can and cannot miss, and that a register of zero means divisibility by the
    generator. */
module ShiftRegister {

  /** One step of the register: multiplication by x modulo the generator. */
  function Shift(r: bv16): bv16 {
    if r & 0x8000 != 0 then (r << 1) ^ 0x1021 else r << 1
  }

  /** Addition of polynomials. */
  function Add(a: bv16, b: bv16): bv16 { a ^ b }

  function Top(b: bool): bv16 { if b then 0x8000 else 0 }

  function ShiftN(r: bv16, n: nat): bv16
    decreases n
  {
    if n == 0 then r else ShiftN(Shift(r), n - 1)
  }

  /** The register after the bits of `w` have been taken in, most significant first. */
  function Feed(r: bv16, w: seq<bool>): bv16
    decreases w
  {
    if w == [] then r else Feed(Shift(Add(r, Top(w[0]))), w[1..])
  }

  function Zeros(n: nat): (z: seq<bool>)
    ensures |z| == n && forall i :: 0 <= i < n ==> !z[i]
  {
    seq(n, _ => false)
  }

  function XorBits(u: seq<bool>, v: seq<bool>): (w: seq<bool>)
    requires |u| == |v|
    ensures |w| == |u| && forall i :: 0 <= i < |w| ==> w[i] == (u[i] != v[i])
  {
    seq(|u|, i requires 0 <= i < |u| => u[i] != v[i])
  }

  // ---------- The register is linear and invertible ----------

  lemma ShiftMask(r: bv16)
    ensures Shift(r) == (r << 1) ^ (0x1021 & (0 - (r >> 15)))
  {
    if r & 0x8000 != 0 {
      assert r >> 15 == 1;
    } else {
      assert r >> 15 == 0;
    }
  }

  lemma MaskXor(a: bv16, b: bv16)
    ensures ((a ^ b) << 1) ^ (0x1021 & (0 - ((a ^ b) >> 15)))
         == ((a << 1) ^ (0x1021 & (0 - (a >> 15)))) ^ ((b << 1) ^ (0x1021 & (0 - (b >> 15))))
  {
  }

  lemma ShiftAdd(a: bv16, b: bv16)
    ensures Shift(Add(a, b)) == Add(Shift(a), Shift(b))
  {
    hide Shift;
    ShiftMask(a);
    ShiftMask(b);
    ShiftMask(a ^ b);
    MaskXor(a, b);
  }

  lemma ShiftInjective(a: bv16, b: bv16)
    requires Shift(a) == Shift(b)
    ensures a == b
  {
    hide Shift;
    ShiftMask(a);
    ShiftMask(b);
    MaskInjective(a, b);
  }

  lemma MaskInjective(a: bv16, b: bv16)
    requires (a << 1) ^ (0x1021 & (0 - (a >> 15))) == (b << 1) ^ (0x1021 & (0 - (b >> 15)))
    ensures a == b
  {
  }

  lemma {:induction false} ShiftNInjective(a: bv16, b: bv16, n: nat)
    requires ShiftN(a, n) == ShiftN(b, n)
    ensures a == b
    decreases n
  {
    hide Shift;
    if n > 0 {
      ShiftNInjective(Shift(a), Shift(b), n - 1);
      ShiftInjective(a, b);
    }
  }

  lemma {:induction false} ShiftNAdd(r: bv16, m: nat, n: nat)
    ensures ShiftN(r, m + n) == ShiftN(ShiftN(r, m), n)
    decreases m
  {
    hide Shift;
    if m > 0 {
      ShiftNAdd(Shift(r), m - 1, n);
    }
  }

  lemma {:induction false} ShiftNZero(n: nat)
    ensures ShiftN(0, n) == 0
  {
    if n > 0 {
      ShiftNZero(n - 1);
    }
  }

  lemma {:induction false} FeedAppend(r: bv16, u: seq<bool>, v: seq<bool>)
    ensures Feed(r, u + v) == Feed(Feed(r, u), v)
    decreases u
  {
    hide Shift, Add, Top;
    if u == [] {
      assert u + v == v;
    } else {
      assert (u + v)[1..] == u[1..] + v;
      FeedAppend(Shift(Add(r, Top(u[0]))), u[1..], v);
    }
  }

  lemma AddTop(r: bv16, s: bv16, a: bool, b: bool)
    ensures Add(Add(r, s), Top(a != b)) == Add(Add(r, Top(a)), Add(s, Top(b)))
  {
    var x, y := Top(a), Top(b);
    assert Top(a != b) == x ^ y;
    assert (r ^ s) ^ (x ^ y) == (r ^ x) ^ (s ^ y);
  }

  /** Feeding is linear: the registers of two strings add up to the register of their sum. */
  lemma {:induction false} FeedXor(r: bv16, s: bv16, u: seq<bool>, v: seq<bool>)
    requires |u| == |v|
    ensures Feed(Add(r, s), XorBits(u, v)) == Add(Feed(r, u), Feed(s, v))
    decreases u
  {
    hide Shift, Add, Top;
    if u != [] {
      AddTop(r, s, u[0], v[0]);
      ShiftAdd(Add(r, Top(u[0])), Add(s, Top(v[0])));
      assert XorBits(u, v)[1..] == XorBits(u[1..], v[1..]);
      FeedXor(Shift(Add(r, Top(u[0]))), Shift(Add(s, Top(v[0]))), u[1..], v[1..]);
    }
  }

  lemma {:induction false} FeedZeros(r: bv16, n: nat)
    ensures Feed(r, Zeros(n)) == ShiftN(r, n)
    decreases n
  {
    hide Shift, Add;
    if n > 0 {
      assert Zeros(n)[1..] == Zeros(n - 1);
      AddZero(r);
      FeedZeros(Shift(r), n - 1);
    }
  }

  /** Leading and trailing zeros never hide a nonzero register. */
  lemma ZerosAround(p: nat, m: seq<bool>, t: nat)
    ensures Feed(0, Zeros(p) + m + Zeros(t)) == ShiftN(Feed(0, m), t)
    ensures Feed(0, Zeros(p) + m + Zeros(t)) == 0 <==> Feed(0, m) == 0
  {
    hide Shift;
    FeedAppend(0, Zeros(p) + m, Zeros(t));
    FeedAppend(0, Zeros(p), m);
    FeedZeros(0, p);
    ShiftNZero(p);
    FeedZeros(Feed(0, m), t);
    ShiftNZero(t);
    if ShiftN(Feed(0, m), t) == 0 {
      ShiftNInjective(Feed(0, m), 0, t);
    }
  }

  // ---------- Bursts of at most sixteen bits ----------

  function Half(a: bv16): bv16 { a >> 1 }

  /** The bits of `w`, left-aligned in a register. */
  function Aligned(w: seq<bool>): bv16 {
    if w == [] then 0 else Add(Top(w[0]), Half(Aligned(w[1..])))
  }

  /** The positions below the first `n`. */
  function Below(n: nat): bv16 {
    if n == 0 then 0xFFFF else Half(Below(n - 1))
  }

  predicate Disjoint(a: bv16, m: bv16) { a & m == 0 }

  lemma {:induction false} AlignedBelow(w: seq<bool>)
    ensures Disjoint(Aligned(w), Below(|w|))
  {
    if w != [] {
      hide Disjoint, Top, Add, Half;
      AlignedBelow(w[1..]);
      AlignedBelowStep(w[0], Aligned(w[1..]), Below(|w| - 1));
    }
  }

  lemma AlignedBelowStep(b: bool, a: bv16, m: bv16)
    requires Disjoint(a, m)
    ensures Disjoint(Add(Top(b), Half(a)), Half(m))
  {
    assert (a >> 1) & (m >> 1) == (a & m) >> 1;
    assert (0x8000 ^ (a >> 1)) & (m >> 1) == (a >> 1) & (m >> 1);
    assert 0 ^ (a >> 1) == a >> 1;
    if b {
    }
  }

  lemma BelowLow(n: nat)
    requires n < 16
    ensures Below(n) & 1 == 1
  {
    assert Below(4) == 0x0FFF;
    assert Below(8) == 0x00FF;
    assert Below(12) == 0x000F;
    assert n in {0, 1, 2, 3, 4, 5, 6, 7, 8, 9, 10, 11, 12, 13, 14, 15};
  }

  lemma ShiftBack(r: bv16, b: bool, a: bv16)
    requires a & 1 == 0
    ensures Shift(Add(r, Add(Top(b), Half(a)))) == Add(Shift(Add(r, Top(b))), a)
  {
    hide Shift, Top, Add, Half;
    AddAssociative(r, Top(b), Half(a));
    ShiftAdd(Add(r, Top(b)), Half(a));
    ShiftHalf(a);
  }

  lemma AddAssociative(a: bv16, b: bv16, c: bv16)
    ensures Add(a, Add(b, c)) == Add(Add(a, b), c)
  {
  }

  lemma ShiftHalf(a: bv16)
    requires a & 1 == 0
    ensures Shift(Half(a)) == a
  {
    assert (a >> 1) & 0x8000 == 0;
  }

  lemma {:induction false} FeedShort(r: bv16, w: seq<bool>)
    requires |w| <= 16
    ensures Feed(r, w) == ShiftN(Add(r, Aligned(w)), |w|)
    decreases w
  {
    hide Shift, Top, Add, Half;
    if w != [] {
      var v := w[1..];
      AlignedLow(v);
      ShiftBack(r, w[0], Aligned(v));
      FeedShort(Shift(Add(r, Top(w[0]))), v);
    } else {
      AddZero(r);
    }
  }

  lemma AddZero(r: bv16)
    ensures Add(r, 0) == r && Add(0, r) == r
  {
  }

  lemma AlignedLow(w: seq<bool>)
    requires |w| < 16
    ensures Aligned(w) & 1 == 0
  {
    hide Aligned, Below, Disjoint;
    AlignedBelow(w);
    BelowLow(|w|);
    AndLow(Aligned(w), Below(|w|));
  }

  lemma AndLow(a: bv16, m: bv16)
    requires Disjoint(a, m) && m & 1 == 1
    ensures a & 1 == 0
  {
  }

  lemma {:induction false} AlignedZero(w: seq<bool>)
    requires |w| <= 16 && Aligned(w) == 0
    ensures w == Zeros(|w|)
  {
    if w != [] {
      AlignedLow(w[1..]);
      TopZero(w[0], Aligned(w[1..]));
      AlignedZero(w[1..]);
    }
  }

  lemma TopZero(b: bool, a: bv16)
    requires a & 1 == 0 && Add(Top(b), Half(a)) == 0
    ensures !b && a == 0
  {
    assert 0x8000 ^ (a >> 1) != 0;
    assert 0 ^ (a >> 1) == a >> 1;
    if b {
    }
  }

  /** Up to sixteen bits leave the register zero only when they are all zero. */
  lemma ShortIsZero(w: seq<bool>)
    requires |w| <= 16 && Feed(0, w) == 0
    ensures w == Zeros(|w|)
  {
    FeedShort(0, w);
    ShiftNZero(|w|);
    AddZero(Aligned(w));
    ShiftNInjective(Aligned(w), 0, |w|);
    AlignedZero(w);
  }

  /** All set bits of `e` lie in the sixteen positions from `p` on. */
  ghost predicate BurstAt(e: seq<bool>, p: nat) {
    forall i :: 0 <= i < |e| && e[i] ==> p <= i < p + 16
  }

  /** A string whose set bits lie between `p` and `q` is its middle, with zeros around it. */
  lemma Middle(e: seq<bool>, p: nat, q: nat)
    requires p <= q <= |e|
    requires forall i :: 0 <= i < |e| && e[i] ==> p <= i < q
    ensures e == Zeros(p) + e[p..q] + Zeros(|e| - q)
  {
  }

  lemma ShortNonzero(w: seq<bool>, k: nat)
    requires k < |w| <= 16 && w[k]
    ensures Feed(0, w) != 0
  {
    hide Feed;
    if Feed(0, w) == 0 {
      ShortIsZero(w);
    }
  }

  /** No nonzero burst of at most sixteen bits leaves the register zero. */
  lemma BurstDetected(e: seq<bool>, p: nat)
    requires BurstAt(e, p) && true in e
    ensures Feed(0, e) != 0
  {
    hide Feed, ShiftN, Zeros;
    var k :| 0 <= k < |e| && e[k];
    var q := if p + 16 <= |e| then p + 16 else |e|;
    Middle(e, p, q);
    ShortNonzero(e[p..q], k - p);
    hide BurstAt;
    ZerosAround(p, e[p..q], |e| - q);
  }

  // ---------- The order of x, and errors of two bits ----------

  /** x^n modulo the generator. */
  function PowX(n: nat): bv16 { ShiftN(1, n) }

  lemma PowXSucc(n: nat)
    ensures PowX(n + 1) == Shift(PowX(n))
  {
    hide Shift;
    ShiftNAdd(1, n, 1);
    assert ShiftN(PowX(n), 1) == ShiftN(Shift(PowX(n)), 0);
  }

  /** `v` when the lowest bit of `b` is set, and zero otherwise. */
  function Times(b: bv16, v: bv16): bv16 { if b & 1 == 1 then v else 0 }

  function Shift4(v: bv16): bv16 { Shift(Shift(Shift(Shift(v)))) }

  /** The product of `v` and the lowest four bits of `a`, added to `rest`. */
  function MulFour(a: bv16, v: bv16, rest: bv16): bv16 {
    Add(Times(a, v),
        Add(Times(a >> 1, Shift(v)),
            Add(Times(a >> 2, Shift(Shift(v))),
                Add(Times(a >> 3, Shift(Shift(Shift(v)))), rest))))
  }

  /** Multiplication modulo the generator. */
  function Mul(a: bv16, v: bv16): bv16 {
    MulFour(a, v,
      MulFour(a >> 4, Shift4(v),
        MulFour(a >> 8, Shift4(Shift4(v)),
          MulFour(a >> 12, Shift4(Shift4(Shift4(v))), 0))))
  }

  lemma ShiftTimes(b: bv16, v: bv16)
    ensures Shift(Times(b, v)) == Times(b, Shift(v))
  {
    assert Shift(0) == 0;
    hide Shift;
  }

  lemma ShiftMulFour(a: bv16, v: bv16, rest: bv16)
    ensures Shift(MulFour(a, v, rest)) == MulFour(a, Shift(v), Shift(rest))
  {
    hide Shift, Add, Times;
    var v1 := Shift(v);
    var v2 := Shift(v1);
    var v3 := Shift(v2);
    var r3 := Add(Times(a >> 3, v3), rest);
    var r2 := Add(Times(a >> 2, v2), r3);
    var r1 := Add(Times(a >> 1, v1), r2);
    ShiftTimes(a, v);
    ShiftTimes(a >> 1, v1);
    ShiftTimes(a >> 2, v2);
    ShiftTimes(a >> 3, v3);
    ShiftAdd(Times(a, v), r1);
    ShiftAdd(Times(a >> 1, v1), r2);
    ShiftAdd(Times(a >> 2, v2), r3);
    ShiftAdd(Times(a >> 3, v3), rest);
  }

  lemma ShiftMul(a: bv16, v: bv16)
    ensures Shift(Mul(a, v)) == Mul(a, Shift(v))
  {
    assert Shift(0) == 0;
    hide Shift, MulFour;
    var m3 := MulFour(a >> 12, Shift4(Shift4(Shift4(v))), 0);
    var m2 := MulFour(a >> 8, Shift4(Shift4(v)), m3);
    var m1 := MulFour(a >> 4, Shift4(v), m2);
    ShiftMulFour(a >> 12, Shift4(Shift4(Shift4(v))), 0);
    ShiftMulFour(a >> 8, Shift4(Shift4(v)), m3);
    ShiftMulFour(a >> 4, Shift4(v), m2);
    ShiftMulFour(a, v, m1);
  }

  lemma {:induction false} MulShiftN(a: bv16, v: bv16, n: nat)
    ensures Mul(a, ShiftN(v, n)) == ShiftN(Mul(a, v), n)
    decreases n
  {
    hide Mul, Shift;
    if n > 0 {
      ShiftMul(a, v);
      MulShiftN(a, Shift(v), n - 1);
    }
  }

  /** Doubling the exponent squares the remainder. */
  lemma PowXTwice(n: nat, c: bv16, d: bv16)
    requires PowX(n) == c && Mul(c, 1) == c && Mul(c, c) == d
    ensures PowX(2 * n) == d && PowX(2 * n + 1) == Shift(d)
  {
    hide Mul, Shift;
    ShiftNAdd(1, n, n);
    MulShiftN(c, 1, n);
    PowXSucc(2 * n);
  }

  lemma PowXSmall(n: nat)
    requires 8 <= n < 16
    ensures PowX(n) == [0x0100, 0x0200, 0x0400, 0x0800, 0x1000, 0x2000, 0x4000, 0x8000][n - 8]
  {
    assert ShiftN(1, 8) == 0x0100;
    ShiftNAdd(1, 8, n - 8);
  }

  lemma PowX217()
    ensures PowX(217) != 1
  {
    PowXSmall(13);
    PowXTwice(13, 0x2000, 0xCCC4);
    PowXTwice(27, 0x89A9, 0x1168);
    PowXTwice(54, 0x1168, 0x3750);
    PowXTwice(108, 0x3750, 0xAC61);
  }

  lemma PowX1057()
    ensures PowX(1057) != 1
  {
    PowXSmall(8);
    PowXTwice(8, 0x0100, 0x1021);
    PowXTwice(16, 0x1021, 0x3730);
    PowXTwice(33, 0x6E60, 0xC1C6);
    PowXTwice(66, 0xC1C6, 0x4E8A);
    PowXTwice(132, 0x4E8A, 0x5946);
    PowXTwice(264, 0x5946, 0x78B3);
    PowXTwice(528, 0x78B3, 0xF147);
  }

  lemma PowX4681()
    ensures PowX(4681) != 1
  {
    PowXSmall(9);
    PowXTwice(9, 0x0200, 0x4084);
    PowXTwice(18, 0x4084, 0x4363);
    PowXTwice(36, 0x4363, 0x47D3);
    PowXTwice(73, 0x8FA6, 0x4388);
    PowXTwice(146, 0x4388, 0x1396);
    PowXTwice(292, 0x1396, 0x2280);
    PowXTwice(585, 0x4500, 0x0163);
    PowXTwice(1170, 0x0163, 0x0424);
    PowXTwice(2340, 0x0424, 0x1621);
  }

  lemma PowX32767()
    ensures PowX(32767) == 1
  {
    PowXSmall(15);
    PowXTwice(15, 0x8000, 0x0DCC);
    PowXTwice(31, 0x1B98, 0x6A10);
    PowXTwice(63, 0xD420, 0x2BBF);
    PowXTwice(127, 0x577E, 0x6782);
    PowXTwice(255, 0xCF04, 0x04FF);
    PowXTwice(511, 0x09FE, 0x0DB1);
    PowXTwice(1023, 0x1B62, 0x3F54);
    PowXTwice(2047, 0x7EA8, 0xA2B7);
    PowXTwice(4095, 0x554F, 0x2207);
    PowXTwice(8191, 0x440E, 0x1116);
    PowXTwice(16383, 0x222C, 0x8810);
  }

  lemma PowXCancel(m: nat, n: nat)
    requires PowX(m) == 1
    ensures PowX(m + n) == PowX(n)
  {
    hide Shift;
    ShiftNAdd(1, m, n);
  }

  lemma {:induction false} PowXMultiple(m: nat, k: nat)
    requires PowX(m) == 1
    ensures PowX(k * m) == 1
  {
    hide Shift;
    if k > 0 {
      PowXMultiple(m, k - 1);
      PowXCancel(m, (k - 1) * m);
      assert m + (k - 1) * m == k * m;
    }
  }

  lemma NoDivisor(p: nat, r: nat)
    requires p in {7, 31, 151} && 1 < r < p
    ensures p % r != 0
  {
  }

  lemma SplitProduct(p: nat, q: nat, r: nat)
    requires r > 0
    ensures (p / r) * (q * r) + q * (p % r) == p * q
  {
    assert p == (p / r) * r + p % r;
    assert (p / r) * (q * r) == q * ((p / r) * r);
  }

  /** Euclid's descent: 32767 = p * q for the prime p, so once x^(q * r) is one for some
      0 < r < p, it is one already for r = 1. */
  lemma {:induction false} Descend(p: nat, q: nat, r: nat)
    requires p in {7, 31, 151} && p * q == 32767 && 0 < r < p
    requires PowX(q * r) == 1
    ensures PowX(q) == 1
    decreases r
  {
    hide PowX;
    if r > 1 {
      NoDivisor(p, r);
      PowXMultiple(q * r, p / r);
      PowXCancel((p / r) * (q * r), q * (p % r));
      SplitProduct(p, q, r);
      PowX32767();
      Descend(p, q, p % r);
    }
  }

  lemma OrderFactor(p: nat, q: nat, d: nat)
    requires p in {7, 31, 151} && p * q == 32767
    requires PowX(d) == 1 && PowX(q) != 1
    ensures d % p == 0
  {
    hide PowX;
    if d % p != 0 {
      PowXMultiple(d, q);
      PowX32767();
      PowXMultiple(32767, d / p);
      assert q * d == (d / p) * (p * q) + q * (d % p) by {
        assert d == (d / p) * p + d % p;
        assert q * ((d / p) * p) == (d / p) * (p * q);
      }
      PowXCancel((d / p) * 32767, q * (d % p));
      Descend(p, q, d % p);
    }
  }

  lemma CommonMultiple(d: nat)
    requires d % 7 == 0 && d % 31 == 0 && d % 151 == 0
    ensures d % 32767 == 0
  {
    var a, b, c := d / 7, d / 31, d / 151;
    assert d == 7 * a == 31 * b == 151 * c;
    // 3 * 4681 - 10 * 1057 - 16 * 217 == 1
    assert d == 32767 * (3 * a - 10 * b - 16 * c);
  }

  /** x has order 32767 = 7 * 31 * 151 modulo the generator. */
  lemma OrderOfX(d: nat)
    ensures PowX(d) == 1 <==> d % 32767 == 0
  {
    hide PowX;
    if PowX(d) == 1 {
      PowX4681();
      PowX1057();
      PowX217();
      OrderFactor(7, 4681, d);
      OrderFactor(31, 1057, d);
      OrderFactor(151, 217, d);
      CommonMultiple(d);
    }
    if d % 32767 == 0 {
      PowX32767();
      PowXMultiple(32767, d / 32767);
    }
  }

  /** Exactly the positions `i` and `j` of `e` are set. */
  ghost predicate TwoSet(e: seq<bool>, i: nat, j: nat) {
    && i < j < |e|
    && forall k :: 0 <= k < |e| ==> (e[k] <==> k == i || k == j)
  }

  lemma FeedTwo(d: nat)
    requires d > 0
    ensures Feed(0, [true] + Zeros(d - 1) + [true]) == 0 <==> PowX(d) == 1
  {
    hide Shift, Add, Feed;
    FeedAppend(0, [true] + Zeros(d - 1), [true]);
    FeedAppend(0, [true], Zeros(d - 1));
    FeedTop(0);
    FeedZeros(Feed(0, [true]), d - 1);
    var r := ShiftN(Shift(0x8000), d - 1);
    assert r == ShiftN(0x8000, d);
    FeedTop(r);
    ShiftIsZero(Add(r, 0x8000));
    AddIsZero(r, 0x8000);
    PowXSmall(15);
    ShiftNAdd(1, 15, d);
    ShiftNAdd(1, d, 15);
    if r == 0x8000 {
      ShiftNInjective(PowX(d), 1, 15);
    }
  }

  lemma FeedTop(r: bv16)
    ensures Feed(r, [true]) == Shift(Add(r, 0x8000))
    ensures Add(0, 0x8000) == 0x8000
  {
    hide Shift, Add;
    AddZero(0x8000);
    assert [true][1..] == [];
  }

  lemma ShiftIsZero(r: bv16)
    ensures Shift(r) == 0 <==> r == 0
  {
    assert Shift(0) == 0;
    hide Shift;
    if Shift(r) == 0 {
      ShiftInjective(r, 0);
    }
  }

  lemma AddIsZero(a: bv16, b: bv16)
    ensures Add(a, b) == 0 <==> a == b
  {
  }

  /** Two flipped bits are missed exactly when their distance is a multiple of 32767. */
  lemma TwoBitDetected(e: seq<bool>, i: nat, j: nat)
    requires TwoSet(e, i, j)
    ensures Feed(0, e) == 0 <==> (j - i) % 32767 == 0
  {
    hide Feed, PowX;
    var m := [true] + Zeros(j - i - 1) + [true];
    Middle(e, i, j + 1);
    assert e[i..j + 1] == m;
    ZerosAround(i, m, |e| - j - 1);
    FeedTwo(j - i);
    OrderOfX(j - i);
  }

  // ---------- A register of zero means divisibility by the generator ----------

  /** The coefficients of x^16 + x^12 + x^5 + 1. */
  const GENERATOR: seq<bool> :=
    [true] + [false, false, false, true] + [false, false, false, false]
    + [false, false, true, false] + [false, false, false, true]

  /** The product of the polynomial `q` and the generator, by the schoolbook rule. */
  function TimesGenerator(q: seq<bool>): (w: seq<bool>)
    ensures |w| == |q| + 16
  {
    if q == [] then Zeros(16)
    else if q[0] then XorBits(GENERATOR + Zeros(|q| - 1), [false] + TimesGenerator(q[1..]))
    else [false] + TimesGenerator(q[1..])
  }

  lemma FeedFalse(w: seq<bool>)
    ensures Feed(0, [false] + w) == Feed(0, w)
  {
    assert ([false] + w)[1..] == w;
    assert Shift(Add(0, Top(false))) == 0;
  }

  lemma FeedNibble(r: bv16, a: bool, b: bool, c: bool, d: bool)
    ensures Feed(r, [a, b, c, d]) == Shift(Add(Shift(Add(Shift(Add(Shift(Add(r, Top(a))), Top(b))), Top(c))), Top(d)))
  {
    hide Shift, Add, Top;
    var r1 := Shift(Add(r, Top(a)));
    var r2 := Shift(Add(r1, Top(b)));
    var r3 := Shift(Add(r2, Top(c)));
    var w, u, v, x := [a, b, c, d], [b, c, d], [c, d], [d];
    assert w[1..] == u && u[1..] == v && v[1..] == x && x[1..] == [];
    assert Feed(r, w) == Feed(r1, u);
    assert Feed(r1, u) == Feed(r2, v);
    assert Feed(r2, v) == Feed(r3, x);
    assert Feed(r3, x) == Feed(Shift(Add(r3, Top(d))), []);
  }

  lemma GeneratorNibbles()
    ensures Feed(0, [true]) == 0x1021
    ensures Feed(0x1021, [false, false, false, true]) == 0x0210
    ensures Feed(0x0210, [false, false, false, false]) == 0x2100
    ensures Feed(0x2100, [false, false, true, false]) == 0x1000
    ensures Feed(0x1000, [false, false, false, true]) == 0
  {
    hide Feed;
    FeedTop(0);
    FeedNibble(0x1021, false, false, false, true);
    FeedNibble(0x0210, false, false, false, false);
    FeedNibble(0x2100, false, false, true, false);
    FeedNibble(0x1000, false, false, false, true);
  }

  lemma FeedGenerator()
    ensures Feed(0, GENERATOR) == 0
  {
    hide Feed;
    var a, b := [false, false, false, true], [false, false, false, false];
    var c, d := [false, false, true, false], [false, false, false, true];
    GeneratorNibbles();
    FeedAppend(0, [true], a);
    FeedAppend(0, [true] + a, b);
    FeedAppend(0, [true] + a + b, c);
    FeedAppend(0, [true] + a + b + c, d);
  }

  /** Every multiple of the generator leaves the register zero. */
  lemma {:induction false} MultipleFeedsZero(q: seq<bool>)
    ensures Feed(0, TimesGenerator(q)) == 0
  {
    hide Feed, Add;
    if q == [] {
      FeedZeros(0, 16);
      ShiftNZero(16);
    } else {
      MultipleFeedsZero(q[1..]);
      FeedFalse(TimesGenerator(q[1..]));
      if q[0] {
        FeedAppend(0, GENERATOR, Zeros(|q| - 1));
        FeedGenerator();
        FeedZeros(0, |q| - 1);
        ShiftNZero(|q| - 1);
        AddZero(0);
        FeedXor(0, 0, GENERATOR + Zeros(|q| - 1), [false] + TimesGenerator(q[1..]));
      }
    }
  }

  /** Long division: a string that leaves the register zero is a multiple of the generator. */
  lemma {:induction false} DivideByGenerator(w: seq<bool>) returns (q: seq<bool>)
    requires |w| >= 16 && Feed(0, w) == 0
    ensures |q| == |w| - 16 && TimesGenerator(q) == w
    decreases |w|
  {
    hide Feed, Add;
    if |w| == 16 {
      ShortIsZero(w);
      q := [];
    } else if !w[0] {
      assert w == [false] + w[1..];
      FeedFalse(w[1..]);
      var p := DivideByGenerator(w[1..]);
      q := [false] + p;
      assert q[1..] == p;
    } else {
      var g := GENERATOR + Zeros(|w| - 17);
      FeedAppend(0, GENERATOR, Zeros(|w| - 17));
      FeedGenerator();
      FeedZeros(0, |w| - 17);
      ShiftNZero(|w| - 17);
      AddZero(0);
      FeedXor(0, 0, g, w);
      var v := XorBits(g, w);
      assert v == [false] + v[1..];
      FeedFalse(v[1..]);
      var p := DivideByGenerator(v[1..]);
      q := [true] + p;
      assert q[1..] == p;
      assert TimesGenerator(q) == XorBits(g, v);
      assert XorBits(g, v) == w;
    }
  }

  /** The register is zero exactly for the multiples of the generator. */
  lemma ZeroIffMultiple(w: seq<bool>)
    requires |w| >= 16
    ensures Feed(0, w) == 0 <==> exists q :: TimesGenerator(q) == w
  {
    hide Feed;
    if Feed(0, w) == 0 {
      var q := DivideByGenerator(w);
    }
    if q :| TimesGenerator(q) == w {
      MultipleFeedsZero(q);
    }
  }

  // ---------- Errors of odd weight ----------

  function Weight(w: seq<bool>): nat {
    if w == [] then 0 else (if w[0] then 1 else 0) + Weight(w[1..])
  }

  lemma {:induction false} WeightXor(u: seq<bool>, v: seq<bool>)
    requires |u| == |v|
    ensures (Weight(XorBits(u, v)) + Weight(u) + Weight(v)) % 2 == 0
  {
    if u != [] {
      assert XorBits(u, v)[1..] == XorBits(u[1..], v[1..]);
      WeightXor(u[1..], v[1..]);
    }
  }

  lemma {:induction false} WeightAppend(u: seq<bool>, v: seq<bool>)
    ensures Weight(u + v) == Weight(u) + Weight(v)
  {
    if u == [] {
      assert u + v == v;
    } else {
      assert (u + v)[1..] == u[1..] + v;
      WeightAppend(u[1..], v);
    }
  }

  lemma {:induction false} WeightZeros(n: nat)
    ensures Weight(Zeros(n)) == 0
  {
    if n > 0 {
      assert Zeros(n)[1..] == Zeros(n - 1);
      WeightZeros(n - 1);
    }
  }

  lemma WeightNibble(a: bool, b: bool, c: bool, d: bool)
    ensures Weight([a, b, c, d])
         == (if a then 1 else 0) + (if b then 1 else 0) + (if c then 1 else 0) + (if d then 1 else 0)
  {
    var w, u, v, x := [a, b, c, d], [b, c, d], [c, d], [d];
    assert w[1..] == u && u[1..] == v && v[1..] == x && x[1..] == [];
    assert Weight(x) == (if d then 1 else 0) + Weight([]);
    assert Weight(v) == (if c then 1 else 0) + Weight(x);
    assert Weight(u) == (if b then 1 else 0) + Weight(v);
  }

  lemma WeightGenerator()
    ensures Weight(GENERATOR) == 4
  {
    assert Weight([true]) == 1 by {
      assert [true][1..] == [];
    }
    hide Weight;
    var a, b := [false, false, false, true], [false, false, false, false];
    var c, d := [false, false, true, false], [false, false, false, true];
    WeightNibble(false, false, false, true);
    WeightNibble(false, false, false, false);
    WeightNibble(false, false, true, false);
    WeightAppend([true], a);
    WeightAppend([true] + a, b);
    WeightAppend([true] + a + b, c);
    WeightAppend([true] + a + b + c, d);
  }

  lemma WeightFalse(w: seq<bool>)
    ensures Weight([false] + w) == Weight(w)
  {
    assert ([false] + w)[1..] == w;
  }

  /** The generator has four terms, so every multiple of it has even weight. */
  lemma {:induction false} MultipleIsEven(q: seq<bool>)
    ensures Weight(TimesGenerator(q)) % 2 == 0
  {
    hide Weight;
    if q == [] {
      WeightZeros(16);
    } else {
      var w := TimesGenerator(q[1..]);
      MultipleIsEven(q[1..]);
      WeightFalse(w);
      if q[0] {
        WeightGenerator();
        WeightZeros(|q| - 1);
        WeightAppend(GENERATOR, Zeros(|q| - 1));
        WeightXor(GENERATOR + Zeros(|q| - 1), [false] + w);
      }
    }
  }

  lemma ShortZeroIsEven(e: seq<bool>)
    requires |e| < 16 && Feed(0, e) == 0
    ensures Weight(e) == 0
  {
    ShortIsZero(e);
    WeightZeros(|e|);
  }

  /** No error of odd weight leaves the register zero. */
  lemma OddDetected(e: seq<bool>)
    requires Weight(e) % 2 == 1
    ensures Feed(0, e) != 0
  {
    hide Feed;
    if Feed(0, e) == 0 {
      if |e| < 16 {
        ShortZeroIsEven(e);
      } else {
        var q := DivideByGenerator(e);
        MultipleIsEven(q);
      }
    }
  }
}
