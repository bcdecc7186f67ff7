/** `crc16_xmodem`: the CRC of a byte string, most significant bit first, starting from zero. */
module Crc16 {
  import opened ShiftRegister
  import Seqs

  type bytes = seq<bv8>

  /** One byte taken into the register. */
  function CrcByte(crc: bv16, b: bv8): bv16 {
    ShiftN(Add(crc, (b as bv16) << 8), 8)
  }

  function CrcFrom(crc: bv16, s: bytes): bv16
    decreases s
  {
    if s == [] then crc else CrcFrom(CrcByte(crc, s[0]), s[1..])
  }

  function Crc(s: bytes): bv16 { CrcFrom(0, s) }

  lemma {:induction false} CrcFromAppend(crc: bv16, s: bytes, t: bytes)
    ensures CrcFrom(crc, s + t) == CrcFrom(CrcFrom(crc, s), t)
    decreases s
  {
    hide CrcByte;
    if s == [] {
      assert s + t == t;
    } else {
      assert (s + t)[1..] == s[1..] + t;
      CrcFromAppend(CrcByte(crc, s[0]), s[1..], t);
    }
  }

  lemma ShiftCases(r: bv16)
    ensures r & 0x8000 != 0 ==> Shift(r) == (r << 1) ^ 0x1021
    ensures r & 0x8000 == 0 ==> Shift(r) == r << 1
  {
  }

  lemma ShiftNSucc(r: bv16, n: nat)
    ensures ShiftN(r, n + 1) == Shift(ShiftN(r, n))
  {
    hide Shift;
    ShiftNAdd(r, n, 1);
    assert ShiftN(ShiftN(r, n), 1) == ShiftN(Shift(ShiftN(r, n)), 0);
  }

  lemma CrcSnoc(s: bytes, b: bv8)
    ensures Crc(s + [b]) == CrcByte(Crc(s), b)
  {
    hide CrcByte;
    CrcFromAppend(0, s, [b]);
    assert [b][1..] == [];
  }

  lemma ShiftNZeroTimes(r: bv16)
    ensures ShiftN(r, 0) == r
  {
  }

  method Crc16Xmodem(data: array<bv8>, off: nat, len: nat) returns (crc: bv16)
    requires off + len <= data.Length
    ensures crc == Crc(data[off..off + len])
  {
    hide Shift, ShiftN;
    crc := 0;
    for i := 0 to len
      invariant crc == Crc(data[off..off + i])
    {
      CrcSnoc(data[off..off + i], data[off + i]);
      assert data[off..off + i] + [data[off + i]] == data[off..off + i + 1];
      hide Crc;
      crc := crc ^ ((data[off + i] as bv16) << 8);
      ghost var start := crc;
      ShiftNZeroTimes(start);
      for bit := 0 to 8
        invariant crc == ShiftN(start, bit)
      {
        ShiftNSucc(start, bit);
        ShiftCases(crc);
        if crc & 0x8000 != 0 {
          crc := (crc << 1) ^ 0x1021;
        } else {
          crc := crc << 1;
        }
      }
    }
  }

  // ---------- Bytes as bit strings ----------

  predicate Bit(b: bv8, mask: bv8) { b & mask != 0 }

  const MASKS: seq<bv8> := [0x80, 0x40, 0x20, 0x10, 0x08, 0x04, 0x02, 0x01]

  function ByteBits(b: bv8): (w: seq<bool>)
    ensures |w| == 8 && forall i :: 0 <= i < 8 ==> w[i] == Bit(b, MASKS[i])
  {
    seq(8, i requires 0 <= i < 8 => Bit(b, MASKS[i]))
  }

  function Bits(s: bytes): (w: seq<bool>)
    ensures |w| == 8 * |s|
  {
    if s == [] then [] else ByteBits(s[0]) + Bits(s[1..])
  }

  lemma {:induction false} BitsAppend(s: bytes, t: bytes)
    ensures Bits(s + t) == Bits(s) + Bits(t)
  {
    if s == [] {
      assert s + t == t;
    } else {
      assert (s + t)[1..] == s[1..] + t;
      BitsAppend(s[1..], t);
    }
  }

  lemma AlignedLowNibble(b: bv8, w: seq<bool>)
    requires w == ByteBits(b)[4..]
    ensures Aligned(w) == ((b as bv16) & 0x0F) << 12
  {
    var w1, w2, w3 := w[1..], w[2..], w[3..];
    assert w1[1..] == w2 && w2[1..] == w3 && w3[1..] == [];
    var c := b as bv16;
    assert Aligned(w3) == (c & 0x01) << 15;
    assert Aligned(w2) == (c & 0x03) << 14;
    assert Aligned(w1) == (c & 0x07) << 13;
  }

  lemma AlignedByte(b: bv8)
    ensures Aligned(ByteBits(b)) == (b as bv16) << 8
  {
    var w := ByteBits(b);
    var w1, w2, w3, w4 := w[1..], w[2..], w[3..], w[4..];
    AlignedLowNibble(b, w4);
    assert w1[1..] == w2 && w2[1..] == w3 && w3[1..] == w4;
    var c := b as bv16;
    assert Aligned(w3) == (c & 0x1F) << 11;
    assert Aligned(w2) == (c & 0x3F) << 10;
    assert Aligned(w1) == (c & 0x7F) << 9;
  }

  lemma ByteIsFeed(r: bv16, b: bv8)
    ensures Feed(r, ByteBits(b)) == CrcByte(r, b)
  {
    hide Feed, Aligned, ShiftN;
    FeedShort(r, ByteBits(b));
    AlignedByte(b);
  }

  /** The byte-wise CRC is the bit-wise shift register. */
  lemma {:induction false} CrcIsFeed(r: bv16, s: bytes)
    ensures CrcFrom(r, s) == Feed(r, Bits(s))
    decreases s
  {
    hide CrcByte, Feed, ByteBits;
    if s != [] {
      ByteIsFeed(r, s[0]);
      FeedAppend(r, ByteBits(s[0]), Bits(s[1..]));
      CrcIsFeed(CrcByte(r, s[0]), s[1..]);
    } else {
      FeedNothing(r);
    }
  }

  lemma FeedNothing(r: bv16)
    ensures Feed(r, []) == r
  {
  }

  // ---------- Code words: data followed by its CRC ----------

  /** The big-endian value of two bytes. */
  function Join(hi: bv8, lo: bv8): bv16 { ((hi as bv16) << 8) | (lo as bv16) }

  function High(c: bv16): bv8 { (c >> 8) as bv8 }

  function Low(c: bv16): bv8 { (c & 0xFF) as bv8 }

  lemma JoinParts(c: bv16)
    ensures Join(High(c), Low(c)) == c
  {
  }

  lemma TwoBytes(c: bv16, hi: bv8, lo: bv8)
    ensures CrcFrom(c, [hi, lo]) == ShiftN(Add(c, Join(hi, lo)), 16)
  {
    var x, y := (hi as bv16) << 8, lo as bv16;
    LowByteShifts(y);
    AddJoin(c, hi, lo);
    TwoCrcBytes(c, hi, lo);
    hide Add, Shift, ShiftN, Join, CrcFrom;
    ShiftNPlus(Add(c, x), y, 8);
    ShiftNAdd(Add(Add(c, x), y), 8, 8);
  }

  lemma TwoCrcBytes(c: bv16, hi: bv8, lo: bv8)
    ensures CrcFrom(c, [hi, lo]) == CrcByte(CrcByte(c, hi), lo)
  {
    hide CrcByte;
    Seqs.TailOfCons(hi, [lo]);
    Seqs.TailOfCons(lo, []);
    assert CrcFrom(c, [hi] + [lo]) == CrcFrom(CrcByte(c, hi), [lo]);
    assert CrcFrom(CrcByte(c, hi), [lo] + []) == CrcFrom(CrcByte(CrcByte(c, hi), lo), []);
    assert [hi, lo] == [hi] + [lo] && [lo] == [lo] + [];
  }

  lemma AddJoin(c: bv16, hi: bv8, lo: bv8)
    ensures Add(Add(c, (hi as bv16) << 8), lo as bv16) == Add(c, Join(hi, lo))
  {
    var x, y := hi as bv16, lo as bv16;
    assert (x << 8) | y == (x << 8) ^ y;
    assert (c ^ (x << 8)) ^ y == c ^ ((x << 8) ^ y);
  }

  lemma LowByteShifts(y: bv16)
    requires y & 0xFF00 == 0
    ensures ShiftN(y, 8) == y << 8
  {
    assert Shift(y) == y << 1;
    assert Shift(y << 1) == y << 2;
    assert Shift(y << 2) == y << 3;
    assert Shift(y << 3) == y << 4;
    assert Shift(y << 4) == y << 5;
    assert Shift(y << 5) == y << 6;
    assert Shift(y << 6) == y << 7;
    assert Shift(y << 7) == y << 8;
    hide Shift;
    assert ShiftN(y, 8) == ShiftN(y << 1, 7);
    assert ShiftN(y << 1, 7) == ShiftN(y << 2, 6);
    assert ShiftN(y << 2, 6) == ShiftN(y << 3, 5);
    assert ShiftN(y << 3, 5) == ShiftN(y << 4, 4);
    assert ShiftN(y << 4, 4) == ShiftN(y << 5, 3);
    assert ShiftN(y << 5, 3) == ShiftN(y << 6, 2);
    assert ShiftN(y << 6, 2) == ShiftN(y << 7, 1);
    assert ShiftN(y << 7, 1) == ShiftN(y << 8, 0);
  }

  lemma {:induction false} ShiftNPlus(a: bv16, b: bv16, n: nat)
    ensures ShiftN(Add(a, b), n) == Add(ShiftN(a, n), ShiftN(b, n))
    decreases n
  {
    hide Shift, Add;
    if n > 0 {
      ShiftAdd(a, b);
      ShiftNPlus(Shift(a), Shift(b), n - 1);
    }
  }

  /** A string is followed by its own CRC exactly when the CRC of the whole is zero. */
  lemma CodeWord(s: bytes, hi: bv8, lo: bv8)
    ensures Crc(s) == Join(hi, lo) <==> Crc(s + [hi, lo]) == 0
  {
    hide ShiftN, Add, Join;
    CrcFromAppend(0, s, [hi, lo]);
    hide CrcFrom;
    TwoBytes(Crc(s), hi, lo);
    ShiftNZero(16);
    AddIsZero(Crc(s), Join(hi, lo));
    if ShiftN(Add(Crc(s), Join(hi, lo)), 16) == 0 {
      ShiftNInjective(Add(Crc(s), Join(hi, lo)), 0, 16);
    }
  }

  /** The CRC is the remainder of V.41: appending it, and nothing else, makes the message a
      multiple of the generator polynomial. */
  lemma CrcIsRemainder(s: bytes, hi: bv8, lo: bv8)
    ensures Crc(s) == Join(hi, lo) <==> exists q :: TimesGenerator(q) == Bits(s + [hi, lo])
  {
    hide Feed, CrcFrom, Join;
    CodeWord(s, hi, lo);
    CrcIsFeed(0, s + [hi, lo]);
    ZeroIffMultiple(Bits(s + [hi, lo]));
  }

  // ---------- Errors ----------

  function XorBytes(s: bytes, e: bytes): (t: bytes)
    requires |s| == |e|
    ensures |t| == |s| && forall i :: 0 <= i < |s| ==> t[i] == s[i] ^ e[i]
  {
    seq(|s|, i requires 0 <= i < |s| => s[i] ^ e[i])
  }

  lemma OneBit(a: bv8, mask: bv8)
    requires mask in MASKS
    ensures a & mask == 0 || a & mask == mask
  {
  }

  lemma BitXor(a: bv8, b: bv8, mask: bv8)
    requires mask in MASKS
    ensures Bit(a ^ b, mask) == (Bit(a, mask) != Bit(b, mask))
  {
    OneBit(a, mask);
    OneBit(b, mask);
    assert (a ^ b) & mask == (a & mask) ^ (b & mask);
    if a & mask == 0 {
      assert 0 ^ (b & mask) == b & mask;
    } else if b & mask == 0 {
      assert mask ^ 0 == mask;
    } else {
      assert mask ^ mask == 0;
    }
  }

  lemma ByteBitsXor(a: bv8, b: bv8)
    ensures ByteBits(a ^ b) == XorBits(ByteBits(a), ByteBits(b))
  {
    hide Bit;
    forall i | 0 <= i < 8 ensures Bit(a ^ b, MASKS[i]) == (Bit(a, MASKS[i]) != Bit(b, MASKS[i])) {
      BitXor(a, b, MASKS[i]);
    }
  }

  lemma XorBitsAppend(u: seq<bool>, v: seq<bool>, x: seq<bool>, y: seq<bool>)
    requires |u| == |x| && |v| == |y|
    ensures XorBits(u + v, x + y) == XorBits(u, x) + XorBits(v, y)
  {
  }

  lemma {:induction false} BitsXor(s: bytes, e: bytes)
    requires |s| == |e|
    ensures Bits(XorBytes(s, e)) == XorBits(Bits(s), Bits(e))
  {
    hide ByteBits;
    if s != [] {
      var t := XorBytes(s, e);
      assert t[0] == s[0] ^ e[0] && t[1..] == XorBytes(s[1..], e[1..]);
      ByteBitsXor(s[0], e[0]);
      BitsXor(s[1..], e[1..]);
      XorBitsAppend(ByteBits(s[0]), Bits(s[1..]), ByteBits(e[0]), Bits(e[1..]));
    }
  }

  /** An error leaves a code word a code word exactly when the error itself feeds to zero. */
  lemma ErrorMissed(word: bytes, e: bytes)
    requires |word| == |e| && Crc(word) == 0
    ensures Crc(XorBytes(word, e)) == 0 <==> Feed(0, Bits(e)) == 0
  {
    hide Feed, CrcFrom;
    CrcIsFeed(0, word);
    CrcIsFeed(0, XorBytes(word, e));
    BitsXor(word, e);
    AddZero(0);
    FeedXor(0, 0, Bits(word), Bits(e));
    AddZero(Feed(0, Bits(e)));
    hide Add;
  }
}
