/** Texts of the provisioning link: characters of one byte each, backslash escapes and decimal numbers. */
module Text {
  import opened BleFrames
  import opened Crc16
  import Seqs

  /** Each character is one byte. */
  predicate IsText(s: string) { forall i :: 0 <= i < |s| ==> (s[i] as int) < 256 }

  function Bytes(s: string): (b: bytes)
    requires IsText(s)
    ensures |b| == |s|
    decreases |s|
  {
    if s == [] then [] else [ByteOf(s[0] as int)] + Bytes(s[1..])
  }

  /** The bytes are the characters, one by one. */
  lemma {:induction false} BytesAre(s: string, i: nat)
    requires IsText(s) && i < |s|
    ensures Bytes(s)[i] as int == s[i] as int
    decreases |s|
  {
    if i > 0 {
      BytesAre(s[1..], i - 1);
    }
  }

  /** The characters that a reader sees in some bytes. */
  function Chars(b: bytes): string { seq(|b|, i requires 0 <= i < |b| => b[i] as char) }

  lemma CharsOfBytes(s: string)
    requires IsText(s)
    ensures Chars(Bytes(s)) == s
  {
    forall i | 0 <= i < |s| ensures Chars(Bytes(s))[i] == s[i] {
      BytesAre(s, i);
    }
  }

  lemma AppendText(s: string, t: string)
    requires IsText(s) && IsText(t)
    ensures IsText(s + t)
  {
  }

  /** A text in a buffer of `room` bytes, one of them for the final NUL. */
  function Clip(s: string, room: nat): string
    requires room > 0
  {
    if |s| >= room then s[..room - 1] else s
  }

  // ---------- Escapes ----------

  predicate Special(c: char) { c == '"' || c == '\\' }

  function Escaped(c: char): string { if Special(c) then ['\\', c] else [c] }

  /** Every quote and every backslash preceded by a backslash. */
  function Escape(s: string): (e: string)
    ensures |s| <= |e| <= 2 * |s|
    decreases |s|
  {
    if s == [] then []
    else
      var c := s[|s| - 1];
      Escape(s[..|s| - 1]) + Escaped(c)
  }

  datatype Read = Unfinished | Read(text: string, rest: string)

  /** Reads up to the quote that ends a quoted text, undoing the escapes. */
  function ReadQuoted(s: string): Read
    decreases |s|
  {
    if s == [] then Unfinished
    else if s[0] == '"' then Read([], s[1..])
    else if s[0] == '\\' then
      if |s| < 2 then Unfinished else Cons(s[1], ReadQuoted(s[2..]))
    else Cons(s[0], ReadQuoted(s[1..]))
  }

  function Cons(c: char, r: Read): Read {
    match r
    case Unfinished => Unfinished
    case Read(text, rest) => Read([c] + text, rest)
  }

  lemma EscapeSnoc(s: string, c: char)
    ensures Escape(s + [c]) == Escape(s) + Escaped(c)
  {
    assert (s + [c])[..|s|] == s;
  }

  lemma {:induction false} EscapeHead(s: string)
    requires s != []
    ensures Escape(s) == Escaped(s[0]) + Escape(s[1..])
    decreases |s|
  {
    hide Escaped;
    var front, c := s[..|s| - 1], s[|s| - 1];
    if front == [] {
      assert s[1..] == [];
    } else {
      EscapeHead(front);
      EscapeSnoc(front[1..], c);
      assert front[1..] + [c] == s[1..];
      Seqs.Associative(Escaped(s[0]), Escape(front[1..]), Escaped(c));
    }
  }

  /** Reading undoes escaping, and stops at the quote after the escaped text and at no other. */
  lemma {:induction false} ReadEscaped(s: string, t: string)
    ensures ReadQuoted(Escape(s) + ['"'] + t) == Read(s, t)
    decreases |s|
  {
    if s == [] {
      assert Escape(s) + ['"'] + t == ['"'] + t;
      Seqs.TailOfCons('"', t);
    } else {
      EscapeHead(s);
      var rest := Escape(s[1..]) + ['"'] + t;
      var u := Escape(s) + ['"'] + t;
      if Special(s[0]) {
        assert u == ['\\', s[0]] + rest;
        assert u[2..] == rest;
      } else {
        assert u == [s[0]] + rest;
        assert u[1..] == rest;
      }
      ReadEscaped(s[1..], t);
      Seqs.ConsOfParts(s);
    }
  }

  /** What follows an escaped text and never ends leaves the whole without an end. */
  lemma {:induction false} ReadUnfinished(s: string, u: string)
    requires ReadQuoted(u) == Unfinished
    ensures ReadQuoted(Escape(s) + u) == Unfinished
    decreases |s|
  {
    if s == [] {
      Seqs.Nil(u);
    } else {
      EscapeHead(s);
      var rest := Escape(s[1..]) + u;
      var v := Escape(s) + u;
      if Special(s[0]) {
        assert v == ['\\', s[0]] + rest;
        assert v[2..] == rest;
      } else {
        assert v == [s[0]] + rest;
        assert v[1..] == rest;
      }
      ReadUnfinished(s[1..], u);
    }
  }

  lemma {:induction false} EscapeIsText(s: string)
    requires IsText(s)
    ensures IsText(Escape(s))
    decreases |s|
  {
    if s != [] {
      EscapeIsText(s[..|s| - 1]);
    }
  }

  // ---------- Decimal numbers ----------

  predicate IsDigit(c: char) { '0' <= c <= '9' }

  function Digit(n: nat): (c: char)
    requires n < 10
    ensures IsDigit(c) && c as int - '0' as int == n
  {
    n as char + '0'
  }

  function Digits(n: nat): (s: string)
    ensures s != [] && forall i :: 0 <= i < |s| ==> IsDigit(s[i])
    decreases n
  {
    if n < 10 then [Digit(n)] else Digits(n / 10) + [Digit(n % 10)]
  }

  function Decimal(n: int): (s: string)
    ensures s != []
  {
    if n < 0 then ['-'] + Digits(-n) else Digits(n)
  }

  lemma DecimalIsText(n: int)
    ensures IsText(Decimal(n))
  {
    var d := Digits(if n < 0 then -n else n);
    assert forall i :: 0 <= i < |d| ==> IsDigit(d[i]);
  }

  /** The number that a row of digits stands for. */
  function Value(s: string): nat
    requires forall i :: 0 <= i < |s| ==> IsDigit(s[i])
    decreases |s|
  {
    if s == [] then 0
    else
      var c := s[|s| - 1];
      assert IsDigit(c);
      Value(s[..|s| - 1]) * 10 + (c as int - '0' as int)
  }

  /** The digits at the start of a text, and what follows them. */
  function TakeDigits(s: string): (r: (string, string))
    ensures forall i :: 0 <= i < |r.0| ==> IsDigit(r.0[i])
    decreases |s|
  {
    if s == [] || !IsDigit(s[0]) then ([], s)
    else
      var r := TakeDigits(s[1..]);
      ([s[0]] + r.0, r.1)
  }

  function ReadInt(s: string): (int, string) {
    if s != [] && s[0] == '-' then
      var r := TakeDigits(s[1..]);
      (0 - Value(r.0), r.1)
    else
      var r := TakeDigits(s);
      (Value(r.0), r.1)
  }

  lemma {:induction false} ValueOfDigits(n: nat)
    ensures Value(Digits(n)) == n
    decreases n
  {
    if n >= 10 {
      ValueOfDigits(n / 10);
      assert Digits(n)[..|Digits(n)| - 1] == Digits(n / 10);
    } else {
      assert [Digit(n)][..0] == [];
    }
  }

  lemma {:induction false} TakeAllDigits(d: string, t: string)
    requires forall i :: 0 <= i < |d| ==> IsDigit(d[i])
    requires t == [] || !IsDigit(t[0])
    ensures TakeDigits(d + t) == (d, t)
    decreases |d|
  {
    if d == [] {
      Seqs.Nil(t);
    } else {
      TakeAllDigits(d[1..], t);
      Seqs.DropOfAppend(d, t, 1);
      Seqs.ConsOfParts(d);
    }
  }

  /** Reading a printed number gives that number back. */
  lemma ReadDecimal(n: int, t: string)
    requires t == [] || !IsDigit(t[0])
    ensures ReadInt(Decimal(n) + t) == (n, t)
  {
    var m := if n < 0 then -n else n;
    var d := Digits(m);
    ValueOfDigits(m);
    TakeAllDigits(d, t);
    hide Digits, Value, TakeDigits;
    if n < 0 {
      assert ['-'] + d + t == ['-'] + (d + t);
      Seqs.TailOfCons('-', d + t);
    } else {
      assert IsDigit(d[0]) && (d + t)[0] == d[0];
    }
  }

  lemma {:induction false} DigitsShort(n: nat, bound: nat, k: nat)
    requires n < bound && bound == Power(k) && k > 0
    ensures |Digits(n)| <= k
    decreases k
  {
    if n >= 10 {
      DigitsShort(n / 10, Power(k - 1), k - 1);
    }
  }

  function Power(k: nat): (p: nat)
    ensures p > 0
  {
    if k == 0 then 1 else 10 * Power(k - 1)
  }

  /** A 32-bit number takes at most eleven characters. */
  lemma DecimalShort(n: int)
    requires -0x8000_0000 <= n < 0x8000_0000
    ensures |Decimal(n)| <= 11
  {
    assert Power(5) == 100_000;
    assert Power(10) == 10_000_000_000;
    DigitsShort(if n < 0 then -n else n, Power(10), 10);
  }
}
