/** Whole runs of the BLE provisioning link: any splitting of a byte stream into writes, streams
    of frames with garbage and damage between them, and the errors the CRC cannot miss. */
module BleSession {
  import opened ShiftRegister
  import opened Crc16
  import opened BleFrames
  import opened BleReceiver
  import Seqs

  // ---------- Runs of writes ----------

  /** A run of writes from the pending bytes `buf`. */
  function Run(buf: bytes, ws: seq<Write>): Parsed
    decreases ws
  {
    if ws == [] then Parsed([], buf, false)
    else
      var p := AfterWrite(buf, ws[0]);
      var q := Run(p.rest, ws[1..]);
      Parsed(p.messages + q.messages, q.rest, p.reset || q.reset)
  }

  function Joined(ws: seq<Write>): bytes {
    if ws == [] then [] else ws[0].value + Joined(ws[1..])
  }

  /** No write of the run is refused for its offset or its size. */
  predicate Fits(buf: bytes, ws: seq<Write>)
    decreases ws
  {
    ws != [] ==>
      && (ws[0].value == [] || Accepted(buf, ws[0]))
      && Fits(AfterWrite(buf, ws[0]).rest, ws[1..])
  }

  /** After an impossible length nothing is kept, and nothing that follows changes the parse. */
  lemma {:induction false} ResetStays(s: bytes, t: bytes)
    requires Parse(s).reset
    ensures Parse(s + t) == Parse(s) && Parse(s).rest == []
    decreases |s|
  {
    StepStable(s, t);
    hide NextStep;
    match NextStep(s) {
      case Reset =>
      case Skip =>
        Seqs.DropOfAppend(s, t, 1);
        ResetStays(s[1..], t);
      case Drop(n) =>
        Seqs.DropOfAppend(s, t, n);
        ResetStays(s[n..], t);
      case Deliver(n, _) =>
        Seqs.DropOfAppend(s, t, n);
        ResetStays(s[n..], t);
    }
  }

  /** Chunk independence: when every write fits and the stream holds no impossible length, a run
      dispatches and keeps what one parse of the whole stream does, however it was split. */
  lemma {:induction false} ChunkIndependence(buf: bytes, ws: seq<Write>)
    requires NextStep(buf).Wait? && Fits(buf, ws)
    requires !Parse(buf + Joined(ws)).reset
    ensures Run(buf, ws) == Parse(buf + Joined(ws))
    decreases ws
  {
    if ws == [] {
      Seqs.Nil(buf);
    } else {
      hide NextStep;
      var v, p, rest := ws[0].value, AfterWrite(buf, ws[0]), Joined(ws[1..]);
      Seqs.Associative(buf, v, rest);
      if v == [] {
        Seqs.Nil(buf);
        WaitingParse(buf);
      }
      assert p == Parse(buf + v);
      if p.reset {
        ResetStays(buf + v, rest);
      }
      RestWaits(buf + v);
      ParseAppend(buf + v, rest);
      ChunkIndependence(p.rest, ws[1..]);
    }
  }

  lemma WaitingParse(s: bytes)
    requires NextStep(s).Wait?
    ensures Parse(s) == Parsed([], s, false)
  {
  }

  /** Between writes the pending bytes always leave room for one more. */
  lemma {:induction false} RoomForOneByte(buf: bytes, ws: seq<Write>)
    requires NextStep(buf).Wait?
    ensures NextStep(Run(buf, ws).rest).Wait? && |Run(buf, ws).rest| < RX_MAX
    decreases ws
  {
    hide NextStep, Parse;
    if ws == [] {
      WaitingIsShort(buf);
    } else {
      var p := AfterWrite(buf, ws[0]);
      if ws[0].value != [] {
        RestWaits(buf + ws[0].value);
        WaitingOnNothing();
      }
      RoomForOneByte(p.rest, ws[1..]);
    }
  }

  /** A write that is not empty and does not begin at zero or does not fit empties the buffer. */
  lemma RefusedEmpties(buf: bytes, w: Write)
    requires w.value != [] && (w.offset != 0 || |buf| + |w.value| > 1024)
    ensures Run(buf, [w]) == Parsed([], [], true)
  {
    assert [w][1..] == [];
  }

  lemma WaitingOnNothing()
    ensures NextStep([]).Wait?
  {
  }

  lemma WaitingIsShort(s: bytes)
    requires NextStep(s).Wait?
    ensures |s| < RX_MAX
  {
    hide Join;
  }

  /** A frame header that announces 65542 bytes. */
  const TOO_LARGE: bytes := [0x4A, 0x4C, 0xFF, 0xFF]

  lemma TooLarge(t: bytes)
    ensures Parse(TOO_LARGE + t) == Parsed([], [], true)
  {
    JoinValue(0xFF, 0xFF);
    assert NextStep(TOO_LARGE).Reset?;
    StepStable(TOO_LARGE, t);
  }

  lemma OneFrame(f: bytes)
    requires f == Encode(0x1002, [])
    ensures Parse(f) == Parsed([Message(0x1002, [])], [], false)
  {
    EncodeDelivers(0x1002, [], []);
    WaitingOnNothing();
    hide Encode, NextStep;
    Seqs.Nil(f);
    Seqs.DropAll(f, []);
  }

  lemma RunCons(buf: bytes, w: Write, ws: seq<Write>)
    ensures Run(buf, [w] + ws).messages == AfterWrite(buf, w).messages + Run(AfterWrite(buf, w).rest, ws).messages
  {
    hide AfterWrite;
    Seqs.TailOfCons(w, ws);
  }

  lemma RunOne(v: bytes)
    requires 0 < |v| <= RX_MAX
    ensures Run([], [Write(0, v)]).messages == Parse(v).messages
  {
    hide Parse;
    Seqs.TailOfCons(Write(0, v), []);
    Seqs.Nil(v);
    Seqs.Nil(Parse(v).messages);
  }

  /** The hypothesis of chunk independence is needed: an impossible length drops whatever was
      received with it, so one write loses a frame that two writes deliver. */
  lemma ResetDependsOnChunks(f: bytes)
    requires f == Encode(0x1002, [])
    ensures Run([], [Write(0, TOO_LARGE + f)]).messages == []
    ensures Run([], [Write(0, TOO_LARGE)] + [Write(0, f)]).messages == [Message(0x1002, [])]
  {
    hide Encode, Parse, Run;
    TooLarge(f);
    TooLarge([]);
    OneFrame(f);
    RunOne(TOO_LARGE + f);
    RunOne(f);
    Seqs.Nil(TOO_LARGE);
    RunCons([], Write(0, TOO_LARGE), [Write(0, f)]);
  }

  // ---------- Sound frames ----------

  lemma EncodeSlices(cmd: bv16, data: bytes)
    requires |data| <= 65533
    ensures var f, c := Encode(cmd, data), Crc(Covered(cmd, data));
            && f[..6] == Head(cmd, |data|) && f[6..|f| - 3] == data
            && f[|f| - 3..] == [High(c), Low(c), 0xFF]
            && f[2..|f| - 3] == Covered(cmd, data)
            && f[2..|f| - 1] == Covered(cmd, data) + [High(c), Low(c)]
  {
    EncodeParts(cmd, data);
    hide Crc, High, Low, Head, Encode, Covered;
    var f, c := Encode(cmd, data), Crc(Covered(cmd, data));
    var h, n := Head(cmd, |data|), 6 + |data|;
    Seqs.DropAll(h + data, [High(c), Low(c), 0xFF]);
    Seqs.DropAll(h, data);
    Seqs.SliceOfSlice(f, n, 0, 6);
    Seqs.SliceOfSlice(f, n, 6, n);
    Seqs.SliceOfSlice(f, n, 2, n);
    Seqs.SliceTwo(f, 2, n);
  }

  lemma FirstBytes(f: bytes, h: bytes)
    requires |f| >= |h| == 6 && f[..6] == h
    ensures f[0] == h[0] && f[1] == h[1] && f[2] == h[2] && f[3] == h[3] && f[4] == h[4] && f[5] == h[5]
  {
  }

  lemma LastBytes(f: bytes, a: bv8, b: bv8, c: bv8)
    requires |f| >= 3 && f[|f| - 3..] == [a, b, c]
    ensures f[|f| - 3] == a && f[|f| - 2] == b && f[|f| - 1] == c
  {
    var t := f[|f| - 3..];
    assert t[0] == a && t[1] == b && t[2] == c;
  }

  lemma EncodeBytes(cmd: bv16, data: bytes)
    requires |data| <= 65533
    ensures var f, c := Encode(cmd, data), Crc(Covered(cmd, data));
            && f[0] == 0x4A && f[1] == 0x4C && f[2] == LengthHigh(2 + |data|) && f[3] == LengthLow(2 + |data|)
            && f[4] == High(cmd) && f[5] == Low(cmd)
            && f[|f| - 3] == High(c) && f[|f| - 2] == Low(c) && f[|f| - 1] == 0xFF
  {
    EncodeSlices(cmd, data);
    hide Crc, High, Low, LengthHigh, LengthLow, Encode, Covered;
    var f, c := Encode(cmd, data), Crc(Covered(cmd, data));
    FirstBytes(f, Head(cmd, |data|));
    LastBytes(f, High(c), Low(c), 0xFF);
  }

  lemma EncodeOuterShape(cmd: bv16, data: bytes)
    requires |data| + 9 <= RX_MAX
    ensures var f := Encode(cmd, data); IsBlock(f) && FrameSize(f) == |f| && SoundEnd(f, |f|)
  {
    EncodeBytes(cmd, data);
    LengthValue(2 + |data|);
    hide Join, High, Low, LengthHigh, LengthLow, Crc, Encode, Covered;
  }

  lemma EncodeInnerShape(cmd: bv16, data: bytes)
    requires |data| <= 65533
    ensures var f := Encode(cmd, data);
            && SoundCrc(f, |f|) && Content(f, |f|) == Message(cmd, data) && Crc(f[2..|f| - 1]) == 0
  {
    var c := Crc(Covered(cmd, data));
    JoinParts(c);
    JoinParts(cmd);
    hide Join, High, Low, LengthHigh, LengthLow, Crc, Encode, Covered, Head;
    EncodeSlices(cmd, data);
    EncodeBytes(cmd, data);
    CodeWord(Covered(cmd, data), High(c), Low(c));
  }

  lemma EncodeShape(cmd: bv16, data: bytes)
    requires |data| + 9 <= RX_MAX
    ensures var f := Encode(cmd, data);
            && IsBlock(f) && FrameSize(f) == |f| && SoundEnd(f, |f|) && SoundCrc(f, |f|)
            && Content(f, |f|) == Message(cmd, data)
            && Crc(f[2..|f| - 1]) == 0
  {
    hide Encode, Join, Crc, SoundCrc, SoundEnd, Content, IsBlock, FrameSize;
    EncodeOuterShape(cmd, data);
    EncodeInnerShape(cmd, data);
  }

  /** Decoding undoes encoding, whatever follows the frame. */
  lemma EncodeDelivers(cmd: bv16, data: bytes, t: bytes)
    requires |data| + 9 <= RX_MAX
    ensures NextStep(Encode(cmd, data) + t) == Deliver(|data| + 9, Message(cmd, data))
  {
    EncodeShape(cmd, data);
    var f := Encode(cmd, data);
    hide Encode, Join, Crc, SoundEnd, SoundCrc, Content;
    StepStable(f, t);
  }

  lemma SameByte(a: bv8, b: bv8)
    requires a as int == b as int
    ensures a == b
  {
  }

  /** Two bytes determine the word that they join to, and it determines them. */
  lemma JoinedBytes(hi: bv8, lo: bv8, c: bv16)
    requires Join(hi, lo) == c
    ensures hi == High(c) && lo == Low(c)
  {
  }

  /** The length field of a frame determines its two bytes. */
  lemma LengthBytes(hi: bv8, lo: bv8, n: nat)
    requires n < 0x1_0000 && Join(hi, lo) as int == n
    ensures hi == LengthHigh(n) && lo == LengthLow(n)
  {
    JoinValue(hi, lo);
    assert n / 256 == hi as int && n % 256 == lo as int;
    SameByte(hi, LengthHigh(n));
    SameByte(lo, LengthLow(n));
  }

  /** A frame is put together from its first bytes, its data and its last bytes. */
  lemma FrameParts(f: bytes)
    requires |f| >= 9
    ensures f == f[..6] + f[6..|f| - 3] + [f[|f| - 3], f[|f| - 2], f[|f| - 1]]
    ensures f[..6] == [f[0], f[1], f[2], f[3], f[4], f[5]]
    ensures f[2..|f| - 3] == (f[..6] + f[6..|f| - 3])[2..]
  {
  }

  /** The first bytes of a frame follow from its command and the length of its data. */
  lemma SoundHead(f: bytes)
    requires IsBlock(f) && |f| >= 9
    ensures [f[0], f[1], f[2], f[3], f[4], f[5]] == Head(Join(f[4], f[5]), |f| - 9)
  {
    JoinedBytes(f[4], f[5], Join(f[4], f[5]));
    LengthBytes(f[2], f[3], |f| - 7);
    hide Join, High, Low, LengthHigh, LengthLow;
  }

  lemma ContentParts(f: bytes)
    requires |f| >= 9
    ensures Content(f, |f|) == Message(Join(f[4], f[5]), f[6..|f| - 3])
  {
    hide Join;
  }

  /** A sound frame is the encoding of what it carries. */
  lemma SoundIsEncoded(f: bytes)
    requires IsBlock(f) && |f| >= 9 && SoundEnd(f, |f|) && SoundCrc(f, |f|)
    ensures |f| - 9 <= 65533 && f == Encode(Join(f[4], f[5]), f[6..|f| - 3])
  {
    hide Join, High, Low, Crc, Encode, Covered, Head, FrameSize;
    var cmd, data := Join(f[4], f[5]), f[6..|f| - 3];
    JoinedBytes(f[|f| - 3], f[|f| - 2], Crc(f[2..|f| - 3]));
    SoundHead(f);
    FrameParts(f);
    EncodeParts(cmd, data);
  }

  /** A frame at the front that is taken is sound by itself. */
  lemma FrontFrame(s: bytes)
    requires NextStep(s).Deliver?
    ensures var n := NextStep(s).size;
            && IsBlock(s[..n]) && SoundEnd(s[..n], n) && SoundCrc(s[..n], n)
            && NextStep(s).msg == Content(s[..n], n)
  {
    hide Crc, Join, SoundEnd, SoundCrc, Content;
    var n := NextStep(s).size;
    var f := s[..n];
    Seqs.Split(s, n);
    SameFrame(f, s[n..], n);
    SameSize(f, s[n..]);
  }

  /** The decoder delivers a command and data exactly when their encoding stands at the front. */
  lemma DeliversExactly(s: bytes, cmd: bv16, data: bytes)
    requires |data| + 9 <= RX_MAX
    ensures NextStep(s) == Deliver(|data| + 9, Message(cmd, data))
       <==> |data| + 9 <= |s| && s[..|data| + 9] == Encode(cmd, data)
  {
    hide Encode, NextStep, Crc, Join, Content, IsBlock;
    var n := |data| + 9;
    if n <= |s| && s[..n] == Encode(cmd, data) {
      EncodeDelivers(cmd, data, s[n..]);
      Seqs.Split(s, n);
    }
    if NextStep(s) == Deliver(n, Message(cmd, data)) {
      FrontFrame(s);
      SoundIsEncoded(s[..n]);
      ContentParts(s[..n]);
    }
  }

  // ---------- Errors in a frame ----------

  /** An error pattern for a frame that leaves its magic and length bytes alone. */
  predicate OnFrame(e: bytes, size: nat) {
    |e| == size >= 9 && e[0] == 0 && e[1] == 0 && e[2] == 0 && e[3] == 0
  }

  /** The error in the bytes from the length field to the CRC, as bits. */
  function CoveredBits(e: bytes): seq<bool>
    requires |e| >= 9
  {
    Bits(e[2..|e| - 1])
  }

  lemma XorZero(b: bv8)
    ensures b ^ 0 == b
  {
  }

  lemma ErrorKeepsBlock(c: bytes, e: bytes)
    requires IsBlock(c) && OnFrame(e, |c|) && SoundEnd(c, |c|)
    ensures IsBlock(XorBytes(c, e))
    ensures SoundEnd(XorBytes(c, e), |c|) <==> e[|c| - 1] == 0
  {
    hide Join;
    XorZero(c[0]);
    XorZero(c[1]);
    XorZero(c[2]);
    XorZero(c[3]);
    EndByte(e[|c| - 1]);
  }

  lemma ErrorInCrc(c: bytes, e: bytes)
    requires |c| == |e| >= 9 && Crc(c[2..|c| - 1]) == 0
    ensures SoundCrc(XorBytes(c, e), |c|) <==> Feed(0, CoveredBits(e)) == 0
  {
    hide Join, Crc, Feed, Bits;
    var f, n := XorBytes(c, e), |c|;
    assert f[2..n - 1] == XorBytes(c[2..n - 1], e[2..n - 1]);
    ErrorMissed(c[2..n - 1], e[2..n - 1]);
    CodeWord(f[2..n - 3], f[n - 3], f[n - 2]);
    assert f[2..n - 1] == f[2..n - 3] + [f[n - 3], f[n - 2]];
  }

  lemma DamagedShape(cmd: bv16, data: bytes, e: bytes)
    requires |data| + 9 <= RX_MAX && OnFrame(e, |data| + 9)
    ensures var f := XorBytes(Encode(cmd, data), e);
            && IsBlock(f)
            && (SoundEnd(f, |f|) <==> e[|e| - 1] == 0)
            && (SoundCrc(f, |f|) <==> Feed(0, CoveredBits(e)) == 0)
  {
    EncodeShape(cmd, data);
    hide Encode, Join, Crc, Feed, CoveredBits, XorBytes, IsBlock, SoundEnd, SoundCrc;
    ErrorKeepsBlock(Encode(cmd, data), e);
    ErrorInCrc(Encode(cmd, data), e);
  }

  lemma EndByte(e: bv8)
    ensures 0xFF ^ e == 0xFF <==> e == 0
  {
  }

  /** An error that the end byte or the CRC betrays. */
  predicate Betrayed(e: bytes)
    requires |e| >= 9
  {
    e[|e| - 1] != 0 || Feed(0, CoveredBits(e)) != 0
  }

  /** The receiver drops a damaged frame exactly when the error changes the end byte or is not a
      multiple of the generator polynomial, and otherwise dispatches the damaged contents. */
  lemma DamagedStep(cmd: bv16, data: bytes, e: bytes, t: bytes)
    requires |data| + 9 <= RX_MAX && OnFrame(e, |data| + 9)
    ensures var f := XorBytes(Encode(cmd, data), e);
            NextStep(f + t) == if Betrayed(e) then Drop(|f|) else Deliver(|f|, Content(f, |f|))
    ensures Betrayed(e) <==> e[|e| - 1] != 0 || !exists q :: TimesGenerator(q) == CoveredBits(e)
  {
    DamagedShape(cmd, data, e);
    ZeroIffMultiple(CoveredBits(e));
    var f := XorBytes(Encode(cmd, data), e);
    hide Encode, Join, Crc, Feed, XorBytes, CoveredBits, SoundEnd, SoundCrc;
    assert NextStep(f) == if Betrayed(e) then Drop(|f|) else Deliver(|f|, Content(f, |f|));
    StepStable(f, t);
  }

  /** Two wrong bits, a burst of at most sixteen bits, or an odd number of wrong bits. */
  ghost predicate Typical(w: seq<bool>) {
    || (exists i, j :: TwoSet(w, i, j))
    || ((exists p :: BurstAt(w, p)) && true in w)
    || Weight(w) % 2 == 1
  }

  lemma TypicalBetrayed(e: bytes)
    requires 9 <= |e| <= RX_MAX && Typical(CoveredBits(e))
    ensures Betrayed(e)
  {
    var w := CoveredBits(e);
    hide Feed, CoveredBits;
    if i, j :| TwoSet(w, i, j) {
      TwoBitDetected(w, i, j);
      assert |w| <= 8 * 1021;
    } else if Weight(w) % 2 == 1 {
      OddDetected(w);
    } else {
      var p :| BurstAt(w, p);
      BurstDetected(w, p);
    }
  }

  /** A frame with an error of two bits, a burst of at most sixteen bits or an error of odd weight in its
      command, payload or CRC is dropped, whatever its end byte and whatever follows it. */
  lemma GuaranteedErrors(cmd: bv16, data: bytes, e: bytes, t: bytes)
    requires |data| + 9 <= RX_MAX && OnFrame(e, |data| + 9) && Typical(CoveredBits(e))
    ensures NextStep(XorBytes(Encode(cmd, data), e) + t) == Drop(|data| + 9)
  {
    hide *;
    SameLength(cmd, data, e);
    TypicalBetrayed(e);
    DamagedStep(cmd, data, e, t);
  }

  lemma SameLength(cmd: bv16, data: bytes, e: bytes)
    requires |data| + 9 <= RX_MAX && OnFrame(e, |data| + 9)
    ensures |XorBytes(Encode(cmd, data), e)| == |data| + 9 && |e| == |data| + 9
  {
    hide Encode;
  }

  // ---------- Streams of frames, garbage and damage ----------

  /** Some garbage, and then a frame with an error pattern added to it. */
  datatype Segment = Segment(garbage: bytes, cmd: bv16, data: bytes, error: bytes)

  predicate NoMagic(g: bytes) {
    forall i {:trigger g[i]} :: 0 <= i < |g| - 1 ==> !(g[i] == 0x4A && g[i + 1] == 0x4C)
  }

  predicate NoError(e: bytes) { forall i :: 0 <= i < |e| ==> e[i] == 0 }

  predicate Proper(g: Segment) {
    && NoMagic(g.garbage) && |g.data| + 9 <= RX_MAX
    && OnFrame(g.error, |g.data| + 9) && (NoError(g.error) || Betrayed(g.error))
  }

  function Received(g: Segment): bytes
    requires Proper(g)
  {
    g.garbage + XorBytes(Encode(g.cmd, g.data), g.error)
  }

  function Stream(segs: seq<Segment>, tail: bytes): bytes
    requires forall g :: g in segs ==> Proper(g)
  {
    if segs == [] then tail else Received(segs[0]) + Stream(segs[1..], tail)
  }

  /** The messages of the undamaged frames, in order. */
  function Undamaged(segs: seq<Segment>): seq<Message> {
    if segs == [] then []
    else (if NoError(segs[0].error) then [Message(segs[0].cmd, segs[0].data)] else []) + Undamaged(segs[1..])
  }

  /** What stays of trailing garbage: at most one byte, which might begin a frame. */
  function Leftover(g: bytes): bytes { if |g| <= 1 then g else g[|g| - 1..] }

  lemma {:induction false} SkipGarbage(g: bytes, s: bytes)
    requires NoMagic(g) && |s| > 0 && s[0] == 0x4A
    ensures Parse(g + s) == Parse(s)
  {
    if g == [] {
      Seqs.Nil(s);
    } else {
      var u := g + s;
      assert u[1] == if |g| > 1 then g[1] else s[0];
      assert NextStep(u) == Skip;
      hide NextStep;
      Seqs.DropOfAppend(g, s, 1);
      SkipGarbage(g[1..], s);
    }
  }

  lemma {:induction false} SkipTail(g: bytes)
    requires NoMagic(g)
    ensures Parse(g) == Parsed([], Leftover(g), false)
  {
    if |g| > 1 {
      assert NextStep(g) == Skip;
      hide NextStep;
      SkipTail(g[1..]);
    }
  }

  lemma CleanXor(s: bytes, e: bytes)
    requires |e| == |s| && NoError(e)
    ensures XorBytes(s, e) == s
  {
    forall i | 0 <= i < |s| ensures s[i] ^ e[i] == s[i] {
      XorZero(s[i]);
    }
  }

  /** What the receive loop makes of a segment's frame. */
  lemma SegmentStep(g: Segment, s: bytes)
    requires Proper(g)
    ensures var f := XorBytes(Encode(g.cmd, g.data), g.error);
            && |f| >= 9 && f[0] == 0x4A
            && NextStep(f + s) == if NoError(g.error) then Deliver(|f|, Message(g.cmd, g.data)) else Drop(|f|)
  {
    DamagedShape(g.cmd, g.data, g.error);
    if NoError(g.error) {
      hide NextStep, Betrayed;
      CleanXor(Encode(g.cmd, g.data), g.error);
      EncodeDelivers(g.cmd, g.data, s);
    } else {
      hide NextStep, Encode, Betrayed;
      DamagedStep(g.cmd, g.data, g.error, s);
    }
  }

  lemma ParseFrame(f: bytes, s: bytes, sound: bool, m: Message)
    requires NextStep(f + s) == if sound then Deliver(|f|, m) else Drop(|f|)
    ensures Parse(f + s) == Parse(s).(messages := (if sound then [m] else []) + Parse(s).messages)
  {
    hide NextStep;
    Seqs.DropAll(f, s);
    Seqs.Nil(Parse(s).messages);
  }

  lemma ParseSegment(g: Segment, s: bytes)
    requires Proper(g)
    ensures Parse(Received(g) + s) == Parse(s).(messages := Undamaged([g]) + Parse(s).messages)
  {
    var f := XorBytes(Encode(g.cmd, g.data), g.error);
    SegmentStep(g, s);
    UndamagedOne(g);
    hide Encode, XorBytes, NextStep, NoError, Betrayed, OnFrame, Parse, Undamaged;
    Seqs.Associative(g.garbage, f, s);
    SkipGarbage(g.garbage, f + s);
    ParseFrame(f, s, NoError(g.error), Message(g.cmd, g.data));
  }

  lemma UndamagedOne(g: Segment)
    ensures Undamaged([g]) == if NoError(g.error) then [Message(g.cmd, g.data)] else []
  {
    hide NoError;
    Seqs.TailOfCons(g, []);
  }

  /** A stream of frames, some damaged, with garbage between and after them dispatches exactly the
      undamaged frames' commands and payloads, in order. */
  lemma {:induction false} ParseStream(segs: seq<Segment>, tail: bytes)
    requires (forall g :: g in segs ==> Proper(g)) && NoMagic(tail)
    ensures Parse(Stream(segs, tail)) == Parsed(Undamaged(segs), Leftover(tail), false)
  {
    hide Parse, Proper, NoMagic, NoError, Received;
    if segs == [] {
      SkipTail(tail);
    } else {
      ParseStream(segs[1..], tail);
      ParseSegment(segs[0], Stream(segs[1..], tail));
      UndamagedOne(segs[0]);
    }
  }

  /** The same through any writes that fit: decoding undoes encoding over whole sessions. */
  lemma SessionDispatches(ws: seq<Write>, segs: seq<Segment>, tail: bytes)
    requires (forall g :: g in segs ==> Proper(g)) && NoMagic(tail)
    requires Fits([], ws) && Joined(ws) == Stream(segs, tail)
    ensures Run([], ws) == Parsed(Undamaged(segs), Leftover(tail), false)
  {
    WaitingOnNothing();
    hide Proper, NoMagic, Stream, NextStep, Parse, Run, Fits;
    ParseStream(segs, tail);
    Seqs.Nil(Joined(ws));
    ChunkIndependence([], ws);
  }
}
