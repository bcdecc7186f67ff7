/** The receiving side of the BLE provisioning link: a pure parser of byte streams, and the
    incremental decoder over a fixed buffer that refines it. */
module BleReceiver {
  import opened Crc16
  import opened BleFrames
  import Seqs

  /** The messages dispatched, the bytes kept, and whether an impossible length was met. */
  datatype Parsed = Parsed(messages: seq<Message>, rest: bytes, reset: bool)

  /** The pure parser: take steps until the bytes run out. */
  function Parse(s: bytes): Parsed
    decreases |s|
  {
    match NextStep(s)
    case Wait => Parsed([], s, false)
    case Skip => Parse(s[1..])
    case Reset => Parsed([], [], true)
    case Drop(n) => Parse(s[n..])
    case Deliver(n, m) =>
      var p := Parse(s[n..]);
      p.(messages := [m] + p.messages)
  }

  // ---------- Bytes that come later do not change a step already possible ----------

  lemma SameSize(s: bytes, t: bytes)
    requires |s| >= 4
    ensures FrameSize(s + t) == FrameSize(s)
  {
    hide Join;
  }

  lemma SameFrame(s: bytes, t: bytes, n: nat)
    requires 7 <= n <= |s|
    ensures SoundEnd(s + t, n) == SoundEnd(s, n)
    ensures SoundCrc(s + t, n) == SoundCrc(s, n)
    ensures Content(s + t, n) == Content(s, n)
  {
    hide Join, Crc;
    Seqs.SliceOfAppend(s, t, 2, n - 3);
    if n > 9 {
      Seqs.SliceOfAppend(s, t, 6, n - 3);
    }
  }

  lemma StepStable(s: bytes, t: bytes)
    requires !NextStep(s).Wait?
    ensures NextStep(s + t) == NextStep(s)
  {
    hide FrameSize, SoundEnd, SoundCrc, Content;
    if |s| >= 4 {
      SameSize(s, t);
      if 7 <= FrameSize(s) <= |s| {
        SameFrame(s, t, FrameSize(s));
      }
    }
  }

  /** `t` continues a parse that kept the bytes `rest`. */
  function Continue(p: Parsed, t: bytes): Parsed {
    var q := Parse(p.rest + t);
    q.(messages := p.messages + q.messages)
  }

  /** Parsing a stream in two parts, the first of which meets no impossible length. */
  lemma {:induction false} ParseAppend(s: bytes, t: bytes)
    requires !Parse(s).reset
    ensures Parse(s + t) == Continue(Parse(s), t)
    decreases |s|
  {
    if !NextStep(s).Wait? {
      StepStable(s, t);
      hide NextStep;
      match NextStep(s) {
        case Skip => ParseAppendAfter(s, t, 1);
        case Drop(n) => ParseAppendAfter(s, t, n);
        case Deliver(n, m) =>
          ParseAppendAfter(s, t, n);
          Seqs.Associative([m], Parse(s[n..]).messages, Parse(Parse(s).rest + t).messages);
      }
    }
  }

  lemma {:induction false} ParseAppendAfter(s: bytes, t: bytes, n: nat)
    requires 1 <= n <= |s| && !Parse(s[n..]).reset
    ensures Parse((s + t)[n..]) == Continue(Parse(s[n..]), t)
    decreases |s|, 0
  {
    Seqs.DropOfAppend(s, t, n);
    ParseAppend(s[n..], t);
  }

  // ---------- What may remain between writes ----------

  /** A byte string with the outer shape of a frame, whatever its contents. */
  predicate IsBlock(f: bytes) {
    |f| >= 7 && AtMagic(f) && |f| == FrameSize(f) <= RX_MAX
  }

  lemma {:induction false} RestWaits(s: bytes)
    ensures NextStep(Parse(s).rest).Wait? && |Parse(s).rest| <= |s|
    decreases |s|
  {
    match NextStep(s) {
      case Wait =>
      case Reset =>
      case Skip => RestWaits(s[1..]);
      case Drop(n) => RestWaits(s[n..]);
      case Deliver(n, _) => RestWaits(s[n..]);
    }
  }

  /** The bytes kept are fewer than the buffer holds, so a write of one byte always fits. */
  lemma RestIsShort(s: bytes)
    ensures |Parse(s).rest| < RX_MAX
  {
    hide Join;
    RestWaits(s);
  }

  /** A header whose first length byte already makes the frame too large. */
  predicate Doomed(s: bytes) { |s| == 3 && AtMagic(s) && (s[2] as int) * 256 + 7 > RX_MAX }

  /** The loop waits exactly on the proper prefixes of frames, on a single stray byte, and on the
      first three bytes of a frame that will turn out too large. */
  lemma WaitsOnPrefix(s: bytes)
    ensures NextStep(s).Wait? <==> (exists t :: t != [] && IsBlock(s + t)) || (|s| == 1 && s[0] != 0x4A) || Doomed(s)
  {
    hide Crc;
    if NextStep(s).Wait? && !(|s| == 1 && s[0] != 0x4A) && !Doomed(s) {
      var t := Completion(s);
      assert t != [] && IsBlock(s + t);
    }
    if t :| t != [] && IsBlock(s + t) {
      PrefixWaits(s, t);
    }
  }

  lemma PrefixWaits(s: bytes, t: bytes)
    requires t != [] && IsBlock(s + t)
    ensures NextStep(s).Wait?
  {
    hide Join;
    var f := s + t;
    assert |s| >= 4 ==> FrameSize(s) == FrameSize(f);
    assert |s| >= 2 ==> AtMagic(s);
  }

  lemma Completion(s: bytes) returns (t: bytes)
    requires NextStep(s).Wait? && !(|s| == 1 && s[0] != 0x4A) && !Doomed(s)
    ensures t != [] && IsBlock(s + t)
  {
    if |s| >= 4 {
      hide Join;
      t := seq(FrameSize(s) - |s|, _ => 0);
      assert FrameSize(s + t) == FrameSize(s);
    } else {
      var hi: bv8 := if |s| == 3 then s[2] else 0;
      var f := [0x4A, 0x4C, hi, 0];
      JoinValue(hi, 0);
      assert FrameSize(f) == (hi as int) * 256 + 7;
      hide Join;
      var pad := seq(FrameSize(f) - 4, _ => 0);
      assert FrameSize(f + pad) == FrameSize(f);
      assert s == (f + pad)[..|s|];
      t := (f + pad)[|s|..];
      assert s + t == f + pad;
    }
  }

  // ---------- The decoder over the buffer ----------

  /** Parsing `start` amounts to dispatching `done` and then parsing `s`. */
  ghost predicate Progress(start: bytes, done: seq<Message>, s: bytes) {
    Parse(start) == Parse(s).(messages := done + Parse(s).messages)
  }

  lemma Advance(start: bytes, done: seq<Message>, s: bytes)
    requires Progress(start, done, s)
    ensures |s| < 2 ==> Parse(start) == Parsed(done, s, false)
    ensures |s| >= 2 && !AtMagic(s) ==> Progress(start, done, s[1..])
    ensures 2 <= |s| < 4 && AtMagic(s) ==> Parse(start) == Parsed(done, s, false)
    ensures |s| >= 4 && AtMagic(s) ==>
              var n := FrameSize(s);
              && (n > RX_MAX ==> Parse(start) == Parsed(done, [], true))
              && (|s| < n <= RX_MAX ==> Parse(start) == Parsed(done, s, false))
              && (n <= RX_MAX && n <= |s| ==> Progress(start, done + Dispatched(NextStep(s)), s[n..]))
  {
    hide SoundEnd, SoundCrc, Content, FrameSize;
    if NextStep(s).Deliver? {
      Seqs.Associative(done, [NextStep(s).msg], Parse(s[NextStep(s).size..]).messages);
    } else {
      Seqs.Nil(done);
    }
  }

  /** The message that a step dispatches, if any. */
  function Dispatched(step: Step): seq<Message> {
    if step.Deliver? then [step.msg] else []
  }

  class WifiLink {
    const rxBuf: array<bv8>
    var rxLen: nat
    /** The calls made to the command handler, in order. */
    var handled: seq<Message>

    ghost predicate Valid()
      reads this
    {
      rxBuf.Length == RX_MAX && rxLen <= RX_MAX
    }

    /** The bytes received and not yet consumed. */
    ghost function Pending(): bytes
      reads this, rxBuf
      requires Valid()
    {
      rxBuf[..rxLen]
    }

    constructor ()
      ensures Valid() && fresh(rxBuf)
      ensures Pending() == [] && handled == []
    {
      rxBuf := new bv8[RX_MAX];
      rxLen := 0;
      handled := [];
    }

    /** Moves the bytes after the first `n` to the front of the buffer. */
    method Consume(n: nat)
      requires Valid() && n <= rxLen
      modifies this`rxLen, rxBuf
      ensures Valid() && Pending() == old(Pending())[n..]
    {
      for i := 0 to rxLen - n
        modifies rxBuf
        invariant rxBuf[..i] == old(rxBuf[n..n + i])
        invariant rxBuf[i..] == old(rxBuf[i..])
      {
        rxBuf[i] := rxBuf[i + n];
      }
      rxLen := rxLen - n;
    }

    /** `wifi_process_frames`. */
    method ProcessFrames()
      requires Valid()
      modifies this, rxBuf
      ensures Valid()
      ensures Pending() == Parse(old(Pending())).rest
      ensures handled == old(handled) + Parse(old(Pending())).messages
    {
      ghost var start := Pending();
      ghost var done: seq<Message> := [];
      assert Progress(start, done, start);
      hide Parse, Progress, Join, NextStep, Dispatched;
      while rxLen >= 2
        invariant Valid()
        invariant handled == old(handled) + done
        invariant Progress(start, done, Pending())
        decreases rxLen
      {
        ghost var s := Pending();
        Advance(start, done, s);
        if !(rxBuf[0] == 0x4A && rxBuf[1] == 0x4C) {
          Consume(1);
          continue;
        }
        if rxLen < 4 {
          return;
        }
        var frameLen := Join(rxBuf[2], rxBuf[3]) as nat + 7;
        assert frameLen == FrameSize(s);
        if frameLen > RX_MAX {
          rxLen := 0;
          return;
        }
        if rxLen < frameLen {
          return;
        }
        done := done + Dispatched(NextStep(s));
        TakeFrame(frameLen);
      }
      Advance(start, done, Pending());
    }

    /** The end of the loop body: the checks on a complete frame, its dispatch and its removal. */
    method TakeFrame(frameLen: nat)
      requires Valid() && 7 <= frameLen <= rxLen && frameLen == FrameSize(Pending()) && AtMagic(Pending())
      modifies this, rxBuf
      ensures Valid() && Pending() == old(Pending())[frameLen..]
      ensures handled == old(handled) + Dispatched(NextStep(old(Pending())))
    {
      hide Join, SoundCrc, Content;
      if rxBuf[frameLen - 1] != 0xFF {
        Consume(frameLen);
        return;
      }
      var sound := CheckCrc(frameLen);
      if !sound {
        Consume(frameLen);
        return;
      }
      var msg := ReadContent(frameLen);
      handled := handled + [msg];
      Consume(frameLen);
    }

    /** The comparison of the CRC of a frame with the one it carries. */
    method CheckCrc(frameLen: nat) returns (sound: bool)
      requires Valid() && 7 <= frameLen <= rxLen
      ensures sound == SoundCrc(Pending(), frameLen)
    {
      hide Join, Crc;
      var crcExpect := Join(rxBuf[frameLen - 3], rxBuf[frameLen - 2]);
      var crcActual := Crc16Xmodem(rxBuf, 2, frameLen - 5);
      Seqs.SliceOfSlice(rxBuf[..], rxLen, 2, frameLen - 3);
      assert rxBuf[..][..rxLen] == Pending();
      sound := crcExpect == crcActual;
    }

    method ReadContent(frameLen: nat) returns (msg: Message)
      requires Valid() && 7 <= frameLen <= rxLen
      ensures msg == Content(Pending(), frameLen)
    {
      hide Join;
      var payloadPlusCmd := frameLen - 7;
      var payload: bytes := [];
      if payloadPlusCmd > 2 {
        payload := rxBuf[6..6 + (payloadPlusCmd - 2)];
        Seqs.SliceOfSlice(rxBuf[..], rxLen, 6, frameLen - 3);
        assert rxBuf[..][..rxLen] == Pending();
      }
      msg := Message(Join(rxBuf[4], rxBuf[5]), payload);
    }

    /** `wifi_write_cb`, for a write of `value` at `offset`. */
    method WriteCb(offset: nat, value: bytes)
      requires Valid()
      modifies this, rxBuf
      ensures Valid()
      ensures Pending() == AfterWrite(old(Pending()), Write(offset, value)).rest
      ensures handled == old(handled) + AfterWrite(old(Pending()), Write(offset, value)).messages
    {
      if |value| == 0 {
        return;
      }
      if offset == 0 && rxLen + |value| <= RX_MAX {
        ghost var had := Pending();
        for i := 0 to |value|
          modifies rxBuf
          invariant rxBuf[..rxLen] == had
          invariant rxBuf[rxLen..rxLen + i] == value[..i]
        {
          rxBuf[rxLen + i] := value[i];
        }
        rxLen := rxLen + |value|;
        assert value[..|value|] == value;
        assert Pending() == rxBuf[..rxLen - |value|] + rxBuf[rxLen - |value|..rxLen] == had + value;
        ProcessFrames();
      } else {
        rxLen := 0;
      }
    }
  }

  /** One write of the characteristic. */
  datatype Write = Write(offset: nat, value: bytes)

  predicate Accepted(buf: bytes, w: Write) {
    w.offset == 0 && |buf| + |w.value| <= RX_MAX
  }

  /** What one write dispatches and leaves, when the bytes `buf` were pending. */
  function AfterWrite(buf: bytes, w: Write): Parsed {
    if w.value == [] then Parsed([], buf, false)
    else if Accepted(buf, w) then Parse(buf + w.value)
    else Parsed([], [], true)
  }
}
