/** The frames of the BLE provisioning link: the notification encoder, and the decision the
    receiver takes on the bytes it holds. */
module BleFrames {
  import opened ShiftRegister
  import opened Crc16
  import opened Options
  import Seqs

  /** Capacity of the receive buffer. */
  const RX_MAX := 1024

  /** Capacity of the packet buffer of the encoder. */
  const PKT_MAX := 768

  /** What a frame carries: the command and the bytes after it. */
  datatype Message = Message(cmd: bv16, payload: bytes)

  /** What the receive loop does with the bytes it holds. */
  datatype Step =
    | Wait                              // too few bytes to decide
    | Skip                              // not at a frame: drop one byte
    | Reset                             // impossible length: drop everything
    | Drop(size: nat)                   // a damaged frame
    | Deliver(size: nat, msg: Message)  // a sound frame

  predicate AtMagic(s: bytes) { |s| >= 2 && s[0] == 0x4A && s[1] == 0x4C }

  /** The size of the frame that starts here, from its length field. */
  function FrameSize(s: bytes): nat
    requires |s| >= 4
  {
    Join(s[2], s[3]) as nat + 7
  }

  /** The command and payload of the frame of `n` bytes at the start of `s`. */
  function Content(s: bytes, n: nat): Message
    requires 7 <= n <= |s|
  {
    Message(Join(s[4], s[5]), if n > 9 then s[6..n - 3] else [])
  }

  predicate SoundEnd(s: bytes, n: nat)
    requires 7 <= n <= |s|
  {
    s[n - 1] == 0xFF
  }

  predicate SoundCrc(s: bytes, n: nat)
    requires 7 <= n <= |s|
  {
    Join(s[n - 3], s[n - 2]) == Crc(s[2..n - 3])
  }

  function NextStep(s: bytes): (step: Step)
    ensures step.Drop? || step.Deliver? ==> 7 <= step.size <= |s|
    ensures step.Skip? || step.Reset? ==> |s| >= 2
  {
    if |s| < 2 then Wait
    else if !AtMagic(s) then Skip
    else if |s| < 4 then Wait
    else
      var n := FrameSize(s);
      if n > RX_MAX then Reset
      else if |s| < n then Wait
      else if !SoundEnd(s, n) then Drop(n)
      else if !SoundCrc(s, n) then Drop(n)
      else Deliver(n, Content(s, n))
  }

  // ---------- Encoding ----------

  /** The byte of value `n`. */
  function ByteOf(n: nat): (b: bv8)
    requires n < 256
    ensures b as int == n
  {
    if n == 0 then 0 else ByteOf(n - 1) + 1
  }

  lemma JoinValue(hi: bv8, lo: bv8)
    ensures Join(hi, lo) as int == (hi as int) * 256 + lo as int
  {
    var w := ((hi as bv16) << 8) | (lo as bv16);
    WordValue(w);
    assert (w >> 8) as bv8 == hi;
    assert (w & 0xFF) as bv8 == lo;
  }

  lemma WordValue(w: bv16)
    ensures ((w >> 8) as bv8) as int * 256 + ((w & 0xFF) as bv8) as int == w as int
  {
  }

  /** The upper and the lower byte of a length. */
  function LengthHigh(n: nat): bv8
    requires n < 0x1_0000
  {
    ByteOf(n / 256)
  }

  function LengthLow(n: nat): bv8
    requires n < 0x1_0000
  {
    ByteOf(n % 256)
  }

  lemma LengthValue(n: nat)
    requires n < 0x1_0000
    ensures Join(LengthHigh(n), LengthLow(n)) as int == n
  {
    JoinValue(ByteOf(n / 256), ByteOf(n % 256));
  }

  /** The part of a frame that its CRC covers: length, command and data. */
  function Covered(cmd: bv16, data: bytes): bytes
    requires |data| <= 65533
  {
    [LengthHigh(2 + |data|), LengthLow(2 + |data|), High(cmd), Low(cmd)] + data
  }

  function Encode(cmd: bv16, data: bytes): (frame: bytes)
    requires |data| <= 65533
    ensures |frame| == |data| + 9
  {
    var covered := Covered(cmd, data);
    [0x4A, 0x4C] + covered + [High(Crc(covered)), Low(Crc(covered)), 0xFF]
  }

  /** The bytes of a frame before its data. */
  function Head(cmd: bv16, len: nat): (h: bytes)
    requires len <= 65533
    ensures |h| == 6
  {
    [0x4A, 0x4C, LengthHigh(2 + len), LengthLow(2 + len), High(cmd), Low(cmd)]
  }

  lemma EncodeParts(cmd: bv16, data: bytes)
    requires |data| <= 65533
    ensures (Head(cmd, |data|) + data)[2..] == Covered(cmd, data)
    ensures Encode(cmd, data)
         == Head(cmd, |data|) + data + [High(Crc(Covered(cmd, data))), Low(Crc(Covered(cmd, data))), 0xFF]
  {
    hide Crc, High, Low, LengthHigh, LengthLow;
    var h, c := Head(cmd, |data|), Covered(cmd, data);
    var length := h[2..];
    assert h == [0x4A, 0x4C] + length;
    Seqs.DropOfAppend(h, data, 2);
    assert length + data == c;
    Seqs.Associative([0x4A, 0x4C], length, data);
  }

  /** The header and the data, written into the packet buffer. */
  method PutHeadAndData(pkt: array<bv8>, cmd: bv16, data: bytes)
    requires |data| <= 65533 && pkt.Length >= 6 + |data|
    modifies pkt
    ensures pkt[..6 + |data|] == Head(cmd, |data|) + data
  {
    hide High, Low, LengthHigh, LengthLow;
    pkt[0] := 0x4A;
    pkt[1] := 0x4C;
    pkt[2] := LengthHigh(2 + |data|);
    pkt[3] := LengthLow(2 + |data|);
    pkt[4] := High(cmd);
    pkt[5] := Low(cmd);
    ghost var head := pkt[..6];
    assert head == Head(cmd, |data|);
    hide Head;
    for i := 0 to |data|
      invariant pkt[..6] == head && pkt[6..6 + i] == data[..i]
    {
      pkt[6 + i] := data[i];
    }
    assert pkt[..6 + |data|] == pkt[..6] + pkt[6..6 + |data|];
  }

  /** The whole frame, written into the packet buffer. */
  method PutFrame(pkt: array<bv8>, cmd: bv16, data: bytes)
    requires |data| + 9 <= pkt.Length <= PKT_MAX
    modifies pkt
    ensures pkt[..|data| + 9] == Encode(cmd, data)
  {
    EncodeParts(cmd, data);
    hide Crc, High, Low, Head, Covered, Encode;
    PutHeadAndData(pkt, cmd, data);
    Seqs.SliceOfSlice(pkt[..], 6 + |data|, 2, 6 + |data|);
    var crc := Crc16Xmodem(pkt, 2, 2 + |data| + 2);
    ghost var filled := pkt[..6 + |data|];
    pkt[6 + |data|] := High(crc);
    pkt[7 + |data|] := Low(crc);
    pkt[8 + |data|] := 0xFF;
    assert pkt[..6 + |data|] == filled;
    Seqs.SliceTwo(pkt[..], 0, 6 + |data|);
    Seqs.SliceSnoc(pkt[..], 0, 8 + |data|);
    Seqs.Associative(filled, [High(crc), Low(crc)], [0xFF]);
  }

  /** `send_wifi_notify_packet`: the frame handed to the GATT layer, if one is. */
  method SendNotify(enabled: bool, cmd: bv16, data: bytes, mtu: nat) returns (sent: Option<bytes>)
    requires |data| <= 65533
    ensures sent == if enabled && |data| + 9 <= PKT_MAX && |data| + 9 <= (if mtu < 23 then 23 else mtu) - 3
                    then Some(Encode(cmd, data)) else None
  {
    hide Encode;
    if !enabled {
      return None;
    }
    var payloadLen := 2 + |data|;
    var frameLen := payloadLen + 7;
    if frameLen > PKT_MAX {
      return None;
    }
    var pkt := new bv8[PKT_MAX];
    PutFrame(pkt, cmd, data);
    var limit := if mtu < 23 then 23 else mtu;
    if frameLen > limit - 3 {
      return None;
    }
    return Some(pkt[..frameLen]);
  }
}
