/** The amplitude gate in front of the voice activity detector: it opens on a loud frame and closes
    after a run of quiet ones. */
module VadGate {

  type Frame = seq<int>

  /** The thresholds and the hold count as configured; the product uses 8000, 800 and 8. */
  datatype Config = Config(open: int, close: int, hold: int)
  {
    function Close(): int { if close > open then open else close }

    function Hold(): nat { if hold < 1 then 1 else hold }
  }

  datatype Gate = Gate(open: bool, below: nat)

  const SHUT := Gate(false, 0)

  /** The absolute value of a 16-bit sample; the most negative one has none and gives the largest. */
  function AbsSample(v: int): int {
    if v >= 0 then v else if v == -32768 then 32767 else -v
  }

  /** The absolute value, in 16 bits. */
  lemma AbsIs(v: int)
    requires -32768 <= v <= 32767
    ensures 0 <= AbsSample(v) <= 32767
    ensures AbsSample(v) == v || AbsSample(v) == -v || (v == -32768 && AbsSample(v) == 32767)
  {
  }

  function Peak(frame: Frame): (peak: int)
    ensures peak >= 0
    ensures forall i :: 0 <= i < |frame| ==> AbsSample(frame[i]) <= peak
    ensures frame != [] ==> exists i :: 0 <= i < |frame| && AbsSample(frame[i]) == peak
    decreases |frame|
  {
    if frame == [] then 0
    else
      var front := Peak(frame[..|frame| - 1]);
      var last := AbsSample(frame[|frame| - 1]);
      if last > front then last else front
  }

  function Step(g: Gate, peak: int, c: Config): Gate {
    if g.open then
      if peak < c.Close() then
        if g.below + 1 >= c.Hold() then Gate(false, g.below + 1) else Gate(true, g.below + 1)
      else Gate(true, 0)
    else if peak >= c.open then Gate(true, 0)
    else g
  }

  function Silence(n: nat): Frame { seq(n, _ => 0) }

  /** The frame that the detector hears. */
  function Passed(g: Gate, frame: Frame): Frame { if g.open then frame else Silence(|frame|) }

  class GateFilter {
    const config: Config
    var gateOpen: bool
    var belowCloseFrames: nat

    function View(): Gate
      reads this
    {
      Gate(gateOpen, belowCloseFrames)
    }

    constructor (c: Config)
      ensures View() == SHUT && config == c
    {
      config := c;
      gateOpen := false;
      belowCloseFrames := 0;
    }

    /** What the uplink does to the gate when speech recognition has completed. */
    method Reset()
      modifies this
      ensures View() == SHUT
    {
      gateOpen := false;
      belowCloseFrames := 0;
    }

    /** `zh_audio_vad_gate_filter`; `out` has room for the frame. */
    method Filter(frame: Frame, out: array<int>) returns (isOpen: bool, peak: int)
      requires out.Length == |frame|
      modifies this, out
      ensures frame == [] ==> View() == old(View()) && !isOpen
      ensures frame != [] ==>
                && View() == Step(old(View()), Peak(frame), config)
                && peak == Peak(frame) && isOpen == View().open
                && out[..] == Passed(View(), frame)
    ensures forall i :: 0 <= i < |frame| ==> out[i] == if isOpen then frame[i] else 0
    {
      peak := 0;
      if |frame| == 0 {
        return false, 0;
      }
      var closeThreshold := config.close;
      var holdFrames := config.hold;
      if closeThreshold > config.open {
        closeThreshold := config.open;
      }
      if holdFrames < 1 {
        holdFrames := 1;
      }
      peak := LoudestSample(frame);
      if gateOpen {
        if peak < closeThreshold {
          belowCloseFrames := belowCloseFrames + 1;
          if belowCloseFrames >= holdFrames {
            gateOpen := false;
          }
        } else {
          belowCloseFrames := 0;
        }
      } else if peak >= config.open {
        gateOpen := true;
        belowCloseFrames := 0;
      }
      for i := 0 to |frame|
        modifies out
        invariant out[..i] == Passed(View(), frame)[..i]
      {
        out[i] := if gateOpen then frame[i] else 0;
      }
      assert out[..] == out[..|frame|];
      isOpen := gateOpen;
    }

    method LoudestSample(frame: Frame) returns (peak: int)
      ensures peak == Peak(frame)
    {
      peak := 0;
      for i := 0 to |frame|
        invariant peak == Peak(frame[..i])
      {
        assert frame[..i + 1][..i] == frame[..i];
        var absSample := AbsSample(frame[i]);
        if absSample > peak {
          peak := absSample;
        }
      }
      assert frame[..|frame|] == frame;
    }
  }

  // ---------- When the gate is open ----------

  /** The gate after frames with these peaks, since the last reset. */
  function After(peaks: seq<int>, c: Config): Gate
    decreases |peaks|
  {
    if peaks == [] then SHUT else Step(After(peaks[..|peaks| - 1], c), peaks[|peaks| - 1], c)
  }

  /** The frames from `j` up to but not including `k` all stay below the close threshold. */
  predicate Quiet(peaks: seq<int>, j: int, k: int, c: Config)
    requires 0 <= j <= k <= |peaks|
  {
    forall i :: j <= i < k ==> peaks[i] < c.Close()
  }

  /** A run of `hold` quiet frames begins at `j`. */
  predicate QuietRun(peaks: seq<int>, j: int, c: Config) {
    0 <= j && j + c.Hold() <= |peaks| && Quiet(peaks, j, j + c.Hold(), c)
  }

  /** Frame `i` reached the open threshold, and no later run of quiet frames lasted for the hold count. */
  predicate HeldOpenBy(peaks: seq<int>, i: int, c: Config) {
    && 0 <= i < |peaks| && peaks[i] >= c.open
    && forall j :: i < j < |peaks| ==> !QuietRun(peaks, j, c)
  }

  /** How many of the last frames were quiet, without interruption. */
  function Trail(peaks: seq<int>, c: Config): (n: nat)
    ensures n <= |peaks| && Quiet(peaks, |peaks| - n, |peaks|, c)
    ensures n < |peaks| ==> peaks[|peaks| - n - 1] >= c.Close()
    decreases |peaks|
  {
    if peaks == [] || peaks[|peaks| - 1] >= c.Close() then 0 else 1 + Trail(peaks[..|peaks| - 1], c)
  }

  lemma {:induction false} BelowIsTrail(peaks: seq<int>, c: Config)
    ensures After(peaks, c).open ==> After(peaks, c).below == Trail(peaks, c) < c.Hold()
    decreases |peaks|
  {
    if peaks != [] {
      BelowIsTrail(peaks[..|peaks| - 1], c);
    }
  }

  /** Quietness of a stretch does not depend on what comes after it. */
  lemma SameQuiet(before: seq<int>, x: int, j: int, k: int, c: Config)
    requires 0 <= j <= k <= |before|
    ensures Quiet(before, j, k, c) <==> Quiet(before + [x], j, k, c)
  {
    assert forall i :: j <= i < k ==> (before + [x])[i] == before[i];
  }

  lemma StillHeld(before: seq<int>, x: int, i: int, c: Config)
    requires HeldOpenBy(before, i, c) && Trail(before + [x], c) < c.Hold()
    ensures HeldOpenBy(before + [x], i, c)
  {
    var peaks := before + [x];
    assert peaks[|peaks| - Trail(peaks, c) - 1] >= c.Close();
    forall j | i < j < |before| + 1
      ensures !QuietRun(peaks, j, c)
    {
      if j + c.Hold() <= |before| {
        SameQuiet(before, x, j, j + c.Hold(), c);
        assert !QuietRun(before, j, c);
      }
    }
  }

  /** A frame that holds the gate open after one more frame held it open before, or is that frame. */
  lemma WasHeld(before: seq<int>, x: int, i: int, c: Config)
    requires HeldOpenBy(before + [x], i, c)
    ensures i < |before| ==> HeldOpenBy(before, i, c)
  {
    forall j | i < j < |before| + 1
      ensures !QuietRun(before, j, c)
    {
      assert !QuietRun(before + [x], j, c);
      if 0 <= j && j + c.Hold() <= |before| {
        SameQuiet(before, x, j, j + c.Hold(), c);
      }
    }
  }

  /** After a long enough quiet stretch no earlier frame holds the gate open. */
  lemma QuietCloses(peaks: seq<int>, i: int, c: Config)
    requires Trail(peaks, c) >= c.Hold()
    ensures !HeldOpenBy(peaks, i, c)
  {
    var j := |peaks| - c.Hold();
    assert QuietRun(peaks, j, c);
  }

  /** The gate is open exactly when some frame since the last reset reached the open threshold and no
      later run of `hold` frames stayed below the close threshold. */
  lemma {:induction false} OpenIff(peaks: seq<int>, c: Config)
    ensures After(peaks, c).open <==> exists i :: HeldOpenBy(peaks, i, c)
    decreases |peaks|
  {
    if peaks != [] {
      var before, x := peaks[..|peaks| - 1], peaks[|peaks| - 1];
      assert peaks == before + [x];
      OpenIff(before, c);
      BelowIsTrail(before, c);
      BelowIsTrail(peaks, c);
      hide HeldOpenBy;
      if After(peaks, c).open {
        if After(before, c).open {
          var i :| HeldOpenBy(before, i, c);
          StillHeld(before, x, i, c);
        } else {
          OpensNow(before, x, c);
        }
      } else {
        forall i ensures !HeldOpenBy(peaks, i, c) {
          if After(before, c).open {
            QuietCloses(peaks, i, c);
          } else if HeldOpenBy(peaks, i, c) {
            WasHeld(before, x, i, c);
            HeldIndex(peaks, i, c);
          }
        }
      }
    }
  }

  lemma OpensNow(before: seq<int>, x: int, c: Config)
    requires x >= c.open
    ensures HeldOpenBy(before + [x], |before|, c)
  {
  }

  lemma HeldIndex(peaks: seq<int>, i: int, c: Config)
    requires HeldOpenBy(peaks, i, c)
    ensures 0 <= i < |peaks| && peaks[i] >= c.open
  {
  }

  // ---------- The thresholds and the hold count ----------

  lemma AfterSnoc(peaks: seq<int>, x: int, c: Config)
    ensures After(peaks + [x], c) == Step(After(peaks, c), x, c)
  {
    assert (peaks + [x])[..|peaks|] == peaks;
  }

  /** Hysteresis: a frame that reaches the close threshold, or the open one where that is smaller, keeps an open
      gate open and ends its quiet stretch; only one that reaches the open threshold opens a closed gate. */
  lemma Hysteresis(peaks: seq<int>, x: int, c: Config)
    ensures var g, h := After(peaks, c), After(peaks + [x], c);
            && (g.open && (x >= c.close || x >= c.open) ==> h == Gate(true, 0))
            && (g.open && !h.open ==> x < c.close && x < c.open)
            && (!g.open ==> (h.open <==> x >= c.open))
  {
    AfterSnoc(peaks, x, c);
  }

  /** After a frame that keeps the gate open, a quiet stretch closes it with its frame number `hold`, or with
      its first one where the hold count is less than one, and it stays closed. */
  lemma {:induction false} ClosesAfterHold(peaks: seq<int>, quiet: seq<int>, c: Config)
    requires After(peaks, c) == Gate(true, 0)
    requires forall i :: 0 <= i < |quiet| ==> quiet[i] < c.close && quiet[i] < c.open
    ensures var g := After(peaks + quiet, c);
            && (g.open <==> |quiet| < c.hold || quiet == [])
            && (g.open ==> g.below == |quiet|)
    decreases |quiet|
  {
    if quiet == [] {
      assert peaks + quiet == peaks;
    } else {
      var front, x := quiet[..|quiet| - 1], quiet[|quiet| - 1];
      ClosesAfterHold(peaks, front, c);
      assert peaks + quiet == peaks + front + [x];
      AfterSnoc(peaks + front, x, c);
    }
  }
}
