/** The music player's linear resampler, in exact arithmetic: the position in the input is the
    fraction `num / outRate`, where the program keeps a double. */
module Resampler {

  const SAMPLE_MIN := -32768
  const SAMPLE_MAX := 32767

  predicate IsSample(v: int) { SAMPLE_MIN <= v <= SAMPLE_MAX }

  /** Division that truncates toward zero, as a C cast to an integer type does. */
  function Trunc(n: int, d: nat): int
    requires d > 0
  {
    if n >= 0 then n / d else -((-n) / d)
  }

  function Min(a: nat, b: nat): (m: nat)
    ensures m <= a && m <= b && (m == a || m == b)
  {
    if a < b then a else b
  }

  /** How many output frames begin before the end of the input: `n * outRate / inRate`, rounded up. */
  function FramesOut(n: nat, inRate: nat, outRate: nat): nat
    requires inRate > 0
  {
    (n * outRate + inRate - 1) / inRate
  }

  /** The value on the straight line from `s0` to `s1` that is `rem / d` of the way along. */
  function Mix(s0: int, s1: int, rem: nat, d: nat): int
    requires rem < d
  {
    Trunc((d - rem) * s0 + rem * s1, d)
  }

  /** Sample `ch` of frame `i`. */
  function At(pcm: seq<int>, channels: nat, i: nat, ch: nat): int
    requires ch < channels && (i + 1) * channels <= |pcm|
  {
    InFrame(i, channels, ch);
    pcm[i * channels + ch]
  }

  lemma InFrame(i: nat, channels: nat, ch: nat)
    requires ch < channels
    ensures i * channels + ch < (i + 1) * channels
  {
  }

  lemma FramesOrdered(i: nat, n: nat, channels: nat)
    requires i < n
    ensures (i + 1) * channels <= n * channels
  {
    assert n * channels - (i + 1) * channels == (n - (i + 1)) * channels;
  }

  /** The frame after `i`, or `i` itself at the end of the input. */
  function After(i: nat, n: nat): nat { if i + 1 < n then i + 1 else i }

  /** Sample `ch` of output frame `k`. */
  function Resampled(pcm: seq<int>, n: nat, channels: nat, inRate: nat, outRate: nat, k: nat, ch: nat): int
    requires ch < channels && n * channels <= |pcm| && outRate > 0 && k * inRate / outRate < n
  {
    var i := k * inRate / outRate;
    FramesOrdered(i, n, channels);
    FramesOrdered(After(i, n), n, channels);
    Mix(At(pcm, channels, i, ch), At(pcm, channels, After(i, n), ch), k * inRate % outRate, outRate)
  }

  // ---------- What the mixture is ----------

  lemma Cancel(a: int, b: int, d: nat)
    requires d > 0
    ensures a * d <= b * d <==> a <= b
    ensures a * d < b * d <==> a < b
  {
  }

  lemma TruncBetween(n: int, d: nat, lo: int, hi: int)
    requires d > 0 && lo * d <= n <= hi * d
    ensures lo <= Trunc(n, d) <= hi
  {
    if n >= 0 {
      DivBetween(n, d, lo, hi);
    } else {
      assert -hi * d == -(hi * d) && -lo * d == -(lo * d);
      DivBetween(-n, d, -hi, -lo);
    }
  }

  lemma DivBetween(n: nat, d: nat, lo: int, hi: int)
    requires d > 0 && lo * d <= n <= hi * d
    ensures lo <= n / d <= hi
  {
    var q := n / d;
    DivBounds(n, d);
    Cancel(lo, q + 1, d);
    Cancel(q, hi, d);
  }

  lemma DivBounds(n: nat, d: nat)
    requires d > 0
    ensures n / d * d <= n < (n / d + 1) * d
  {
  }

  /** Every output sample lies between its two neighbours, so it is a sample and no clamp is needed. */
  lemma MixBetween(s0: int, s1: int, rem: nat, d: nat)
    requires rem < d
    ensures s0 <= s1 ==> s0 <= Mix(s0, s1, rem, d) <= s1
    ensures s1 <= s0 ==> s1 <= Mix(s0, s1, rem, d) <= s0
    ensures IsSample(s0) && IsSample(s1) ==> IsSample(Mix(s0, s1, rem, d))
  {
    var n := (d - rem) * s0 + rem * s1;
    assert n == s0 * d + rem * (s1 - s0) == s1 * d - (d - rem) * (s1 - s0);
    if s0 <= s1 {
      assert rem * (s1 - s0) >= 0 && (d - rem) * (s1 - s0) >= 0;
      TruncBetween(n, d, s0, s1);
    } else {
      assert rem * (s0 - s1) >= 0 && (d - rem) * (s0 - s1) >= 0;
      TruncBetween(n, d, s1, s0);
    }
  }

  lemma TruncMultiple(s: int, d: nat)
    requires d > 0
    ensures Trunc(s * d, d) == s
  {
    TruncBetween(s * d, d, s, s);
  }

  /** An output frame that falls on an input frame is that frame. */
  lemma MixAtFrame(s0: int, s1: int, d: nat)
    requires d > 0
    ensures Mix(s0, s1, 0, d) == s0
  {
    TruncMultiple(s0, d);
  }

  /** Frame `i` lies on the line that starts at `a`. */
  predicate OnLine(pcm: seq<int>, channels: nat, ch: nat, a: int, slope: int, i: nat)
    requires ch < channels
  {
    (i + 1) * channels <= |pcm| && At(pcm, channels, i, ch) == a + slope * i
  }

  /** A signal that is a straight line stays that line: output frame `k` has its value at time
      `k * inRate / outRate`, truncated. */
  lemma LineStaysLine(pcm: seq<int>, n: nat, channels: nat, inRate: nat, outRate: nat, k: nat, ch: nat,
                      a: int, slope: int)
    requires ch < channels && n * channels <= |pcm| && outRate > 0 && k * inRate / outRate + 1 < n
    requires forall i: nat :: i < n ==> OnLine(pcm, channels, ch, a, slope, i)
    ensures Resampled(pcm, n, channels, inRate, outRate, k, ch) == Trunc(a * outRate + slope * (k * inRate), outRate)
  {
    hide Mix, Trunc, At;
    var num := k * inRate;
    var i, rem := num / outRate, num % outRate;
    assert num == i * outRate + rem;
    assert OnLine(pcm, channels, ch, a, slope, i) && OnLine(pcm, channels, ch, a, slope, i + 1);
    LineMix(a, slope, i, rem, outRate);
  }

  lemma LineMix(a: int, slope: int, i: nat, rem: nat, d: nat)
    requires rem < d
    ensures Mix(a + slope * i, a + slope * (i + 1), rem, d) == Trunc(a * d + slope * (i * d + rem), d)
  {
    var s0, s1 := a + slope * i, a + slope * (i + 1);
    assert s1 - s0 == slope;
    assert (d - rem) * s0 + rem * s1 == d * s0 + rem * (s1 - s0) == d * s0 + rem * slope;
    assert d * s0 == a * d + slope * (i * d);
  }

  /** The output frames past the last input frame repeat it. */
  lemma LastRepeats(pcm: seq<int>, n: nat, channels: nat, inRate: nat, outRate: nat, k: nat, ch: nat)
    requires ch < channels && n * channels <= |pcm| && outRate > 0 && k * inRate / outRate + 1 == n
    ensures n * channels - channels + ch < |pcm|
    ensures Resampled(pcm, n, channels, inRate, outRate, k, ch) == pcm[n * channels - channels + ch]
  {
    hide Mix;
    ResampledIs(pcm, n, channels, inRate, outRate, k, ch);
    assert (n - 1) * channels == n * channels - channels;
    var s := pcm[n * channels - channels + ch];
    MixBetween(s, s, k * inRate % outRate, outRate);
  }

  /** The integer next to the real number `x` on the way to zero. */
  function RealTrunc(x: real): int { if x >= 0.0 then x.Floor else -((-x).Floor) }

  lemma TimesMore(x: real, y: real, d: real)
    requires d > 0.0
    ensures x <= y <==> x * d <= y * d
  {
  }

  lemma FloorIs(x: real, q: int)
    requires q as real <= x < q as real + 1.0
    ensures x.Floor == q
  {
  }

  lemma FloorOfQuotient(n: nat, d: nat)
    requires d > 0
    ensures (n as real / d as real).Floor == n / d
  {
    var q, x := n / d, n as real / d as real;
    DivBounds(n, d);
    var y, e := q as real, d as real;
    assert x * e == n as real;
    assert (q * d) as real == y * e;
    assert ((q + 1) * d) as real == (y + 1.0) * e;
    TimesMore(y + 1.0, x, e);
    TimesMore(y, x, e);
    FloorIs(x, q);
  }

  /** The mixture in exact fractions is the one of the program's formula over the reals, truncated. */
  lemma MixIsReal(s0: int, s1: int, rem: nat, d: nat)
    requires rem < d
    ensures var frac := rem as real / d as real;
            Mix(s0, s1, rem, d) == RealTrunc((1.0 - frac) * s0 as real + frac * s1 as real)
  {
    var n, frac := (d - rem) * s0 + rem * s1, rem as real / d as real;
    var x := (1.0 - frac) * s0 as real + frac * s1 as real;
    assert frac * d as real == rem as real;
    assert x * d as real == (d as real - rem as real) * s0 as real + rem as real * s1 as real == n as real by {
      RealLine(s0, s1, rem, d, frac);
    }
    assert x == n as real / d as real;
    if n >= 0 {
      FloorOfQuotient(n, d);
    } else {
      FloorOfQuotient(-n, d);
      assert -x == (-n) as real / d as real;
    }
  }

  lemma RealLine(s0: int, s1: int, rem: nat, d: nat, frac: real)
    requires rem < d && frac * d as real == rem as real
    ensures ((1.0 - frac) * s0 as real + frac * s1 as real) * d as real
         == (d as real - rem as real) * s0 as real + rem as real * s1 as real == ((d - rem) * s0 + rem * s1) as real
  {
    var a, b, c := s0 as real, s1 as real, d as real;
    assert ((1.0 - frac) * a + frac * b) * c == (c - frac * c) * a + (frac * c) * b;
    assert ((d - rem) * s0) as real == (c - rem as real) * a;
    assert (rem * s1) as real == rem as real * b;
  }

  // ---------- How many frames there are ----------

  lemma DivBelow(n: nat, d: nat, c: nat)
    requires d > 0
    ensures n / d < c <==> n < c * d
  {
    var q := n / d;
    DivBounds(n, d);
    Cancel(q, c, d);
    Cancel(c, q + 1, d);
  }

  lemma BelowRoundedUp(k: nat, m: nat, d: nat)
    requires d > 0
    ensures k < (m + d - 1) / d <==> k * d < m
  {
    assert (k + 1) * d == k * d + d;
    DivBelow(m + d - 1, d, k + 1);
  }

  /** Output frame `k` begins before the end of the input exactly when `k` is below the count. */
  lemma WithinInput(k: nat, n: nat, inRate: nat, outRate: nat)
    requires inRate > 0 && outRate > 0
    ensures k * inRate / outRate < n <==> k < FramesOut(n, inRate, outRate)
  {
    DivBelow(k * inRate, outRate, n);
    BelowRoundedUp(k, n * outRate, inRate);
  }

  /** The space that the decoder asks for before it resamples `n` frames. */
  function NeedFrames(n: nat, rate: nat, playRate: nat): nat
    requires rate > 0
  {
    (n * playRate + rate - 1) / rate + 2
  }

  /** A buffer with at least that space is never what ends the resampling. */
  lemma NeedSuffices(n: nat, rate: nat, playRate: nat, cap: nat)
    requires rate > 0 && NeedFrames(n, rate, playRate) <= cap
    ensures Min(cap, FramesOut(n, rate, playRate)) == FramesOut(n, rate, playRate)
  {
  }

  // ---------- The resampler ----------

  /** Sample `j * channels + ch` of the output is sample `ch` of its frame `j`. */
  ghost predicate FrameHolds(out: seq<int>, pcm: seq<int>, n: nat, channels: nat, inRate: nat, outRate: nat,
                             j: nat, upTo: nat)
    requires upTo <= channels && outRate > 0 && n * channels <= |pcm| && j * inRate / outRate < n
  {
    j * channels + upTo <= |out| &&
    forall ch: nat :: ch < upTo ==> out[j * channels + ch] == Resampled(pcm, n, channels, inRate, outRate, j, ch)
  }

  ghost predicate Holds(out: seq<int>, pcm: seq<int>, n: nat, channels: nat, inRate: nat, outRate: nat, k: nat)
    requires outRate > 0 && n * channels <= |pcm|
  {
    forall j: nat :: j < k ==>
      j * inRate / outRate < n && FrameHolds(out, pcm, n, channels, inRate, outRate, j, channels)
  }

  /** What the output frames hold when the rates are equal. */
  predicate Copied(out: seq<int>, pcm: seq<int>, size: nat) {
    size <= |out| && size <= |pcm| && out[..size] == pcm[..size]
  }

  /** One output frame, at the position `num / outRate`. */
  method MixFrame(pcm: seq<int>, n: nat, channels: nat, inRate: nat, outRate: nat, out: array<int>, k: nat, num: nat)
    requires outRate > 0 && n * channels <= |pcm| && num == k * inRate && num / outRate < n
    requires (k + 1) * channels <= out.Length
    requires forall i :: 0 <= i < |pcm| ==> IsSample(pcm[i])
    modifies out
    ensures FrameHolds(out[..], pcm, n, channels, inRate, outRate, k, channels)
    ensures out[..k * channels] == old(out[..k * channels])
  {
    var i0 := num / outRate;
    var i1 := if i0 + 1 < n then i0 + 1 else i0;
    var rem := num % outRate;
    FramesOrdered(i0, n, channels);
    FramesOrdered(i1, n, channels);
    hide Mix, Resampled;
    for ch := 0 to channels
      invariant FrameHolds(out[..], pcm, n, channels, inRate, outRate, k, ch)
      invariant out[..k * channels] == old(out[..k * channels])
    {
      InFrame(i0, channels, ch);
      InFrame(i1, channels, ch);
      var s0 := pcm[i0 * channels + ch];
      var s1 := pcm[i1 * channels + ch];
      var mixed := Mix(s0, s1, rem, outRate);
      MixBetween(s0, s1, rem, outRate);
      ResampledIs(pcm, n, channels, inRate, outRate, k, ch);
      if mixed > SAMPLE_MAX {
        mixed := SAMPLE_MAX;
      }
      if mixed < SAMPLE_MIN {
        mixed := SAMPLE_MIN;
      }
      out[k * channels + ch] := mixed;
    }
  }

  lemma ResampledIs(pcm: seq<int>, n: nat, channels: nat, inRate: nat, outRate: nat, k: nat, ch: nat)
    requires ch < channels && n * channels <= |pcm| && outRate > 0 && k * inRate / outRate < n
    ensures var i := k * inRate / outRate;
            && (i + 1) * channels <= |pcm| && (After(i, n) + 1) * channels <= |pcm|
            && i * channels + ch < |pcm| && After(i, n) * channels + ch < |pcm|
            && Resampled(pcm, n, channels, inRate, outRate, k, ch)
            == Mix(pcm[i * channels + ch], pcm[After(i, n) * channels + ch], k * inRate % outRate, outRate)
  {
    var i := k * inRate / outRate;
    FramesOrdered(i, n, channels);
    FramesOrdered(After(i, n), n, channels);
    InFrame(i, channels, ch);
    InFrame(After(i, n), channels, ch);
  }

  lemma HoldsNext(o: seq<int>, o': seq<int>, pcm: seq<int>, n: nat, channels: nat, inRate: nat, outRate: nat, k: nat)
    requires outRate > 0 && n * channels <= |pcm| && k * inRate / outRate < n
    requires k * channels <= |o| == |o'| && o'[..k * channels] == o[..k * channels]
    requires Holds(o, pcm, n, channels, inRate, outRate, k)
    requires FrameHolds(o', pcm, n, channels, inRate, outRate, k, channels)
    ensures Holds(o', pcm, n, channels, inRate, outRate, k + 1)
  {
    forall j: nat | j < k + 1
      ensures j * inRate / outRate < n && FrameHolds(o', pcm, n, channels, inRate, outRate, j, channels)
    {
      if j < k {
        FrameKept(o, o', pcm, n, channels, inRate, outRate, j, k);
      }
    }
  }

  lemma FrameKept(o: seq<int>, o': seq<int>, pcm: seq<int>, n: nat, channels: nat, inRate: nat, outRate: nat,
                  j: nat, k: nat)
    requires j < k && k * channels <= |o| == |o'| && o'[..k * channels] == o[..k * channels]
    requires outRate > 0 && n * channels <= |pcm| && j * inRate / outRate < n
    requires FrameHolds(o, pcm, n, channels, inRate, outRate, j, channels)
    ensures FrameHolds(o', pcm, n, channels, inRate, outRate, j, channels)
  {
    hide Resampled;
    FramesOrdered(j, k, channels);
    forall ch: nat | ch < channels
      ensures o'[j * channels + ch] == Resampled(pcm, n, channels, inRate, outRate, j, ch)
    {
      assert j * channels + ch < k * channels;
      assert o'[..k * channels][j * channels + ch] == o[..k * channels][j * channels + ch];
    }
  }

  /** `zh_music_resample_linear`. */
  method ResampleLinear(pcm: seq<int>, n: nat, inRate: nat, channels: nat, out: array<int>, cap: nat, outRate: nat)
    returns (frames: nat)
    requires |pcm| == n * channels && cap * channels <= out.Length
    requires forall i :: 0 <= i < |pcm| ==> IsSample(pcm[i])
    modifies out
    ensures n == 0 || cap == 0 || channels == 0 || inRate == 0 || outRate == 0 ==> frames == 0
    ensures n > 0 && cap > 0 && channels > 0 && inRate > 0 && outRate > 0 ==>
              if inRate == outRate
              then frames == Min(n, cap) && Copied(out[..], pcm, frames * channels)
              else frames == Min(cap, FramesOut(n, inRate, outRate))
                   && Holds(out[..], pcm, n, channels, inRate, outRate, frames)
  {
    if n == 0 || cap == 0 || channels == 0 || inRate == 0 || outRate == 0 {
      return 0;
    }
    if inRate == outRate {
      frames := if n < cap then n else cap;
      Cancel(frames, n, channels);
      Cancel(frames, cap, channels);
      Copy(pcm, out, frames * channels);
    } else {
      frames := Interpolate(pcm, n, inRate, channels, out, cap, outRate);
    }
  }

  /** The loop over the output frames. */
  method Interpolate(pcm: seq<int>, n: nat, inRate: nat, channels: nat, out: array<int>, cap: nat, outRate: nat)
    returns (frames: nat)
    requires |pcm| == n * channels && cap * channels <= out.Length && inRate > 0 && outRate > 0 && channels > 0
    requires forall i :: 0 <= i < |pcm| ==> IsSample(pcm[i])
    modifies out
    ensures frames == Min(cap, FramesOut(n, inRate, outRate))
    ensures Holds(out[..], pcm, n, channels, inRate, outRate, frames)
  {
    var num := 0;
    frames := 0;
    assert Holds(out[..], pcm, n, channels, inRate, outRate, 0);
    hide Holds, FrameHolds, FramesOut;
    while frames < cap
      invariant frames <= cap && num == frames * inRate
      invariant frames <= FramesOut(n, inRate, outRate)
      invariant Holds(out[..], pcm, n, channels, inRate, outRate, frames)
    {
      WithinInput(frames, n, inRate, outRate);
      if num / outRate >= n {
        break;
      }
      FramesOrdered(frames, cap, channels);
      ghost var was := out[..];
      MixFrame(pcm, n, channels, inRate, outRate, out, frames, num);
      HoldsNext(was, out[..], pcm, n, channels, inRate, outRate, frames);
      Advance(frames, inRate);
      frames := frames + 1;
      num := num + inRate;
    }
  }

  lemma Advance(k: nat, inRate: nat)
    ensures (k + 1) * inRate == k * inRate + inRate
  {
  }

  method Copy(pcm: seq<int>, out: array<int>, size: nat)
    requires size <= |pcm| && size <= out.Length
    modifies out
    ensures Copied(out[..], pcm, size)
  {
    for i := 0 to size
      invariant out[..i] == pcm[..i]
    {
      out[i] := pcm[i];
    }
  }
}
