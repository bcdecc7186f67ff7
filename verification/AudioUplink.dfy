/** The microphone uplink: a ring of the latest quiet-time frames, flushed when speech starts, and
    then one submission for every frame while speech goes on. */
module AudioUplink {
  import opened VadGate
  import opened Seqs

  /** The first `n` elements, or all of them. */
  function Prefix<T>(s: seq<T>, n: nat): seq<T> {
    if n < |s| then s[..n] else s
  }

  lemma PrefixOfTwo<T>(a: seq<T>, b: seq<T>, n: nat)
    ensures n < |a| ==> Prefix(a + b, n) == Prefix(a, n)
    ensures n >= |a| ==> Prefix(a + b, n) == a + Prefix(b, n - |a|)
  {
  }

  lemma PrefixOfAll<T>(a: seq<T>, n: nat)
    ensures n >= |a| ==> Prefix(a, n) == a
  {
  }

  // ---------- The preroll ring ----------

  datatype Ring = Ring(cells: seq<Frame>, pos: nat, full: bool)
  {
    predicate Valid() { pos < |cells| }

    /** The frames in the ring, oldest first. */
    function Order(): seq<Frame>
      requires Valid()
    {
      if full then cells[pos..] + cells[..pos] else cells[..pos]
    }

    function Record(f: Frame): (r: Ring)
      requires Valid()
      ensures r.Valid() && |r.cells| == |cells|
    {
      var next := (pos + 1) % |cells|;
      Ring(cells[pos := f], next, full || next == 0)
    }

    function Restart(): (r: Ring)
      requires Valid()
      ensures r.Valid() && r.Order() == [] && |r.cells| == |cells|
    {
      Ring(cells, 0, false)
    }
  }

  /** Recording keeps the latest frames, as many as the ring has cells. */
  lemma RecordOrder(r: Ring, f: Frame)
    requires r.Valid()
    ensures r.Record(f).Order() == Last(r.Order() + [f], |r.cells|)
  {
    var c := r.cells[r.pos := f];
    RingNext(r.pos, |r.cells|);
    Shift(r.cells, r.pos, f);
    Seqs.Whole(c);
    Seqs.Nil(c);
  }

  // ---------- One round of the loop ----------

  /** What the voice activity detector said about a frame. */
  datatype Vad = Failed | Heard(active: bool, started: bool, ended: bool)

  /** One captured frame, empty when the read failed or was short, before and after the gain, and what
      the rest of the system said while it was handled: the connection, whether speech recognition had
      completed at the two places where the loop asks, the detector, whether START was accepted, how
      many preroll frames can be sent before one fails, whether the frame itself can be sent, and
      whether speech is being played. */
  datatype Input = Input(raw: Frame, gained: Frame, connected: bool, completed: bool, vad: Vad, startAccepted: bool,
                         prerollSends: nat, send: bool, completedLater: bool, ttsPlaying: bool)

  /** The loop's variables, and the frames sent so far. */
  datatype Uplink = Uplink(ring: Ring, speech: bool, completedSeen: bool, gate: Gate, sent: seq<Frame>)
  {
    predicate Valid() { ring.Valid() }
  }

  /** The read gave a full frame. */
  predicate Got(x: Input) { x.raw != [] }

  /** The completion of speech recognition is noticed for the first time. */
  predicate Restarts(u: Uplink, x: Input) { Got(x) && x.connected && x.completed && !u.completedSeen }

  function Settled(u: Uplink, x: Input): (v: Uplink)
    requires u.Valid()
    ensures v.Valid()
  {
    if Restarts(u, x) then Uplink(u.ring.Restart(), false, true, SHUT, u.sent)
    else u.(completedSeen := u.completedSeen && x.connected && x.completed)
  }

  function Gated(u: Uplink, x: Input, c: Config): Uplink {
    u.(gate := Step(u.gate, Peak(x.raw), c))
  }

  /** The frame is recorded unless speech was already active, and the detector's word is taken. */
  function Kept(u: Uplink, x: Input): (v: Uplink)
    requires u.Valid() && x.vad.Heard?
    ensures v.Valid()
  {
    u.(ring := if u.speech then u.ring else u.ring.Record(x.gained), speech := x.vad.active)
  }

  predicate Flushes(x: Input) { Got(x) && x.vad.Heard? && x.vad.started && x.connected && x.startAccepted }

  predicate Goes(x: Input) { x.vad.Heard? && x.vad.active && x.connected && (!x.completedLater || x.ttsPlaying) }

  /** The preroll goes out first, as far as it can be sent, and then the frame, unless the whole
      preroll went out, which ends with it. */
  function Sends(u: Uplink, x: Input): (sent: seq<Frame>)
    requires u.Valid()
  {
    var preroll := u.ring.Order();
    (if Flushes(x) then Prefix(preroll, x.prerollSends) else [])
    + (if Goes(x) && x.send && !(Flushes(x) && x.prerollSends >= |preroll|) then [x.gained] else [])
  }

  function Round(u: Uplink, x: Input, c: Config): (v: Uplink)
    requires u.Valid()
    ensures v.Valid()
  {
    if !Got(x) then u
    else
      var g := Gated(Settled(u, x), x, c);
      if x.vad.Failed? then g
      else
        var k := Kept(g, x);
        k.(sent := k.sent + Sends(k, x))
  }

  class UplinkLoop {
    const preroll: array<Frame>
    const gate: GateFilter
    var prerollPos: nat
    var prerollFull: bool
    var speechActive: bool
    var sttCompletedSeen: bool
    /** The frames handed to the core, in order. */
    var sent: seq<Frame>

    ghost predicate Valid()
      reads this
    {
      prerollPos < preroll.Length
    }

    ghost function View(): Uplink
      reads this, preroll, gate
    {
      Uplink(Ring(preroll[..], prerollPos, prerollFull), speechActive, sttCompletedSeen, gate.View(), sent)
    }

    constructor (frames: nat, c: Config)
      requires frames > 0
      ensures Valid() && fresh(preroll) && fresh(gate) && preroll.Length == frames && gate.config == c
      ensures Fresh(View(), frames) && !sttCompletedSeen && sent == []
    {
      preroll := new Frame[frames](_ => []);
      gate := new GateFilter(c);
      prerollPos, prerollFull, speechActive, sttCompletedSeen, sent := 0, false, false, false, [];
    }

    /** Submits `preroll[from..to]`, until one of the submissions fails: only `good` of them succeed. */
    method SubmitCells(from: nat, to: nat, good: nat) returns (ok: bool)
      requires from <= to <= preroll.Length
      modifies `sent
      ensures ok == (to - from <= good)
      ensures sent == old(sent) + Prefix(preroll[from..to], good)
    {
      var left := good;
      for i := from to to
        invariant left == good - (i - from) && sent == old(sent) + preroll[from..i]
      {
        if left == 0 {
          assert preroll[from..to][..good] == preroll[from..i];
          return false;
        }
        sent := sent + [preroll[i]];
        left := left - 1;
      }
      ok := true;
    }

    /** `zh_audio_uplink_flush_preroll`. */
    method FlushPreroll(good: nat) returns (ok: bool)
      requires Valid()
      modifies `sent
      ensures var order := View().ring.Order();
              ok == (|order| <= good) && sent == old(sent) + Prefix(order, good)
    {
      hide Prefix;
      ghost var was, newer, older := sent, preroll[..prerollPos], preroll[prerollPos..];
      if !prerollFull {
        ok := SubmitCells(0, prerollPos, good);
      } else {
        PrefixOfTwo(older, newer, good);
        ok := SubmitCells(prerollPos, preroll.Length, good);
        assert preroll[prerollPos..preroll.Length] == older;
        if ok {
          PrefixOfAll(older, good);
          var left := good - (preroll.Length - prerollPos);
          Seqs.Associative(was, older, Prefix(newer, left));
          ok := SubmitCells(0, prerollPos, left);
        }
      }
    }

    /** What completed speech recognition resets. */
    method Settle(x: Input)
      requires Valid() && Got(x)
      modifies `sttCompletedSeen, `speechActive, `prerollPos, `prerollFull, gate
      ensures Valid() && View() == Settled(old(View()), x)
    {
      if x.connected && x.completed {
        if !sttCompletedSeen {
          sttCompletedSeen := true;
          speechActive := false;
          prerollPos := 0;
          prerollFull := false;
          gate.Reset();
        }
      } else {
        sttCompletedSeen := false;
      }
    }

    /** The gate in front of the detector. */
    method FilterFrame(x: Input)
      requires Valid() && Got(x)
      modifies gate
      ensures Valid() && View() == Gated(old(View()), x, gate.config)
    {
      var vadFrame := new int[|x.raw|];
      var isOpen, peak := gate.Filter(x.raw, vadFrame);
    }

    /** Takes the detector's word and records the frame. */
    method Keep(x: Input)
      requires Valid() && x.vad.Heard?
      modifies `speechActive, `prerollPos, `prerollFull, preroll
      ensures Valid() && View() == Kept(old(View()), x)
    {
      var wasSpeechActive := speechActive;
      speechActive := x.vad.active;
      if !wasSpeechActive {
        preroll[prerollPos] := x.gained;
        prerollPos := (prerollPos + 1) % preroll.Length;
        if prerollPos == 0 {
          prerollFull := true;
        }
      }
    }

    /** Sends the preroll and the frame. */
    method SendFrame(x: Input)
      requires Valid() && Got(x) && x.vad.Heard? && speechActive == x.vad.active
      modifies `sent
      ensures Valid() && View() == old(View()).(sent := old(View()).sent + Sends(old(View()), x))
    {
      ghost var u := View();
      var frameFlushed := false;
      if x.vad.started && x.connected && x.startAccepted {
        frameFlushed := FlushPreroll(x.prerollSends);
      }
      if speechActive && x.connected && (!x.completedLater || x.ttsPlaying) {
        if !frameFlushed && x.send {
          sent := sent + [x.gained];
        }
      }
      assert sent == u.sent + Sends(u, x);
    }

    /** One round of the loop of `zh_audio_uplink_thread_main`. */
    method HandleFrame(x: Input)
      requires Valid()
      modifies this, preroll, gate
      ensures Valid() && View() == Round(old(View()), x, gate.config)
    {
      hide Settled, Gated, Kept, Sends;
      if |x.raw| == 0 {
        return;
      }
      Settle(x);
      FilterFrame(x);
      if x.vad.Failed? {
        return;
      }
      Keep(x);
      assert speechActive == x.vad.active by {
        KeptSpeech(Gated(Settled(old(View()), x), x, gate.config), x);
      }
      SendFrame(x);
    }
  }

  lemma KeptSpeech(u: Uplink, x: Input)
    requires u.Valid() && x.vad.Heard?
    ensures Kept(u, x).speech == x.vad.active
  {
  }

  // ---------- Whole runs ----------

  function Run(u: Uplink, xs: seq<Input>, c: Config): (v: Uplink)
    requires u.Valid()
    ensures v.Valid()
    decreases |xs|
  {
    if xs == [] then u else Round(Run(u, xs[..|xs| - 1], c), xs[|xs| - 1], c)
  }

  /** The frame goes into the ring. */
  predicate Records(v: Uplink, x: Input)
    requires v.Valid()
  {
    Got(x) && x.vad.Heard? && !Settled(v, x).speech
  }

  /** The frames recorded since speech recognition last completed. */
  function Recorded(u: Uplink, xs: seq<Input>, c: Config): seq<Frame>
    requires u.Valid()
    decreases |xs|
  {
    if xs == [] then []
    else
      var v, x := Run(u, xs[..|xs| - 1], c), xs[|xs| - 1];
      var before := if Restarts(v, x) then [] else Recorded(u, xs[..|xs| - 1], c);
      if Records(v, x) then before + [x.gained] else before
  }

  /** The peaks that the gate has seen since then. */
  function Peaks(u: Uplink, xs: seq<Input>, c: Config): seq<int>
    requires u.Valid()
    decreases |xs|
  {
    if xs == [] then []
    else
      var v, x := Run(u, xs[..|xs| - 1], c), xs[|xs| - 1];
      var before := if Restarts(v, x) then [] else Peaks(u, xs[..|xs| - 1], c);
      if Got(x) then before + [Peak(x.raw)] else before
  }

  /** The state in which the thread enters its loop, with a ring of `n` cells. */
  predicate Fresh(u: Uplink, n: nat) {
    u.Valid() && |u.ring.cells| == n && u.ring.Order() == [] && !u.speech && u.gate == SHUT
  }

  /** The ring always holds the latest of the frames recorded since speech recognition completed. */
  lemma {:induction false} RingHoldsLast(u: Uplink, xs: seq<Input>, c: Config, n: nat)
    requires Fresh(u, n)
    ensures var v := Run(u, xs, c); |v.ring.cells| == n && v.ring.Order() == Last(Recorded(u, xs, c), n)
    decreases |xs|
  {
    if xs != [] {
      var before, x := xs[..|xs| - 1], xs[|xs| - 1];
      RingHoldsLast(u, before, c, n);
      RoundRing(Run(u, before, c), x, c, Recorded(u, before, c), n);
      hide Round, Restarts, Records, Last;
    }
  }

  lemma RoundRing(v: Uplink, x: Input, c: Config, had: seq<Frame>, n: nat)
    requires v.Valid() && |v.ring.cells| == n && v.ring.Order() == Last(had, n)
    ensures var before := if Restarts(v, x) then [] else had;
            var now := if Records(v, x) then before + [x.gained] else before;
            |Round(v, x, c).ring.cells| == n && Round(v, x, c).ring.Order() == Last(now, n)
  {
    hide Sends, Step, Peak, Last;
    NoneLast<Frame>(n);
    var before := if Restarts(v, x) then [] else had;
    if Got(x) {
      var s := Settled(v, x);
      assert s.ring.Order() == Last(before, n);
      RecordOrder(s.ring, x.gained);
      LastOfLast(before, x.gained, n);
    }
  }

  /** The gate is the one of all frames since speech recognition last completed. */
  lemma {:induction false} GateFollowsPeaks(u: Uplink, xs: seq<Input>, c: Config, n: nat)
    requires Fresh(u, n)
    ensures Run(u, xs, c).gate == After(Peaks(u, xs, c), c)
    decreases |xs|
  {
    if xs != [] {
      var before, x := xs[..|xs| - 1], xs[|xs| - 1];
      GateFollowsPeaks(u, before, c, n);
      var v := Run(u, before, c);
      var base := if Restarts(v, x) then [] else Peaks(u, before, c);
      assert Got(x) ==> Round(v, x, c).gate == Gated(Settled(v, x), x, c).gate;
      assert (base + [Peak(x.raw)])[..|base|] == base;
      hide Round, Peak, Step;
    }
  }

  /** The connection is up and speech recognition completed. */
  predicate Completed(x: Input) { x.connected && x.completed }

  /** The last full frame of the run came when recognition was completed and the connection up. */
  predicate LastCompleted(xs: seq<Input>)
    decreases |xs|
  {
    xs != [] && if Got(xs[|xs| - 1]) then Completed(xs[|xs| - 1]) else LastCompleted(xs[..|xs| - 1])
  }

  lemma {:induction false} SeenIff(u: Uplink, xs: seq<Input>, c: Config)
    requires u.Valid() && !u.completedSeen
    ensures Run(u, xs, c).completedSeen <==> LastCompleted(xs)
    decreases |xs|
  {
    hide Step, Peak, Sends;
    if xs != [] {
      SeenIff(u, xs[..|xs| - 1], c);
    }
  }

  /** The ring, the gate and the speech flag are reset at exactly those full frames where recognition is
      completed with the connection up, and was not at the full frame before. */
  lemma RestartsIff(u: Uplink, xs: seq<Input>, x: Input, c: Config)
    requires u.Valid() && !u.completedSeen
    ensures var v := Run(u, xs, c);
            && (Restarts(v, x) <==> Got(x) && Completed(x) && !LastCompleted(xs))
            && (Restarts(v, x) ==>
                  var s := Settled(v, x); s.ring.Order() == [] && s.gate == SHUT && !s.speech && s.sent == v.sent)
            && (!Restarts(v, x) ==>
                  var s := Settled(v, x);
                  s.ring == v.ring && s.gate == v.gate && s.speech == v.speech && s.sent == v.sent)
  {
    SeenIff(u, xs, c);
    hide Run;
  }

  /** What the detector promises: it reports a start of speech only where there was none before. */
  predicate Lawful(u: Uplink, x: Input)
    requires u.Valid()
  {
    Got(x) && x.vad.Heard? && x.vad.started ==> x.vad.active && !Settled(u, x).speech
  }

  lemma RoundFlushes(v: Uplink, x: Input, c: Config, n: nat)
    requires v.Valid() && Lawful(v, x) && Flushes(x) && x.prerollSends >= |Round(v, x, c).ring.Order()|
    ensures var w := Round(v, x, c); w.sent == v.sent + w.ring.Order() && w.speech && !Settled(v, x).speech
  {
    hide Step, Peak, Prefix;
    var k := Kept(Gated(Settled(v, x), x, c), x);
    PrefixOfAll(k.ring.Order(), x.prerollSends);
    Seqs.Nil(k.ring.Order());
  }

  /** After `xs` speech starts with `x`, START is accepted, and every frame of the preroll can be sent. */
  predicate StartsUtterance(u: Uplink, xs: seq<Input>, x: Input, c: Config, n: nat)
    requires u.Valid()
  {
    Lawful(Run(u, xs, c), x) && Flushes(x) && x.prerollSends >= |Last(Recorded(u, xs + [x], c), n)|
  }

  /** When speech starts, START is accepted and the preroll can be sent, exactly the last frames
      recorded since speech recognition completed go out, as many as the ring has cells, oldest
      first, and the current frame last. */
  lemma SpeechStartSendsPreroll(u: Uplink, xs: seq<Input>, x: Input, c: Config, n: nat)
    requires Fresh(u, n) && StartsUtterance(u, xs, x, c, n)
    ensures var v := Run(u, xs, c);
            var w := Round(v, x, c);
            var preroll := Last(Recorded(u, xs + [x], c), n);
            && w.sent == v.sent + preroll && w.speech
            && 0 < |preroll| <= n && preroll[|preroll| - 1] == x.gained
  {
    hide Last, Settled, Gated, Kept, Peaks;
    var v := Run(u, xs, c);
    assert (xs + [x])[..|xs|] == xs;
    RingHoldsLast(u, xs + [x], c, n);
    LastOfLast(if Restarts(v, x) then [] else Recorded(u, xs, c), x.gained, n);
    RoundFlushes(v, x, c, n);
  }

  /** Speech goes on: the connection is up and speech recognition is not completed, or speech is being
      played; nothing restarts. */
  predicate Streams(u: Uplink, ys: seq<Input>, c: Config)
    requires u.Valid()
  {
    forall i :: 0 <= i < |ys| ==> StreamsOn(Run(u, ys[..i], c), ys[i])
  }

  predicate StreamsOn(v: Uplink, y: Input)
    requires v.Valid()
  {
    !Restarts(v, y) && Lawful(v, y) && (Got(y) && y.vad.Heard? ==> Goes(y))
  }

  /** The detector and the core accept the frame. */
  predicate Accepts(y: Input) { Got(y) && y.vad.Heard? && y.send }

  /** The frames that the detector and the core accept, in order. */
  function Accepted(ys: seq<Input>): seq<Frame>
    decreases |ys|
  {
    if ys == [] then []
    else
      var y := ys[|ys| - 1];
      Accepted(ys[..|ys| - 1]) + if Accepts(y) then [y.gained] else []
  }

  lemma RoundStreams(v: Uplink, y: Input, c: Config)
    requires v.Valid() && v.speech && StreamsOn(v, y)
    ensures Round(v, y, c).speech
    ensures Round(v, y, c).sent == v.sent + if Accepts(y) then [y.gained] else []
  {
    hide Step, Peak;
    assert Got(y) ==> Settled(v, y).speech;
  }

  /** While speech goes on, every accepted frame is sent exactly once, in order and without a gap. */
  lemma {:induction false} StreamHasNoGap(u: Uplink, ys: seq<Input>, c: Config)
    requires u.Valid() && u.speech && Streams(u, ys, c)
    ensures var v := Run(u, ys, c); v.speech && v.sent == u.sent + Accepted(ys)
    decreases |ys|
  {
    hide Round, StreamsOn;
    if ys == [] {
      Seqs.Nil(u.sent);
    } else {
      var before, y := ys[..|ys| - 1], ys[|ys| - 1];
      assert forall i :: 0 <= i < |before| ==> before[..i] == ys[..i];
      StreamHasNoGap(u, before, c);
      assert StreamsOn(Run(u, ys[..|ys| - 1], c), ys[|ys| - 1]);
      RoundStreams(Run(u, before, c), y, c);
      Seqs.Associative(u.sent, Accepted(before), if Accepts(y) then [y.gained] else []);
    }
  }

  lemma {:induction false} RunAppend(u: Uplink, xs: seq<Input>, ys: seq<Input>, c: Config)
    requires u.Valid()
    ensures Run(u, xs + ys, c) == Run(Run(u, xs, c), ys, c)
    decreases |ys|
  {
    hide Round;
    if ys == [] {
      Seqs.Nil(xs);
    } else {
      RunAppend(u, xs, ys[..|ys| - 1], c);
      assert (xs + ys)[..|xs + ys| - 1] == xs + ys[..|ys| - 1];
    }
  }

  /** A whole utterance: the preroll, and then every accepted frame. */
  lemma UtteranceIsSent(u: Uplink, xs: seq<Input>, x: Input, ys: seq<Input>, c: Config, n: nat)
    requires Fresh(u, n) && StartsUtterance(u, xs, x, c, n)
    requires Streams(Round(Run(u, xs, c), x, c), ys, c)
    ensures Run(u, xs + [x] + ys, c).sent
         == Run(u, xs, c).sent + Last(Recorded(u, xs + [x], c), n) + Accepted(ys)
  {
    hide Round, Last, Recorded, Accepted, StartsUtterance;
    SpeechStartSendsPreroll(u, xs, x, c, n);
    RunAppend(u, xs + [x], ys, c);
    assert (xs + [x])[..|xs|] == xs;
    StreamHasNoGap(Round(Run(u, xs, c), x, c), ys, c);
    hide Streams, Run;
  }

  // ---------- What two flushes have in common ----------

  /** Speech recognition is noticed to have completed somewhere along the run. */
  predicate Restarted(u: Uplink, xs: seq<Input>, c: Config)
    requires u.Valid()
    decreases |xs|
  {
    xs != [] && (Restarts(Run(u, xs[..|xs| - 1], c), xs[|xs| - 1]) || Restarted(u, xs[..|xs| - 1], c))
  }

  /** All frames recorded along the run, whatever is forgotten. */
  function Captured(u: Uplink, xs: seq<Input>, c: Config): seq<Frame>
    requires u.Valid()
    decreases |xs|
  {
    if xs == [] then []
    else
      var v, x := Run(u, xs[..|xs| - 1], c), xs[|xs| - 1];
      Captured(u, xs[..|xs| - 1], c) + if Records(v, x) then [x.gained] else []
  }

  lemma {:induction false} RecordedAppend(u: Uplink, xs: seq<Input>, ys: seq<Input>, c: Config)
    requires u.Valid()
    ensures var v := Run(u, xs, c);
            && Recorded(u, xs + ys, c) == (if Restarted(v, ys, c) then [] else Recorded(u, xs, c)) + Recorded(v, ys, c)
            && Captured(u, xs + ys, c) == Captured(u, xs, c) + Captured(v, ys, c)
    decreases |ys|
  {
    hide Round, Restarts, Records;
    if ys == [] {
      Seqs.Nil(xs);
      Seqs.Nil(Recorded(u, xs, c));
      Seqs.Nil(Captured(u, xs, c));
    } else {
      var front, y := ys[..|ys| - 1], ys[|ys| - 1];
      assert (xs + ys)[..|xs + ys| - 1] == xs + front;
      RecordedAppend(u, xs, front, c);
      RunAppend(u, xs, front, c);
    }
  }

  lemma {:induction false} RecordedIsCaptured(u: Uplink, xs: seq<Input>, c: Config)
    requires u.Valid()
    ensures var all, had := Captured(u, xs, c), Recorded(u, xs, c);
            && |had| <= |all| && had == all[|all| - |had|..]
            && (forall f :: f in had ==> f in all)
    decreases |xs|
  {
    hide Run, Restarts, Records;
    if xs != [] {
      RecordedIsCaptured(u, xs[..|xs| - 1], c);
    }
  }

  /** What the ring holds after a second stretch of a run: the frames recorded in it, and before them as
      many of those it held before as there is room for, unless speech recognition completed. */
  lemma RingAfter(u: Uplink, xs: seq<Input>, ys: seq<Input>, c: Config, n: nat)
    requires Fresh(u, n)
    ensures var v := Run(u, xs, c);
            var since := Recorded(v, ys, c);
            Run(u, xs + ys, c).ring.Order()
            == if Restarted(v, ys, c) || |since| >= n then Last(since, n)
               else Last(v.ring.Order(), n - |since|) + since
  {
    hide Last, Restarted, Recorded, Run, Captured;
    RingHoldsLast(u, xs, c, n);
    RingHoldsLast(u, xs + ys, c, n);
    RecordedAppend(u, xs, ys, c);
    LastOfTwo(Recorded(u, xs, c), Recorded(Run(u, xs, c), ys, c), n);
    Seqs.Nil(Recorded(Run(u, xs, c), ys, c));
  }

  /** No two frames are the same. */
  predicate Distinct(fs: seq<Frame>) { forall i, j :: 0 <= i < j < |fs| ==> fs[i] != fs[j] }

  lemma Apart(a: seq<Frame>, b: seq<Frame>, f: Frame)
    requires Distinct(a + b) && f in a
    ensures f !in b
  {
    var i :| 0 <= i < |a| && a[i] == f;
    forall j | 0 <= j < |b| ensures b[j] != f {
      assert (a + b)[i] == f && (a + b)[|a| + j] == b[j];
    }
  }

  /** What two successive flushes send, and that the second repeats frames of the first exactly when
      speech recognition did not complete in between and fewer frames were recorded since than the ring
      has cells. */
  lemma FlushesRepeat(u: Uplink, xs: seq<Input>, x1: Input, ys: seq<Input>, x2: Input, c: Config, n: nat)
    requires Fresh(u, n) && StartsUtterance(u, xs, x1, c, n) && StartsUtterance(u, xs + [x1] + ys, x2, c, n)
    ensures var v1, v2 := Run(u, xs, c), Run(u, xs + [x1] + ys, c);
            var w := Round(v1, x1, c);
            var first, second := Last(Recorded(u, xs + [x1], c), n), Last(Recorded(u, xs + [x1] + ys + [x2], c), n);
            var since := Recorded(w, ys + [x2], c);
            && w.sent == v1.sent + first && Round(v2, x2, c).sent == v2.sent + second
            && second == (if Restarted(w, ys + [x2], c) || |since| >= n then Last(since, n)
                          else Last(first, n - |since|) + since)
            && (Distinct(Captured(u, xs + [x1] + ys + [x2], c)) ==>
                  ((exists f :: f in first && f in second) <==> !Restarted(w, ys + [x2], c) && |since| < n))
  {
    hide Last, Restarted, Recorded, Round, Captured, StartsUtterance, Distinct;
    var before, after := xs + [x1], ys + [x2];
    var v := Run(u, before, c);
    assert before[..|xs|] == xs && v == Round(Run(u, xs, c), x1, c);
    Seqs.Associative(before, ys, [x2]);
    SpeechStartSendsPreroll(u, xs, x1, c, n);
    SpeechStartSendsPreroll(u, before + ys, x2, c, n);
    RingHoldsLast(u, before, c, n);
    RingHoldsLast(u, before + after, c, n);
    RingAfter(u, before, after, c, n);
    hide Run;
    RecordedAppend(u, before, after, c);
    RecordedIsCaptured(u, before, c);
    RecordedIsCaptured(v, after, c);
    if Distinct(Captured(u, before + after, c)) {
      Overlap(Captured(u, before, c), Captured(v, after, c), Recorded(u, before, c), Recorded(v, after, c), n,
              Restarted(v, after, c));
    }
  }

  /** The first and the second flush, by the frames that were recorded for them. */
  lemma Overlap(all1: seq<Frame>, all2: seq<Frame>, had: seq<Frame>, since: seq<Frame>, n: nat, restarted: bool)
    requires Distinct(all1 + all2) && Last(had, n) != [] && n > 0
    requires (forall f :: f in had ==> f in all1) && (forall f :: f in since ==> f in all2)
    ensures var first := Last(had, n);
            var second := if restarted || |since| >= n then Last(since, n) else Last(first, n - |since|) + since;
            (exists f :: f in first && f in second) <==> !restarted && |since| < n
  {
    hide Last, Distinct;
    var first := Last(had, n);
    LastIn(had, n);
    LastIn(since, n);
    if !restarted && |since| < n {
      LastIn(first, n - |since|);
      assert first[|first| - 1] in first && first[|first| - 1] in Last(first, n - |since|) + since;
    } else {
      forall f | f in first ensures f !in Last(since, n) {
        Apart(all1, all2, f);
      }
    }
  }

  // ---------- When a frame is sent again ----------

  lemma DistinctParts(all: seq<Frame>, had: seq<Frame>)
    requires Distinct(all) && |had| <= |all| && had == all[|all| - |had|..]
    ensures Distinct(had)
  {
    assert forall i :: 0 <= i < |had| ==> had[i] == all[|all| - |had| + i];
  }

  /** What one round sends after it has recorded or not recorded its frame. */
  lemma RoundSends(v: Uplink, x: Input, c: Config, f: Frame)
    requires v.Valid()
    ensures var t := Round(v, x, c);
            && v.sent <= t.sent
            && (f in t.sent[|v.sent|..] <==>
                  || (Flushes(x) && f in Prefix(t.ring.Order(), x.prerollSends))
                  || (Got(x) && Goes(x) && x.send && f == x.gained
                      && !(Flushes(x) && x.prerollSends >= |t.ring.Order()|)))
  {
    hide Step, Peak, Prefix;
    if Got(x) && x.vad.Heard? {
      var k := Kept(Gated(Settled(v, x), x, c), x);
      DropAll(v.sent, Sends(k, x));
    }
  }

  /** The first `m` of `s` without one that stands only at the place `p`. */
  lemma InPrefix(s: seq<Frame>, p: nat, m: nat)
    requires p < |s| && forall i :: 0 <= i < |s| && i != p ==> s[i] != s[p]
    ensures s[p] in Prefix(s, m) <==> p < m
  {
  }

  /** The place of the last frame of `front` before frames that it is not among. */
  lemma PlaceOfLast(front: seq<Frame>, since: seq<Frame>, m: nat)
    requires front != [] && Distinct(front) && front[|front| - 1] !in since
    ensures front[|front| - 1] in Prefix(front + since, m) <==> |front| <= m
  {
    var order, p := front + since, |front| - 1;
    forall i | 0 <= i < |order| && i != p ensures order[i] != order[p] {
      if i > p {
        assert order[i] == since[i - |front|];
      }
    }
    InPrefix(order, p, m);
  }

  lemma LastDistinct(had: seq<Frame>, n: nat)
    requires had != [] && Distinct(had) && n > 0
    ensures var front := Last(had, n); front != [] && Distinct(front) && front[|front| - 1] == had[|had| - 1]
  {
    DistinctParts(had, Last(had, n));
  }

  lemma PrefixIn(s: seq<Frame>, m: nat, f: Frame)
    requires f !in s
    ensures f !in Prefix(s, m)
  {
  }

  /** How far a flush must get for the last frame of `had`, once `since` has been recorded too. */
  lemma StillThere(had: seq<Frame>, since: seq<Frame>, n: nat, restarted: bool, m: nat)
    requires had != [] && Distinct(had) && had[|had| - 1] !in since
    ensures var f, order := had[|had| - 1], Last((if restarted then [] else had) + since, n);
            f in Prefix(order, m) <==> !restarted && |since| < n && |order| - 1 - |since| < m
  {
    hide Last, Prefix, Distinct;
    LastIn(since, n);
    Nil(since);
    LastOfTwo(had, since, n);
    if restarted || |since| >= n {
      PrefixIn(Last(since, n), m, had[|had| - 1]);
    } else {
      var kept := Last(had, n);
      LastDistinct(had, n);
      LastDistinct(kept, n - |since|);
      PlaceOfLast(Last(kept, n - |since|), since, m);
    }
  }

  lemma FreshValid(u: Uplink, n: nat)
    requires Fresh(u, n)
    ensures u.Valid()
  {
  }

  lemma RunSnoc(u: Uplink, xs: seq<Input>, x: Input, c: Config, n: nat)
    requires Fresh(u, n)
    ensures Run(u, xs + [x], c) == Round(Run(u, xs, c), x, c)
    ensures Records(Run(u, xs, c), x) ==>
              var had := Recorded(u, xs + [x], c); had != [] && had[|had| - 1] == x.gained
  {
    hide Round, Records, Restarts;
    assert (xs + [x])[..|xs|] == xs;
  }

  /** Whatever became of a recorded frame in its own round, a later round sends it exactly when that round
      flushes the ring, speech recognition did not complete in between, fewer frames were recorded since
      than the ring has cells, and the flush gets as far as the frame. */
  lemma SentLaterIff(u: Uplink, xs: seq<Input>, x1: Input, ys: seq<Input>, x2: Input, c: Config, n: nat)
    requires Fresh(u, n) && Records(Run(u, xs, c), x1)
    requires Distinct(Captured(u, xs + [x1] + ys + [x2], c)) && x2.gained != x1.gained
    ensures var w, v := Round(Run(u, xs, c), x1, c), Run(u, xs + [x1] + ys, c);
            var t, since := Round(v, x2, c), Recorded(w, ys + [x2], c);
            && v.sent <= t.sent
            && (x1.gained in t.sent[|v.sent|..] <==>
                  && Flushes(x2) && !Restarted(w, ys + [x2], c) && |since| < n
                  && |t.ring.Order()| - 1 - |since| < x2.prerollSends)
  {
    hide *;
    FreshValid(u, n);
    var before, after := xs + [x1], ys + [x2];
    var w, v := Run(u, before, c), Run(u, before + ys, c);
    RunSnoc(u, xs, x1, c, n);
    RunSnoc(u, before + ys, x2, c, n);
    Associative(before, ys, [x2]);
    var had, since := Recorded(u, before, c), Recorded(w, after, c);
    RingHoldsLast(u, before + after, c, n);
    RoundSends(v, x2, c, x1.gained);
    RecordedAppend(u, before, after, c);
    RecordedIsCaptured(u, before, c);
    RecordedIsCaptured(w, after, c);
    var all1, all2 := Captured(u, before, c), Captured(w, after, c);
    Apart(all1, all2, x1.gained);
    DistinctFront(all1, all2);
    DistinctParts(all1, had);
    StillThere(had, since, n, Restarted(w, after, c), x2.prerollSends);
  }

  lemma DistinctFront(a: seq<Frame>, b: seq<Frame>)
    requires Distinct(a + b)
    ensures Distinct(a)
  {
    assert forall i :: 0 <= i < |a| ==> (a + b)[i] == a[i];
  }

  /** In its own round a recorded frame is sent exactly when the whole ring is flushed, which ends with it,
      or the stream goes on and takes it. */
  lemma SentAtOnceIff(u: Uplink, xs: seq<Input>, x: Input, c: Config, n: nat)
    requires Fresh(u, n) && Records(Run(u, xs, c), x) && Distinct(Captured(u, xs + [x], c))
    ensures var v := Run(u, xs, c);
            var w := Round(v, x, c);
            && v.sent <= w.sent
            && (x.gained in w.sent[|v.sent|..] <==>
                  || (Flushes(x) && x.prerollSends >= |w.ring.Order()|)
                  || (x.vad.active && x.connected && (!x.completedLater || x.ttsPlaying) && x.send))
  {
    hide Last, Round, Distinct, Prefix;
    var all := xs + [x];
    var v := Run(u, xs, c);
    var w := Round(v, x, c);
    assert all[..|xs|] == xs && w == Run(u, all, c);
    var had := Recorded(u, all, c);
    assert had[|had| - 1] == x.gained;
    assert Got(x);
    hide Run, Recorded, Captured, Fresh, Records;
    RingHoldsLast(u, all, c, n);
    RoundSends(v, x, c, x.gained);
    RecordedIsCaptured(u, all, c);
    DistinctParts(Captured(u, all, c), had);
    StillThere(had, [], n, false, x.prerollSends);
    Nil(had);
  }

  /** In a round without a flush the frame goes out exactly when the detector hears speech, the connection is up,
      recognition is not completed or speech is being played, and the submission succeeds. */
  lemma WithoutFlush(v: Uplink, x: Input, c: Config)
    requires v.Valid() && Got(x) && x.vad.Heard? && !Flushes(x)
    ensures Round(v, x, c).sent
         == v.sent + if x.vad.active && x.connected && (!x.completedLater || x.ttsPlaying) && x.send
                     then [x.gained] else []
  {
    hide Step, Peak;
    Nil(v.sent);
  }

  /** A frame at which speech starts, with everything in order; `raw` is what was captured. */
  function Begins(raw: Frame, f: Frame, n: nat): Input {
    Input(raw, f, true, false, Heard(true, true, false), true, n, true, false, false)
  }

  /** A frame at which speech ends. */
  function Ends(raw: Frame, f: Frame, n: nat): Input { Begins(raw, f, n).(vad := Heard(false, false, true)) }

  lemma BeginsUtterance(u: Uplink, xs: seq<Input>, raw: Frame, f: Frame, c: Config, n: nat)
    requires Fresh(u, n) && raw != [] && !Settled(Run(u, xs, c), Begins(raw, f, n)).speech
    ensures StartsUtterance(u, xs, Begins(raw, f, n), c, n)
  {
    LastIn(Recorded(u, xs + [Begins(raw, f, n)], c), n);
  }

  lemma FirstUtterance(u: Uplink, raw: Frame, a: Frame, c: Config, n: nat)
    requires Fresh(u, n) && n >= 2 && !u.completedSeen && u.sent == [] && raw != []
    ensures var x := Begins(raw, a, n);
            var v := Run(u, [x], c);
            v.sent == [a] == Recorded(u, [x], c) && v.speech && !v.completedSeen
  {
    var x := Begins(raw, a, n);
    assert [x][..0] == [] && [] + [x] == [x];
    BeginsUtterance(u, [], raw, a, c, n);
    SpeechStartSendsPreroll(u, [], x, c, n);
  }

  lemma ThenPause(u: Uplink, raw: Frame, a: Frame, c: Config, n: nat)
    requires Fresh(u, n) && n >= 2 && !u.completedSeen && u.sent == [] && raw != []
    ensures var xs := [Begins(raw, a, n), Ends(raw, a, n)];
            var v := Run(u, xs, c);
            v.sent == [a] == Recorded(u, xs, c) && !v.speech && !v.completedSeen
  {
    FirstUtterance(u, raw, a, c, n);
    assert [Begins(raw, a, n), Ends(raw, a, n)][..1] == [Begins(raw, a, n)];
  }

  /** A run in which that happens. */
  lemma SentTwice(u: Uplink, raw: Frame, a: Frame, b: Frame, c: Config, n: nat) returns (xs: seq<Input>)
    requires Fresh(u, n) && n >= 2 && !u.completedSeen && u.sent == [] && raw != []
    ensures Run(u, xs, c).sent == [a, a, b]
  {
    var two, x := [Begins(raw, a, n), Ends(raw, a, n)], Begins(raw, b, n);
    xs := two + [x];
    ThenPause(u, raw, a, c, n);
    BeginsUtterance(u, two, raw, b, c, n);
    SpeechStartSendsPreroll(u, two, x, c, n);
    hide Round, Gated, Kept, Sends;
    assert xs[..|xs| - 1] == two && xs[|xs| - 1] == x;
    assert Recorded(u, xs, c) == [a, b];
    assert Last([a, b], n) == [a, b];
  }
}
