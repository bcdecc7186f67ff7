/** The exact condition under which the way a stream is split into writes changes nothing. */
module BleSplittings {
  import opened Crc16
  import opened BleFrames
  import opened BleReceiver
  import opened BleSession
  import Seqs

  // ---------- Where an impossible length shows ----------

  /** How many bytes of the stream it takes to see its first impossible length. */
  function Cut(s: bytes): (p: nat)
    requires Parse(s).reset
    ensures 0 < p <= |s| && Parse(s[..p]).reset && !Parse(s[..p - 1]).reset
    decreases |s|
  {
    NothingResets();
    Seqs.Whole(s);
    var front := s[..|s| - 1];
    if Parse(front).reset then
      var p := Cut(front);
      Seqs.SliceOfSlice(s, |s| - 1, 0, p);
      Seqs.SliceOfSlice(s, |s| - 1, 0, p - 1);
      p
    else |s|
  }

  lemma NothingResets()
    ensures Parse([]) == Parsed([], [], false)
  {
  }

  /** A prefix of a stream that includes an impossible length has all the parse has up to it. */
  lemma LongerResets(s: bytes, i: nat, j: nat)
    requires i <= j <= |s| && Parse(s[..i]).reset
    ensures Parse(s[..j]) == Parse(s[..i])
  {
    hide Parse;
    ResetStays(s[..i], s[i..j]);
    Seqs.SliceJoin(s, i, j);
  }

  lemma CutUnique(s: bytes, p: nat)
    requires 0 < p <= |s| && Parse(s[..p]).reset && !Parse(s[..p - 1]).reset
    ensures Parse(s).reset && Cut(s) == p
  {
    hide Parse;
    LongerResets(s, p, |s|);
    Seqs.Whole(s);
    var q := Cut(s);
    if q < p {
      LongerResets(s, q, p - 1);
    } else if p < q {
      LongerResets(s, p, q - 1);
    }
  }

  /** The furthest place at which the write that brings the impossible length can end: the buffer must
      hold it with the bytes pending before it. */
  function Reach(s: bytes): nat
    requires Parse(s).reset
  {
    RestIsShort(s[..Cut(s) - 1]);
    Cut(s) - 1 + RX_MAX - |Parse(s[..Cut(s) - 1]).rest|
  }

  /** No way of splitting the stream brings anything or keeps anything: one parse does not, and neither
      does what a write that brings an impossible length can leave of it. */
  predicate Quiet(s: bytes)
    decreases |s|, 1
  {
    Parse(s).messages == [] && Parse(s).rest == [] && Clean(s)
  }

  /** Whatever can be left after the write with the first impossible length is quiet. */
  predicate Clean(s: bytes)
    decreases |s|, 0
  {
    Parse(s).reset ==> forall e :: Cut(s) <= e <= Reach(s) && e <= |s| ==> Quiet(s[e..])
  }

  // ---------- Clean streams ----------

  /** What is pending after `b` takes the place of `b`. */
  lemma CutRest(b: bytes, t: bytes)
    requires !Parse(b).reset && Parse(b + t).reset
    ensures var r := Parse(b).rest;
            && |r| <= |b| && Parse(r + t).reset
            && |b| < Cut(b + t) == Cut(r + t) + |b| - |r| && Reach(b + t) == Reach(r + t) + |b| - |r|
  {
    hide Parse;
    var r, p := Parse(b).rest, Cut(b + t);
    RestWaits(b);
    Seqs.DropAll(b, t);
    if p <= |b| {
      LongerResets(b + t, p, |b|);
    }
    var i := p - |b|;
    assert (b + t)[..p] == b + t[..i] && (r + t)[..|r| + i] == r + t[..i];
    assert (b + t)[..p - 1] == b + t[..i - 1] && (r + t)[..|r| + i - 1] == r + t[..i - 1];
    ParseAppend(b, t[..i]);
    ParseAppend(b, t[..i - 1]);
    CutUnique(r + t, |r| + i);
  }

  lemma CleanRest(b: bytes, t: bytes)
    requires !Parse(b).reset && Clean(b + t)
    ensures Clean(Parse(b).rest + t)
  {
    hide Parse, Cut, Reach, Quiet;
    var r := Parse(b).rest;
    ParseAppend(b, t);
    if Parse(r + t).reset {
      CutRest(b, t);
      var d := |b| - |r|;
      RestWaits(b);
      WaitingParse(r);
      Seqs.Nil(r);
      forall e | Cut(r + t) <= e <= Reach(r + t) && e <= |r + t| ensures Quiet((r + t)[e..]) {
        assert Quiet((b + t)[e + d..]);
        assert e >= |r| && (b + t)[e + d..] == t[e - |r|..] == (r + t)[e..];
      }
    }
  }

  /** What is left after a write of a clean stream with an impossible length is quiet. */
  lemma CleanLeaves(b: bytes, t: bytes)
    requires |b| <= RX_MAX && Parse(b).reset && Clean(b + t)
    ensures Quiet(t)
  {
    hide Parse, Quiet;
    ResetStays(b, t);
    var s := b + t;
    var p := Cut(s);
    Seqs.DropAll(b, t);
    if p > |b| {
      LongerResets(s, |b|, p - 1);
    }
    RestWaits(s[..p - 1]);
    assert Quiet(s[|b|..]);
  }

  /** Every fitting splitting of a clean stream gives what one parse gives. */
  lemma {:induction false} CleanRuns(buf: bytes, ws: seq<Write>)
    requires NextStep(buf).Wait? && Fits(buf, ws) && Clean(buf + Joined(ws))
    ensures Run(buf, ws) == Parse(buf + Joined(ws))
    decreases ws
  {
    if ws == [] {
      Seqs.Nil(buf);
      WaitingParse(buf);
    } else {
      hide NextStep, Clean;
      var v, p, rest := ws[0].value, AfterWrite(buf, ws[0]), Joined(ws[1..]);
      Seqs.Associative(buf, v, rest);
      if v == [] {
        Seqs.Nil(buf);
        WaitingParse(buf);
      }
      assert p == Parse(buf + v);
      if p.reset {
        CleanLeaves(buf + v, rest);
        ResetStays(buf + v, rest);
        WaitingOnNothing();
        Seqs.Nil(rest);
        Seqs.Nil(p.messages);
        CleanRuns([], ws[1..]);
      } else {
        RestWaits(buf + v);
        CleanRest(buf + v, rest);
        ParseAppend(buf + v, rest);
        CleanRuns(p.rest, ws[1..]);
      }
    }
  }

  // ---------- Streams that are not clean ----------

  /** One write for each byte. */
  function Bytewise(s: bytes): seq<Write> { seq(|s|, i requires 0 <= i < |s| => Write(0, [s[i]])) }

  lemma {:induction false} RunAppend(buf: bytes, xs: seq<Write>, ys: seq<Write>)
    ensures var p, q := Run(buf, xs), Run(Run(buf, xs).rest, ys);
            Run(buf, xs + ys) == Parsed(p.messages + q.messages, q.rest, p.reset || q.reset)
    ensures Fits(buf, xs + ys) <==> Fits(buf, xs) && Fits(Run(buf, xs).rest, ys)
    decreases xs
  {
    hide AfterWrite, Accepted;
    if xs == [] {
      Seqs.Nil(ys);
      Seqs.Nil(Run(buf, ys).messages);
    } else {
      var p, tail := AfterWrite(buf, xs[0]), Run(AfterWrite(buf, xs[0]).rest, xs[1..]);
      assert (xs + ys)[0] == xs[0] && (xs + ys)[1..] == xs[1..] + ys;
      RunAppend(p.rest, xs[1..], ys);
      Seqs.Associative(p.messages, tail.messages, Run(tail.rest, ys).messages);
    }
  }

  lemma {:induction false} JoinedAppend(xs: seq<Write>, ys: seq<Write>)
    ensures Joined(xs + ys) == Joined(xs) + Joined(ys)
    decreases xs
  {
    if xs == [] {
      Seqs.Nil(ys);
      Seqs.Nil(Joined(ys));
    } else {
      assert (xs + ys)[0] == xs[0] && (xs + ys)[1..] == xs[1..] + ys;
      JoinedAppend(xs[1..], ys);
      Seqs.Associative(xs[0].value, Joined(xs[1..]), Joined(ys));
    }
  }

  /** Writes of one byte always fit, and deliver at least what one parse does. */
  lemma {:induction false} BytewiseRuns(buf: bytes, s: bytes)
    requires NextStep(buf).Wait?
    ensures Joined(Bytewise(s)) == s && Fits(buf, Bytewise(s))
    ensures Parse(buf + s).messages <= Run(buf, Bytewise(s)).messages
    decreases |s|
  {
    if s == [] {
      Seqs.Nil(buf);
      WaitingParse(buf);
    } else {
      hide NextStep, Parse;
      var b, rest := buf + s[..1], s[1..];
      var p := Parse(b);
      assert Bytewise(s)[0] == Write(0, s[..1]) && Bytewise(s)[1..] == Bytewise(rest);
      Seqs.Split(s, 1);
      Seqs.Associative(buf, s[..1], rest);
      WaitingIsShort(buf);
      RestWaits(b);
      BytewiseRuns(p.rest, rest);
      if p.reset {
        ResetStays(b, rest);
      } else {
        ParseAppend(b, rest);
      }
    }
  }

  /** The splitting by single bytes up to the first impossible length, whose write goes on to `e`. */
  function Through(s: bytes, e: nat, ws: seq<Write>): seq<Write>
    requires Parse(s).reset && Cut(s) <= e <= |s|
  {
    Bytewise(s[..Cut(s) - 1]) + ([Write(0, s[Cut(s) - 1..e])] + ws)
  }

  lemma ThroughRuns(s: bytes, e: nat, ws: seq<Write>)
    requires Parse(s).reset && Cut(s) <= e <= Reach(s) && e <= |s|
    requires Joined(ws) == s[e..] && Fits([], ws)
    ensures Joined(Through(s, e, ws)) == s && Fits([], Through(s, e, ws))
    ensures Run([], Through(s, e, ws)).messages == Parse(s).messages + Run([], ws).messages
    ensures Run([], Through(s, e, ws)).rest == Run([], ws).rest
  {
    hide Parse, NextStep, Cut, Bytewise;
    var p := Cut(s);
    var front, w := s[..p - 1], Write(0, s[p - 1..e]);
    WaitingOnNothing();
    BytewiseRuns([], front);
    Seqs.Nil(front);
    ChunkIndependence([], Bytewise(front));
    RunAppend([], Bytewise(front), [w] + ws);
    JoinedAppend(Bytewise(front), [w] + ws);
    Seqs.TailOfCons(w, ws);
    assert front + (w.value + s[e..]) == s;
    ThroughReset(s, e);
  }

  /** The write with the impossible length dispatches what is still missing, and empties the buffer. */
  lemma ThroughReset(s: bytes, e: nat)
    requires Parse(s).reset && Cut(s) <= e <= |s|
    ensures var p := Parse(s[..Cut(s) - 1]);
            var q := Parse(p.rest + s[Cut(s) - 1..e]);
            q.reset && q.rest == [] && Parse(s).messages == p.messages + q.messages
  {
    hide Parse, Cut;
    var n := Cut(s);
    Seqs.SliceJoin(s, n - 1, e);
    LongerResets(s, n, e);
    LongerResets(s, n, |s|);
    Seqs.Whole(s);
    ParseAppend(s[..n - 1], s[n - 1..e]);
    ResetStays(Parse(s[..n - 1]).rest + s[n - 1..e], []);
  }

  /** A splitting of a stream that is not quiet, which brings or keeps something. */
  lemma {:induction false} Noise(s: bytes) returns (ws: seq<Write>)
    requires !Quiet(s)
    ensures Joined(ws) == s && Fits([], ws) && (Run([], ws).messages != [] || Run([], ws).rest != [])
    decreases |s|
  {
    hide Parse, NextStep, Cut, Reach, Through, Bytewise;
    if Clean(s) || Parse(s).messages != [] {
      ws := Bytewise(s);
      WaitingOnNothing();
      BytewiseRuns([], s);
      Seqs.Nil(s);
      if !Parse(s).reset {
        ChunkIndependence([], ws);
      } else {
        ResetStays(s, []);
      }
    } else {
      var e :| Cut(s) <= e <= Reach(s) && e <= |s| && !Quiet(s[e..]);
      var later := Noise(s[e..]);
      ws := Through(s, e, later);
      ThroughRuns(s, e, later);
    }
  }

  /** A fitting splitting of a stream that is not clean, which does not give what one parse gives. */
  lemma Disagrees(s: bytes) returns (ws: seq<Write>)
    requires !Clean(s)
    ensures Joined(ws) == s && Fits([], ws) && Run([], ws) != Parse(s)
  {
    hide Parse, NextStep, Cut, Reach, Through, Quiet;
    var e :| Cut(s) <= e <= Reach(s) && e <= |s| && !Quiet(s[e..]);
    var later := Noise(s[e..]);
    ws := Through(s, e, later);
    ThroughRuns(s, e, later);
    ResetStays(s, []);
  }

  /** All fitting splittings of a stream give what one parse gives exactly when the stream is clean. */
  lemma SplittingsAgreeIff(s: bytes)
    ensures (forall ws :: Joined(ws) == s && Fits([], ws) ==> Run([], ws) == Parse(s)) <==> Clean(s)
  {
    WaitingOnNothing();
    hide Parse, NextStep, Clean, Run, Fits, Joined;
    if Clean(s) {
      forall ws | Joined(ws) == s && Fits([], ws) ensures Run([], ws) == Parse(s) {
        Seqs.Nil(s);
        CleanRuns([], ws);
      }
    } else {
      var ws := Disagrees(s);
    }
  }

  // ---------- Streams that the buffer can hold ----------

  /** The stream without its last byte announces no impossible length. */
  predicate Harmless(s: bytes) { s == [] || !Parse(s[..|s| - 1]).reset }

  lemma HarmlessIsClean(s: bytes)
    requires Harmless(s)
    ensures Clean(s)
  {
    NothingResets();
    hide Parse;
    if Parse(s).reset {
      Seqs.Whole(s);
      CutUnique(s, |s|);
    }
  }

  lemma OneByteWaits(s: bytes)
    requires |s| == 1
    ensures Parse(s) == Parsed([], s, false)
  {
  }

  /** A stream that fits the buffer is clean exactly when it announces no impossible length before its
      last byte. */
  lemma ShortIsClean(s: bytes)
    requires |s| <= RX_MAX
    ensures Clean(s) <==> Harmless(s)
  {
    hide Parse;
    if Harmless(s) {
      HarmlessIsClean(s);
    } else if Clean(s) {
      var front, last := s[..|s| - 1], s[|s| - 1..];
      Seqs.Split(s, |s| - 1);
      CleanLeaves(front, last);
      OneByteWaits(last);
    }
  }
}
