/** Audio capture: a growable array that turns driver frames of any size into reads of a fixed size. */
module CaptureStash {
  import Seqs

  type Samples = seq<int>

  /** What the driver gives for one request: an error worth another try, an error that is not, a
      buffer without an address, or a frame; `memory` tells whether the array could be enlarged. */
  datatype Event = Retry | Fatal | NoAddress | Captured(frame: Samples, memory: bool)

  /** A read that waits for more than the given events is `Blocked`. */
  datatype Outcome = Delivered(samples: Samples) | Failed | Blocked

  /** How many frames one read accepts before it gives up. */
  const MAX_LOOPS := 8

  /** Each sample twice: one channel becomes two. */
  function Doubled(frame: Samples): (s: Samples)
    ensures |s| == 2 * |frame|
    decreases |frame|
  {
    if frame == [] then []
    else
      var last := frame[|frame| - 1];
      Doubled(frame[..|frame| - 1]) + [last, last]
  }

  /** Doubles a capacity until it holds `need` samples. */
  function Double(cap: nat, need: nat): (c: nat)
    requires cap > 0
    ensures c >= need && c >= cap && (c == cap || c < 2 * need)
    decreases need - cap
  {
    if cap < need then Double(2 * cap, need) else cap
  }

  /** The capacity after room for `need` samples was made; `initial` is the first one. */
  function Grown(cap: nat, need: nat, initial: nat): (c: nat)
    requires initial > 0
    ensures c >= need
    ensures c <= cap || c <= initial || c < 2 * need
  {
    if need <= cap then cap else Double(if cap == 0 then initial else cap, need)
  }

  datatype Stash = Stash(data: Samples, cap: nat)
  {
    predicate Valid() { |data| <= cap }

    predicate Grows(more: nat) { |data| + more > cap }

    function Append(frame: Samples, initial: nat): (s: Stash)
      requires initial > 0
      ensures s.Valid()
    {
      Stash(data + Doubled(frame), Grown(cap, |data| + 2 * |frame|, initial))
    }
  }

  /** What the loop of a read leads to: the stash, the frames it accepted, whether it ended with
      enough samples, and how many events it used. */
  datatype Collected = Collected(stash: Stash, accepted: seq<Samples>, status: Outcome, used: nat)

  /** The event makes the read fail. */
  predicate Breaks(s: Stash, e: Event) {
    e.Fatal? || e.NoAddress? || (e.Captured? && (e.frame == [] || (s.Grows(2 * |e.frame|) && !e.memory)))
  }

  function Collect(s: Stash, need: nat, events: seq<Event>, loops: nat, initial: nat): (r: Collected)
    requires s.Valid() && initial > 0
    ensures r.stash.Valid() && r.used <= |events|
    ensures r.status.Delivered? ==> |r.stash.data| >= need
    decreases |events|
  {
    if |s.data| >= need then Collected(s, [], Delivered([]), 0)
    else if events == [] then Collected(s, [], Blocked, 0)
    else if Breaks(s, events[0]) then Collected(s, [], Failed, 1)
    else if events[0].Retry? then
      var r := Collect(s, need, events[1..], loops, initial);
      r.(used := r.used + 1)
    else
      var t := s.Append(events[0].frame, initial);
      if loops + 1 > MAX_LOOPS
      then Collected(t, [events[0].frame], if |t.data| >= need then Delivered([]) else Failed, 1)
      else
        var r := Collect(t, need, events[1..], loops + 1, initial);
        r.(accepted := [events[0].frame] + r.accepted, used := r.used + 1)
  }

  /** The rest of a loop that had already accepted and used some events. */
  function Resumed(r: Collected, accepted: seq<Samples>, used: nat): Collected {
    r.(accepted := accepted + r.accepted, used := used + r.used)
  }

  lemma ResumeStep(s: Stash, need: nat, events: seq<Event>, loops: nat, initial: nat, accepted: seq<Samples>, used: nat)
    requires s.Valid() && initial > 0 && |s.data| < need && events != [] && !Breaks(s, events[0])
    ensures
      var e := events[0];
      var r := Resumed(Collect(s, need, events, loops, initial), accepted, used);
      if e.Retry? then r == Resumed(Collect(s, need, events[1..], loops, initial), accepted, used + 1)
      else
        var t := s.Append(e.frame, initial);
        if loops + 1 > MAX_LOOPS
        then r == Collected(t, accepted + [e.frame], if |t.data| >= need then Delivered([]) else Failed, used + 1)
        else r == Resumed(Collect(t, need, events[1..], loops + 1, initial), accepted + [e.frame], used + 1)
  {
    var e := events[0];
    if e.Captured? {
      var t := s.Append(e.frame, initial);
      Seqs.Associative(accepted, [e.frame], Collect(t, need, events[1..], loops + 1, initial).accepted);
    }
  }

  lemma ResumeEnd(s: Stash, need: nat, events: seq<Event>, loops: nat, initial: nat, accepted: seq<Samples>, used: nat)
    requires s.Valid() && initial > 0
    ensures
      var r := Resumed(Collect(s, need, events, loops, initial), accepted, used);
      && (|s.data| >= need ==> r == Collected(s, accepted, Delivered([]), used))
      && (|s.data| < need && events == [] ==> r == Collected(s, accepted, Blocked, used))
      && (|s.data| < need && events != [] && Breaks(s, events[0]) ==> r == Collected(s, accepted, Failed, used + 1))
  {
    Seqs.Nil(accepted);
  }

  /** One read of `need` samples. */
  datatype ReadResult = ReadResult(stash: Stash, accepted: seq<Samples>, outcome: Outcome, used: nat)

  function Read(s: Stash, need: nat, events: seq<Event>, initial: nat): (r: ReadResult)
    requires s.Valid() && initial > 0
    ensures r.stash.Valid()
  {
    if need == 0 then ReadResult(s, [], Failed, 0)
    else
      var c := Collect(s, need, events, 0, initial);
      if c.status.Delivered?
      then ReadResult(c.stash.(data := c.stash.data[need..]), c.accepted, Delivered(c.stash.data[..need]), c.used)
      else ReadResult(c.stash, c.accepted, c.status, c.used)
  }

  // ---------- The array ----------

  class AudioCapture {
    var stash: array<int>
    var stashLen: nat
    const initial: nat

    ghost predicate Valid()
      reads this
    {
      stashLen <= stash.Length && initial > 0
    }

    ghost function View(): Stash
      reads this, stash
      requires Valid()
    {
      Stash(stash[..stashLen], stash.Length)
    }

    constructor (first: nat)
      requires first > 0
      ensures Valid() && View() == Stash([], 0) && initial == first
    {
      stash := new int[0];
      stashLen := 0;
      initial := first;
    }

    /** `zh_rk_stash_reserve`. */
    method Reserve(more: nat, memory: bool) returns (ok: bool)
      requires Valid()
      modifies this
      ensures Valid() && ok == (memory || !old(View()).Grows(more))
      ensures ok ==> View() == old(View()).(cap := Grown(old(View()).cap, old(stashLen) + more, initial))
      ensures !ok ==> View() == old(View())
      ensures stash == old(stash) || fresh(stash)
    {
      var need := stashLen + more;
      if need <= stash.Length {
        return true;
      }
      var newCap := if stash.Length == 0 then initial else stash.Length;
      newCap := DoubledCap(newCap, need);
      if !memory {
        return false;
      }
      var p := new int[newCap];
      for i := 0 to stashLen
        modifies p
        invariant p[..i] == stash[..i]
      {
        p[i] := stash[i];
      }
      stash := p;
      ok := true;
    }

    method DoubledCap(cap: nat, need: nat) returns (c: nat)
      requires cap > 0
      ensures c == Double(cap, need)
    {
      c := cap;
      while c < need
        invariant c > 0 && Double(c, need) == Double(cap, need)
        decreases need - c
      {
        c := c * 2;
      }
    }

    /** The loop that appends a frame, each sample twice. */
    method AppendDoubled(frame: Samples)
      requires Valid() && stashLen + 2 * |frame| <= stash.Length
      modifies `stashLen, stash
      ensures Valid() && View() == old(View()).(data := old(View()).data + Doubled(frame))
    {
      ghost var had := stash[..stashLen];
      ghost var start := stashLen;
      for i := 0 to |frame|
        invariant stashLen == start + 2 * i && stashLen <= stash.Length
        invariant stash[..stashLen] == had + Doubled(frame[..i])
      {
        assert frame[..i + 1][..i] == frame[..i];
        var v := frame[i];
        stash[stashLen] := v;
        stash[stashLen + 1] := v;
        stashLen := stashLen + 2;
        assert stash[..stashLen] == stash[..stashLen - 2] + [v, v];
        Seqs.Associative(had, Doubled(frame[..i]), [v, v]);
      }
      Seqs.Whole(frame);
    }

    /** One pass of the loop that waits for samples: what to do next, and the frame if one was accepted. */
    method TakeEvent(e: Event) returns (ok: bool)
      requires Valid()
      modifies this, stash
      ensures Valid() && (stash == old(stash) || fresh(stash)) && ok == !Breaks(old(View()), e)
      ensures View() == if ok && e.Captured? then old(View()).Append(e.frame, initial) else old(View())
    {
      match e {
        case Retry => return true;
        case Fatal => return false;
        case NoAddress => return false;
        case Captured(frame, memory) =>
          if |frame| == 0 {
            return false;
          }
          ok := Reserve(2 * |frame|, memory);
          if ok {
            AppendDoubled(frame);
          }
      }
    }

    /** Takes the first `n` samples out of the array. */
    method Shift(n: nat)
      requires Valid() && n <= stashLen
      modifies `stashLen, stash
      ensures Valid() && View() == old(View()).(data := old(View()).data[n..])
    {
      for i := 0 to stashLen - n
        modifies stash
        invariant stash[..i] == old(stash[n..n + i])
        invariant stash[i..] == old(stash[i..])
      {
        stash[i] := stash[i + n];
      }
      stashLen := stashLen - n;
    }

    /** The loop of `zh_audio_capture_read`, with the driver's answers in `events`. */
    method WaitForSamples(need: nat, events: seq<Event>)
      returns (status: Outcome, ghost accepted: seq<Samples>, used: nat)
      requires Valid()
      modifies this, stash
      ensures Valid() && (stash == old(stash) || fresh(stash))
      ensures Collected(View(), accepted, status, used) == Collect(old(View()), need, events, 0, initial)
    {
      accepted, used := [], 0;
      var loops := 0;
      ghost var start := View();
      ghost var end := Collect(start, need, events, 0, initial);
      hide Collect, Breaks, Grown, Doubled;
      assert events[0..] == events;
      while stashLen < need
        invariant Valid() && (stash == old(stash) || fresh(stash)) && used <= |events|
        invariant loops <= MAX_LOOPS
        invariant end == Resumed(Collect(View(), need, events[used..], loops, initial), accepted, used)
        decreases |events| - used
      {
        ResumeEnd(View(), need, events[used..], loops, initial, accepted, used);
        if used == |events| {
          return Blocked, accepted, used;
        }
        var e := events[used];
        ghost var s, left := View(), events[used..];
        var ok := TakeEvent(e);
        used := used + 1;
        if !ok {
          return Failed, accepted, used;
        }
        ResumeStep(s, need, left, loops, initial, accepted, used - 1);
        assert left[1..] == events[used..];
        if e.Captured? {
          accepted := accepted + [e.frame];
          loops := loops + 1;
          if loops > MAX_LOOPS {
            status := if stashLen < need then Failed else Delivered([]);
            return;
          }
        }
      }
      ResumeEnd(View(), need, events[used..], loops, initial, accepted, used);
      status := Delivered([]);
    }

    /** `zh_audio_capture_read`. */
    method ReadSamples(need: nat, events: seq<Event>)
      returns (outcome: Outcome, ghost accepted: seq<Samples>, used: nat)
      requires Valid()
      modifies this, stash
      ensures Valid() && ReadResult(View(), accepted, outcome, used) == Read(old(View()), need, events, initial)
    {
      if need == 0 {
        return Failed, [], 0;
      }
      outcome, accepted, used := WaitForSamples(need, events);
      if outcome.Delivered? {
        outcome := Delivered(stash[..need]);
        hide Collect;
        Seqs.SliceOfSlice(stash[..], stashLen, 0, need);
        Shift(need);
      }
    }
  }

  // ---------- Nothing is lost, repeated or reordered ----------

  /** The frames one after the other, each sample twice. */
  function AllDoubled(frames: seq<Samples>): Samples
    decreases |frames|
  {
    if frames == [] then [] else Doubled(frames[0]) + AllDoubled(frames[1..])
  }

  lemma {:induction false} DoubledAt(frame: Samples, k: nat)
    requires k < 2 * |frame|
    ensures Doubled(frame)[k] == frame[k / 2]
    decreases |frame|
  {
    if k < 2 * (|frame| - 1) {
      DoubledAt(frame[..|frame| - 1], k);
    }
  }

  lemma {:induction false} AllDoubledAppend(a: seq<Samples>, b: seq<Samples>)
    ensures AllDoubled(a + b) == AllDoubled(a) + AllDoubled(b)
    decreases |a|
  {
    hide Doubled;
    if a == [] {
      Seqs.Nil(b);
      Seqs.Nil(AllDoubled(b));
    } else {
      AllDoubledAppend(a[1..], b);
      Seqs.DropOfAppend(a, b, 1);
      Seqs.Associative(Doubled(a[0]), AllDoubled(a[1..]), AllDoubled(b));
    }
  }

  /** The loop adds exactly the frames it accepts, whether it ends well or not. */
  lemma {:induction false} CollectKeeps(s: Stash, need: nat, events: seq<Event>, loops: nat, initial: nat)
    requires s.Valid() && initial > 0
    ensures var r := Collect(s, need, events, loops, initial); r.stash.data == s.data + AllDoubled(r.accepted)
    decreases |events|
  {
    hide Doubled, Grown;
    Seqs.Nil(s.data);
    if |s.data| < need && events != [] && !Breaks(s, events[0]) {
      if events[0].Retry? {
        CollectKeeps(s, need, events[1..], loops, initial);
      } else {
        var f := events[0].frame;
        var t := s.Append(f, initial);
        if loops + 1 > MAX_LOOPS {
          Seqs.Nil(Doubled(f));
        } else {
          CollectKeeps(t, need, events[1..], loops + 1, initial);
          var rest := Collect(t, need, events[1..], loops + 1, initial).accepted;
          Seqs.Associative(s.data, Doubled(f), AllDoubled(rest));
          Seqs.TailOfCons(f, rest);
        }
      }
    }
  }

  /** One call of the reader: how many samples it asks for, and what the driver answers meanwhile. */
  datatype Call = Call(need: nat, events: seq<Event>)

  /** A run of calls: the stash at the end, the samples delivered and the frames accepted. */
  datatype Session = Session(stash: Stash, delivered: Samples, accepted: seq<Samples>)

  function DeliveredSamples(o: Outcome): Samples { if o.Delivered? then o.samples else [] }

  function Calls(s: Stash, calls: seq<Call>, initial: nat): (r: Session)
    requires s.Valid() && initial > 0
    ensures r.stash.Valid()
    decreases |calls|
  {
    if calls == [] then Session(s, [], [])
    else
      var before := Calls(s, calls[..|calls| - 1], initial);
      var call := calls[|calls| - 1];
      var r := Read(before.stash, call.need, call.events, initial);
      Session(r.stash, before.delivered + DeliveredSamples(r.outcome), before.accepted + r.accepted)
  }

  lemma ReadKeeps(s: Stash, need: nat, events: seq<Event>, initial: nat)
    requires s.Valid() && initial > 0
    ensures var r := Read(s, need, events, initial);
            DeliveredSamples(r.outcome) + r.stash.data == s.data + AllDoubled(r.accepted)
    ensures var r := Read(s, need, events, initial); r.outcome.Delivered? ==> |r.outcome.samples| == need
  {
    hide Collect;
    CollectKeeps(s, need, events, 0, initial);
    if need == 0 {
      Seqs.Nil(s.data);
    } else {
      var c := Collect(s, need, events, 0, initial);
      if c.status.Delivered? {
        Seqs.Split(c.stash.data, need);
      } else {
        Seqs.Nil(c.stash.data);
      }
    }
  }

  /** Across all reads, also those that fail, the samples delivered and then those in the stash are
      the accepted frames' samples in order, each of them twice. */
  lemma {:induction false} CallsConserve(s: Stash, calls: seq<Call>, initial: nat)
    requires s.Valid() && initial > 0
    ensures var r := Calls(s, calls, initial); r.delivered + r.stash.data == s.data + AllDoubled(r.accepted)
    decreases |calls|
  {
    hide Read, AllDoubled;
    if calls == [] {
      assert AllDoubled([]) == [] by { NoneDoubled(); }
      Seqs.Nil(s.data);
    } else {
      var before := Calls(s, calls[..|calls| - 1], initial);
      var call := calls[|calls| - 1];
      var r := Read(before.stash, call.need, call.events, initial);
      CallsConserve(s, calls[..|calls| - 1], initial);
      ReadKeeps(before.stash, call.need, call.events, initial);
      AllDoubledAppend(before.accepted, r.accepted);
      Seqs.Associative(before.delivered, DeliveredSamples(r.outcome), r.stash.data);
      Seqs.Associative(before.delivered, before.stash.data, AllDoubled(r.accepted));
      Seqs.Associative(s.data, AllDoubled(before.accepted), AllDoubled(r.accepted));
    }
  }

  lemma NoneDoubled()
    ensures AllDoubled([]) == []
  {
  }

  // ---------- When a read can fail ----------

  /** The driver makes no error, memory suffices, and every frame has at least `least` samples. */
  predicate Healthy(events: seq<Event>, least: nat) {
    forall e :: e in events ==> e.Retry? || (e.Captured? && e.memory && |e.frame| >= least)
  }

  /** A healthy driver makes no read fail whose size nine of its smallest frames cover. */
  lemma {:induction false} HealthyNeverFails(s: Stash, need: nat, events: seq<Event>, loops: nat, initial: nat,
                                             least: nat)
    requires s.Valid() && initial > 0 && least > 0 && Healthy(events, least) && loops <= MAX_LOOPS
    requires |s.data| + 2 * least * (MAX_LOOPS + 1 - loops) >= need
    ensures !Collect(s, need, events, loops, initial).status.Failed?
    decreases |events|
  {
    if |s.data| < need && events != [] {
      var e := events[0];
      assert e in events && forall x :: x in events[1..] ==> x in events;
      if e.Retry? {
        HealthyNeverFails(s, need, events[1..], loops, initial, least);
      } else {
        assert 2 * least * (MAX_LOOPS + 1 - loops) == 2 * least * (MAX_LOOPS + 1 - (loops + 1)) + 2 * least;
        if loops + 1 <= MAX_LOOPS {
          HealthyNeverFails(s.Append(e.frame, initial), need, events[1..], loops + 1, initial, least);
        }
      }
    }
  }

  /** No event makes the loop stop as long as samples are missing, one way or the other. */
  lemma {:induction false} CollectEnds(s: Stash, need: nat, events: seq<Event>, loops: nat, initial: nat)
    requires s.Valid() && initial > 0
    ensures var r := Collect(s, need, events, loops, initial);
            && (r.status.Delivered? <==> need <= |r.stash.data|)
            && (r.status.Blocked? ==> r.used == |events|)
    decreases |events|
  {
    hide Grown;
    if |s.data| < need && events != [] && !Breaks(s, events[0]) {
      if events[0].Retry? {
        CollectEnds(s, need, events[1..], loops, initial);
      } else if loops + 1 <= MAX_LOOPS {
        CollectEnds(s.Append(events[0].frame, initial), need, events[1..], loops + 1, initial);
      }
    }
  }

  /** What a read gives: it delivers exactly when the samples it had and those of the frames that it accepted,
      doubled, cover what was asked, and then it gives the first of them, and the rest stays. */
  lemma ReadGives(s: Stash, need: nat, events: seq<Event>, initial: nat)
    requires s.Valid() && initial > 0
    ensures var r := Read(s, need, events, initial);
            var all := s.data + AllDoubled(r.accepted);
            && (r.outcome.Delivered? <==> 0 < need <= |all|)
            && (r.outcome.Delivered? ==> r.outcome.samples == all[..need] && r.stash.data == all[need..])
            && (!r.outcome.Delivered? ==> r.stash.data == all)
            && (r.outcome.Blocked? ==> r.used == |events|)
            && (need <= |s.data| ==> r.accepted == [] && r.used == 0)
  {
    NoneDoubled();
    Seqs.Nil(s.data);
    CollectKeeps(s, need, events, 0, initial);
    CollectEnds(s, need, events, 0, initial);
  }

  /** A healthy driver makes no read fail whose size nine of its smallest frames cover: the read delivers, or
      waits for more than the driver has given. */
  lemma HealthyReads(s: Stash, need: nat, events: seq<Event>, initial: nat, least: nat)
    requires s.Valid() && initial > 0 && least > 0 && Healthy(events, least)
    requires 0 < need <= |s.data| + 2 * least * (MAX_LOOPS + 1)
    ensures !Read(s, need, events, initial).outcome.Failed?
  {
    HealthyNeverFails(s, need, events, 0, initial, least);
    hide Collect;
  }

  /** How many samples the frames of a driver's answers bring, doubled. */
  function Brought(events: seq<Event>): nat
    decreases |events|
  {
    if events == [] then 0
    else (if events[0].Captured? then 2 * |events[0].frame| else 0) + Brought(events[1..])
  }

  lemma {:induction false} HealthyCollects(s: Stash, need: nat, events: seq<Event>, loops: nat, initial: nat,
                                           least: nat)
    requires s.Valid() && initial > 0 && least > 0 && Healthy(events, least) && loops <= MAX_LOOPS
    requires |s.data| + 2 * least * (MAX_LOOPS + 1 - loops) >= need && |s.data| + Brought(events) >= need
    ensures Collect(s, need, events, loops, initial).status.Delivered?
    decreases |events|
  {
    hide Grown;
    if |s.data| < need && events != [] {
      var e := events[0];
      assert e in events && forall x :: x in events[1..] ==> x in events;
      if e.Retry? {
        HealthyCollects(s, need, events[1..], loops, initial, least);
      } else {
        assert 2 * least * (MAX_LOOPS + 1 - loops) == 2 * least * (MAX_LOOPS + 1 - (loops + 1)) + 2 * least;
        if loops + 1 <= MAX_LOOPS {
          HealthyCollects(s.Append(e.frame, initial), need, events[1..], loops + 1, initial, least);
        }
      }
    }
  }

  /** And it delivers as soon as the driver has given enough, whatever retries lie in between. */
  lemma HealthyDelivers(s: Stash, need: nat, events: seq<Event>, initial: nat, least: nat)
    requires s.Valid() && initial > 0 && least > 0 && Healthy(events, least)
    requires 0 < need <= |s.data| + 2 * least * (MAX_LOOPS + 1) && need <= |s.data| + Brought(events)
    ensures Read(s, need, events, initial).outcome.Delivered?
  {
    HealthyCollects(s, need, events, 0, initial, least);
    hide Collect;
  }

  /** `first` doubled `k` times. */
  function Doublings(first: nat, k: nat): nat
    decreases k
  {
    if k == 0 then first else 2 * Doublings(first, k - 1)
  }

  lemma {:induction false} DoubleLeast(cap: nat, need: nat) returns (k: nat)
    requires cap > 0
    ensures Double(cap, need) == Doublings(cap, k) && (k > 0 ==> Doublings(cap, k - 1) < need)
    decreases need - cap
  {
    k := 0;
    if cap < need {
      var n := DoubleLeast(2 * cap, need);
      k := n + 1;
      DoublingsTwice(cap, n);
      if n > 0 {
        DoublingsTwice(cap, n - 1);
      }
    }
  }

  lemma {:induction false} DoublingsTwice(cap: nat, k: nat)
    ensures Doublings(2 * cap, k) == Doublings(cap, k + 1)
    decreases k
  {
    if k > 0 {
      DoublingsTwice(cap, k - 1);
    }
  }

  /** The capacity stays when it suffices; otherwise it, or the first one where there was none, is doubled as
      often as needed and not once more. */
  lemma GrownLeast(cap: nat, need: nat, initial: nat) returns (k: nat)
    requires initial > 0
    ensures need <= cap ==> Grown(cap, need, initial) == cap
    ensures need > cap ==>
              var first := if cap > 0 then cap else initial;
              Grown(cap, need, initial) == Doublings(first, k) >= need && (k > 0 ==> Doublings(first, k - 1) < need)
  {
    k := DoubleLeast(if cap > 0 then cap else initial, need);
  }

  /** The first frame of a read that needs samples is accepted exactly when it is not empty and memory suffices:
      the array has room for it, or can be enlarged. */
  lemma FirstFrame(s: Stash, need: nat, frame: Samples, memory: bool, rest: seq<Event>, initial: nat)
    requires s.Valid() && initial > 0 && |s.data| < need
    ensures var r := Read(s, need, [Captured(frame, memory)] + rest, initial);
            var accepted := frame != [] && (memory || |s.data| + 2 * |frame| <= s.cap);
            && (accepted ==> r.accepted != [] && r.accepted[0] == frame)
            && (!accepted ==> r.accepted == [] && r.outcome == Failed && r.stash == s && r.used == 1)
  {
  }

  /** A driver that breaks makes the read fail, unless there were samples enough before. */
  lemma BrokenFails(s: Stash, need: nat, e: Event, rest: seq<Event>, initial: nat)
    requires s.Valid() && initial > 0 && |s.data| < need
    requires e.Fatal? || e.NoAddress? || (e.Captured? && e.frame == [])
             || (e.Captured? && !e.memory && |s.data| + 2 * |e.frame| > s.cap)
    ensures var r := Read(s, need, [e] + rest, initial); r.outcome == Failed && r.stash == s && r.used == 1
  {
  }

  // ---------- How large the stash gets ----------

  predicate FramesAtMost(events: seq<Event>, size: nat) {
    forall e :: e in events && e.Captured? ==> |e.frame| <= size
  }

  /** The stash holds at most `bound` samples, in an array of bounded size. */
  predicate Within(s: Stash, bound: nat, initial: nat) {
    s.Valid() && |s.data| <= bound && (s.cap <= initial || s.cap <= 2 * bound)
  }

  lemma {:induction false} CollectWithin(s: Stash, need: nat, events: seq<Event>, loops: nat, initial: nat,
                                         size: nat, bound: nat)
    requires initial > 0 && FramesAtMost(events, size) && Within(s, bound, initial)
    requires need > 0 && need - 1 + 2 * size <= bound
    ensures Within(Collect(s, need, events, loops, initial).stash, bound, initial)
    decreases |events|
  {
    if |s.data| < need && events != [] && !Breaks(s, events[0]) {
      assert events[0] in events;
      assert forall e :: e in events[1..] ==> e in events;
      if events[0].Retry? {
        CollectWithin(s, need, events[1..], loops, initial, size, bound);
      } else if loops + 1 <= MAX_LOOPS {
        CollectWithin(s.Append(events[0].frame, initial), need, events[1..], loops + 1, initial, size, bound);
      }
    }
  }

  /** With driver frames of at most `size` samples and reads of at most `most`, the stash never holds
      more than `most - 1` samples and one doubled frame, and the array less than twice as many or
      its first size. */
  lemma {:induction false} StashStaysSmall(calls: seq<Call>, initial: nat, size: nat, most: nat)
    requires initial > 0 && most > 0
    requires forall c :: c in calls ==> c.need <= most && FramesAtMost(c.events, size)
    ensures Within(Calls(Stash([], 0), calls, initial).stash, most - 1 + 2 * size, initial)
    decreases |calls|
  {
    if calls != [] {
      StashStaysSmall(calls[..|calls| - 1], initial, size, most);
      var call := calls[|calls| - 1];
      assert call in calls;
      if call.need > 0 {
        var before := Calls(Stash([], 0), calls[..|calls| - 1], initial).stash;
        CollectWithin(before, call.need, call.events, 0, initial, size, most - 1 + 2 * size);
      }
      hide Collect, FramesAtMost;
    }
  }
}
