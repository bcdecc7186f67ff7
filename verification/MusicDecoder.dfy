/** The decoder of the music player: bytes of an item come in pieces, and every sound it makes is
    preceded by a look at the cancel token. */
module MusicDecoder {
  import opened MusicProtocol
  import MusicQueue
  import Seqs

  /** What the worker does that others can see: it looks at the token, or it writes sound. */
  datatype Act = Look(abort: bool) | Sound

  /** What decoding the bytes from some position on gives: how many of them it used, which are at most
      those there are, whether that made any samples, and whether memory for resampling sufficed and
      left any frames. */
  datatype Decoded = Decoded(bytes: nat, samples: bool, memory: bool, frames: bool)

  /** Every sound comes directly after a look that found no reason to stop. */
  predicate Guarded(acts: seq<Act>) {
    forall i :: 0 <= i < |acts| && acts[i].Sound? ==> i > 0 && acts[i - 1] == Look(false)
  }

  /** No sound comes after a look that found a reason to stop. */
  predicate Heeds(acts: seq<Act>) {
    forall i, j :: 0 <= i < j < |acts| && acts[i] == Look(true) ==> !acts[j].Sound?
  }

  /** Acts that obey both rules; the worker may go on only while no look told it to stop. */
  predicate Obedient(acts: seq<Act>, goesOn: bool) {
    Guarded(acts) && Heeds(acts) && (goesOn ==> Look(true) !in acts)
  }

  /** How many of the decodings from number `i` up to `j` give sound: they use bytes and make samples, and frames
      are left after resampling. */
  function Audible(decodeAt: nat -> Decoded, i: nat, j: nat): nat
    requires i <= j
    decreases j
  {
    if i == j then 0
    else
      var d := decodeAt(j - 1);
      Audible(decodeAt, i, j - 1) + if d.bytes > 0 && d.samples && d.frames then 1 else 0
  }

  /** How many bytes those decodings used. */
  function UsedBytes(decodeAt: nat -> Decoded, i: nat, j: nat): nat
    requires i <= j
    decreases j
  {
    if i == j then 0 else UsedBytes(decodeAt, i, j - 1) + decodeAt(j - 1).bytes
  }

  /** How often the decoder tries to open the sound device: ten seconds, every fifth of one. */
  const OPEN_TRIES := 50

  class Decoder {
    /** The bytes not yet decoded, and the room there is for them. */
    var buf: seq<int>
    var cap: nat
    var isOpen: bool
    /** All bytes fed so far, and how many of them were used. */
    ghost var fed: seq<int>
    ghost var used: nat
    var acts: seq<Act>
    var decodes: nat
    // what the rest of the system answers: to the look, the attempt to open and the write made after
    // so many acts, to the nth decoding, and whether memory for the nth piece suffices
    const abortAt: nat -> bool
    const openAt: (nat, nat) -> bool
    const writeAt: nat -> bool
    const decodeAt: nat -> Decoded
    const memoryAt: nat -> bool

    ghost predicate Valid()
      reads this
    {
      used <= |fed| && buf == fed[used..] && |buf| <= cap
    }

    /** Nothing fails: no look says stop, the device opens and takes every write, and memory suffices. */
    ghost predicate Healthy() {
      && (forall n :: !abortAt(n) && writeAt(n) && memoryAt(n) && decodeAt(n).memory)
      && (forall n, k :: openAt(n, k))
    }

    constructor (abortAt: nat -> bool, openAt: (nat, nat) -> bool, writeAt: nat -> bool, decodeAt: nat -> Decoded,
                 memoryAt: nat -> bool)
      ensures Valid() && fed == [] && acts == [] && used == 0 && decodes == 0
    {
      buf, cap, isOpen, acts, decodes := [], 0, false, [], 0;
      fed, used := [], 0;
      this.abortAt, this.openAt, this.writeAt := abortAt, openAt, writeAt;
      this.decodeAt, this.memoryAt := decodeAt, memoryAt;
    }

    /** `zh_music_should_abort`. */
    method ShouldAbort(ghost goesOn: bool) returns (abort: bool)
      requires Obedient(acts, goesOn)
      modifies `acts
      ensures acts == old(acts) + [Look(abort)] && Obedient(acts, goesOn && !abort)
      ensures abort == abortAt(|old(acts)|) && Sounds(acts) == Sounds(old(acts))
    {
      abort := abortAt(|acts|);
      SoundsSnoc(acts, Look(abort));
      acts := acts + [Look(abort)];
    }

    /** `zh_music_play_pcm`, for at least one frame: one look, and if it allows, one write of all of it. */
    method PlayPcm() returns (ok: bool)
      requires Obedient(acts, true)
      modifies `acts
      ensures Obedient(acts, ok) && (Healthy() ==> ok)
      ensures ok ==> acts == old(acts) + [Look(false), Sound]
      ensures !ok ==> acts == old(acts) + [Look(true)] || acts == old(acts) + [Look(false)]
    {
      var abort := ShouldAbort(true);
      if abort {
        return false;
      }
      ok := writeAt(|acts|);
      if ok {
        assert acts + [Sound] == old(acts) + [Look(false), Sound];
        acts := acts + [Sound];
      }
    }

    /** `zh_music_decoder_open`: tries until it succeeds, a look says stop, or fifty tries have failed,
        each after a look. */
    method Open() returns (ok: bool)
      requires Obedient(acts, true)
      modifies `acts, `isOpen
      ensures Obedient(acts, ok) && old(acts) <= acts && |old(acts)| < |acts| <= |old(acts)| + OPEN_TRIES
      ensures forall i :: |old(acts)| <= i < |acts| - 1 ==> acts[i] == Look(false)
      ensures ok ==> isOpen && acts[|acts| - 1] == Look(false)
      ensures !ok ==> isOpen == old(isOpen)
      ensures Healthy() ==> ok && acts == old(acts) + [Look(false)]
      ensures !ok ==> acts[|acts| - 1] == Look(true)
                      || (|acts| == |old(acts)| + OPEN_TRIES && acts[|acts| - 1] == Look(false))
    {
      var tries := 0;
      while tries < OPEN_TRIES
        invariant tries <= OPEN_TRIES && Obedient(acts, true) && isOpen == old(isOpen)
        invariant old(acts) <= acts && |acts| == |old(acts)| + tries && (Healthy() ==> tries == 0)
        invariant forall i :: |old(acts)| <= i < |acts| ==> acts[i] == Look(false)
      {
        var abort := ShouldAbort(true);
        if abort {
          return false;
        }
        if openAt(|acts|, tries) {
          isOpen := true;
          return true;
        }
        tries := tries + 1;
      }
      ok := false;
    }

    /** What the loop does with the samples of one decoded frame: once it has the device, it makes one sound for
        them, unless resampling leaves none. */
    method PlayFrame(d: Decoded) returns (ok: bool)
      requires Obedient(acts, true)
      modifies `acts, `isOpen
      ensures old(acts) <= acts && Obedient(acts, ok)
      ensures ok ==> isOpen && Sounds(acts) == Sounds(old(acts)) + if d.frames then 1 else 0
      ensures !ok ==> Sounds(acts) == Sounds(old(acts))
      ensures Healthy() && d.memory ==> ok
    {
      if !isOpen {
        ok := Open();
        LooksAreSilent(old(acts), acts);
        if !ok {
          return;
        }
      }
      ghost var before := acts;
      if !d.memory {
        return false;
      }
      if !d.frames {
        return true;
      }
      ok := PlayPcm();
      OneSound(before);
    }

    /** The loop of `zh_music_decoder_feed`: where in the buffer it ended. Every decoding that gives sound has
        sounded once, and decoding went on until no bytes were left or used. */
    method DecodeAll() returns (ok: bool, offset: nat)
      requires buf != [] && Obedient(acts, true)
      modifies `acts, `isOpen, `decodes
      ensures Obedient(acts, ok) && old(acts) <= acts && old(decodes) <= decodes && offset <= |buf|
      ensures ok ==> Sounds(acts) == Sounds(old(acts)) + Audible(decodeAt, old(decodes), decodes)
      ensures ok ==> offset == |buf| || (decodes > old(decodes) && decodeAt(decodes - 1).bytes == 0)
      ensures ok && offset < |buf| ==> offset == UsedBytes(decodeAt, old(decodes), decodes)
      ensures ok ==> UsedBytes(decodeAt, old(decodes), decodes) >= offset
      ensures Healthy() ==> ok
    {
      hide Sounds, Audible, UsedBytes, Obedient;
      NoneAudible(decodeAt, decodes);
      MayStop(acts);
      offset := 0;
      while offset < |buf|
        invariant offset <= |buf| && Obedient(acts, true) && old(acts) <= acts && old(decodes) <= decodes
        invariant Sounds(acts) == Sounds(old(acts)) + Audible(decodeAt, old(decodes), decodes)
        invariant offset < |buf| ==> offset == UsedBytes(decodeAt, old(decodes), decodes)
        invariant offset <= UsedBytes(decodeAt, old(decodes), decodes)
        decreases |buf| - offset
      {
        var abort := ShouldAbort(true);
        if abort {
          return false, offset;
        }
        var d := decodeAt(decodes);
        NextAudible(decodeAt, old(decodes), decodes);
        decodes := decodes + 1;
        if d.bytes == 0 {
          break;
        }
        offset := offset + if d.bytes <= |buf| - offset then d.bytes else |buf| - offset;
        if d.samples {
          ok := PlayFrame(d);
          if !ok {
            return;
          }
        }
      }
      ok := true;
    }

    /** `zh_music_decoder_feed`. When it succeeds, the bytes fed are those used and then those kept, and its
        decodings sounded. */
    method Feed(data: seq<int>) returns (ok: bool)
      requires Valid() && Obedient(acts, true)
      modifies this
      ensures Obedient(acts, ok) && old(acts) <= acts && old(decodes) <= decodes
      ensures ok ==> Valid() && fed == old(fed) + data && old(used) <= used
      ensures ok ==> Sounds(acts) == Sounds(old(acts)) + Audible(decodeAt, old(decodes), decodes)
      ensures ok && data != [] ==> buf == [] || (decodes > old(decodes) && decodeAt(decodes - 1).bytes == 0)
      ensures ok && data != [] && buf != [] ==> used == old(used) + UsedBytes(decodeAt, old(decodes), decodes)
      ensures Healthy() ==> ok
    {
      hide Sounds, Audible, UsedBytes, Obedient;
      NoneAudible(decodeAt, decodes);
      MayStop(acts);
      if data == [] {
        Seqs.Nil(fed);
        return true;
      }
      ok := MakeRoom(|data|);
      if !ok {
        return;
      }
      fed := fed + data;
      Seqs.DropOfAppend(old(fed), data, used);
      buf := buf + data;
      var offset;
      ok, offset := DecodeAll();
      if !ok {
        return;
      }
      buf := buf[offset..];
      used := used + offset;
    }

    /** Doubles the room, from 8192 bytes on, until `more` bytes fit. */
    method MakeRoom(more: nat) returns (ok: bool)
      requires Valid()
      modifies `cap
      ensures Valid() && cap >= old(cap) && (ok ==> |buf| + more <= cap) && (Healthy() ==> ok)
    {
      if |buf| + more <= cap {
        return true;
      }
      var newCap := if cap == 0 then 8192 else cap * 2;
      while newCap < |buf| + more
        invariant newCap > 0 && newCap >= cap
        decreases |buf| + more - newCap
      {
        newCap := newCap * 2;
      }
      ok := memoryAt(cap);
      if ok {
        cap := newCap;
      }
    }

    /** The loop of `zh_music_play_local_file`, over the pieces of the file: when it succeeds, as it does when
        nothing fails, the whole file was decoded and every decoding that gives sound has sounded once. */
    method PlayPieces(pieces: seq<seq<int>>) returns (ok: bool)
      requires Valid() && acts == [] && fed == [] && used == 0 && decodes == 0
      modifies this
      ensures Guarded(acts) && Heeds(acts)
      ensures ok ==> Valid() && fed == Flat(pieces) && Sounds(acts) == Audible(decodeAt, 0, decodes)
      ensures Healthy() ==> ok
    {
      hide Sounds, Audible;
      NoSounds();
      NoneAudible(decodeAt, 0);
      ok := false;
      var abort := ShouldAbort(true);
      if abort {
        return;
      }
      for i := 0 to |pieces|
        invariant Valid() && Obedient(acts, true) && fed == Flat(pieces[..i])
        invariant Sounds(acts) == Audible(decodeAt, 0, decodes)
      {
        assert pieces[..i + 1][..i] == pieces[..i];
        abort := ShouldAbort(true);
        if abort {
          return;
        }
        ghost var before := decodes;
        var fine := Feed(pieces[i]);
        if !fine {
          return;
        }
        AudibleAppend(decodeAt, 0, before, decodes);
      }
      Seqs.Whole(pieces);
      ok := true;
    }

    /** `zh_music_http_stream_play`, for a stream that brings these pieces and ends at the first that
        its callback refuses; `running` tells whether the stream's own flag is still set at the end. When
        nothing fails, the whole stream was decoded and every decoding that gives sound has sounded once. */
    method PlayStream(pieces: seq<seq<int>>, running: bool) returns (interrupted: bool)
      requires Valid() && acts == [] && fed == [] && used == 0 && decodes == 0
      modifies this
      ensures Guarded(acts) && Heeds(acts)
      ensures Healthy() ==> Valid() && fed == Flat(pieces) && Sounds(acts) == Audible(decodeAt, 0, decodes)
      ensures acts != [] && (interrupted <==> !running || acts[|acts| - 1] == Look(true))
    {
      hide Sounds, Audible;
      NoSounds();
      NoneAudible(decodeAt, 0);
      interrupted := ShouldAbort(true);
      if interrupted {
        return;
      }
      ghost var goesOn := true;
      for i := 0 to |pieces|
        invariant Valid() && Obedient(acts, true) && fed == Flat(pieces[..i]) && goesOn
        invariant Sounds(acts) == Audible(decodeAt, 0, decodes)
      {
        assert pieces[..i + 1][..i] == pieces[..i];
        ghost var before := decodes;
        var fine := Feed(pieces[i]);
        if !fine {
          goesOn := false;
          break;
        }
        AudibleAppend(decodeAt, 0, before, decodes);
      }
      Seqs.Whole(pieces);
      interrupted := ShouldAbort(goesOn);
      if !running {
        interrupted := true;
      }
    }
  }

  lemma {:induction false} AudibleAppend(decodeAt: nat -> Decoded, i: nat, j: nat, k: nat)
    requires i <= j <= k
    ensures Audible(decodeAt, i, k) == Audible(decodeAt, i, j) + Audible(decodeAt, j, k)
    decreases k
  {
    if j < k {
      AudibleAppend(decodeAt, i, j, k - 1);
    }
  }

  lemma NoSounds()
    ensures Sounds([]) == 0
  {
  }

  lemma MayStop(acts: seq<Act>)
    ensures Obedient(acts, true) ==> Obedient(acts, false)
  {
  }

  lemma NoneAudible(decodeAt: nat -> Decoded, i: nat)
    ensures Audible(decodeAt, i, i) == 0 && UsedBytes(decodeAt, i, i) == 0
  {
  }

  lemma NextAudible(decodeAt: nat -> Decoded, i: nat, j: nat)
    requires i <= j
    ensures var d := decodeAt(j);
            && Audible(decodeAt, i, j + 1)
            == Audible(decodeAt, i, j) + (if d.bytes > 0 && d.samples && d.frames then 1 else 0)
            && UsedBytes(decodeAt, i, j + 1) == UsedBytes(decodeAt, i, j) + d.bytes
  {
  }

  lemma LooksAreSilent(was: seq<Act>, acts: seq<Act>)
    requires was <= acts && forall i :: |was| <= i < |acts| ==> acts[i].Look?
    ensures Sounds(acts) == Sounds(was)
    decreases |acts|
  {
    if was != acts {
      LooksAreSilent(was, acts[..|acts| - 1]);
    }
  }

  lemma OneSound(acts: seq<Act>)
    ensures Sounds(acts + [Look(false), Sound]) == Sounds(acts) + 1
    ensures Sounds(acts + [Look(false)]) == Sounds(acts) == Sounds(acts + [Look(true)])
  {
    SoundsSnoc(acts, Look(false));
    SoundsSnoc(acts, Look(true));
    SoundsSnoc(acts + [Look(false)], Sound);
    assert acts + [Look(false)] + [Sound] == acts + [Look(false), Sound];
  }

  /** The bytes of a file, from its pieces. */
  function Flat(pieces: seq<seq<int>>): seq<int>
    decreases |pieces|
  {
    if pieces == [] then [] else Flat(pieces[..|pieces| - 1]) + pieces[|pieces| - 1]
  }

  // ---------- The decoder drives the worker of the protocol ----------

  /** While the worker has an item, its decoder does something, or some thread calls the player. */
  datatype Happening = Did(act: Act) | Called(call: Event)

  /** A look takes the worker from between two writes to the place before one, or to freeing the item; a
      look that no write followed is given up first. A look by a worker that must stop changes nothing. */
  function Looked(s: State): State {
    if s.worker.pc.Writing? then WorkerStep(WorkerStep(s, true), false)
    else if s.worker.pc.Checking? then WorkerStep(s, false)
    else s
  }

  function Happened(s: State, h: Happening): State {
    match h
    case Called(e) => Next(s, e)
    case Did(Look(_)) => Looked(s)
    case Did(Sound) => WorkerStep(s, false)
  }

  function Drive(s: State, hs: seq<Happening>): State
    decreases |hs|
  {
    if hs == [] then s else Happened(Drive(s, hs[..|hs| - 1]), hs[|hs| - 1])
  }

  /** Calls are not steps of the worker, and looks see the token and the stop flag as they are. */
  predicate Faithful(s: State, hs: seq<Happening>)
    decreases |hs|
  {
    hs != [] ==>
      var before := Drive(s, hs[..|hs| - 1]);
      && Faithful(s, hs[..|hs| - 1])
      && match hs[|hs| - 1]
         case Called(e) => !e.Move?
         case Did(Look(abort)) => abort == before.q.Abort(before.worker.captured)
         case Did(Sound) => true
  }

  function ActsOf(hs: seq<Happening>): seq<Act>
    decreases |hs|
  {
    if hs == [] then []
    else
      var last := hs[|hs| - 1];
      ActsOf(hs[..|hs| - 1]) + if last.Did? then [last.act] else []
  }

  function Sounds(acts: seq<Act>): nat
    decreases |acts|
  {
    if acts == [] then 0 else Sounds(acts[..|acts| - 1]) + if acts[|acts| - 1].Sound? then 1 else 0
  }

  lemma SoundsSnoc(acts: seq<Act>, act: Act)
    ensures Sounds(acts + [act]) == Sounds(acts) + if act.Sound? then 1 else 0
  {
    assert (acts + [act])[..|acts|] == acts;
  }

  /** Where the worker stands after these acts. */
  function Place(acts: seq<Act>): Pc {
    if Look(true) in acts then Freeing
    else if acts == [] || acts[|acts| - 1].Sound? then Checking
    else Writing
  }

  lemma ObedientPrefix(acts: seq<Act>, act: Act)
    requires Guarded(acts + [act]) && Heeds(acts + [act])
    ensures Guarded(acts) && Heeds(acts)
    ensures act.Sound? ==> Place(acts) == Writing
  {
    var all := acts + [act];
    assert forall i :: 0 <= i < |acts| ==> all[i] == acts[i];
    if act.Sound? {
      assert all[|acts|] == act;
      assert all[|acts| - 1] == Look(false);
      assert forall i :: 0 <= i < |acts| ==> all[i] != Look(true);
    }
  }

  lemma LookedPlace(s: State)
    ensures var t := Looked(s);
            && t.q == s.q && t.worker.item == s.worker.item && t.worker.captured == s.worker.captured
            && t.written == s.written
            && (s.worker.pc.Checking? || s.worker.pc.Writing? ==>
                  t.worker.pc == if s.q.Abort(s.worker.captured) then Freeing else Writing)
            && (s.worker.pc.Freeing? ==> t == s)
  {
  }

  /** The worker of `s`, after these acts of its decoder, and what it has written meanwhile. */
  predicate Follows(s: State, t: State, acts: seq<Act>) {
    && t.worker == s.worker.(pc := Place(acts))
    && s.written <= t.written && |t.written| == |s.written| + Sounds(acts)
    && forall i :: |s.written| <= i < |t.written| ==> t.written[i] == s.worker.item
  }

  lemma LookFollows(s: State, r: State, acts: seq<Act>)
    requires Follows(s, r, acts)
    ensures Follows(s, Looked(r), acts + [Look(r.q.Abort(r.worker.captured))])
  {
    hide Looked, Place, Sounds;
    var act := Look(r.q.Abort(r.worker.captured));
    SoundsSnoc(acts, act);
    LookedPlace(r);
    PlaceSnoc(acts, act);
    PlaceOf(acts);
  }

  lemma PlaceOf(acts: seq<Act>)
    ensures Place(acts) == if Look(true) in acts then Freeing
                           else if acts == [] || acts[|acts| - 1].Sound? then Checking else Writing
  {
  }

  lemma SoundFollows(s: State, r: State, acts: seq<Act>)
    requires Follows(s, r, acts) && Place(acts) == Writing
    ensures Follows(s, WorkerStep(r, false), acts + [Sound])
  {
    hide Place, Sounds;
    SoundsSnoc(acts, Sound);
    PlaceSnoc(acts, Sound);
    PlaceOf(acts);
  }

  /** Whatever an obedient decoder does, interleaved with any calls, the worker of the protocol does by its
      own steps: it stands where the acts put it, and what it writes is one write of its item for each sound. */
  lemma {:induction false} WorkerFollows(s: State, hs: seq<Happening>)
    requires s.worker.pc.Checking? && Faithful(s, hs) && Guarded(ActsOf(hs)) && Heeds(ActsOf(hs))
    ensures Follows(s, Drive(s, hs), ActsOf(hs))
    decreases |hs|
  {
    if hs != [] {
      var front, h := hs[..|hs| - 1], hs[|hs| - 1];
      var r := Drive(s, front);
      hide Guarded, Heeds, Follows, Looked, WorkerStep;
      match h {
        case Called(e) =>
          Seqs.Nil(ActsOf(front));
          WorkerFollows(s, front);
          CallFollows(s, r, e, ActsOf(front));
        case Did(act) =>
          ObedientPrefix(ActsOf(front), act);
          WorkerFollows(s, front);
          if act.Look? {
            LookFollows(s, r, ActsOf(front));
          } else {
            SoundFollows(s, r, ActsOf(front));
          }
      }
    }
  }

  lemma CallFollows(s: State, r: State, e: Event, acts: seq<Act>)
    requires Follows(s, r, acts) && !e.Move?
    ensures Follows(s, Next(r, e), acts)
  {
  }

  lemma PlaceSnoc(acts: seq<Act>, act: Act)
    ensures Place(acts + [act]) == if act == Look(true) || Look(true) in acts then Freeing
                                   else if act.Sound? then Checking else Writing
  {
    assert forall a :: a in acts + [act] <==> a in acts || a == act;
  }

  /** These are runs of the protocol. */
  lemma {:induction false} DriveIsRun(s: State, hs: seq<Happening>) returns (es: seq<Event>)
    ensures Run(s, es) == Drive(s, hs)
    decreases |hs|
  {
    if hs == [] {
      es := [];
    } else {
      var front, h := hs[..|hs| - 1], hs[|hs| - 1];
      var r := Drive(s, front);
      es := DriveIsRun(s, front);
      hide Run, Next;
      match h {
        case Called(e) =>
          RunSnoc(s, es, e);
          es := es + [e];
        case Did(act) =>
          assert forall over :: Next(r, Move(over)) == WorkerStep(r, over) by { StepIsMove(r); }
          if act.Look? && r.worker.pc.Writing? {
            RunSnoc(s, es, Move(true));
            es := es + [Move(true)];
            StepIsMove(WorkerStep(r, true));
            RunSnoc(s, es, Move(false));
            es := es + [Move(false)];
          } else if act.Sound? || r.worker.pc.Checking? {
            RunSnoc(s, es, Move(false));
            es := es + [Move(false)];
          }
      }
    }
  }

  lemma StepIsMove(s: State)
    ensures forall over :: Next(s, Move(over)) == WorkerStep(s, over)
  {
  }

  lemma RunSnoc(s: State, es: seq<Event>, e: Event)
    ensures Run(s, es + [e]) == Next(Run(s, es), e)
  {
    hide Next;
    assert (es + [e])[..|es|] == es;
  }

  lemma {:induction false} DriveAppend(s: State, hs: seq<Happening>, more: seq<Happening>)
    ensures Drive(s, hs + more) == Drive(Drive(s, hs), more)
    ensures ActsOf(hs + more) == ActsOf(hs) + ActsOf(more)
    ensures Faithful(s, hs + more) ==> Faithful(s, hs)
    decreases |more|
  {
    hide Happened;
    if more == [] {
      Seqs.Nil(hs);
      Seqs.Nil(ActsOf(hs));
    } else {
      DriveAppend(s, hs, more[..|more| - 1]);
      assert (hs + more)[..|hs + more| - 1] == hs + more[..|more| - 1];
    }
  }

  lemma {:induction false} ObedientPrefixes(a: seq<Act>, b: seq<Act>)
    requires Guarded(a + b) && Heeds(a + b)
    ensures Guarded(a) && Heeds(a) && Sounds(a + b) == Sounds(a) + Sounds(b)
    decreases |b|
  {
    if b == [] {
      Seqs.Nil(a);
    } else {
      var front, last := b[..|b| - 1], b[|b| - 1];
      assert a + b == (a + front) + [last];
      ObedientPrefix(a + front, last);
      SoundsSnoc(a + front, last);
      ObedientPrefixes(a, front);
    }
  }

  lemma {:induction false} AllLate(items: seq<MusicQueue.Item>, t: nat)
    requires forall x :: x in items ==> x.batch < t
    ensures Late(items, t) == |items|
    decreases |items|
  {
    if items != [] {
      assert forall x :: x in items[..|items| - 1] ==> x in items;
      AllLate(items[..|items| - 1], t);
    }
  }

  /** Across decoder feeding and the play loop, and whatever other threads do meanwhile: after the token
      has changed, the decoder of the old item makes at most one more sound. */
  lemma OneLateSound(s: State, hs: seq<Happening>, more: seq<Happening>)
    requires Inv(s) && s.worker.pc.Checking? && Faithful(s, hs + more)
    requires Guarded(ActsOf(hs + more)) && Heeds(ActsOf(hs + more))
    requires s.worker.item.batch < Drive(s, hs).q.token
    ensures Sounds(ActsOf(more)) <= 1
  {
    hide Inv, Faithful, Guarded, Heeds, Late, Run, Next;
    var r, t := Drive(s, hs), Drive(s, hs + more);
    DriveAppend(s, hs, more);
    ObedientPrefixes(ActsOf(hs), ActsOf(more));
    WorkerFollows(s, hs);
    WorkerFollows(s, hs + more);
    var es := DriveIsRun(s, hs);
    RunKeeps(s, es);
    var later := DriveIsRun(r, more);
    OneLateWrite(r, later);
    hide Drive, ActsOf, Sounds, Place, LatePending;
    var late := t.written[|r.written|..];
    assert forall i :: 0 <= i < |late| ==> late[i] == t.written[|r.written| + i] == s.worker.item;
    AllLate(late, r.q.token);
  }
}
