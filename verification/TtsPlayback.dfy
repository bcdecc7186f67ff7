/** What is played: which packets that were read reach the speaker, how soon, and which flags stop them. */
module TtsPlayback {
  import opened TtsProtocol
  import opened TtsWindow

  // ---------- The flags that stop a packet ----------

  predicate BeforeGenTest(pc: Pc) { pc == Outer(RunningTest) || pc == Outer(GenTest) || pc == Inner(InnerGenTest) }

  /** A flag stands that a test still ahead of the packet looks at: the thread is to end, or a flush or a
      drop is requested. */
  predicate Flagged(s: State) {
    || (!s.shared.running && s.player.pc != Play(WritePcm))
    || (s.shared.flush && !Committed(s.player.pc))
    || (s.shared.drop && !s.player.pc.Play?)
  }

  /** No flag stops the packet that the player holds, and no interrupt has changed the generation since the
      load, if that is still to be tested. */
  predicate Wanted(s: State) {
    !Flagged(s) && (BeforeGenTest(s.player.pc) ==> s.player.loaded == s.shared.gen)
  }

  /** The device opens and the packet decodes, if that is what the step tries. */
  predicate Succeeds(s: State, e: Event) {
    e.PlayerMove? && (s.player.pc == Play(Open) || s.player.pc == Play(Decode)) ==> e.yes
  }

  // ---------- One step ----------

  function One(b: bool): nat { if b then 1 else 0 }

  /** The packet that the player held in `s` is still held, or has just been written. */
  predicate Keeps(s: State, t: State) {
    && t.past.packets == s.past.packets
    && (|| (Holding(t) && t.player.held == s.player.held && t.past.written == s.past.written)
        || (!Holding(t) && t.past.written == s.past.written + [Write(s.player.held, s.shared.drop, s.past.mark)]))
  }

  /** Nothing was held in `s`, and what is held in `t` was read in between. */
  predicate Reads(s: State, t: State) {
    && t.past.written == s.past.written
    && t.past.packets == s.past.packets + One(Holding(t))
  }

  lemma OuterWanted(s: State, pc: OuterPc, a: Answer, yes: bool)
    requires s.player.pc == Outer(pc)
    ensures Holding(s) && Wanted(s) ==> Keeps(s, OuterStep(s, pc, a, yes))
    ensures !Holding(s) ==> Reads(s, OuterStep(s, pc, a, yes))
  {
  }

  lemma InnerWanted(s: State, pc: InnerPc, a: Answer)
    requires s.player.pc == Inner(pc)
    ensures Holding(s) && Wanted(s) ==> Keeps(s, InnerStep(s, pc, a))
    ensures !Holding(s) ==> Reads(s, InnerStep(s, pc, a))
  {
  }

  lemma PlayWanted(s: State, pc: PacketPc, yes: bool)
    requires s.player.pc == Play(pc) && Handled(s)
    ensures Holding(s) && Wanted(s) && (pc.Open? || pc.Decode? ==> yes) ==> Keeps(s, PlayStep(s, pc, yes))
    ensures !Holding(s) ==> Reads(s, PlayStep(s, pc, yes))
  {
  }

  /** A step loses a packet only when a flag or the generation stops it, or the device or the decoder fails;
      every other step keeps it or writes it. */
  lemma StepWanted(s: State, e: Event)
    requires Handled(s)
    ensures Holding(s) && Wanted(s) && Succeeds(s, e) ==> Keeps(s, Next(s, e))
    ensures !Holding(s) ==> Reads(s, Next(s, e))
  {
    match e {
      case PlayerMove(a, yes) =>
        hide OuterStep, PlayStep, InnerStep, Keeps, Reads, Wanted, Handled;
        match s.player.pc {
          case Outer(pc) => OuterWanted(s, pc, a, yes);
          case Play(pc) => PlayWanted(s, pc, yes);
          case Inner(pc) => InnerWanted(s, pc, a);
          case Release(pc, r) => ReleaseReads(s, pc, r);
        }
      case _ => OthersWanted(s, e);
    }
  }

  lemma ReleaseReads(s: State, pc: ReleasePc, r: Resume)
    requires s.player.pc == Release(pc, r)
    ensures !Holding(s) && Reads(s, ReleaseStep(s, pc, r))
  {
  }

  lemma OthersWanted(s: State, e: Event)
    requires !e.PlayerMove?
    ensures Holding(s) ==> Keeps(s, Next(s, e))
    ensures !Holding(s) ==> Reads(s, Next(s, e))
  {
  }

  // ---------- Every packet that nothing stops is played ----------

  /** Whenever the player holds a packet along the run, it is wanted, and device and decoder do not fail. */
  predicate Favoured(s: State, es: seq<Event>) {
    forall i :: 0 <= i < |es| ==> Favours(Run(s, es[..i]), es[i])
  }

  predicate Favours(s: State, e: Event) { (Holding(s) ==> Wanted(s)) && Succeeds(s, e) }

  lemma {:induction false} FavouredCounts(n: nat, es: seq<Event>)
    requires Favoured(Init(n), es)
    ensures var s := Run(Init(n), es); |s.past.written| + One(Holding(s)) == s.past.packets
    decreases |es|
  {
    if es != [] {
      var before := es[..|es| - 1];
      var s := Run(Init(n), before);
      assert forall i :: 0 <= i < |before| ==> before[..i] == es[..i];
      FavouredCounts(n, before);
      RunSound(n, before);
      assert Favours(s, es[|es| - 1]);
      hide Run, Next, Inv, Wanted, Holding;
      StepWanted(s, es[|es| - 1]);
    }
  }

  lemma {:induction false} AllOfThem(ws: seq<Write>, i: nat)
    requires forall k :: 0 <= k < |ws| ==> ws[k].packet.id < |ws|
    requires forall j, k :: 0 <= j < k < |ws| ==> ws[j].packet.id < ws[k].packet.id
    requires i < |ws|
    ensures ws[i].packet.id >= i && ws[|ws| - 1 - i].packet.id <= |ws| - 1 - i
    decreases i
  {
    if i > 0 {
      AllOfThem(ws, i - 1);
    }
  }

  lemma Numbered(ws: seq<Write>)
    requires forall w :: w in ws ==> w.packet.id < |ws|
    requires forall j, k :: 0 <= j < k < |ws| ==> ws[j].packet.id < ws[k].packet.id
    ensures forall i :: 0 <= i < |ws| ==> ws[i].packet.id == i
  {
    assert forall k :: 0 <= k < |ws| ==> ws[k] in ws;
    forall i | 0 <= i < |ws| ensures ws[i].packet.id == i {
      AllOfThem(ws, i);
      AllOfThem(ws, |ws| - 1 - i);
    }
  }

  /** Among the first packets read, as many as were written, none is missing and none is out of place, as
      long as no flag, interrupt or failure meets a packet that the player holds. */
  lemma PlaysEverything(n: nat, es: seq<Event>)
    requires Favoured(Init(n), es)
    ensures var s := Run(Init(n), es);
            && |s.past.written| + One(Holding(s)) == s.past.packets
            && forall i :: 0 <= i < |s.past.written| ==> s.past.written[i].packet.id == i
  {
    FavouredCounts(n, es);
    InitInv(n);
    RunKeeps(Init(n), es);
    var s := Run(Init(n), es);
    assert Ordered(s);
    hide Run, Favoured, Inv, Holding;
    Numbered(s.past.written);
  }

  /** Nobody interrupts or stops. */
  predicate Undisturbed(es: seq<Event>) { forall e :: e in es ==> e.PlayerMove? || e.Sounded? }

  predicate Calm(s: State) {
    && !s.shared.flush && !s.shared.drop && s.shared.gen == 0 && s.player.loaded == 0
    && (s.shared.running || s.player.pc == Outer(Done))
  }

  lemma StepCalm(s: State, e: Event)
    requires Calm(s) && (e.PlayerMove? || e.Sounded?)
    ensures Calm(Next(s, e))
  {
    hide OuterStep, PlayStep, InnerStep;
    if e.PlayerMove? {
      match s.player.pc {
        case Outer(pc) => OuterCalm(s, pc, e.answer, e.yes);
        case Play(pc) => PlayCalm(s, pc, e.yes);
        case Inner(pc) => InnerCalm(s, pc, e.answer);
        case Release(pc, r) =>
      }
    }
  }

  lemma OuterCalm(s: State, pc: OuterPc, a: Answer, yes: bool)
    requires Calm(s) && s.player.pc == Outer(pc)
    ensures Calm(OuterStep(s, pc, a, yes))
  {
  }

  lemma PlayCalm(s: State, pc: PacketPc, yes: bool)
    requires Calm(s) && s.player.pc == Play(pc)
    ensures Calm(PlayStep(s, pc, yes))
  {
  }

  lemma InnerCalm(s: State, pc: InnerPc, a: Answer)
    requires Calm(s) && s.player.pc == Inner(pc)
    ensures Calm(InnerStep(s, pc, a))
  {
  }

  lemma {:induction false} RunCalm(n: nat, es: seq<Event>)
    requires Undisturbed(es)
    ensures Calm(Run(Init(n), es))
    decreases |es|
  {
    hide Next, Calm;
    if es == [] {
      assert Calm(Init(n)) by { InitCalm(n); }
    } else {
      assert es[|es| - 1] in es;
      RunCalm(n, es[..|es| - 1]);
      StepCalm(Run(Init(n), es[..|es| - 1]), es[|es| - 1]);
    }
  }

  lemma InitCalm(n: nat)
    ensures Calm(Init(n))
  {
  }

  lemma CalmIsWanted(s: State)
    requires Calm(s) && Holding(s)
    ensures Wanted(s)
  {
  }

  /** Without an interrupt or a stop every packet read is played, in order, if device and decoder work. */
  lemma UndisturbedPlaysEverything(n: nat, es: seq<Event>)
    requires Undisturbed(es) && forall i :: 0 <= i < |es| ==> Succeeds(Run(Init(n), es[..i]), es[i])
    ensures var s := Run(Init(n), es);
            && |s.past.written| + One(Holding(s)) == s.past.packets
            && forall i :: 0 <= i < |s.past.written| ==> s.past.written[i].packet.id == i
  {
    hide Run, Holding, Wanted, Succeeds, Calm;
    forall i | 0 <= i < |es| ensures Favours(Run(Init(n), es[..i]), es[i]) {
      assert forall e :: e in es[..i] ==> e in es;
      RunCalm(n, es[..i]);
      if Holding(Run(Init(n), es[..i])) {
        CalmIsWanted(Run(Init(n), es[..i]));
      }
    }
    PlaysEverything(n, es);
  }

  // ---------- What a flag stops is never played ----------

  /** The packet numbered `id` is not written yet, and if the player still holds it, a flag stops it. */
  predicate Stopped(s: State, id: nat) {
    && id < s.past.packets && (Holding(s) && s.player.held.id == id ==> Flagged(s))
    && (s.stop != NotStopping ==> !s.shared.running)
  }

  /** Nothing new was written in the step, or another packet than the one numbered `id`. */
  predicate NotWritten(s: State, t: State, id: nat) {
    || t.past.written == s.past.written
    || (t.past.written == s.past.written + [Write(s.player.held, s.shared.drop, s.past.mark)] && s.player.held.id != id)
  }

  lemma OuterStopped(s: State, pc: OuterPc, a: Answer, yes: bool, id: nat)
    requires Stopped(s, id) && s.player.pc == Outer(pc)
    ensures Stopped(OuterStep(s, pc, a, yes), id) && NotWritten(s, OuterStep(s, pc, a, yes), id)
  {
  }

  lemma PlayStopped(s: State, pc: PacketPc, yes: bool, id: nat)
    requires Stopped(s, id) && s.player.pc == Play(pc)
    ensures Stopped(PlayStep(s, pc, yes), id) && NotWritten(s, PlayStep(s, pc, yes), id)
  {
  }

  lemma InnerStopped(s: State, pc: InnerPc, a: Answer, id: nat)
    requires Stopped(s, id) && s.player.pc == Inner(pc)
    ensures Stopped(InnerStep(s, pc, a), id) && NotWritten(s, InnerStep(s, pc, a), id)
  {
  }

  lemma ReleaseStopped(s: State, pc: ReleasePc, r: Resume, id: nat)
    requires Stopped(s, id) && s.player.pc == Release(pc, r)
    ensures Stopped(ReleaseStep(s, pc, r), id) && NotWritten(s, ReleaseStep(s, pc, r), id)
  {
  }

  lemma InterruptStopped(s: State, i: nat, id: nat)
    requires Stopped(s, id) && i < |s.interrupts|
    ensures Stopped(InterruptStep(s, i), id) && NotWritten(s, InterruptStep(s, i), id)
  {
  }

  lemma StopStopped(s: State, id: nat)
    requires Stopped(s, id)
    ensures Stopped(StopStep(s), id) && NotWritten(s, StopStep(s), id)
  {
  }

  lemma StepStopped(s: State, e: Event, id: nat)
    requires Stopped(s, id)
    ensures Stopped(Next(s, e), id) && NotWritten(s, Next(s, e), id)
  {
    match e {
      case PlayerMove(a, yes) =>
        hide OuterStep, PlayStep, InnerStep, ReleaseStep, Stopped, NotWritten;
        match s.player.pc {
          case Outer(pc) => OuterStopped(s, pc, a, yes, id);
          case Play(pc) => PlayStopped(s, pc, yes, id);
          case Inner(pc) => InnerStopped(s, pc, a, id);
          case Release(pc, r) => ReleaseStopped(s, pc, r, id);
        }
      case Interrupt(i) =>
        if i < |s.interrupts| {
          InterruptStopped(s, i, id);
          hide InterruptStep, Stopped;
        }
      case Stop =>
        StopStopped(s, id);
        hide StopStep, Stopped;
      case Sounded =>
    }
  }

  lemma {:induction false} RunStopped(s: State, es: seq<Event>, id: nat)
    requires Stopped(s, id) && forall w :: w in s.past.written ==> w.packet.id != id
    ensures Stopped(Run(s, es), id) && forall w :: w in Run(s, es).past.written ==> w.packet.id != id
    decreases |es|
  {
    hide Next, Stopped;
    if es != [] {
      RunStopped(s, es[..|es| - 1], id);
      StepStopped(Run(s, es[..|es| - 1]), es[|es| - 1], id);
    }
  }

  lemma {:induction false} StopEndsRunning(n: nat, es: seq<Event>)
    ensures var s := Run(Init(n), es); s.stop != NotStopping ==> !s.shared.running
    decreases |es|
  {
    if es != [] {
      StopEndsRunning(n, es[..|es| - 1]);
      NeverRunsAgain(Run(Init(n), es[..|es| - 1]), es[|es| - 1]);
      hide Next;
    }
  }

  lemma NeverRunsAgain(s: State, e: Event)
    ensures s.shared.running || !Next(s, e).shared.running
    ensures Next(s, e).stop != s.stop && s.stop == NotStopping ==> !Next(s, e).shared.running
    ensures Next(s, e).stop != NotStopping ==> s.stop != NotStopping || e == Stop
  {
  }

  /** Once a flag stops the packet that the player holds, it is never played, whatever any thread does. */
  lemma FlaggedIsNeverPlayed(n: nat, es: seq<Event>, later: seq<Event>)
    requires Holding(Run(Init(n), es)) && Flagged(Run(Init(n), es))
    ensures var s := Run(Init(n), es); forall w :: w in Run(s, later).past.written ==> w.packet.id != s.player.held.id
  {
    var s := Run(Init(n), es);
    InitInv(n);
    RunKeeps(Init(n), es);
    StopEndsRunning(n, es);
    assert Ordered(s);
    hide Run, Inv;
    RunStopped(s, later, s.player.held.id);
  }

  // ---------- How soon a packet is played, and how soon the next one is read ----------

  /** How many steps of the player it takes at most until the packet that it holds is written. */
  function ToWrite(pc: Pc): nat {
    match pc
    case Outer(p) =>
      (match p
       case RunningTest => 18
       case GenTest => 17
       case AnswerTest => 16
       case PacketFlushTest => 15
       case PacketDropTest => 14
       case _ => 0)
    case Inner(p) => if p.InnerGenTest? then 12 else if p.InnerAnswerTest? then 11 else 10
    case _ => StepsLeft(pc)
  }

  /** The player alone moves, and device and decoder do not fail. */
  predicate Moves(es: seq<Event>) { forall e :: e in es ==> e.PlayerMove? && e.yes }

  lemma PlayStaysWanted(s: State, pc: PacketPc)
    requires s.player.pc == Play(pc) && !s.shared.mutex.ByInterrupt? && Wanted(s)
    ensures var t := PlayStep(s, pc, true); !t.shared.mutex.ByInterrupt? && (Holding(t) ==> Wanted(t))
  {
  }

  lemma PlayNearer(s: State, pc: PacketPc)
    requires s.player.pc == Play(pc) && Handled(s) && !s.shared.mutex.ByInterrupt? && Exclusive(s)
    requires Wanted(s)
    ensures var t := PlayStep(s, pc, true); Holding(t) ==> ToWrite(t.player.pc) < ToWrite(s.player.pc)
  {
  }

  lemma OuterNearer(s: State, pc: OuterPc, a: Answer, yes: bool)
    requires s.player.pc == Outer(pc) && Holding(s) && Wanted(s)
    ensures var t := OuterStep(s, pc, a, yes);
            && t.shared.mutex == s.shared.mutex && Holding(t) && Wanted(t)
            && ToWrite(t.player.pc) < ToWrite(s.player.pc)
  {
  }

  lemma InnerNearer(s: State, pc: InnerPc, a: Answer)
    requires s.player.pc == Inner(pc) && Holding(s) && Wanted(s)
    ensures var t := InnerStep(s, pc, a);
            && t.shared.mutex == s.shared.mutex && Holding(t) && Wanted(t)
            && ToWrite(t.player.pc) < ToWrite(s.player.pc)
  {
  }

  lemma StepNearer(s: State, a: Answer)
    requires Sound(s) && !s.shared.mutex.ByInterrupt? && Holding(s) && Wanted(s)
    ensures var t := PlayerStep(s, a, true);
            && !t.shared.mutex.ByInterrupt?
            && (Holding(t) ==> Wanted(t) && ToWrite(t.player.pc) < ToWrite(s.player.pc))
  {
    assert Exclusive(s) && Handled(s);
    hide OuterStep, PlayStep, InnerStep, Wanted, ToWrite, Sound, Exclusive, Handled;
    match s.player.pc {
      case Outer(pc) => OuterNearer(s, pc, a, true);
      case Play(pc) =>
        PlayStaysWanted(s, pc);
        PlayNearer(s, pc);
      case Inner(pc) => InnerNearer(s, pc, a);
      case Release(pc, r) =>
    }
  }

  lemma {:induction false} WrittenFrom(s: State, es: seq<Event>)
    requires Sound(s) && !s.shared.mutex.ByInterrupt? && Holding(s) && Wanted(s)
    requires Moves(es) && |es| >= ToWrite(s.player.pc)
    ensures var ws, was := Run(s, es).past.written, s.past.written;
            was <= ws && |was| < |ws| && ws[|was|].packet == s.player.held
    decreases |es|
  {
    assert Handled(s) && Inv(s);
    hide PlayerStep, Run, Wanted, Inv, Handled;
    assert ToWrite(s.player.pc) > 0;
    var e, rest := es[0], es[1..];
    assert e in es && es == [e] + rest && forall x :: x in rest ==> x in es;
    RunCons(s, e, rest);
    var t := Next(s, e);
    StepNearer(s, e.answer);
    StepWanted(s, e);
    StepSound(s, e);
    if Holding(t) {
      WrittenFrom(t, rest);
    } else {
      WritesAreFresh(t, rest);
    }
  }

  /** A packet that nothing stops is written within eighteen steps of the player, when only it moves. */
  lemma WrittenSoon(n: nat, es: seq<Event>, moves: seq<Event>)
    requires var s := Run(Init(n), es); !s.shared.mutex.ByInterrupt? && Holding(s) && Wanted(s)
    requires Moves(moves) && |moves| >= 18
    ensures var s := Run(Init(n), es);
            var ws, was := Run(s, moves).past.written, s.past.written;
            was <= ws && |was| < |ws| && ws[|was|].packet == s.player.held
  {
    RunSound(n, es);
    var s := Run(Init(n), es);
    assert ToWrite(s.player.pc) <= 18;
    hide Run, Sound, Wanted, Holding;
    WrittenFrom(s, moves);
  }

  /** The player is about to read, or has ended. */
  predicate AtRead(pc: Pc) { pc == Outer(Read) || pc == Inner(InnerRead) || pc == Outer(Done) }

  /** How many steps it takes at most until the player reads again or has ended. */
  function ToRead(pc: Pc): nat {
    match pc
    case Outer(p) =>
      (match p
       case LoopTest => 7
       case FlushTest => 6
       case LoadGen => 1
       case Read => 0
       case RunningTest => 36
       case GenTest => 35
       case AnswerTest => 34
       case PollDropTest => 14
       case ClearDrop => 13
       case TimeoutTest => 12
       case TransportTest => 8
       case PacketFlushTest => 33
       case PacketDropTest => 32
       case RoundTest => 11
       case ClearRunning => 1
       case Done => 0)
    case Play(p) => 18 + StepsLeft(pc)
    case Inner(p) =>
      (match p
       case InnerTest => 17
       case InnerFlushTest => 16
       case InnerLoadGen => 1
       case InnerRead => 0
       case InnerGenTest => 30
       case InnerAnswerTest => 29
       case InnerDropTest => 28)
    case Release(p, r) => InRelease(p) + (match r
                                          case ClearAtTop => 2
                                          case ClearWithPacket => 8
                                          case ClearInner => 12
                                          case AfterTimeout => 8
                                          case AfterRound => 7
                                          case Exiting => 1)
  }

  /** The steps left until the handle is released and, if need be, the flush request cleared. */
  function InRelease(p: ReleasePc): nat {
    match p
    case ReleaseLock => 3
    case ReleaseBody => 2
    case ReleaseUnlock => 1
    case ClearFlush => 0
  }

  /** The player is where releasing its handle can lead it. */
  predicate Resumes(pc: Pc) { pc.Release? && pc.release.ClearFlush? ==> AfterRelease(pc.resume) == pc }

  lemma OuterResumes(s: State, pc: OuterPc, a: Answer, yes: bool)
    requires s.player.pc == Outer(pc)
    ensures Resumes(OuterStep(s, pc, a, yes).player.pc)
  {
  }

  lemma PlayResumes(s: State, pc: PacketPc, yes: bool)
    requires s.player.pc == Play(pc)
    ensures Resumes(PlayStep(s, pc, yes).player.pc)
  {
  }

  lemma InnerResumes(s: State, pc: InnerPc, a: Answer)
    ensures Resumes(InnerStep(s, pc, a).player.pc)
  {
  }

  lemma ReleaseResumes(s: State, pc: ReleasePc, r: Resume)
    requires s.player.pc == Release(pc, r)
    ensures Resumes(ReleaseStep(s, pc, r).player.pc)
  {
  }

  lemma StepResumes(s: State, e: Event)
    requires Resumes(s.player.pc)
    ensures Resumes(Next(s, e).player.pc)
  {
    hide OuterStep, PlayStep, InnerStep, ReleaseStep, Resumes;
    match e {
      case PlayerMove(a, yes) =>
        match s.player.pc {
          case Outer(pc) => OuterResumes(s, pc, a, yes);
          case Play(pc) => PlayResumes(s, pc, yes);
          case Inner(pc) => InnerResumes(s, pc, a);
          case Release(pc, r) => ReleaseResumes(s, pc, r);
        }
      case _ => OthersResume(s, e);
    }
  }

  lemma OthersResume(s: State, e: Event)
    requires !e.PlayerMove?
    ensures Next(s, e).player == s.player
  {
  }

  lemma {:induction false} RunResumes(n: nat, es: seq<Event>)
    ensures Resumes(Run(Init(n), es).player.pc)
    decreases |es|
  {
    hide Next, Resumes;
    if es == [] {
      assert Resumes(Outer(LoopTest)) by { OuterStarts(); }
    } else {
      RunResumes(n, es[..|es| - 1]);
      StepResumes(Run(Init(n), es[..|es| - 1]), es[|es| - 1]);
    }
  }

  lemma OuterStarts()
    ensures Resumes(Outer(LoopTest))
  {
  }

  /** A step of the player alone, which waits for no other thread, leads nearer to the next read. */
  predicate Nearer(s: State, t: State) {
    !t.shared.mutex.ByInterrupt? && (AtRead(s.player.pc) || ToRead(t.player.pc) < ToRead(s.player.pc))
  }

  lemma OuterNearsRead(s: State, pc: OuterPc, a: Answer, yes: bool)
    requires s.player.pc == Outer(pc) && !s.shared.mutex.ByInterrupt?
    ensures Nearer(s, OuterStep(s, pc, a, yes))
  {
  }

  lemma PlayNearsRead(s: State, pc: PacketPc, yes: bool)
    requires s.player.pc == Play(pc) && Exclusive(s) && !s.shared.mutex.ByInterrupt?
    ensures Nearer(s, PlayStep(s, pc, yes))
  {
  }

  lemma InnerNearsRead(s: State, pc: InnerPc, a: Answer)
    requires s.player.pc == Inner(pc) && !s.shared.mutex.ByInterrupt?
    ensures Nearer(s, InnerStep(s, pc, a))
  {
  }

  lemma ReleaseNearsRead(s: State, pc: ReleasePc, r: Resume)
    requires s.player.pc == Release(pc, r) && Exclusive(s) && !s.shared.mutex.ByInterrupt? && Resumes(s.player.pc)
    ensures Nearer(s, ReleaseStep(s, pc, r))
  {
  }

  lemma StepNearsRead(s: State, a: Answer, yes: bool)
    requires Exclusive(s) && !s.shared.mutex.ByInterrupt? && Resumes(s.player.pc)
    ensures Nearer(s, PlayerStep(s, a, yes))
  {
    hide OuterStep, PlayStep, InnerStep, ReleaseStep, Nearer, Exclusive, Resumes;
    match s.player.pc {
      case Outer(pc) => OuterNearsRead(s, pc, a, yes);
      case Play(pc) => PlayNearsRead(s, pc, yes);
      case Inner(pc) => InnerNearsRead(s, pc, a);
      case Release(pc, r) => ReleaseNearsRead(s, pc, r);
    }
  }

  /** Before some event of the run, or after the last, the player is about to read, or has ended. */
  predicate ReachesRead(s: State, es: seq<Event>) {
    exists i :: 0 <= i <= |es| && AtRead(Run(s, es[..i]).player.pc)
  }

  lemma ReachesLater(s: State, e: Event, es: seq<Event>)
    requires ReachesRead(Next(s, e), es)
    ensures ReachesRead(s, [e] + es)
  {
    hide Run, Next;
    var i :| 0 <= i <= |es| && AtRead(Run(Next(s, e), es[..i]).player.pc);
    assert ([e] + es)[..i + 1] == [e] + es[..i];
    RunCons(s, e, es[..i]);
  }

  lemma ReachesNow(s: State, es: seq<Event>)
    requires AtRead(s.player.pc)
    ensures ReachesRead(s, es)
  {
    NoEvents(s);
    assert es[..0] == [];
  }

  lemma {:induction false} ReadsFrom(s: State, es: seq<Event>)
    requires Inv(s) && Resumes(s.player.pc) && !s.shared.mutex.ByInterrupt?
    requires (forall e :: e in es ==> e.PlayerMove?) && |es| >= ToRead(s.player.pc)
    ensures ReachesRead(s, es)
    decreases |es|
  {
    assert Exclusive(s);
    hide PlayerStep, Run, Inv, Exclusive, Resumes, ReachesRead, ToRead, AtRead;
    if AtRead(s.player.pc) {
      ReachesNow(s, es);
    } else {
      FarFromRead(s.player.pc);
      var e, rest := es[0], es[1..];
      assert e in es && es == [e] + rest && forall x :: x in rest ==> x in es;
      StepNearsRead(s, e.answer, e.yes);
      StepKeeps(s, e);
      StepResumes(s, e);
      ReadsFrom(Next(s, e), rest);
      ReachesLater(s, e, rest);
    }
  }

  lemma FarFromRead(pc: Pc)
    requires !AtRead(pc) && Resumes(pc)
    ensures 0 < ToRead(pc) <= 36
  {
  }

  /** The player does not get lost: after at most 36 steps of its own it reads the transport again, or has
      ended, whatever the tests of foreign state say. */
  lemma ReadsAgain(n: nat, es: seq<Event>, moves: seq<Event>)
    requires !Run(Init(n), es).shared.mutex.ByInterrupt?
    requires (forall e :: e in moves ==> e.PlayerMove?) && |moves| >= 36
    ensures ReachesRead(Run(Init(n), es), moves)
  {
    var s := Run(Init(n), es);
    InitInv(n);
    RunKeeps(Init(n), es);
    RunResumes(n, es);
    hide Run, Inv, ReachesRead, Resumes;
    if AtRead(s.player.pc) {
      ReachesNow(s, moves);
    } else {
      FarFromRead(s.player.pc);
      ReadsFrom(s, moves);
    }
  }

  // ---------- The end of the thread ----------

  /** How many steps it takes at most until a player that is to end has ended. */
  function ToEnd(pc: Pc): nat {
    match pc
    case Outer(p) =>
      (match p
       case LoopTest => 5
       case FlushTest => 12
       case LoadGen => 7
       case Read => 6
       case RunningTest => 5
       case GenTest => 28
       case AnswerTest => 27
       case PollDropTest => 12
       case ClearDrop => 11
       case TimeoutTest => 10
       case TransportTest => 6
       case PacketFlushTest => 26
       case PacketDropTest => 25
       case RoundTest => 9
       case ClearRunning => 1
       case Done => 0)
    case Play(p) => 11 + StepsLeft(pc)
    case Inner(p) =>
      (match p
       case InnerTest => 10
       case InnerFlushTest => 26
       case InnerLoadGen => 25
       case InnerRead => 24
       case InnerGenTest => 23
       case InnerAnswerTest => 22
       case InnerDropTest => 21)
    case Release(p, r) => InRelease(p) + (match r
                                          case ClearAtTop => 8
                                          case ClearWithPacket => 6
                                          case ClearInner => 10
                                          case AfterTimeout => 6
                                          case AfterRound => 5
                                          case Exiting => 1)
  }

  /** A step of the player that is to end leads nearer to its end. */
  predicate Ending(s: State, t: State) {
    && !t.shared.mutex.ByInterrupt? && !t.shared.running
    && (s.player.pc == t.player.pc == Outer(Done) || ToEnd(t.player.pc) < ToEnd(s.player.pc))
  }

  lemma OuterEnding(s: State, pc: OuterPc, a: Answer, yes: bool)
    requires s.player.pc == Outer(pc) && !s.shared.mutex.ByInterrupt? && !s.shared.running
    ensures Ending(s, OuterStep(s, pc, a, yes))
  {
  }

  lemma PlayEnding(s: State, pc: PacketPc, yes: bool)
    requires s.player.pc == Play(pc) && Exclusive(s) && !s.shared.mutex.ByInterrupt? && !s.shared.running
    ensures Ending(s, PlayStep(s, pc, yes))
  {
  }

  lemma InnerEnding(s: State, pc: InnerPc, a: Answer)
    requires s.player.pc == Inner(pc) && !s.shared.mutex.ByInterrupt? && !s.shared.running
    ensures Ending(s, InnerStep(s, pc, a))
  {
  }

  lemma ReleaseEnding(s: State, pc: ReleasePc, r: Resume)
    requires s.player.pc == Release(pc, r) && Exclusive(s) && !s.shared.mutex.ByInterrupt? && !s.shared.running
    requires Resumes(s.player.pc)
    ensures Ending(s, ReleaseStep(s, pc, r))
  {
  }

  lemma StepEnding(s: State, a: Answer, yes: bool)
    requires Exclusive(s) && !s.shared.mutex.ByInterrupt? && Resumes(s.player.pc) && !s.shared.running
    ensures Ending(s, PlayerStep(s, a, yes))
  {
    hide OuterStep, PlayStep, InnerStep, ReleaseStep, Ending, Exclusive, Resumes;
    match s.player.pc {
      case Outer(pc) => OuterEnding(s, pc, a, yes);
      case Play(pc) => PlayEnding(s, pc, yes);
      case Inner(pc) => InnerEnding(s, pc, a);
      case Release(pc, r) => ReleaseEnding(s, pc, r);
    }
  }

  lemma {:induction false} EndsFrom(s: State, es: seq<Event>)
    requires Inv(s) && Resumes(s.player.pc) && !s.shared.mutex.ByInterrupt? && !s.shared.running
    requires (forall e :: e in es ==> e.PlayerMove?) && |es| >= ToEnd(s.player.pc)
    ensures Run(s, es).player.pc == Outer(Done)
    decreases |es|
  {
    assert Exclusive(s);
    hide PlayerStep, Inv, Exclusive, Resumes, ToEnd;
    if es == [] {
      AtTheEnd(s.player.pc);
    } else {
      var e, rest := es[0], es[1..];
      assert e in es && es == [e] + rest && forall x :: x in rest ==> x in es;
      StepEnding(s, e.answer, e.yes);
      EndIsLast();
      StepKeeps(s, e);
      StepResumes(s, e);
      EndsFrom(Next(s, e), rest);
      RunCons(s, e, rest);
    }
  }

  lemma AtTheEnd(pc: Pc)
    ensures ToEnd(pc) <= 28 && (ToEnd(pc) == 0 ==> pc == Outer(Done))
  {
    match pc {
      case Outer(p) =>
      case Play(p) =>
      case Inner(p) =>
      case Release(p, r) =>
    }
  }

  lemma EndIsLast()
    ensures ToEnd(Outer(Done)) == 0
  {
  }

  /** A stop ends the running of the thread for good. */
  lemma {:induction false} StopsRunning(n: nat, es: seq<Event>)
    requires Stop in es
    ensures !Run(Init(n), es).shared.running
    decreases |es|
  {
    var before, e := es[..|es| - 1], es[|es| - 1];
    var s := Run(Init(n), before);
    StopEndsRunning(n, before);
    if Stop in before {
      StopsRunning(n, before);
      NeverRunsAgain(s, e);
      hide Next;
    } else {
      assert e == Stop;
    }
  }

  /** After a stop the thread ends within 28 steps of its own. */
  lemma EndsWhenStopped(n: nat, es: seq<Event>, moves: seq<Event>)
    requires Stop in es && !Run(Init(n), es).shared.mutex.ByInterrupt?
    requires (forall e :: e in moves ==> e.PlayerMove?) && |moves| >= 28
    ensures Run(Run(Init(n), es), moves).player.pc == Outer(Done)
  {
    var s := Run(Init(n), es);
    InitInv(n);
    RunKeeps(Init(n), es);
    RunResumes(n, es);
    StopsRunning(n, es);
    AtTheEnd(s.player.pc);
    hide Run, Inv, Resumes, ToEnd;
    EndsFrom(s, moves);
  }

  // ---------- What was read, and what is heard ----------

  /** How many reads of the transport gave a packet. */
  function DataReads(s: State, es: seq<Event>): nat
    decreases |es|
  {
    if es == [] then 0
    else
      var pc, e := Run(s, es[..|es| - 1]).player.pc, es[|es| - 1];
      DataReads(s, es[..|es| - 1])
      + One((pc == Outer(Read) || pc == Inner(InnerRead)) && e.PlayerMove? && e.answer == Data)
  }

  lemma StepReads(s: State, e: Event)
    ensures Next(s, e).past.packets
         == s.past.packets + One((s.player.pc == Outer(Read) || s.player.pc == Inner(InnerRead))
                                 && e.PlayerMove? && e.answer == Data)
  {
  }

  /** The packets counted are those that the transport gave, and each packet's stamp tells how many interrupts
      had begun. */
  lemma {:induction false} PacketsAreReads(n: nat, es: seq<Event>)
    ensures Run(Init(n), es).past.packets == DataReads(Init(n), es)
    decreases |es|
  {
    hide Next;
    if es != [] {
      PacketsAreReads(n, es[..|es| - 1]);
      StepReads(Run(Init(n), es[..|es| - 1]), es[|es| - 1]);
    }
  }

  /** What the step takes out of the speaker buffer to be heard. */
  function Taken(s: State, e: Event): seq<Packet> {
    if e.Sounded? && s.shared.speaker != [] then [s.shared.speaker[0]] else []
  }

  /** The packets that the device has taken out of the speaker buffer. */
  function Heard(s: State, es: seq<Event>): seq<Packet>
    decreases |es|
  {
    if es == [] then []
    else
      Heard(s, es[..|es| - 1]) + Taken(Run(s, es[..|es| - 1]), es[|es| - 1])
  }

  function Packets(ws: seq<Write>): seq<Packet> { seq(|ws|, i requires 0 <= i < |ws| => ws[i].packet) }

  /** The step does not give the handle up: neither the idle time nor the end of a round is reached, and the
      transport has not ended. */
  predicate GoesOn(s: State, e: Event) {
    !(e.PlayerMove? && e.yes && s.player.pc in {Outer(TimeoutTest), Outer(RoundTest), Outer(TransportTest)})
  }

  /** Between two states the speaker has got what was written and lost what was heard. */
  predicate Sounding(s: State, t: State) {
    || (t.shared.speaker == s.shared.speaker && t.past.written == s.past.written)
    || (&& t.shared.speaker == s.shared.speaker + [s.player.held]
        && t.past.written == s.past.written + [Write(s.player.held, s.shared.drop, s.past.mark)])
  }

  lemma StepSounding(s: State, e: Event)
    requires e.PlayerMove? && !s.player.pc.Release?
    ensures Sounding(s, Next(s, e))
  {
    hide OuterStep, InnerStep, PlayStep;
    match s.player.pc {
      case Outer(pc) => OuterSilent(s, pc, e.answer, e.yes);
      case Inner(pc) => InnerSilent(s, pc, e.answer);
      case Play(pc) => PlaySounds(s, pc, e.yes);
    }
  }

  lemma PlaySounds(s: State, pc: PacketPc, yes: bool)
    ensures Sounding(s, PlayStep(s, pc, yes))
  {
  }

  lemma OuterSilent(s: State, pc: OuterPc, a: Answer, yes: bool)
    ensures OuterStep(s, pc, a, yes).shared.speaker == s.shared.speaker
    ensures OuterStep(s, pc, a, yes).past.written == s.past.written
  {
  }

  lemma InnerSilent(s: State, pc: InnerPc, a: Answer)
    ensures InnerStep(s, pc, a).shared.speaker == s.shared.speaker
    ensures InnerStep(s, pc, a).past.written == s.past.written
  {
  }

  lemma OuterNoRelease(s: State, pc: OuterPc, a: Answer, yes: bool)
    requires Calm(s) && s.player.pc == Outer(pc) && pc != Done && GoesOn(s, PlayerMove(a, yes))
    ensures !OuterStep(s, pc, a, yes).player.pc.Release?
    ensures OuterStep(s, pc, a, yes).player.pc == Outer(Done) ==> pc == ClearRunning
    ensures OuterStep(s, pc, a, yes).player.pc != Outer(ClearRunning)
  {
  }

  lemma InnerNoRelease(s: State, pc: InnerPc, a: Answer)
    requires Calm(s) && s.player.pc == Inner(pc)
    ensures !InnerStep(s, pc, a).player.pc.Release? && InnerStep(s, pc, a).player.pc != Outer(Done)
    ensures InnerStep(s, pc, a).player.pc != Outer(ClearRunning)
  {
  }

  lemma PlayNoRelease(s: State, pc: PacketPc, yes: bool)
    requires s.player.pc == Play(pc)
    ensures !PlayStep(s, pc, yes).player.pc.Release? && PlayStep(s, pc, yes).player.pc != Outer(Done)
    ensures PlayStep(s, pc, yes).player.pc != Outer(ClearRunning)
  {
  }

  /** The player plays on: it is not about to release its handle or to end. */
  predicate PlaysOn(pc: Pc) { !pc.Release? && pc != Outer(ClearRunning) && pc != Outer(Done) }

  lemma StepPlaysOn(s: State, e: Event)
    requires Calm(s) && PlaysOn(s.player.pc) && GoesOn(s, e)
    ensures PlaysOn(Next(s, e).player.pc)
  {
    hide OuterStep, InnerStep, PlayStep;
    if e.PlayerMove? {
      match s.player.pc {
        case Outer(pc) => OuterNoRelease(s, pc, e.answer, e.yes);
        case Inner(pc) => InnerNoRelease(s, pc, e.answer);
        case Play(pc) => PlayNoRelease(s, pc, e.yes);
        case _ =>
      }
    }
  }

  lemma NextHeard(heard: seq<Packet>, s: State, e: Event)
    requires heard + s.shared.speaker == Packets(s.past.written) && PlaysOn(s.player.pc)
    requires e.PlayerMove? || e.Sounded?
    ensures heard + Taken(s, e) + Next(s, e).shared.speaker == Packets(Next(s, e).past.written)
  {
    if e.PlayerMove? {
      StepSounding(s, e);
      hide PlayerStep;
      if Next(s, e).past.written != s.past.written {
        var w := Write(s.player.held, s.shared.drop, s.past.mark);
        assert Packets(s.past.written + [w]) == Packets(s.past.written) + [w.packet];
      }
    }
  }

  /** Without an interrupt or a stop, and as long as the player does not give its handle up, what was heard and
      what is in the speaker buffer are together the packets written, in order. */
  lemma {:induction false} UndisturbedIsHeard(n: nat, es: seq<Event>)
    requires Undisturbed(es) && forall i :: 0 <= i < |es| ==> GoesOn(Run(Init(n), es[..i]), es[i])
    ensures var s := Run(Init(n), es);
            PlaysOn(s.player.pc) && Heard(Init(n), es) + s.shared.speaker == Packets(s.past.written)
    decreases |es|
  {
    hide GoesOn, Calm, Next, PlaysOn, Packets, Taken;
    if es == [] {
      PlaysAtFirst(n);
    } else {
      var before, e := es[..|es| - 1], es[|es| - 1];
      assert forall i :: 0 <= i < |before| ==> before[..i] == es[..i];
      assert e in es && forall x :: x in before ==> x in es;
      UndisturbedIsHeard(n, before);
      RunCalm(n, before);
      var s := Run(Init(n), before);
      StepPlaysOn(s, e);
      NextHeard(Heard(Init(n), before), s, e);
    }
  }

  lemma PlaysAtFirst(n: nat)
    ensures var s := Init(n); PlaysOn(s.player.pc) && [] + s.shared.speaker == Packets(s.past.written)
  {
  }

  // ---------- A round without a packet ----------

  /** The device has failed to open for the packet, or the decoder to decode it: it is never played. */
  lemma FailedIsNeverPlayed(n: nat, es: seq<Event>, a: Answer, later: seq<Event>)
    requires var s := Run(Init(n), es);
             s.player.pc == Play(Decode) || (s.player.pc == Play(Open) && s.player.playback == 0)
    ensures var s := Run(Init(n), es);
            forall w :: w in Run(Next(s, PlayerMove(a, false)), later).past.written ==> w.packet.id != s.player.held.id
  {
    var s := Run(Init(n), es);
    var t := Next(s, PlayerMove(a, false));
    InitInv(n);
    RunKeeps(Init(n), es);
    StopEndsRunning(n, es);
    assert Ordered(s) && Holding(s) && !Holding(t);
    assert t.past == s.past && t.shared == s.shared && t.stop == s.stop;
    hide Run, Inv, Next;
    RunStopped(t, later, s.player.held.id);
  }

  /** Once the thread has ended it counts as not running. */
  lemma {:induction false} EndedIsNotRunning(n: nat, es: seq<Event>)
    requires Run(Init(n), es).player.pc == Outer(Done)
    ensures !Run(Init(n), es).shared.running
    decreases |es|
  {
    var before, e := es[..|es| - 1], es[|es| - 1];
    var s := Run(Init(n), before);
    NeverRunsAgain(s, e);
    if s.player.pc == Outer(Done) {
      EndedIsNotRunning(n, before);
      hide Next;
    } else {
      OnlyEnd(s, e);
      hide Next;
    }
  }

  lemma OnlyEnd(s: State, e: Event)
    requires s.player.pc != Outer(Done) && Next(s, e).player.pc == Outer(Done)
    ensures !Next(s, e).shared.running
  {
    hide OuterStep, PlayStep, InnerStep, ReleaseStep;
    match e {
      case PlayerMove(a, yes) =>
        match s.player.pc {
          case Outer(pc) => OuterEnds(s, pc, a, yes);
          case Play(pc) => PlayNoRelease(s, pc, yes);
          case Inner(pc) => InnerNoEnd(s, pc, a);
          case Release(pc, r) => ReleaseNoEnd(s, pc, r);
        }
      case _ => OthersResume(s, e);
    }
  }

  lemma OuterEnds(s: State, pc: OuterPc, a: Answer, yes: bool)
    requires s.player.pc == Outer(pc) && pc != Done
    ensures var t := OuterStep(s, pc, a, yes); t.player.pc == Outer(Done) ==> !t.shared.running
  {
  }

  lemma InnerNoEnd(s: State, pc: InnerPc, a: Answer)
    ensures InnerStep(s, pc, a).player.pc != Outer(Done) || s.player.pc == Outer(Done)
  {
  }

  lemma ReleaseNoEnd(s: State, pc: ReleasePc, r: Resume)
    requires s.player.pc == Release(pc, r)
    ensures ReleaseStep(s, pc, r).player.pc != Outer(Done)
  {
  }

  /** A move of the player, with the outcome of the test that it makes. */
  function Test(yes: bool): Event { PlayerMove(Nothing, yes) }

  /** The moves with which the handle is released after a test. */
  function ReleaseMoves(): seq<Event> { [Test(true), Test(true), Test(true), Test(true)] }

  /** The handle, with everything in the speaker buffer, is given back; the player goes on at `pc`. */
  function GivenBack(s: State, pc: Pc): State {
    s.(shared := s.shared.(active := 0, speaker := []), player := s.player.(playback := 0, pc := pc))
  }

  lemma FourSteps(s: State, a: Event, b: Event, c: Event, d: Event)
    ensures Run(s, [a, b, c, d]) == Next(Next(Next(Next(s, a), b), c), d)
  {
    hide Next;
    assert [a, b, c, d] == [a] + [b, c, d] && [b, c, d] == [b] + [c, d] && [c, d] == [c] + [d] && [d] == [d] + [];
    RunCons(s, a, [b, c, d]);
    RunCons(Next(s, a), b, [c, d]);
    RunCons(Next(Next(s, a), b), c, [d]);
    RunCons(Next(Next(Next(s, a), b), c), d, []);
    NoEvents(Next(Next(Next(Next(s, a), b), c), d));
  }

  /** Three moves give the handle back, if there is one. */
  lemma Releases(s: State, r: Resume)
    requires Sound(s) && s.shared.mutex == Free && s.player.pc == Release(ReleaseLock, r)
    ensures var m := Test(true); Next(Next(Next(s, m), m), m) == GivenBack(s, AfterRelease(r))
  {
    assert Handled(s) && Speaking(s);
    hide Sound;
    assert s.player.playback == 0 ==> s.shared.active == 0 && s.shared.speaker == [];
  }

  /** The idle time is over, or the round of speech: the handle is given back, if there is one, and the player
      goes on; otherwise nothing changes. */
  lemma GivesUp(s: State, yes: bool)
    requires Sound(s) && s.shared.mutex == Free
    requires s.player.pc == Outer(TimeoutTest) || s.player.pc == Outer(RoundTest)
    ensures var on := if s.player.pc == Outer(TimeoutTest) then Outer(TransportTest) else Outer(LoopTest);
            && (yes && s.player.playback != 0 ==> Run(s, ReleaseMoves()) == GivenBack(s, on))
            && (!(yes && s.player.playback != 0) ==> Next(s, Test(yes)) == Goto(s, on))
  {
    var m := Test(true);
    FourSteps(s, m, m, m, m);
    hide Run, Sound;
    if yes && s.player.playback != 0 {
      var t := Next(s, m);
      StepSound(s, m);
      Releases(t, if s.player.pc == Outer(TimeoutTest) then AfterTimeout else AfterRound);
    }
  }

  /** When the transport is found empty, a drop request is over. */
  lemma EmptyEndsDrop(s: State)
    requires s.player.pc == Outer(AnswerTest) && s.player.answer == Nothing
    ensures var t := Next(Next(s, Test(true)), Test(true));
            && (!s.shared.drop ==> t == Goto(s, Outer(TimeoutTest)))
            && (s.shared.drop ==>
                  Next(t, Test(true)) == Goto(s.(shared := s.shared.(drop := false)), Outer(TimeoutTest)))
    ensures s.player.answer == Nothing ==> Next(s, Test(false)) == Goto(s, Outer(LoopTest))
  {
  }

  /** When the transport has ended and is empty the player ends; otherwise it begins the next round. */
  lemma TransportEnds(s: State)
    requires Sound(s) && s.shared.mutex == Free && s.player.pc == Outer(TransportTest)
    ensures Next(s, Test(false)) == Goto(s, Outer(LoopTest))
    ensures Next(Run(s, ReleaseMoves()), Test(true))
         == GivenBack(s.(shared := s.shared.(running := false)), Outer(Done))
  {
    var m := Test(true);
    FourSteps(s, m, m, m, m);
    hide Run, Sound;
    StepSound(s, m);
    Releases(Next(s, m), Exiting);
  }

  /** A flush request that the player finds at the top of a round, before a packet or before the next read, is
      honoured: the handle is given back with everything in the speaker buffer, and then the request is cleared. */
  lemma FlushGivesBack(s: State)
    requires Sound(s) && s.shared.mutex == Free && s.shared.flush
    requires s.player.pc in {Outer(FlushTest), Outer(PacketFlushTest), Inner(InnerFlushTest)}
    ensures var on := if s.player.pc == Outer(FlushTest) then Outer(LoadGen)
                      else if s.player.pc == Outer(PacketFlushTest) then Outer(LoopTest) else Outer(RoundTest);
            Run(s, [Test(true)] + ReleaseMoves()) == GivenBack(s.(shared := s.shared.(flush := false)), on)
  {
    var m := Test(true);
    var t := Next(s, m);
    FourSteps(t, m, m, m, m);
    RunCons(s, m, ReleaseMoves());
    hide Run, Sound;
    StepSound(s, m);
    Releases(t, t.player.pc.resume);
  }

  /** After a packet the player reads on at once, unless it is to end or a flush is requested. */
  lemma ReadsOn(s: State, yes: bool)
    requires s.player.pc == Inner(InnerTest)
    ensures var t := Next(Next(s, Test(yes)), Test(yes));
            && (!s.shared.running ==> Next(s, Test(yes)) == Goto(s, Outer(RoundTest)))
            && (s.shared.running && !s.shared.flush ==>
                  Next(t, Test(yes)).player.pc == Inner(InnerRead) && Next(t, Test(yes)).player.loaded == s.shared.gen)
            && (s.shared.running && s.shared.flush ==> t == Goto(s, Release(ReleaseLock, ClearInner)))
  {
  }

  /** A read that gives an empty packet is followed by another one, and one that gives none ends the burst. */
  lemma NoPacket(s: State, answer: Answer, yes: bool)
    requires s.player.pc == Inner(InnerRead) && s.player.loaded == s.shared.gen && answer != Data
    ensures var t := Next(Next(Next(s, PlayerMove(answer, yes)), Test(yes)), Test(yes));
            && t.player.pc == (if answer == Blank then Inner(InnerTest) else Outer(RoundTest))
            && t.shared == s.shared && t.past == s.past && t.player.playback == s.player.playback
  {
  }

  /** A stop, taken together: the thread is to end, a flush is requested, and a drop request is withdrawn. */
  lemma StopDoes(s: State)
    requires s.stop == NotStopping
    ensures Next(Next(Next(s, Stop), Stop), Stop)
         == s.(shared := s.shared.(running := false, flush := true, drop := false))
  {
  }
}
