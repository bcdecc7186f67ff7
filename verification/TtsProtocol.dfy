/** Speech playback and its interruption: the player thread, any number of threads that interrupt
    it, and a stop, as steps of one access to a shared variable each, sequentially consistent. */
module TtsProtocol {

  /** The generation counter is 32 bits wide. */
  const GENERATIONS := 0x1_0000_0000

  function Wrap(n: nat): nat { n % GENERATIONS }

  /** A packet taken from the transport: its place in the order of reads, and how many interrupts
      had begun when it was read. */
  datatype Packet = Packet(id: nat, stamp: nat)

  datatype Owner = Free | ByPlayer | ByInterrupt(thread: nat)

  /** What a read of the transport returned. */
  datatype Answer = Nothing | Failure | Blank | Data

  /** Where the player continues after it has released its playback handle. */
  datatype Resume = ClearAtTop | ClearWithPacket | ClearInner | AfterTimeout | AfterRound | Exiting

  /** The steps of the thread's outer loop. */
  datatype OuterPc =
    | LoopTest | FlushTest | LoadGen | Read | RunningTest | GenTest | AnswerTest
    | PollDropTest | ClearDrop | TimeoutTest | TransportTest
    | PacketFlushTest | PacketDropTest | RoundTest | ClearRunning | Done

  /** The steps that take one packet to the speaker. Both loops go on with the inner loop after them. */
  datatype PacketPc =
    | Open | ActivateLock | Activate | ActivateUnlock
    | EarlyFlushTest | EarlyRunningTest | Decode | LateFlushTest | LateRunningTest
    | WriteLock | LockedFlushTest | LockedRunningTest | WritePcm | WriteUnlock

  /** The steps of the inner loop. */
  datatype InnerPc =
    | InnerTest | InnerFlushTest | InnerLoadGen | InnerRead | InnerGenTest | InnerAnswerTest | InnerDropTest

  /** The steps that release the playback handle and then clear the flush request. */
  datatype ReleasePc = ReleaseLock | ReleaseBody | ReleaseUnlock | ClearFlush

  datatype Pc =
    | Outer(outer: OuterPc)
    | Play(play: PacketPc)
    | Inner(inner: InnerPc)
    | Release(release: ReleasePc, resume: Resume)

  /** The next step of a thread inside `zh_udp_tts_interrupt`; `k` is the interrupt's number. */
  datatype InterruptPc =
    | Outside
    | SetDrop(k: nat) | FetchGen(k: nat) | StoreGen(k: nat, value: nat)
    | Lock(k: nat) | FlushActive(k: nat) | Unlock(k: nat) | Transport(k: nat)

  datatype StopPc = NotStopping | StopFlush | StopDrop

  /** A packet that reached the speaker, with the state of the drop request at that moment. */
  datatype Write = Write(packet: Packet, dropping: bool, mark: nat)

  /** The shared variables; the mutex guards the last two. Handle 0 is the null pointer. */
  datatype Shared = Shared(running: bool, flush: bool, drop: bool, gen: nat,
                           mutex: Owner, active: nat, speaker: seq<Packet>)

  /** The player's own variables. */
  datatype Player = Player(pc: Pc, playback: nat, answer: Answer, held: Packet, loaded: nat)

  /** What has happened so far: handles opened, packets read, interrupts begun, the latest interrupt
      that has flushed, counts of the generation, where the standing drop request was made, and the
      packets written. */
  datatype Past = Past(handles: nat, packets: nat, begun: nat, flushed: nat, bumps: nat, bumpsAtLoad: nat, mark: nat,
                       written: seq<Write>)

  datatype State = State(shared: Shared, player: Player, interrupts: seq<InterruptPc>, stop: StopPc, past: Past)

  /** One step of one thread, with the outcome of whatever is not modelled: what a read returns, or
      whether an open, a decode or a test of foreign state succeeds. `Sounded` is the device taking
      a packet out of the speaker buffer. */
  datatype Event = PlayerMove(answer: Answer, yes: bool) | Interrupt(thread: nat) | Stop | Sounded

  /** `n` threads may interrupt. */
  function Init(n: nat): State {
    State(Shared(true, false, false, 0, Free, 0, []), Player(Outer(LoopTest), 0, Nothing, Packet(0, 0), 0),
          seq(n, _ => Outside), NotStopping, Past(0, 0, 0, 0, 0, 0, 0, []))
  }

  function Next(s: State, e: Event): State {
    match e
    case PlayerMove(answer, yes) => PlayerStep(s, answer, yes)
    case Interrupt(i) => if i < |s.interrupts| then InterruptStep(s, i) else s
    case Stop => StopStep(s)
    case Sounded => if s.shared.speaker == [] then s else s.(shared := s.shared.(speaker := s.shared.speaker[1..]))
  }

  function Run(s: State, es: seq<Event>): State
    decreases |es|
  {
    if es == [] then s else Next(Run(s, es[..|es| - 1]), es[|es| - 1])
  }

  // ---------- The player thread ----------

  function Goto(s: State, pc: Pc): State {
    s.(player := s.player.(pc := pc))
  }

  /** A test of a flag: go to one of two places. */
  function Branch(s: State, condition: bool, yes: Pc, no: Pc): State {
    Goto(s, if condition then yes else no)
  }

  /** Take the mutex, or wait for it. */
  function Take(s: State, next: Pc): State {
    if s.shared.mutex == Free then s.(shared := s.shared.(mutex := ByPlayer), player := s.player.(pc := next)) else s
  }

  function Give(s: State, next: Pc): State {
    s.(shared := s.shared.(mutex := Free), player := s.player.(pc := next))
  }

  function ReadPacket(s: State, answer: Answer, next: Pc): State {
    if answer == Data
    then s.(player := s.player.(answer := Data, held := Packet(s.past.packets, s.past.begun), pc := next),
            past := s.past.(packets := s.past.packets + 1))
    else s.(player := s.player.(answer := answer, pc := next))
  }

  function LoadGeneration(s: State, next: Pc): State {
    s.(player := s.player.(loaded := s.shared.gen, pc := next), past := s.past.(bumpsAtLoad := s.past.bumps))
  }

  function PlayerStep(s: State, answer: Answer, yes: bool): State {
    match s.player.pc
    case Outer(pc) => OuterStep(s, pc, answer, yes)
    case Play(pc) => PlayStep(s, pc, yes)
    case Inner(pc) => InnerStep(s, pc, answer)
    case Release(pc, r) => ReleaseStep(s, pc, r)
  }

  function OuterStep(s: State, pc: OuterPc, answer: Answer, yes: bool): State {
    match pc
    case LoopTest => Branch(s, s.shared.running, Outer(FlushTest), Release(ReleaseLock, Exiting))
    case FlushTest => Branch(s, s.shared.flush, Release(ReleaseLock, ClearAtTop), Outer(LoadGen))
    case LoadGen => LoadGeneration(s, Outer(Read))
    case Read => ReadPacket(s, answer, Outer(RunningTest))
    case RunningTest => Branch(s, s.shared.running, Outer(GenTest), Release(ReleaseLock, Exiting))
    case GenTest => Branch(s, s.player.loaded == s.shared.gen, Outer(AnswerTest), Outer(LoopTest))
    case AnswerTest =>
      if s.player.answer == Data then Goto(s, Outer(PacketFlushTest))
      else Branch(s, s.player.answer == Nothing && yes, Outer(PollDropTest), Outer(LoopTest))  // `yes`: none pending
    case PollDropTest => Branch(s, s.shared.drop, Outer(ClearDrop), Outer(TimeoutTest))
    case ClearDrop => s.(shared := s.shared.(drop := false), player := s.player.(pc := Outer(TimeoutTest)))
    case TimeoutTest =>
      Branch(s, yes && s.player.playback != 0, Release(ReleaseLock, AfterTimeout), Outer(TransportTest))
    case TransportTest => Branch(s, yes, Release(ReleaseLock, Exiting), Outer(LoopTest))
    case PacketFlushTest => Branch(s, s.shared.flush, Release(ReleaseLock, ClearWithPacket), Outer(PacketDropTest))
    case PacketDropTest => Branch(s, s.shared.drop, Outer(LoopTest), Play(Open))
    case RoundTest => Branch(s, yes && s.player.playback != 0, Release(ReleaseLock, AfterRound), Outer(LoopTest))
    case ClearRunning => s.(shared := s.shared.(running := false), player := s.player.(pc := Outer(Done)))
    case Done => s
  }

  function PlayStep(s: State, pc: PacketPc, yes: bool): State {
    match pc
    case Open =>
      if s.player.playback != 0 then Goto(s, Play(EarlyFlushTest))
      else if yes
      then s.(player := s.player.(playback := s.past.handles + 1, pc := Play(ActivateLock)),
              past := s.past.(handles := s.past.handles + 1))
      else Goto(s, Outer(LoopTest))
    case ActivateLock => Take(s, Play(Activate))
    case Activate =>
      s.(shared := s.shared.(active := s.player.playback), player := s.player.(pc := Play(ActivateUnlock)))
    case ActivateUnlock => Give(s, Play(EarlyFlushTest))
    case EarlyFlushTest => Branch(s, s.shared.flush, Inner(InnerTest), Play(EarlyRunningTest))
    case EarlyRunningTest => Branch(s, s.shared.running, Play(Decode), Inner(InnerTest))
    case Decode => Branch(s, yes, Play(LateFlushTest), Inner(InnerTest))
    case LateFlushTest => Branch(s, s.shared.flush, Inner(InnerTest), Play(LateRunningTest))
    case LateRunningTest => Branch(s, s.shared.running, Play(WriteLock), Inner(InnerTest))
    case WriteLock => Take(s, Play(LockedFlushTest))
    case LockedFlushTest =>
      Branch(s, s.player.playback == s.shared.active && !s.shared.flush, Play(LockedRunningTest), Play(WriteUnlock))
    case LockedRunningTest => Branch(s, s.shared.running, Play(WritePcm), Play(WriteUnlock))
    case WritePcm =>
      s.(shared := s.shared.(speaker := s.shared.speaker + [s.player.held]),
         past := s.past.(written := s.past.written + [Write(s.player.held, s.shared.drop, s.past.mark)]),
         player := s.player.(pc := Play(WriteUnlock)))
    case WriteUnlock => Give(s, Inner(InnerTest))
  }

  function InnerStep(s: State, pc: InnerPc, answer: Answer): State {
    match pc
    case InnerTest => Branch(s, s.shared.running, Inner(InnerFlushTest), Outer(RoundTest))
    case InnerFlushTest => Branch(s, s.shared.flush, Release(ReleaseLock, ClearInner), Inner(InnerLoadGen))
    case InnerLoadGen => LoadGeneration(s, Inner(InnerRead))
    case InnerRead => ReadPacket(s, answer, Inner(InnerGenTest))
    case InnerGenTest => Branch(s, s.player.loaded == s.shared.gen, Inner(InnerAnswerTest), Inner(InnerTest))
    case InnerAnswerTest =>
      if s.player.answer == Data then Goto(s, Inner(InnerDropTest))
      else Branch(s, s.player.answer == Blank, Inner(InnerTest), Outer(RoundTest))
    case InnerDropTest => Branch(s, s.shared.drop, Inner(InnerTest), Play(EarlyFlushTest))
  }

  function ReleaseStep(s: State, pc: ReleasePc, r: Resume): State {
    match pc
    case ReleaseLock => Take(s, Release(ReleaseBody, r))
    case ReleaseBody =>
      if s.player.playback == 0 then Goto(s, Release(ReleaseUnlock, r))
      else s.(shared := s.shared.(speaker := [],
                                  active := if s.shared.active == s.player.playback then 0 else s.shared.active),
              player := s.player.(playback := 0, pc := Release(ReleaseUnlock, r)))
    case ReleaseUnlock => Give(s, AfterRelease(r))
    case ClearFlush => s.(shared := s.shared.(flush := false), player := s.player.(pc := AfterClear(r)))
  }

  function AfterRelease(r: Resume): Pc {
    match r
    case AfterTimeout => Outer(TransportTest)
    case AfterRound => Outer(LoopTest)
    case Exiting => Outer(ClearRunning)
    case _ => Release(ClearFlush, r)
  }

  function AfterClear(r: Resume): Pc {
    match r
    case ClearAtTop => Outer(LoadGen)
    case ClearInner => Outer(RoundTest)
    case _ => Outer(LoopTest)
  }

  // ---------- The other threads ----------

  function Max(a: nat, b: nat): nat { if a < b then b else a }

  function InterruptStep(s: State, i: nat): State
    requires i < |s.interrupts|
  {
    match s.interrupts[i]
    case Outside =>
      s.(shared := s.shared.(flush := true), past := s.past.(begun := s.past.begun + 1),
         interrupts := s.interrupts[i := SetDrop(s.past.begun + 1)])
    case SetDrop(k) =>
      s.(shared := s.shared.(drop := true),
         past := s.past.(mark := if s.shared.drop then s.past.mark else s.past.packets),
         interrupts := s.interrupts[i := FetchGen(k)])
    case FetchGen(k) => s.(interrupts := s.interrupts[i := StoreGen(k, s.shared.gen)])
    case StoreGen(k, v) =>
      s.(shared := s.shared.(gen := Wrap(v + 1)), past := s.past.(bumps := s.past.bumps + 1),
         interrupts := s.interrupts[i := Lock(k)])
    case Lock(k) =>
      if s.shared.mutex == Free
      then s.(shared := s.shared.(mutex := ByInterrupt(i)), interrupts := s.interrupts[i := FlushActive(k)])
      else s
    case FlushActive(k) =>
      s.(shared := s.shared.(speaker := if s.shared.active != 0 then [] else s.shared.speaker),
         past := s.past.(flushed := Max(s.past.flushed, k)), interrupts := s.interrupts[i := Unlock(k)])
    case Unlock(k) => s.(shared := s.shared.(mutex := Free), interrupts := s.interrupts[i := Transport(k)])
    case Transport(_) => s.(interrupts := s.interrupts[i := Outside])
  }

  function StopStep(s: State): State {
    match s.stop
    case NotStopping => s.(shared := s.shared.(running := false), stop := StopFlush)
    case StopFlush => s.(shared := s.shared.(flush := true), stop := StopDrop)
    case StopDrop => s.(shared := s.shared.(drop := false), stop := NotStopping)
  }

  // ---------- What every step keeps ----------

  /** The player is inside a section guarded by the mutex. */
  predicate PlayerGuards(pc: Pc) {
    match pc
    case Play(p) => p.Activate? || p.ActivateUnlock? || p.LockedFlushTest? || p.WriteUnlock? || Committed(pc)
    case Release(p, _) => p.ReleaseBody? || p.ReleaseUnlock?
    case _ => false
  }

  predicate InterruptGuards(pc: InterruptPc) { pc.FlushActive? || pc.Unlock? }

  /** At most one thread is inside a guarded section, the one that owns the mutex. */
  predicate Exclusive(s: State) {
    && (PlayerGuards(s.player.pc) <==> s.shared.mutex == ByPlayer)
    && (forall i :: 0 <= i < |s.interrupts| ==>
          (InterruptGuards(s.interrupts[i]) <==> s.shared.mutex == ByInterrupt(i)))
    && (s.shared.mutex.ByInterrupt? ==> s.shared.mutex.thread < |s.interrupts|)
  }

  /** The player has passed the last test of the flush request and is about to write. */
  predicate Committed(pc: Pc) { pc.Play? && (pc.play.LockedRunningTest? || pc.play.WritePcm?) }

  /** The player has a packet that passed the test of the drop request. */
  predicate PastDropTest(pc: Pc) { pc.Play? && !pc.play.WriteUnlock? }

  /** The player has read a packet and may yet write it. */
  predicate Holding(s: State) {
    match s.player.pc
    case Outer(p) =>
      || ((p.RunningTest? || p.GenTest? || p.AnswerTest?) && s.player.answer == Data)
      || p.PacketFlushTest? || p.PacketDropTest?
    case Play(p) => !p.WriteUnlock?
    case Inner(p) => ((p.InnerGenTest? || p.InnerAnswerTest?) && s.player.answer == Data) || p.InnerDropTest?
    case Release(_, _) => false
  }

  /** The player has just released its handle, or has ended. */
  predicate Released(pc: Pc) {
    pc == Outer(ClearRunning) || pc == Outer(Done) || (pc.Release? && pc.release.ReleaseUnlock?)
  }

  /** What the speaker buffer can hold. */
  predicate Speaking(s: State) {
    && (s.shared.active != 0 ==> s.shared.active == s.player.playback)
    && (s.shared.speaker != [] ==> s.shared.active != 0)
    && s.player.playback <= s.past.handles
    && ((s.player.pc.Play? && !s.player.pc.play.Open?) || s.player.pc.Inner? ==> s.player.playback != 0)
    && (Released(s.player.pc) ==> s.player.playback == 0)
  }

  /** A packet read before some interrupt began is still covered by a flush request, until the
      player holds the mutex for the write, and then that interrupt has not flushed yet. */
  predicate Covered(s: State) {
    && s.past.flushed <= s.past.begun
    && (forall i :: 0 <= i < |s.interrupts| && !s.interrupts[i].Outside? ==> s.interrupts[i].k <= s.past.begun)
    && (Holding(s) ==> s.player.held.stamp <= s.past.begun)
    && (Holding(s) && !Committed(s.player.pc) && s.player.held.stamp < s.past.begun ==> s.shared.flush)
    && (Committed(s.player.pc) ==>
          s.player.held.stamp >= s.past.flushed && s.shared.active == s.player.playback && s.shared.active != 0)
    && (forall p :: p in s.shared.speaker ==> s.past.flushed <= p.stamp)
  }

  /** Packets are written in the order of reads, at most once each. */
  predicate Ordered(s: State) {
    && (Holding(s) ==> s.player.held.id + 1 == s.past.packets)
    && (forall w :: w in s.past.written ==> w.packet.id < if Holding(s) then s.player.held.id else s.past.packets)
    && (forall i, j :: 0 <= i < j < |s.past.written| ==> s.past.written[i].packet.id < s.past.written[j].packet.id)
  }

  /** While a drop request stands, only the packet read last before it was made gets through. */
  predicate Dropping(s: State) {
    && s.past.mark <= s.past.packets
    && (s.shared.drop && PastDropTest(s.player.pc) ==> s.player.held.id + 1 == s.past.mark)
    && (forall w :: w in s.past.written && w.dropping ==> w.packet.id + 1 == w.mark)
  }

  predicate Safe(s: State) { Speaking(s) && Covered(s) }

  predicate Orderly(s: State) { Ordered(s) && Dropping(s) }

  predicate Inv(s: State) { Exclusive(s) && Safe(s) && Orderly(s) }

  lemma OuterKeepsExclusive(s: State, pc: OuterPc, a: Answer, yes: bool)
    requires Exclusive(s) && s.player.pc == Outer(pc)
    ensures Exclusive(OuterStep(s, pc, a, yes))
  {
  }

  lemma PlayKeepsExclusive(s: State, pc: PacketPc, yes: bool)
    requires Exclusive(s) && s.player.pc == Play(pc)
    ensures Exclusive(PlayStep(s, pc, yes))
  {
  }

  lemma InnerKeepsExclusive(s: State, pc: InnerPc, a: Answer)
    requires Exclusive(s) && s.player.pc == Inner(pc)
    ensures Exclusive(InnerStep(s, pc, a))
  {
  }

  lemma ReleaseKeepsExclusive(s: State, pc: ReleasePc, r: Resume)
    requires Exclusive(s) && s.player.pc == Release(pc, r)
    ensures Exclusive(ReleaseStep(s, pc, r))
  {
  }

  lemma OuterKeepsSpeaking(s: State, pc: OuterPc, a: Answer, yes: bool)
    requires Speaking(s) && s.player.pc == Outer(pc)
    ensures Speaking(OuterStep(s, pc, a, yes))
  {
  }

  lemma OuterKeepsCovered(s: State, pc: OuterPc, a: Answer, yes: bool)
    requires Covered(s) && s.player.pc == Outer(pc)
    ensures Covered(OuterStep(s, pc, a, yes))
  {
  }

  lemma PlayKeepsSafe(s: State, pc: PacketPc, yes: bool)
    requires Safe(s) && s.player.pc == Play(pc)
    ensures Safe(PlayStep(s, pc, yes))
  {
  }

  lemma InnerKeepsSafe(s: State, pc: InnerPc, a: Answer)
    requires Safe(s) && s.player.pc == Inner(pc)
    ensures Safe(InnerStep(s, pc, a))
  {
  }

  lemma ReleaseKeepsSafe(s: State, pc: ReleasePc, r: Resume)
    requires Safe(s) && s.player.pc == Release(pc, r)
    ensures Safe(ReleaseStep(s, pc, r))
  {
  }

  lemma OuterKeepsOrdered(s: State, pc: OuterPc, a: Answer, yes: bool)
    requires Ordered(s) && s.player.pc == Outer(pc)
    ensures Ordered(OuterStep(s, pc, a, yes))
  {
  }

  lemma OuterKeepsDropping(s: State, pc: OuterPc, a: Answer, yes: bool)
    requires Orderly(s) && s.player.pc == Outer(pc)
    ensures Dropping(OuterStep(s, pc, a, yes))
  {
  }

  lemma PlayKeepsOrdered(s: State, pc: PacketPc, yes: bool)
    requires Ordered(s) && s.player.pc == Play(pc)
    ensures Ordered(PlayStep(s, pc, yes))
  {
  }

  lemma PlayKeepsDropping(s: State, pc: PacketPc, yes: bool)
    requires Orderly(s) && s.player.pc == Play(pc)
    ensures Dropping(PlayStep(s, pc, yes))
  {
  }

  lemma InnerKeepsOrderly(s: State, pc: InnerPc, a: Answer)
    requires Orderly(s) && s.player.pc == Inner(pc)
    ensures Orderly(InnerStep(s, pc, a))
  {
  }

  lemma ReleaseKeepsOrderly(s: State, pc: ReleasePc, r: Resume)
    requires Orderly(s) && s.player.pc == Release(pc, r)
    ensures Orderly(ReleaseStep(s, pc, r))
  {
  }

  lemma InterruptKeepsExclusive(s: State, i: nat)
    requires i < |s.interrupts| && Exclusive(s)
    ensures Exclusive(InterruptStep(s, i))
  {
  }

  lemma InterruptKeepsSpeaking(s: State, i: nat)
    requires i < |s.interrupts| && Speaking(s)
    ensures Speaking(InterruptStep(s, i))
  {
  }

  lemma InterruptKeepsCovered(s: State, i: nat)
    requires i < |s.interrupts| && Exclusive(s) && Safe(s)
    ensures Covered(InterruptStep(s, i))
  {
  }

  lemma InterruptKeepsOrdered(s: State, i: nat)
    requires i < |s.interrupts| && Ordered(s)
    ensures Ordered(InterruptStep(s, i))
  {
    var t := InterruptStep(s, i);
    assert t.player == s.player && t.past.packets == s.past.packets && t.past.written == s.past.written;
    hide InterruptStep;
  }

  lemma InterruptKeepsDropping(s: State, i: nat)
    requires i < |s.interrupts| && Orderly(s)
    ensures Dropping(InterruptStep(s, i))
  {
  }

  lemma StopKeepsExclusive(s: State)
    requires Exclusive(s)
    ensures Exclusive(StopStep(s))
  {
  }

  lemma StopKeepsSafe(s: State)
    requires Safe(s)
    ensures Safe(StopStep(s))
  {
  }

  lemma StopKeepsOrderly(s: State)
    requires Orderly(s)
    ensures Orderly(StopStep(s))
  {
  }

  lemma SoundedKeeps(s: State)
    requires Inv(s)
    ensures Inv(Next(s, Sounded))
  {
  }

  lemma PlayerKeeps(s: State, answer: Answer, yes: bool)
    requires Inv(s)
    ensures Inv(PlayerStep(s, answer, yes))
  {
    match s.player.pc {
      case Outer(pc) =>
        OuterKeepsExclusive(s, pc, answer, yes);
        OuterKeepsSpeaking(s, pc, answer, yes);
        OuterKeepsCovered(s, pc, answer, yes);
        OuterKeepsOrdered(s, pc, answer, yes);
        OuterKeepsDropping(s, pc, answer, yes);
      case Play(pc) =>
        PlayKeepsExclusive(s, pc, yes);
        PlayKeepsSafe(s, pc, yes);
        PlayKeepsOrdered(s, pc, yes);
        PlayKeepsDropping(s, pc, yes);
      case Inner(pc) =>
        InnerKeepsExclusive(s, pc, answer);
        InnerKeepsSafe(s, pc, answer);
        InnerKeepsOrderly(s, pc, answer);
      case Release(pc, r) =>
        ReleaseKeepsExclusive(s, pc, r);
        ReleaseKeepsSafe(s, pc, r);
        ReleaseKeepsOrderly(s, pc, r);
    }
    hide OuterStep, PlayStep, InnerStep, ReleaseStep, Exclusive, Speaking, Covered, Ordered, Dropping;
  }

  lemma InterruptKeeps(s: State, i: nat)
    requires i < |s.interrupts| && Inv(s)
    ensures Inv(InterruptStep(s, i))
  {
    hide InterruptStep, Exclusive, Speaking, Covered, Ordered, Dropping;
    InterruptKeepsExclusive(s, i);
    InterruptKeepsSpeaking(s, i);
    InterruptKeepsCovered(s, i);
    InterruptKeepsOrdered(s, i);
    InterruptKeepsDropping(s, i);
  }

  lemma StepKeeps(s: State, e: Event)
    requires Inv(s)
    ensures Inv(Next(s, e))
  {
    hide PlayerStep, InterruptStep, StopStep, Exclusive, Safe, Orderly;
    match e {
      case PlayerMove(answer, yes) => PlayerKeeps(s, answer, yes);
      case Interrupt(i) =>
        if i < |s.interrupts| {
          InterruptKeeps(s, i);
        }
      case Stop =>
        StopKeepsExclusive(s);
        StopKeepsSafe(s);
        StopKeepsOrderly(s);
      case Sounded => SoundedKeeps(s);
    }
  }

  lemma {:induction false} RunKeeps(s: State, es: seq<Event>)
    requires Inv(s)
    ensures Inv(Run(s, es))
    decreases |es|
  {
    hide Inv, Next;
    if es != [] {
      RunKeeps(s, es[..|es| - 1]);
      StepKeeps(Run(s, es[..|es| - 1]), es[|es| - 1]);
    }
  }

  lemma InitInv(n: nat)
    ensures Inv(Init(n))
  {
  }

  /** In every run of every thread the guarded sections exclude each other, only the player's active
      handle has sound waiting, stale packets stay covered by a flush request, and writes are in order. */
  lemma EveryRunKeeps(n: nat, es: seq<Event>)
    ensures var s := Run(Init(n), es); Exclusive(s) && Speaking(s) && Covered(s) && Ordered(s) && Dropping(s)
  {
    InitInv(n);
    RunKeeps(Init(n), es);
    hide Run, Exclusive, Speaking, Covered, Ordered, Dropping;
  }

  // ---------- What an interrupt guarantees ----------

  /** The packets written in the second state and not yet in the first. */
  function Since(s: State, t: State): seq<Write>
    requires |s.past.written| <= |t.past.written|
  {
    t.past.written[|s.past.written|..]
  }

  /** One step only adds to what is written, under the requests standing before the step. */
  lemma StepWrites(s: State, e: Event)
    requires Inv(s)
    ensures s.past.flushed <= Next(s, e).past.flushed
    ensures
      || Next(s, e).past.written == s.past.written
      || (&& s.past.flushed <= s.player.held.stamp
          && Next(s, e).past.written == s.past.written + [Write(s.player.held, s.shared.drop, s.past.mark)])
  {
  }

  /** Whatever was read before an interrupt that has flushed is never written again. */
  lemma {:induction false} WritesAreFresh(s: State, es: seq<Event>)
    requires Inv(s)
    ensures var t := Run(s, es);
            && s.past.flushed <= t.past.flushed
            && s.past.written <= t.past.written
            && forall w :: w in Since(s, t) ==> s.past.flushed <= w.packet.stamp
    decreases |es|
  {
    hide Next, Inv;
    if es != [] {
      var before := es[..|es| - 1];
      WritesAreFresh(s, before);
      RunKeeps(s, before);
      StepWrites(Run(s, before), es[|es| - 1]);
    }
  }

  /** Interruption safety: once the interrupt numbered `k` has flushed under the mutex, no packet
      read before that interrupt began is in the speaker buffer, then or ever after, and none is
      written. */
  lemma InterruptSafety(n: nat, es: seq<Event>, i: nat, k: nat, later: seq<Event>)
    requires i < |Run(Init(n), es).interrupts| && Run(Init(n), es).interrupts[i] == FlushActive(k)
    ensures var s := Next(Run(Init(n), es), Interrupt(i));
            var t := Run(s, later);
            && s.past.written <= t.past.written
            && (forall w :: w in Since(s, t) ==> k <= w.packet.stamp)
            && (forall p :: p in s.shared.speaker || p in t.shared.speaker ==> k <= p.stamp)
  {
    var r := Run(Init(n), es);
    var s := Next(r, Interrupt(i));
    InitInv(n);
    RunKeeps(Init(n), es);
    StepKeeps(r, Interrupt(i));
    RunKeeps(s, later);
    WritesAreFresh(s, later);
    hide Run;
  }

  /** Packets reach the speaker in the order in which they were read, each at most once. */
  lemma WrittenInOrder(n: nat, es: seq<Event>)
    ensures var ws := Run(Init(n), es).past.written;
            forall i, j :: 0 <= i < j < |ws| ==> ws[i].packet.id < ws[j].packet.id
  {
    InitInv(n);
    RunKeeps(Init(n), es);
  }

  /** The drop request stands in `s` and after each of `es`. */
  predicate Standing(s: State, es: seq<Event>) {
    forall i :: 0 <= i <= |es| ==> Run(s, es[..i]).shared.drop
  }

  lemma StepMark(s: State, e: Event)
    requires s.shared.drop
    ensures Next(s, e).past.mark == s.past.mark
  {
  }

  lemma {:induction false} StandingWrites(s: State, es: seq<Event>)
    requires Inv(s) && Standing(s, es)
    ensures var t := Run(s, es);
            && t.past.mark == s.past.mark
            && s.past.written <= t.past.written
            && forall w :: w in Since(s, t) ==> w.dropping && w.mark == s.past.mark
    decreases |es|
  {
    hide Next, Inv;
    assert Run(s, es[..|es|]).shared.drop;
    if es != [] {
      var before := es[..|es| - 1];
      assert forall i :: 0 <= i <= |before| ==> before[..i] == es[..i];
      assert es[..|es| - 1] == before;
      StandingWrites(s, before);
      RunKeeps(s, before);
      StepWrites(Run(s, before), es[|es| - 1]);
      StepMark(Run(s, before), es[|es| - 1]);
    }
  }

  lemma OneLeft(ws: seq<Write>, from: nat, mark: nat)
    requires from <= |ws| && forall i, j :: 0 <= i < j < |ws| ==> ws[i].packet.id < ws[j].packet.id
    requires forall w :: w in ws && w.dropping ==> w.packet.id + 1 == w.mark
    requires forall w :: w in ws[from..] ==> w.dropping && w.mark == mark
    ensures |ws[from..]| <= 1 && forall w :: w in ws[from..] ==> w.packet.id + 1 == mark
  {
    assert forall w :: w in ws[from..] ==> w in ws;
    assert forall i :: from <= i < |ws| ==> ws[i] == ws[from..][i - from];
    assert |ws| > from + 1 ==> ws[from].packet.id < ws[from + 1].packet.id;
  }

  /** While a drop request stands, at most one packet is written, and it is the last one read before
      the request was made. */
  lemma DropWindow(n: nat, es: seq<Event>, i: nat, k: nat, later: seq<Event>)
    requires var r := Run(Init(n), es);
             i < |r.interrupts| && r.interrupts[i] == SetDrop(k) && !r.shared.drop
    requires Standing(Next(Run(Init(n), es), Interrupt(i)), later)
    ensures var s := Next(Run(Init(n), es), Interrupt(i));
            var t := Run(s, later);
            && s.past.written <= t.past.written
            && |Since(s, t)| <= 1
            && forall w :: w in Since(s, t) ==> w.packet.id + 1 == s.past.packets
  {
    var r := Run(Init(n), es);
    var s := Next(r, Interrupt(i));
    var t := Run(s, later);
    InitInv(n);
    RunKeeps(Init(n), es);
    StepKeeps(r, Interrupt(i));
    assert s.past.mark == s.past.packets;
    RunKeeps(s, later);
    StandingWrites(s, later);
    hide Run, Standing, Next;
    OneLeft(t.past.written, |s.past.written|, s.past.packets);
  }

  lemma {:induction false} NothingPasses(s: State, es: seq<Event>)
    requires Standing(s, es) && !PastDropTest(s.player.pc)
    ensures !PastDropTest(Run(s, es).player.pc) && Run(s, es).past.written == s.past.written
    decreases |es|
  {
    if es != [] {
      var before := es[..|es| - 1];
      assert forall i :: 0 <= i <= |before| ==> before[..i] == es[..i];
      assert Run(s, es[..|es| - 1]).shared.drop;
      NothingPasses(s, before);
      StepBlocked(Run(s, before), es[|es| - 1]);
      hide Next;
    }
  }

  lemma OuterBlocked(s: State, pc: OuterPc, a: Answer, yes: bool)
    requires s.shared.drop && s.player.pc == Outer(pc)
    ensures !PastDropTest(OuterStep(s, pc, a, yes).player.pc) && OuterStep(s, pc, a, yes).past.written == s.past.written
  {
  }

  lemma InnerBlocked(s: State, pc: InnerPc, a: Answer)
    requires s.shared.drop
    ensures !PastDropTest(InnerStep(s, pc, a).player.pc) && InnerStep(s, pc, a).past.written == s.past.written
  {
  }

  lemma ReleaseBlocked(s: State, pc: ReleasePc, r: Resume)
    requires s.shared.drop && s.player.pc == Release(pc, r)
    ensures !PastDropTest(ReleaseStep(s, pc, r).player.pc) && ReleaseStep(s, pc, r).past.written == s.past.written
  {
  }

  lemma StepBlocked(s: State, e: Event)
    requires s.shared.drop && !PastDropTest(s.player.pc)
    ensures !PastDropTest(Next(s, e).player.pc) && Next(s, e).past.written == s.past.written
  {
    hide OuterStep, InnerStep, ReleaseStep;
    match e {
      case PlayerMove(a, yes) =>
        match s.player.pc {
          case Outer(pc) => OuterBlocked(s, pc, a, yes);
          case Play(pc) =>
          case Inner(pc) => InnerBlocked(s, pc, a);
          case Release(pc, r) => ReleaseBlocked(s, pc, r);
        }
      case _ =>
    }
  }

  /** If the player has no packet past the drop test when the request is made, nothing at all is written
      while the request stands: only a packet already past that test can slip through. */
  lemma DropBlocks(n: nat, es: seq<Event>, i: nat, k: nat, later: seq<Event>)
    requires var r := Run(Init(n), es);
             i < |r.interrupts| && r.interrupts[i] == SetDrop(k) && !PastDropTest(r.player.pc)
    requires Standing(Next(Run(Init(n), es), Interrupt(i)), later)
    ensures var s := Next(Run(Init(n), es), Interrupt(i)); Run(s, later).past.written == s.past.written
  {
    var r := Run(Init(n), es);
    var s := Next(r, Interrupt(i));
    assert s.player == r.player;
    hide Next, Run;
    NothingPasses(s, later);
  }

  // ---------- The generation counter ----------

  /** With one interrupting thread the counter is the number of completed increments, modulo its width. */
  predicate Counted(s: State) {
    && |s.interrupts| <= 1
    && s.shared.gen == Wrap(s.past.bumps)
    && s.player.loaded == Wrap(s.past.bumpsAtLoad)
    && s.past.bumpsAtLoad <= s.past.bumps
    && (forall i :: 0 <= i < |s.interrupts| && s.interrupts[i].StoreGen? ==> s.interrupts[i].value == s.shared.gen)
  }

  lemma {:induction false} RunCounted(s: State, es: seq<Event>)
    requires Counted(s)
    ensures Counted(Run(s, es))
    decreases |es|
  {
    if es != [] {
      RunCounted(s, es[..|es| - 1]);
      StepCounted(Run(s, es[..|es| - 1]), es[|es| - 1]);
      hide Next, Counted;
    }
  }

  lemma StepCounted(s: State, e: Event)
    requires Counted(s)
    ensures Counted(Next(s, e))
  {
    WrapNext(s.past.bumps);
    hide Wrap;
    match e {
      case PlayerMove(a, yes) => PlayerCounted(s, a, yes);
      case _ =>
    }
    hide PlayerStep;
  }

  lemma PlayerCounted(s: State, a: Answer, yes: bool)
    requires Counted(s)
    ensures Counted(PlayerStep(s, a, yes))
  {
    PlayerLoads(s, a, yes);
    hide PlayerStep, Wrap;
  }

  lemma PlayerLoads(s: State, a: Answer, yes: bool)
    ensures Loads(s, PlayerStep(s, a, yes))
  {
    match s.player.pc {
      case Outer(pc) => OuterLoads(s, pc, a, yes);
      case Play(pc) => PlayLoads(s, pc, yes);
      case Inner(pc) => InnerLoads(s, pc, a);
      case Release(pc, r) => ReleaseLoads(s, pc, r);
    }
    hide OuterStep, PlayStep, InnerStep, ReleaseStep, Loads;
  }

  /** The player leaves the counter alone, and may load it. */
  predicate Loads(s: State, t: State) {
    && t.interrupts == s.interrupts && t.shared.gen == s.shared.gen && t.past.bumps == s.past.bumps
    && (|| (t.player.loaded == s.player.loaded && t.past.bumpsAtLoad == s.past.bumpsAtLoad)
        || (t.player.loaded == s.shared.gen && t.past.bumpsAtLoad == s.past.bumps))
  }

  lemma OuterLoads(s: State, pc: OuterPc, a: Answer, yes: bool)
    ensures Loads(s, OuterStep(s, pc, a, yes))
  {
  }

  lemma PlayLoads(s: State, pc: PacketPc, yes: bool)
    ensures Loads(s, PlayStep(s, pc, yes))
  {
  }

  lemma InnerLoads(s: State, pc: InnerPc, a: Answer)
    ensures Loads(s, InnerStep(s, pc, a))
  {
  }

  lemma ReleaseLoads(s: State, pc: ReleasePc, r: Resume)
    ensures Loads(s, ReleaseStep(s, pc, r))
  {
  }

  lemma WrapNext(n: nat)
    ensures Wrap(Wrap(n) + 1) == Wrap(n + 1)
  {
  }

  lemma WrapEqual(m: nat, n: nat)
    requires m <= n
    ensures Wrap(m) == Wrap(n) <==> (n - m) % GENERATIONS == 0
  {
  }

  /** The increments made since the player loaded the counter are a multiple of its width. */
  predicate SameGeneration(s: State) { (s.past.bumps - s.past.bumpsAtLoad) % GENERATIONS == 0 }

  /** Where the comparison of generations at `s` leads. */
  predicate Compares(s: State, t: State) {
    && (s.player.pc == Outer(GenTest) ==>
          t.player.pc == if SameGeneration(s) then Outer(AnswerTest) else Outer(LoopTest))
    && (s.player.pc == Inner(InnerGenTest) ==>
          t.player.pc == if SameGeneration(s) then Inner(InnerAnswerTest) else Inner(InnerTest))
  }

  lemma CompareGenerations(s: State, a: Answer, yes: bool)
    requires Counted(s)
    ensures s.past.bumpsAtLoad <= s.past.bumps && Compares(s, PlayerStep(s, a, yes))
  {
    WrapEqual(s.past.bumpsAtLoad, s.past.bumps);
    assert SameGeneration(s) <==> s.player.loaded == s.shared.gen;
    hide Wrap, SameGeneration;
  }

  lemma InitCounted(n: nat)
    requires n <= 1
    ensures Counted(Init(n))
  {
  }

  /** What was read goes on past the comparison of generations exactly when the increments made
      between the load and the comparison are a multiple of the counter's width. */
  lemma GenerationTest(n: nat, es: seq<Event>, a: Answer, yes: bool)
    requires n <= 1
    ensures var s := Run(Init(n), es);
            s.past.bumpsAtLoad <= s.past.bumps && Compares(s, PlayerStep(s, a, yes))
  {
    hide PlayerStep, Run, Counted, Init, Compares;
    InitCounted(n);
    RunCounted(Init(n), es);
    CompareGenerations(Run(Init(n), es), a, yes);
  }

  /** When the player thread has ended, nothing is left to sound and nothing is active. */
  lemma QuietAfterExit(n: nat, es: seq<Event>)
    requires Run(Init(n), es).player.pc == Outer(Done)
    ensures var s := Run(Init(n), es); s.shared.speaker == [] && s.shared.active == 0 && s.player.playback == 0
  {
    InitInv(n);
    RunKeeps(Init(n), es);
  }
}
