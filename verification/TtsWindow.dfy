/** Exactly when a packet slips past the drop request of an interrupt, and when it is heard after the
    interrupt has returned. */
module TtsWindow {
  import opened TtsProtocol

  // ---------- The states that let a packet through ----------

  /** The player has a packet past the drop test and will write it unless some flag changes. */
  predicate CanWrite(s: State) {
    && PastDropTest(s.player.pc)
    && (s.player.pc.play.WritePcm? || (s.shared.running && (s.player.pc.play.LockedRunningTest? || !s.shared.flush)))
  }

  /** The player has a packet past the drop test, and has not yet taken the mutex to write it. */
  predicate BeforeMutex(pc: Pc) {
    PastDropTest(pc) && !pc.play.LockedFlushTest? && !pc.play.LockedRunningTest? && !pc.play.WritePcm?
  }

  /** Such a packet, which no flag stops. */
  predicate CanWait(s: State) { BeforeMutex(s.player.pc) && s.shared.running && !s.shared.flush }

  /** Nothing was written between the states, and what can still be written could be before. */
  predicate Waited(s: State, t: State) {
    && t.past.written == s.past.written && t.past.mark == s.past.mark
    && (CanWrite(t) ==> CanWrite(s) && t.player.held == s.player.held)
  }

  /** The packet that could be written was, under the standing request, and no other can be. */
  predicate Wrote(s: State, t: State) {
    && CanWrite(s) && !CanWrite(t)
    && t.past.written == s.past.written + [Write(s.player.held, true, s.past.mark)] && t.past.mark == s.past.mark
  }

  predicate Backward(s: State, t: State) { (CanWait(t) ==> CanWait(s)) && (Waited(s, t) || Wrote(s, t)) }

  lemma PlayBack(s: State, pc: PacketPc, yes: bool)
    requires s.player.pc == Play(pc) && s.shared.drop
    ensures Backward(s, PlayStep(s, pc, yes))
  {
  }

  /** While the drop request stands, a step lets a packet through only where it could be before. */
  lemma StepBack(s: State, e: Event)
    requires s.shared.drop
    ensures Backward(s, Next(s, e))
  {
    StepMark(s, e);
    hide OuterStep, PlayStep, InnerStep, ReleaseStep, Backward, CanWrite, CanWait;
    match e {
      case PlayerMove(a, yes) =>
        match s.player.pc {
          case Outer(pc) => OuterBlocked(s, pc, a, yes);
          case Play(pc) => PlayBack(s, pc, yes);
          case Inner(pc) => InnerBlocked(s, pc, a);
          case Release(pc, r) => ReleaseBlocked(s, pc, r);
        }
        NotPast(s, Next(s, e));
      case _ => OthersBack(s, e);
    }
  }

  lemma NotPast(s: State, t: State)
    requires t.past.mark == s.past.mark
    ensures !PastDropTest(t.player.pc) && t.past.written == s.past.written ==> Backward(s, t)
  {
  }

  lemma OthersBack(s: State, e: Event)
    requires !e.PlayerMove? && s.shared.drop
    ensures Backward(s, Next(s, e))
  {
  }

  lemma BackwardTwice(s: State, t: State, u: State)
    requires Backward(s, t) && Backward(t, u)
    ensures Backward(s, u)
  {
  }

  lemma StandingPrefix(s: State, es: seq<Event>)
    requires es != [] && Standing(s, es)
    ensures Standing(s, es[..|es| - 1]) && Run(s, es[..|es| - 1]).shared.drop
  {
    var before := es[..|es| - 1];
    assert forall i :: 0 <= i <= |before| ==> before[..i] == es[..i];
  }

  lemma {:induction false} RunBack(s: State, es: seq<Event>)
    requires Standing(s, es)
    ensures Backward(s, Run(s, es))
    decreases |es|
  {
    if es != [] {
      hide Next, Standing, Backward;
      StandingPrefix(s, es);
      var t := Run(s, es[..|es| - 1]);
      RunBack(s, es[..|es| - 1]);
      StepBack(t, es[|es| - 1]);
      BackwardTwice(s, t, Next(t, es[|es| - 1]));
    }
  }

  // ---------- The active handle ----------

  /** The active handle is the player's, except while it is being announced. */
  predicate Handled(s: State) {
    s.player.pc == Play(ActivateLock) || s.player.pc == Play(Activate) || s.shared.active == s.player.playback
  }

  lemma OuterHandled(s: State, pc: OuterPc, a: Answer, yes: bool)
    requires Handled(s) && s.player.pc == Outer(pc)
    ensures Handled(OuterStep(s, pc, a, yes))
  {
  }

  lemma InnerHandled(s: State, pc: InnerPc, a: Answer)
    requires Handled(s) && s.player.pc == Inner(pc)
    ensures Handled(InnerStep(s, pc, a))
  {
  }

  lemma StepHandled(s: State, e: Event)
    requires Handled(s)
    ensures Handled(Next(s, e))
  {
    hide OuterStep, InnerStep;
    match e {
      case PlayerMove(a, yes) =>
        match s.player.pc {
          case Outer(pc) => OuterHandled(s, pc, a, yes);
          case Inner(pc) => InnerHandled(s, pc, a);
          case _ =>
        }
      case _ =>
    }
  }

  lemma {:induction false} RunHandled(s: State, es: seq<Event>)
    requires Handled(s)
    ensures Handled(Run(s, es))
    decreases |es|
  {
    hide Next, Handled;
    if es != [] {
      RunHandled(s, es[..|es| - 1]);
      StepHandled(Run(s, es[..|es| - 1]), es[|es| - 1]);
    }
  }

  /** What holds in every state that can be reached. */
  predicate Sound(s: State) { Inv(s) && Handled(s) }

  lemma RunSound(n: nat, es: seq<Event>)
    ensures Sound(Run(Init(n), es))
  {
    InitInv(n);
    RunKeeps(Init(n), es);
    assert Handled(Init(n));
    hide Inv, Handled, Run;
    RunHandled(Init(n), es);
  }

  lemma StepSound(s: State, e: Event)
    requires Sound(s)
    ensures Sound(Next(s, e))
  {
    hide Inv, Handled, Next;
    StepKeeps(s, e);
    StepHandled(s, e);
  }

  // ---------- Runs that begin with a given step ----------

  lemma {:induction false} RunCons(s: State, e: Event, es: seq<Event>)
    ensures Run(s, [e] + es) == Run(Next(s, e), es)
    decreases |es|
  {
    hide Next;
    if es == [] {
      assert [e] + es == [e] && [e][..0] == [];
    } else {
      assert ([e] + es)[..|es|] == [e] + es[..|es| - 1];
      RunCons(s, e, es[..|es| - 1]);
    }
  }

  lemma StandingCons(s: State, e: Event, es: seq<Event>)
    requires s.shared.drop && Standing(Next(s, e), es)
    ensures Standing(s, [e] + es)
  {
    hide Next, Run;
    forall i | 0 <= i <= |[e] + es| ensures Run(s, ([e] + es)[..i]).shared.drop {
      if i > 0 {
        assert ([e] + es)[..i] == [e] + es[..i - 1];
        RunCons(s, e, es[..i - 1]);
      } else {
        NoEvents(s);
      }
    }
  }

  lemma NoEvents(s: State)
    ensures Run(s, []) == s
    ensures s.shared.drop ==> Standing(s, [])
  {
  }

  // ---------- A packet that can be written ----------

  /** The steps left in the guarded section of another thread. */
  function OthersLeft(s: State): nat {
    match s.shared.mutex
    case ByInterrupt(j) => if j < |s.interrupts| && s.interrupts[j].FlushActive? then 2 else 1
    case _ => 0
  }

  /** The steps left until the packet is written. */
  function StepsLeft(pc: Pc): nat {
    match pc
    case Play(p) =>
      (match p
       case Open => 13
       case ActivateLock => 12
       case Activate => 11
       case ActivateUnlock => 10
       case EarlyFlushTest => 9
       case EarlyRunningTest => 8
       case Decode => 7
       case LateFlushTest => 6
       case LateRunningTest => 5
       case WriteLock => 4
       case LockedFlushTest => 3
       case LockedRunningTest => 2
       case WritePcm => 1
       case WriteUnlock => 0)
    case _ => 0
  }

  /** The thread that owns the mutex moves, and the player when no other thread does. */
  function Onward(s: State): Event {
    if s.shared.mutex.ByInterrupt? then Interrupt(s.shared.mutex.thread) else PlayerMove(Data, true)
  }

  lemma OwnerMoves(s: State)
    requires Exclusive(s) && CanWrite(s) && s.shared.drop && s.shared.mutex.ByInterrupt?
    ensures var t := Next(s, Onward(s));
            && CanWrite(t) && t.shared.drop && OthersLeft(t) < OthersLeft(s) && t.past.written == s.past.written
  {
  }

  lemma PlayerMoves(s: State)
    requires Handled(s) && CanWrite(s) && s.shared.drop && !s.shared.mutex.ByInterrupt?
    requires Exclusive(s) && !s.player.pc.play.WritePcm?
    ensures var t := Next(s, Onward(s));
            && CanWrite(t) && t.shared.drop && OthersLeft(t) == OthersLeft(s)
            && StepsLeft(t.player.pc) < StepsLeft(s.player.pc) && t.past.written == s.past.written
  {
  }

  lemma WriteMoves(s: State)
    requires s.shared.drop && s.player.pc == Play(WritePcm)
    ensures var t := Next(s, PlayerMove(Data, true)); t.shared.drop && t.past.written != s.past.written
  {
  }

  /** A run in which the packet is written. */
  lemma {:induction false} Writes(s: State) returns (es: seq<Event>)
    requires Sound(s) && CanWrite(s) && s.shared.drop
    ensures Standing(s, es) && Run(s, es).past.written != s.past.written
    decreases OthersLeft(s), StepsLeft(s.player.pc)
  {
    var e := Onward(s);
    assert Exclusive(s) && Handled(s);
    hide Next, Run, Standing, Inv, Exclusive, Handled, CanWrite, OthersLeft, StepsLeft;
    var t := Next(s, e);
    if s.shared.mutex.ByInterrupt? {
      OwnerMoves(s);
    } else if s.player.pc == Play(WritePcm) {
      WriteMoves(s);
      NoEvents(t);
      StandingCons(s, e, []);
      RunCons(s, e, []);
      return [e] + [];
    } else {
      hide Onward;
      PlayerMoves(s);
    }
    StepSound(s, e);
    hide Sound;
    var later := Writes(t);
    es := [e] + later;
    StandingCons(s, e, later);
    RunCons(s, e, later);
  }

  /** From the moment of the drop request on, something can be written while the request stands exactly
      when the player has a packet past the drop test and no flag stops it; it is that packet, once. */
  lemma SlipsIff(n: nat, es: seq<Event>, i: nat, k: nat)
    requires var r := Run(Init(n), es); i < |r.interrupts| && r.interrupts[i] == SetDrop(k)
    ensures var r := Run(Init(n), es);
            var s := Next(r, Interrupt(i));
            && ((exists later :: Standing(s, later) && Run(s, later).past.written != s.past.written) <==> CanWrite(r))
            && forall later :: Standing(s, later) ==>
                 || Run(s, later).past.written == s.past.written
                 || Run(s, later).past.written == s.past.written + [Write(r.player.held, true, s.past.mark)]
  {
    var r := Run(Init(n), es);
    var s := Next(r, Interrupt(i));
    assert s.shared.drop && s.player == r.player && (CanWrite(s) <==> CanWrite(r));
    RunSound(n, es);
    StepSound(r, Interrupt(i));
    hide Next, Run, Standing, Sound, CanWrite;
    forall later | Standing(s, later) ensures Waited(s, Run(s, later)) || Wrote(s, Run(s, later)) {
      RunBack(s, later);
    }
    if CanWrite(s) {
      var later := Writes(s);
    }
  }

  // ---------- A packet that is written after the interrupt ----------

  /** The interrupt numbered `k` of thread `i` has made its drop request and is not over. */
  predicate UnderWay(s: State, i: nat, k: nat) {
    i < |s.interrupts| && s.interrupts[i] != Outside && !s.interrupts[i].SetDrop? && s.interrupts[i].k == k
  }

  /** The steps left until that interrupt returns. */
  function InterruptLeft(pc: InterruptPc): nat {
    match pc
    case FetchGen(_) => 5
    case StoreGen(_, _) => 4
    case Lock(_) => 3
    case FlushActive(_) => 2
    case Unlock(_) => 1
    case _ => 0
  }

  /** The steps left in the guarded section of whoever has the mutex. */
  function OwnerLeft(s: State): nat {
    match s.shared.mutex
    case Free => 0
    case ByPlayer => if s.player.pc == Play(Activate) then 2 else 1
    case ByInterrupt(_) => OthersLeft(s)
  }

  /** The interrupt moves, or whoever has the mutex that it waits for. */
  function Towards(s: State, i: nat): Event
    requires i < |s.interrupts|
  {
    if !s.interrupts[i].Lock? then Interrupt(i)
    else match s.shared.mutex
         case Free => Interrupt(i)
         case ByPlayer => PlayerMove(Data, true)
         case ByInterrupt(j) => Interrupt(j)
  }

  lemma InterruptMoves(s: State, i: nat, k: nat)
    requires UnderWay(s, i, k) && !s.interrupts[i].Transport? && CanWait(s) && s.shared.drop
    requires s.interrupts[i].Lock? ==> s.shared.mutex == Free
    ensures var t := Next(s, Interrupt(i));
            && UnderWay(t, i, k) && CanWait(t) && t.shared.drop
            && InterruptLeft(t.interrupts[i]) < InterruptLeft(s.interrupts[i])
  {
  }

  lemma OwnerGivesUp(s: State, i: nat, k: nat)
    requires Exclusive(s) && UnderWay(s, i, k) && CanWait(s) && s.shared.drop
    requires s.interrupts[i].Lock? && s.shared.mutex != Free
    ensures var t := Next(s, Towards(s, i));
            && UnderWay(t, i, k) && CanWait(t) && t.shared.drop
            && t.interrupts[i] == s.interrupts[i] && OwnerLeft(t) < OwnerLeft(s)
  {
  }

  /** A run in which the interrupt comes to its end before the player takes the mutex to write. */
  lemma {:induction false} Returns(s: State, i: nat, k: nat) returns (es: seq<Event>)
    requires Sound(s) && UnderWay(s, i, k) && CanWait(s) && s.shared.drop
    ensures var t := Run(s, es);
            && Standing(s, es) && Sound(t) && CanWait(t) && t.shared.drop
            && i < |t.interrupts| && t.interrupts[i] == Transport(k)
    decreases InterruptLeft(s.interrupts[i]), OwnerLeft(s)
  {
    if s.interrupts[i] == Transport(k) {
      es := [];
      return;
    }
    var e := Towards(s, i);
    assert Exclusive(s);
    hide Next, Run, Standing, Inv, Exclusive, Handled, CanWait, OwnerLeft, InterruptLeft;
    if s.interrupts[i].Lock? && s.shared.mutex != Free {
      OwnerGivesUp(s, i, k);
    } else {
      InterruptMoves(s, i, k);
    }
    StepSound(s, e);
    hide Sound, UnderWay;
    var later := Returns(Next(s, e), i, k);
    es := [e] + later;
    StandingCons(s, e, later);
    RunCons(s, e, later);
  }

  /** `mid` brings the interrupt numbered `k` of thread `i` to its end, and something is written in `post`
      after it has returned, with the drop request standing all the while. */
  ghost predicate HeardAfter(s: State, i: nat, k: nat, mid: seq<Event>, post: seq<Event>) {
    var m := Run(s, mid);
    var returned := Next(m, Interrupt(i));
    && Standing(s, mid) && i < |m.interrupts| && m.interrupts[i] == Transport(k)
    && Standing(returned, post) && Run(returned, post).past.written != returned.past.written
  }

  lemma TransportFrom(s: State, e: Event, i: nat, k: nat)
    requires i < |Next(s, e).interrupts| && Next(s, e).interrupts[i] == Transport(k)
    ensures i < |s.interrupts| && (s.interrupts[i] == Transport(k) || s.interrupts[i] == Unlock(k))
  {
    if e.PlayerMove? {
      PlayerLoads(s, e.answer, e.yes);
      hide PlayerStep;
    }
  }

  /** A packet that can still be written when the interrupt has given the mutex back could wait for it. */
  lemma {:induction false} PassedMutex(s: State, es: seq<Event>, i: nat, k: nat)
    requires Inv(s) && Standing(s, es) && i < |s.interrupts| && s.interrupts[i] != Transport(k)
    requires var t := Run(s, es); i < |t.interrupts| && t.interrupts[i] == Transport(k) && CanWrite(t)
    ensures CanWait(s)
    decreases |es|
  {
    if es != [] {
      var before := es[..|es| - 1];
      var t := Run(s, before);
      StandingPrefix(s, es);
      RunKeeps(s, before);
      assert Exclusive(t);
      hide Next, Standing, Inv, Exclusive, CanWrite, CanWait;
      TransportFrom(t, es[|es| - 1], i, k);
      StepBack(t, es[|es| - 1]);
      if t.interrupts[i] == Transport(k) {
        PassedMutex(s, before, i, k);
      } else {
        MutexElsewhere(t, i, k);
        RunBack(s, before);
      }
    }
  }

  lemma MutexElsewhere(s: State, i: nat, k: nat)
    requires Exclusive(s) && i < |s.interrupts| && s.interrupts[i] == Unlock(k) && CanWrite(s)
    ensures CanWait(s)
  {
    assert s.shared.mutex == ByInterrupt(i);
  }

  lemma ReturnMoves(s: State, i: nat, k: nat)
    requires i < |s.interrupts| && s.interrupts[i] == Transport(k)
    ensures var t := Next(s, Interrupt(i));
            t.shared == s.shared && t.player == s.player && (CanWrite(t) <==> CanWrite(s))
  {
  }

  lemma WaitIsWrite(s: State)
    requires CanWait(s)
    ensures CanWrite(s)
  {
  }

  /** When an interrupt makes its drop request, some run writes a packet after the interrupt has returned
      and under that request exactly when the player has a packet past the drop test, has not taken the
      mutex to write it, and neither a stop nor a flush request stands. That packet was read after the
      interrupt began. */
  lemma HeardIff(n: nat, es: seq<Event>, i: nat, k: nat)
    requires var r := Run(Init(n), es); i < |r.interrupts| && r.interrupts[i] == SetDrop(k)
    ensures var r := Run(Init(n), es);
            && ((exists mid, post :: HeardAfter(Next(r, Interrupt(i)), i, k, mid, post)) <==> CanWait(r))
            && (CanWait(r) ==> k <= r.player.held.stamp)
  {
    var r := Run(Init(n), es);
    var s := Next(r, Interrupt(i));
    assert s.shared.drop && UnderWay(s, i, k) && (CanWait(s) <==> CanWait(r));
    RunSound(n, es);
    StepSound(r, Interrupt(i));
    assert Inv(s) && s.interrupts[i] != Transport(k);
    assert Covered(r) && (CanWait(r) ==> k <= r.player.held.stamp);
    hide Next, Run, Standing, Sound, CanWrite, CanWait, UnderWay, Inv;
    if mid, post :| HeardAfter(s, i, k, mid, post) {
      var m := Run(s, mid);
      RunBack(Next(m, Interrupt(i)), post);
      ReturnMoves(m, i, k);
      PassedMutex(s, mid, i, k);
    }
    if CanWait(s) {
      var mid := Returns(s, i, k);
      var m := Run(s, mid);
      WaitIsWrite(m);
      ReturnMoves(m, i, k);
      StepSound(m, Interrupt(i));
      var post := Writes(Next(m, Interrupt(i)));
      assert HeardAfter(s, i, k, mid, post);
    }
  }

  // ---------- A request that is lost ----------

  /** The player has found the transport empty and goes on to clear a drop request. */
  predicate Clearing(pc: Pc) { pc == Outer(PollDropTest) || pc == Outer(ClearDrop) }

  /** The step finds the transport empty, or is the one with which a stop clears the request. */
  predicate Ends(s: State, e: Event) {
    || (s.player.pc == Outer(AnswerTest) && s.player.answer == Nothing && e.PlayerMove? && e.yes)
    || (e == Stop && s.stop == StopDrop)
  }

  predicate NeverEnds(s: State, es: seq<Event>) {
    forall i :: 0 <= i < |es| ==> !Ends(Run(s, es[..i]), es[i])
  }

  lemma OuterRequest(s: State, pc: OuterPc, a: Answer, yes: bool)
    requires s.player.pc == Outer(pc) && s.shared.drop && !Clearing(s.player.pc)
    ensures OuterStep(s, pc, a, yes).shared.drop
    ensures Clearing(OuterStep(s, pc, a, yes).player.pc) ==> pc == AnswerTest && s.player.answer == Nothing && yes
  {
  }

  lemma RequestStays(s: State, e: Event)
    requires s.shared.drop && !Clearing(s.player.pc) && !Ends(s, e)
    ensures Next(s, e).shared.drop && !Clearing(Next(s, e).player.pc)
  {
    hide OuterStep;
    if e.PlayerMove? && s.player.pc.Outer? {
      OuterRequest(s, s.player.pc.outer, e.answer, e.yes);
    }
  }

  lemma {:induction false} RequestStanding(s: State, es: seq<Event>)
    requires s.shared.drop && !Clearing(s.player.pc) && NeverEnds(s, es)
    ensures Run(s, es).shared.drop && !Clearing(Run(s, es).player.pc)
    decreases |es|
  {
    if es != [] {
      hide Next, Ends, Clearing;
      var before := es[..|es| - 1];
      assert forall i :: 0 <= i < |before| ==> before[..i] == es[..i];
      RequestStanding(s, before);
      RequestStays(Run(s, before), es[|es| - 1]);
    }
  }

  lemma Clears(s: State) returns (es: seq<Event>)
    requires s.shared.drop && Clearing(s.player.pc)
    ensures NeverEnds(s, es) && !Run(s, es).shared.drop
  {
    var e := PlayerMove(Nothing, true);
    if s.player.pc == Outer(ClearDrop) {
      es := [e];
      assert es[..0] == [];
    } else {
      es := [e, e];
      assert es[..0] == [] && es[..1] == [e] && [e][..0] == [];
    }
  }

  /** A drop request can be cleared without the transport having been found empty since it was made, or a
      stop, exactly when the player had just found it empty and had not yet tested or cleared a request. */
  lemma LostIff(n: nat, es: seq<Event>, i: nat, k: nat)
    requires var r := Run(Init(n), es); i < |r.interrupts| && r.interrupts[i] == SetDrop(k)
    ensures var r := Run(Init(n), es);
            var s := Next(r, Interrupt(i));
            (exists later :: NeverEnds(s, later) && !Run(s, later).shared.drop) <==> Clearing(r.player.pc)
  {
    var r := Run(Init(n), es);
    var s := Next(r, Interrupt(i));
    assert s.shared.drop && s.player == r.player;
    hide Next, Run, NeverEnds, Clearing;
    if Clearing(s.player.pc) {
      var later := Clears(s);
    } else {
      forall later | NeverEnds(s, later) ensures Run(s, later).shared.drop {
        RequestStanding(s, later);
      }
    }
  }
}
