/** Where the guarantee of an interrupt ends: a run in which a packet read while the interrupt was
    under way is heard after it. */
module TtsBoundary {
  import opened TtsProtocol

  lemma Snoc(s: State, es: seq<Event>, e: Event)
    ensures Run(s, es + [e]) == Next(Run(s, es), e)
  {
    hide Next;
    assert (es + [e])[..|es|] == es;
  }

  /** The interrupt has flushed and is over, and a packet read since it began is in the speaker. */
  predicate SlippedThrough(s: State) {
    && s.interrupts == [Outside] && s.past.begun == 1 && s.past.flushed == 1
    && s.shared.speaker == [Packet(0, 1)]
  }

  ghost predicate Reachable(n: nat, s: State) { exists es :: Run(Init(n), es) == s }

  lemma ReachNext(n: nat, s: State, e: Event)
    requires Reachable(n, s)
    ensures Reachable(n, Next(s, e))
  {
    hide Next;
    var es :| Run(Init(n), es) == s;
    Snoc(Init(n), es, e);
  }

  /** The player's step when a read brings a packet and every test of foreign state succeeds. */
  function Move(s: State): State { PlayerStep(s, Data, true) }

  function FourMoves(s: State): State { Move(Move(Move(Move(s)))) }

  lemma ReachFour(n: nat, s: State)
    requires Reachable(n, s)
    ensures Reachable(n, FourMoves(s))
  {
    hide PlayerStep, Reachable;
    var e := PlayerMove(Data, true);
    ReachNext(n, s, e);
    ReachNext(n, Move(s), e);
    ReachNext(n, Move(Move(s)), e);
    ReachNext(n, Move(Move(Move(s))), e);
  }

  function Interrupted(s: State): State
    requires |s.interrupts| == 1
    ensures |Interrupted(s).interrupts| == 1
  {
    InterruptStep(s, 0)
  }

  lemma ReachInterrupted(n: nat, s: State)
    requires Reachable(n, s) && |s.interrupts| == 1
    ensures Reachable(n, Interrupted(s))
  {
    ReachNext(n, s, Interrupt(0));
  }

  /** The interrupt has made its flush request; the player has cleared it, read a packet, and stands
      before a test of that packet. */
  function BeforeTest(pc: Pc, playback: nat): State {
    State(Shared(true, false, false, 0, Free, playback, []), Player(pc, playback, Data, Packet(0, 1), 0),
          [SetDrop(1)], NotStopping, Past(playback, 1, 1, 0, 0, 0, 0, []))
  }

  lemma ReachFirstTest()
    ensures Reachable(1, BeforeTest(Outer(RunningTest), 0))
  {
    var s := Init(1).(shared := Init(1).shared.(flush := true), past := Init(1).past.(begun := 1),
                      interrupts := [SetDrop(1)]);
    assert Interrupted(Init(1)) == s;
    assert FourMoves(FourMoves(s)) == BeforeTest(Outer(RunningTest), 0);
    hide Move, FourMoves, Interrupted;
    assert Run(Init(1), []) == Init(1);
    ReachInterrupted(1, Init(1));
    ReachFour(1, s);
    ReachFour(1, FourMoves(s));
  }

  lemma ReachDropTest()
    ensures Reachable(1, BeforeTest(Outer(PacketDropTest), 0))
  {
    var s := BeforeTest(Outer(RunningTest), 0);
    assert FourMoves(s) == BeforeTest(Outer(PacketDropTest), 0);
    hide FourMoves, BeforeTest;
    ReachFirstTest();
    ReachFour(1, s);
  }

  lemma ReachOpen()
    ensures Reachable(1, AtUnlock())
  {
    assert FourMoves(BeforeTest(Outer(PacketDropTest), 0)) == AtUnlock();
    hide FourMoves, BeforeTest, AtUnlock;
    ReachDropTest();
    ReachFour(1, BeforeTest(Outer(PacketDropTest), 0));
  }

  function AtUnlock(): State {
    var s := BeforeTest(Play(ActivateUnlock), 1);
    s.(shared := s.shared.(mutex := ByPlayer))
  }

  lemma ReachLastTest()
    ensures Reachable(1, BeforeTest(Play(LateFlushTest), 1))
  {
    assert FourMoves(AtUnlock()) == BeforeTest(Play(LateFlushTest), 1);
    hide FourMoves, BeforeTest, AtUnlock;
    ReachOpen();
    ReachFour(1, AtUnlock());
  }

  /** The same place once the interrupt has returned. */
  function AfterInterrupt(): State {
    var s := BeforeTest(Play(LateFlushTest), 1);
    s.(shared := s.shared.(drop := true, gen := 1), interrupts := [Outside],
       past := s.past.(flushed := 1, bumps := 1, mark := 1))
  }

  lemma ReachReturn()
    ensures Reachable(1, AfterInterrupt())
  {
    var s := BeforeTest(Play(LateFlushTest), 1);
    var t := Interrupted(Interrupted(Interrupted(s)));
    var u := Interrupted(Interrupted(t));
    assert Interrupted(Interrupted(u)) == AfterInterrupt();
    hide Interrupted, BeforeTest, AfterInterrupt;
    ReachLastTest();
    ReachInterrupted(1, s);
    ReachInterrupted(1, Interrupted(s));
    ReachInterrupted(1, Interrupted(Interrupted(s)));
    ReachInterrupted(1, t);
    ReachInterrupted(1, Interrupted(t));
    ReachInterrupted(1, u);
    ReachInterrupted(1, Interrupted(u));
  }

  function BeforeWrite(): State {
    var s := AfterInterrupt();
    s.(shared := s.shared.(mutex := ByPlayer), player := s.player.(pc := Play(LockedRunningTest)))
  }

  lemma ReachWrite()
    ensures Reachable(1, BeforeWrite())
  {
    assert FourMoves(AfterInterrupt()) == BeforeWrite();
    hide FourMoves, AfterInterrupt, BeforeWrite;
    ReachReturn();
    ReachFour(1, AfterInterrupt());
  }

  /** The guarantee does not extend to packets read while an interrupt is under way: one read after
      the flush request and before the drop request can be in the speaker after the interrupt has
      flushed and returned. */
  lemma BoundaryPacketIsHeard()
    ensures exists s :: Reachable(1, s) && SlippedThrough(s)
  {
    assert SlippedThrough(FourMoves(BeforeWrite()));
    hide FourMoves, BeforeWrite, SlippedThrough;
    ReachWrite();
    ReachFour(1, BeforeWrite());
  }
}
