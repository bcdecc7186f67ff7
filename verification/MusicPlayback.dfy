/** What is played: the nodes of a play call, an undisturbed worker from the queue to silence, and what an
    interrupt and a stop put an end to. */
module MusicPlayback {
  import opened MusicQueue
  import opened MusicProtocol
  import Seqs

  // ---------- The nodes of a play call ----------

  /** How many of the URLs are usable. */
  function UsableOnes(reqs: seq<Request>): nat
    decreases |reqs|
  {
    if reqs == [] then 0 else UsableOnes(reqs[..|reqs| - 1]) + if Usable(reqs[|reqs| - 1]) then 1 else 0
  }

  /** A play call makes one node for each usable URL, at the place of that URL among the usable ones, with its
      text and the gain, numbered in order. */
  lemma {:induction false} NodesAre(reqs: seq<Request>, gain: real, batch: nat, id: nat)
    ensures var nodes := Nodes(reqs, gain, batch, id);
            && |nodes| == UsableOnes(reqs)
            && forall i :: 0 <= i < |reqs| && Usable(reqs[i]) ==>
                 var k := UsableOnes(reqs[..i]);
                 k < |nodes| && nodes[k] == Item(id + k, reqs[i].url, gain, batch)
    decreases |reqs|
  {
    if reqs != [] {
      var front := reqs[..|reqs| - 1];
      NodesAre(front, gain, batch, id);
      assert forall i :: 0 <= i <= |front| ==> front[..i] == reqs[..i];
    }
  }

  /** A play call with some URLs replaces the queue by its nodes, with no gain below zero, frees the nodes of
      the old one, and makes a new token; one without URLs does nothing. */
  lemma PlayQueues(s: State, reqs: seq<Request>, gain: real)
    ensures reqs == [] ==> Next(s, Play(reqs, gain)) == s
    ensures reqs != [] ==>
              var t := Next(s, Play(reqs, gain)); var level := if gain > 0.0 then gain else 0.0;
              && t.q.Fifo() == Nodes(reqs, level, t.q.token, s.q.made) && |t.q.head| <= 1
              && t.q.token > s.q.token && t.q.freed == s.q.freed + Ids(s.q.Fifo())
              && t.q.made == s.q.made + |t.q.Fifo()|
              && t.q.playing == s.q.playing && t.q.stop == s.q.stop && !t.q.streaming
  {
    if reqs == [] {
      PlayedNothing(s.q, gain);
    } else {
      PlayedFifo(s.q, reqs, gain);
      PlayedCounts(s.q, reqs, gain);
      PlayedStreams(s.q, reqs, gain);
      hide Played, Nodes, Ids;
    }
  }

  // ---------- The worker, undisturbed ----------

  /** `x` repeated `k` times. */
  function Times<T>(x: T, k: nat): seq<T> { seq(k, _ => x) }

  lemma TimesNext<T>(s: seq<T>, x: T, k: nat)
    requires k > 0
    ensures (s + [x]) + Times(x, k - 1) == s + Times(x, k)
  {
  }

  /** The steps with which the worker makes `k` writes. */
  function Sounds(k: nat): seq<Event>
    decreases k
  {
    if k == 0 then [] else [Move(false), Move(false)] + Sounds(k - 1)
  }

  lemma {:induction false} RunCons(s: State, e: Event, es: seq<Event>)
    ensures Run(s, [e] + es) == Run(Next(s, e), es)
    decreases |es|
  {
    hide Next;
    if es == [] {
      assert [e] + es == [e] && [e][..0] == [];
    } else {
      assert ([e] + es)[..|es|] == [e] + es[..|es| - 1];
      RunCons(s, e, es[..|es| - 1]);
    }
  }

  lemma {:induction false} RunTwice(s: State, a: seq<Event>, b: seq<Event>)
    ensures Run(s, a + b) == Run(Run(s, a), b)
    decreases |b|
  {
    hide Next;
    if b == [] {
      Seqs.Nil(a);
    } else {
      assert (a + b)[..|a + b| - 1] == a + b[..|b| - 1];
      RunTwice(s, a, b[..|b| - 1]);
    }
  }

  /** Between two looks at the token nothing disturbs the worker: each look and write sounds once. */
  lemma {:induction false} SoundsAll(s: State, k: nat)
    requires s.worker.pc == Checking && !s.q.Abort(s.worker.captured)
    ensures Run(s, Sounds(k)) == s.(written := s.written + Times(s.worker.item, k))
    decreases k
  {
    if k == 0 {
      Seqs.Nil(s.written);
    } else {
      var e, rest := Move(false), Sounds(k - 1);
      var t := Next(Next(s, e), e);
      assert t == s.(written := s.written + [s.worker.item]);
      hide Next, Run;
      assert [e, e] + rest == [e] + ([e] + rest);
      RunCons(s, e, [e] + rest);
      RunCons(Next(s, e), e, rest);
      SoundsAll(t, k - 1);
      TimesNext(s.written, s.worker.item, k);
    }
  }

  /** The steps for one item with `k` writes: it is taken and begun, sounds, ends, is freed and reported. */
  function ItemSteps(k: nat): seq<Event> {
    [Move(false), Move(false)] + Sounds(k) + [Move(true), Move(true), Move(true)]
  }

  lemma TwoSteps(s: State, e: Event, f: Event)
    ensures Run(s, [e, f]) == Next(Next(s, e), f)
  {
    hide Next;
    assert [e, f] == [e] + [f] && [f] == [f] + [];
    RunCons(s, e, [f]);
    RunCons(Next(s, e), f, []);
    RunNothing(Next(Next(s, e), f));
  }

  lemma ThreeSteps(s: State, e: Event)
    ensures Run(s, [e, e, e]) == Next(Next(Next(s, e), e), e)
  {
    hide Next;
    assert [e, e, e] == [e] + [e, e];
    RunCons(s, e, [e, e]);
    TwoSteps(Next(s, e), e, e);
  }

  /** Waiting, with the queue it has, the worker plays the first item: it starts it, makes its writes, frees
      its node, and waits again with the rest of the queue. */
  lemma PlaysItem(s: State, k: nat)
    requires s.worker.pc == Waiting && !s.q.stop && s.q.Fifo() != [] && |s.q.head| <= 1
    ensures var t, x := Run(s, ItemSteps(k)), s.q.Fifo()[0];
            && t.worker.pc == Waiting && !t.q.stop && |t.q.head| <= 1 && t.q.token == s.q.token
            && t.q.Fifo() == s.q.Fifo()[1..] && t.q.freed == s.q.freed + [x.id]
            && t.started == s.started + [x] && t.written == s.written + Times(x, k)
            && (t.q.Fifo() == [] ==> !t.q.playing)
  {
    var two, three := [Move(false), Move(false)], [Move(true), Move(true), Move(true)];
    var x := s.q.Fifo()[0];
    TakenFifo(s.q);
    var a := Next(Next(s, Move(false)), Move(false));
    assert a.worker == Worker(Checking, x, s.q.token) && a.q == Taken(s.q) && a.started == s.started + [x];
    assert a.written == s.written;
    SoundsAll(a, k);
    var b := a.(written := a.written + Times(x, k));
    FinishedFifo(b.q.(freed := b.q.freed + [x.id]));
    hide Taken;
    var c := Next(Next(Next(b, Move(true)), Move(true)), Move(true));
    assert c.q == Finished(b.q.(freed := b.q.freed + [x.id])) && c.worker.pc == Waiting;
    assert c.started == b.started && c.written == b.written;
    hide Run, Next, Finished;
    RunTwice(s, two + Sounds(k), three);
    RunTwice(s, two, Sounds(k));
    TwoSteps(s, Move(false), Move(false));
    ThreeSteps(b, Move(true));
  }

  /** The steps for items with as many writes as `ks` says. */
  function AllSteps(ks: seq<nat>): seq<Event>
    decreases |ks|
  {
    if ks == [] then [] else ItemSteps(ks[0]) + AllSteps(ks[1..])
  }

  /** Each item as often as `ks` says. */
  function Sounded(items: seq<Item>, ks: seq<nat>): seq<Item>
    requires |items| == |ks|
    decreases |ks|
  {
    if ks == [] then [] else Times(items[0], ks[0]) + Sounded(items[1..], ks[1..])
  }

  /** Undisturbed, the worker plays all that is queued, in order and each item for as long as it lasts, frees
      every node, and then reports that it plays no more. */
  lemma {:induction false} PlaysAll(s: State, ks: seq<nat>)
    requires s.worker.pc == Waiting && !s.q.stop && |s.q.head| <= 1 && |ks| == |s.q.Fifo()| > 0
    ensures var t, items := Run(s, AllSteps(ks)), s.q.Fifo();
            && t.worker.pc == Waiting && t.q.Fifo() == [] && !t.q.Active()
            && t.started == s.started + items && t.written == s.written + Sounded(items, ks)
            && t.q.freed == s.q.freed + Ids(items)
    decreases |ks|
  {
    var items, m := s.q.Fifo(), ItemSteps(ks[0]);
    var t := Run(s, m);
    PlaysItem(s, ks[0]);
    IdsHead(items);
    RunTwice(s, m, AllSteps(ks[1..]));
    hide Run, ItemSteps, Ids, Times;
    if |ks| == 1 {
      assert ks[1..] == [] && items == [items[0]] && items[1..] == [];
      Seqs.Nil(Times(items[0], ks[0]));
      Seqs.Nil([items[0].id]);
      NoIds();
      RunNothing(t);
      NothingActive(t.q);
    } else {
      PlaysAll(t, ks[1..]);
      Seqs.ConsOfParts(items);
      Seqs.Associative(s.started, [items[0]], items[1..]);
      Seqs.Associative(s.written, Times(items[0], ks[0]), Sounded(items[1..], ks[1..]));
      Seqs.Associative(s.q.freed, [items[0].id], Ids(items[1..]));
    }
  }

  lemma NoIds()
    ensures Ids([]) == []
  {
  }

  lemma NothingActive(q: Queue)
    requires q.Fifo() == [] && !q.playing
    ensures !q.Active()
  {
  }

  // ---------- The end of what is played ----------

  /** An interrupt empties the queue, frees its nodes, clears the playing flag, and makes a new token. */
  lemma InterruptClears(s: State)
    ensures var t := Next(s, Interrupt);
            && t.q.Fifo() == [] && t.q.token > s.q.token && !t.q.Active() && !t.q.streaming
            && t.q.freed == s.q.freed + Ids(s.q.Fifo()) && t.q.stop == s.q.stop && t.q.made == s.q.made
            && t.worker == s.worker && t.started == s.started && t.written == s.written
  {
    hide Ids;
  }

  /** Nothing is queued or reported, and what the worker has left is cancelled. */
  predicate Silenced(s: State) {
    && s.q.Fifo() == [] && !s.q.playing
    && (s.q.stop || (Busy(s.worker.pc) ==> s.worker.captured < s.q.token))
  }

  lemma StepSilenced(s: State, e: Event)
    requires Silenced(s) && !e.Play?
    ensures var t := Next(s, e);
            && Silenced(t) && t.started == s.started
            && |s.written| <= |t.written| && WritePending(t) + |t.written| <= WritePending(s) + |s.written|
  {
  }

  lemma {:induction false} RunSilenced(s: State, es: seq<Event>)
    requires Silenced(s) && forall e :: e in es ==> !e.Play?
    ensures var t := Run(s, es);
            && Silenced(t) && t.started == s.started
            && |s.written| <= |t.written| && WritePending(t) + |t.written| <= WritePending(s) + |s.written|
    decreases |es|
  {
    hide Next, Silenced, WritePending;
    if es != [] {
      assert es[|es| - 1] in es;
      RunSilenced(s, es[..|es| - 1]);
      StepSilenced(Run(s, es[..|es| - 1]), es[|es| - 1]);
    }
  }

  /** After an interrupt, and until the next play call, nothing starts, nothing is queued, the player reports
      itself idle, and at most one more write is made. */
  lemma InterruptSilences(es: seq<Event>, later: seq<Event>)
    requires forall e :: e in later ==> !e.Play?
    ensures var s := Run(Init(), es);
            var t := Run(Next(s, Interrupt), later);
            && t.started == s.started && t.q.Fifo() == [] && !t.q.Active()
            && |s.written| <= |t.written| <= |s.written| + 1
  {
    var s := Run(Init(), es);
    Reachable(es);
    assert Tagged(s);
    InterruptClears(s);
    assert Silenced(Next(s, Interrupt));
    hide Run, Next, Inv;
    RunSilenced(Next(s, Interrupt), later);
    NothingActive(Run(Next(s, Interrupt), later).q);
  }

  /** A stop empties the queue and frees its nodes. */
  lemma StopClears(s: State)
    ensures var t := Next(s, Stop);
            && t.q.stop && t.q.Fifo() == [] && !t.q.streaming && t.q.freed == s.q.freed + Ids(s.q.Fifo())
            && t.started == s.started && t.written == s.written && t.worker == s.worker
  {
    hide Ids;
  }

  /** After a stop no item starts, at most one write is made, whatever is called, and within six steps the
      worker has ended. */
  lemma StopEnds(es: seq<Event>, later: seq<Event>)
    ensures var s := Run(Init(), es);
            var t := Run(Next(s, Stop), later);
            && t.started == s.started && |s.written| <= |t.written| <= |s.written| + 1
            && ((forall e :: e in later ==> e.Move?) && |later| >= 6 ==> t.worker.pc == Gone)
  {
    var s := Run(Init(), es);
    var r := Next(s, Stop);
    hide *;
    Reachable(es);
    StepKeeps(s, Stop);
    StopClears(s);
    StopIsFinal(r, later);
    if (forall e :: e in later ==> e.Move?) && |later| >= 6 {
      GoneSoon(r, later);
    }
  }

  lemma GoneSoon(s: State, es: seq<Event>)
    requires s.q.stop && (forall e :: e in es ==> e.Move?) && |es| >= 6
    ensures Run(s, es).worker.pc == Gone
  {
    hide Run;
    EndsSoon(s, es);
  }

  /** How many steps of the worker it takes to end after a stop. */
  function ToGone(pc: Pc): nat {
    match pc
    case Gone => 0
    case Waiting => 1
    case Finishing => 2
    case Freeing => 3
    case Checking => 4
    case Starting => 5
    case Writing => 5
  }

  lemma {:induction false} EndsSoon(s: State, es: seq<Event>)
    requires s.q.stop && forall e :: e in es ==> e.Move?
    ensures var t := Run(s, es); t.q.stop && ToGone(t.worker.pc) <= if |es| <= 6 then 6 - |es| else 0
    decreases |es|
  {
    if es != [] {
      assert es[|es| - 1] in es;
      EndsSoon(s, es[..|es| - 1]);
      NearerGone(Run(s, es[..|es| - 1]), es[|es| - 1].over);
      hide WorkerStep;
    }
  }

  lemma NearerGone(s: State, over: bool)
    requires s.q.stop
    ensures var t := WorkerStep(s, over);
            && t.q.stop && ToGone(t.worker.pc) <= (if s.worker.pc.Gone? then 0 else ToGone(s.worker.pc) - 1)
            && (ToGone(t.worker.pc) == 0 ==> t.worker.pc == Gone)
  {
  }

  // ---------- The flag of the stream ----------

  /** The flag that lets an HTTP stream go on is set exactly while the worker has an item of the current play
      call with such a URL, and nothing stopped the player. */
  predicate Streams(s: State) {
    s.q.streaming
    <==> Busy(s.worker.pc) && s.worker.captured == s.q.token && !s.q.stop && IsUrl(s.worker.item.url)
  }

  lemma StepStreams(s: State, e: Event)
    requires Tagged(s) && Streams(s)
    ensures Streams(Next(s, e))
  {
    hide IsUrl, WorkerStep, Played, Streams, Tagged;
    match e {
      case Play(reqs, gain) => PlayStreams(s, reqs, gain);
      case Interrupt => CutStreams(s, e);
      case Stop => CutStreams(s, e);
      case Move(over) => MoveStreams(s, over);
    }
  }

  lemma PlayStreams(s: State, reqs: seq<Request>, gain: real)
    requires Tagged(s) && Streams(s)
    ensures Streams(Next(s, Play(reqs, gain)))
  {
    hide IsUrl;
    if reqs == [] {
      PlayedNothing(s.q, gain);
    } else {
      PlayedCounts(s.q, reqs, gain);
      PlayedStreams(s.q, reqs, gain);
    }
    hide Played;
  }

  lemma CutStreams(s: State, e: Event)
    requires Tagged(s) && Streams(s) && (e.Interrupt? || e.Stop?)
    ensures Streams(Next(s, e))
  {
    hide IsUrl;
  }

  lemma MoveStreams(s: State, over: bool)
    requires Tagged(s) && Streams(s)
    ensures Streams(WorkerStep(s, over))
  {
    hide IsUrl;
  }

  lemma PlayedStreams(q: Queue, reqs: seq<Request>, gain: real)
    requires reqs != []
    ensures !Played(q, reqs, gain).streaming
  {
  }

  lemma {:induction false} StreamsIff(es: seq<Event>)
    ensures Streams(Run(Init(), es))
    decreases |es|
  {
    hide Next, Streams, Tagged, Inv;
    if es == [] {
      assert Streams(Init()) by { InitStreams(); }
    } else {
      StreamsIff(es[..|es| - 1]);
      Reachable(es[..|es| - 1]);
      TaggedOfInv(Run(Init(), es[..|es| - 1]));
      StepStreams(Run(Init(), es[..|es| - 1]), es[|es| - 1]);
    }
  }

  lemma InitStreams()
    ensures Streams(Init())
  {
  }
}
