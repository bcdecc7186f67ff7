/** The music player as a whole: play calls, interrupts and stops from any thread, interleaved with
    the steps of the worker thread. */
module MusicProtocol {
  import opened MusicQueue
  import Seqs

  /** Where the worker stands: waiting for an item, before the first look at the token, between two
      writes to the sound device, about to write, about to free the item, or about to report its end. */
  datatype Pc = Waiting | Starting | Checking | Writing | Freeing | Finishing | Gone

  datatype Worker = Worker(pc: Pc, item: Item, captured: nat)

  /** With the items started and the items written for, in order. */
  datatype State = State(q: Queue, worker: Worker, started: seq<Item>, written: seq<Item>)

  /** A call from some thread, or a step of the worker; `over` tells whether the item has no more
      sound to give or could not be opened, and after a look at the token that no write follows. */
  datatype Event = Play(reqs: seq<Request>, gain: real) | Interrupt | Stop | Move(over: bool)

  function Init(): State {
    State(Queue([], [], 0, false, false, false, 0, []), Worker(Waiting, Item(0, "", 0.0, 0), 0), [], [])
  }

  function Goto(s: State, pc: Pc): State {
    s.(worker := s.worker.(pc := pc))
  }

  function Start(s: State): State
    requires s.q.Fifo() != []
  {
    var item := s.q.Fifo()[0];
    s.(q := Taken(s.q), worker := Worker(Starting, item, s.q.token), started := s.started + [item])
  }

  function WorkerStep(s: State, over: bool): State {
    match s.worker.pc
    case Waiting => if s.q.stop then Goto(s, Gone) else if s.q.Fifo() == [] then s else Start(s)
    case Starting => Goto(s, if s.q.Abort(s.worker.captured) then Freeing else Checking)
    case Checking => Goto(s, if over || s.q.Abort(s.worker.captured) then Freeing else Writing)
    case Writing => if over then Goto(s, Checking) else Goto(s, Checking).(written := s.written + [s.worker.item])
    case Freeing => Goto(s, Finishing).(q := s.q.(freed := s.q.freed + [s.worker.item.id]))
    case Finishing => Goto(s, Waiting).(q := Finished(s.q))
    case Gone => s
  }

  function Next(s: State, e: Event): State {
    match e
    case Play(reqs, gain) => s.(q := Played(s.q, reqs, gain))
    case Interrupt => s.(q := Interrupted(s.q))
    case Stop => s.(q := Stopped(s.q))
    case Move(over) => WorkerStep(s, over)
  }

  function Run(s: State, es: seq<Event>): State
    decreases |es|
  {
    if es == [] then s else Next(Run(s, es[..|es| - 1]), es[|es| - 1])
  }

  predicate Holding(pc: Pc) { pc.Starting? || pc.Checking? || pc.Writing? || pc.Freeing? }

  predicate Busy(pc: Pc) { Holding(pc) || pc.Finishing? }

  // ---------- Tokens ----------

  /** Everything queued belongs to the play call that made the current token, and the item that the
      worker holds to the one that made its captured token. */
  predicate Tagged(s: State) {
    && |s.q.head| <= 1
    && (forall x :: x in s.q.Fifo() ==> x.batch == s.q.token)
    && (Busy(s.worker.pc) ==> s.worker.item.batch == s.worker.captured <= s.q.token)
  }

  /** The player reports itself active while it works on an item of the current play call. */
  predicate Reported(s: State) {
    Busy(s.worker.pc) && s.worker.captured == s.q.token ==> s.q.playing
  }

  lemma {:induction false} NodesBatch(reqs: seq<Request>, gain: real, batch: nat, id: nat)
    ensures forall x :: x in Nodes(reqs, gain, batch, id) ==> x.batch == batch
    decreases |reqs|
  {
    if reqs != [] {
      NodesBatch(reqs[..|reqs| - 1], gain, batch, id);
    }
  }

  lemma PlayedFifo(q: Queue, reqs: seq<Request>, gain: real)
    requires reqs != []
    ensures Played(q, reqs, gain).Fifo() == Nodes(reqs, Positive(gain), q.token + 1, q.made)
    ensures |Played(q, reqs, gain).head| <= 1
  {
    var nodes := Nodes(reqs, Positive(gain), q.token + 1, q.made);
    if Usable(reqs[0]) {
      FirstIsMade(reqs, Positive(gain), q.token + 1, q.made);
      assert nodes[..1] + nodes[1..] == nodes;
    }
  }

  /** Head and pending list act as one queue: the worker takes its first item. */
  lemma TakenFifo(q: Queue)
    requires q.Fifo() != []
    ensures Taken(q).Fifo() == q.Fifo()[1..]
    ensures |q.head| <= 1 ==> |Taken(q).head| <= 1
    ensures var r := Taken(q);
            r.playing && r.token == q.token && r.stop == q.stop && r.made == q.made && r.freed == q.freed
  {
  }

  lemma FinishedFifo(q: Queue)
    ensures Finished(q).Fifo() == q.Fifo()
    ensures |q.head| <= 1 ==> |Finished(q).head| <= 1
    ensures Finished(q).head == [] ==> Finished(q).Fifo() == []
    ensures var r := Finished(q);
            && r.token == q.token && r.stop == q.stop && r.made == q.made && r.freed == q.freed
            && r.playing == (q.playing && q.head != [])
  {
  }

  lemma CallTagged(s: State, e: Event)
    requires Tagged(s) && Reported(s) && !e.Move?
    ensures Tagged(Next(s, e)) && Reported(Next(s, e))
  {
    if e.Play? && e.reqs != [] {
      PlayedFifo(s.q, e.reqs, e.gain);
      NodesBatch(e.reqs, Positive(e.gain), s.q.token + 1, s.q.made);
      hide Nodes;
    }
  }

  lemma MoveTagged(s: State, over: bool)
    requires Tagged(s) && Reported(s)
    ensures Tagged(WorkerStep(s, over)) && Reported(WorkerStep(s, over))
  {
    hide Taken, Finished;
    match s.worker.pc {
      case Waiting =>
        if s.q.Fifo() != [] {
          TakenFifo(s.q);
          assert s.q.Fifo()[0] in s.q.Fifo();
          assert forall x :: x in s.q.Fifo()[1..] ==> x in s.q.Fifo();
        }
      case Finishing => FinishedFifo(s.q);
      case _ =>
    }
  }

  // ---------- Nodes are freed exactly once ----------

  function Held(s: State): seq<nat> { if Holding(s.worker.pc) then [s.worker.item.id] else [] }

  function Account(freed: seq<nat>, held: seq<nat>, queued: seq<nat>): multiset<nat> {
    multiset(freed) + multiset(held) + multiset(queued)
  }

  /** Every node ever made, wherever it is now: freed, with the worker, or queued. */
  function Accounted(s: State): multiset<nat> { Account(s.q.freed, Held(s), Ids(s.q.Fifo())) }

  predicate Conserved(s: State) { Accounted(s) == multiset(Seqs.UpTo(s.q.made)) }

  lemma {:induction false} NodesIds(reqs: seq<Request>, gain: real, batch: nat, id: nat)
    ensures var nodes := Nodes(reqs, gain, batch, id); Seqs.UpTo(id) + Ids(nodes) == Seqs.UpTo(id + |nodes|)
    decreases |reqs|
  {
    if reqs == [] {
      Seqs.Nil(Seqs.UpTo(id));
    } else {
      var front := Nodes(reqs[..|reqs| - 1], gain, batch, id);
      var last := reqs[|reqs| - 1];
      NodesIds(reqs[..|reqs| - 1], gain, batch, id);
      IdsSnoc(front, Item(id + |front|, last.url, gain, batch));
      Seqs.Associative(Seqs.UpTo(id), Ids(front), [id + |front|]);
    }
  }

  lemma ClearAccount(freed: seq<nat>, held: seq<nat>, queued: seq<nat>, added: seq<nat>)
    ensures Account(freed + queued, held, added) == Account(freed, held, queued) + multiset(added)
  {
  }

  lemma TakeAccount(freed: seq<nat>, id: nat, queued: seq<nat>)
    ensures Account(freed, [id], queued) == Account(freed, [], [id] + queued)
    ensures Account(freed + [id], [], queued) == Account(freed, [id], queued)
  {
  }

  lemma PlayConserved(s: State, reqs: seq<Request>, gain: real)
    requires Conserved(s) && reqs != []
    ensures Conserved(s.(q := Played(s.q, reqs, gain)))
  {
    hide Nodes, Ids, Seqs.UpTo, Account, Played;
    var t := s.(q := Played(s.q, reqs, gain));
    var nodes := Nodes(reqs, Positive(gain), s.q.token + 1, s.q.made);
    PlayedFifo(s.q, reqs, gain);
    PlayedCounts(s.q, reqs, gain);
    NodesIds(reqs, Positive(gain), s.q.token + 1, s.q.made);
    ClearAccount(s.q.freed, Held(s), Ids(s.q.Fifo()), Ids(nodes));
    assert Held(t) == Held(s);
    assert multiset(Seqs.UpTo(s.q.made) + Ids(nodes)) == multiset(Seqs.UpTo(s.q.made)) + multiset(Ids(nodes));
  }

  lemma CallConserved(s: State, e: Event)
    requires Conserved(s) && !e.Move?
    ensures Conserved(Next(s, e))
  {
    if e.Play? {
      if e.reqs != [] {
        PlayConserved(s, e.reqs, e.gain);
        hide Conserved, Played;
      }
    } else {
      ClearAccount(s.q.freed, Held(s), Ids(s.q.Fifo()), []);
      hide Account, Seqs.UpTo;
    }
  }

  lemma PlayedCounts(q: Queue, reqs: seq<Request>, gain: real)
    requires reqs != []
    ensures var r := Played(q, reqs, gain);
            && r.freed == q.freed + Ids(q.Fifo())
            && r.made == q.made + |Nodes(reqs, Positive(gain), q.token + 1, q.made)|
            && r.playing == q.playing && r.stop == q.stop && r.token == q.token + 1
  {
    if Usable(reqs[0]) {
      FirstIsMade(reqs, Positive(gain), q.token + 1, q.made);
    }
  }

  lemma {:induction false} IdsHead(items: seq<Item>)
    requires items != []
    ensures Ids(items) == [items[0].id] + Ids(items[1..])
    decreases |items|
  {
    if |items| > 1 {
      IdsHead(items[..|items| - 1]);
      assert items[..|items| - 1][1..] == items[1..][..|items| - 2];
    }
  }

  lemma StartConserved(s: State)
    requires s.worker.pc == Waiting && s.q.Fifo() != []
    ensures Accounted(Start(s)) == Accounted(s) && Start(s).q.made == s.q.made
  {
    TakenFifo(s.q);
    IdsHead(s.q.Fifo());
    TakeAccount(s.q.freed, s.q.Fifo()[0].id, Ids(s.q.Fifo()[1..]));
    hide Taken, Ids, Account;
  }

  lemma FreeConserved(s: State)
    requires s.worker.pc == Freeing
    ensures Accounted(WorkerStep(s, false)) == Accounted(s)
  {
    TakeAccount(s.q.freed, s.worker.item.id, Ids(s.q.Fifo()));
    hide Ids, Account;
  }

  lemma FinishConserved(s: State)
    requires s.worker.pc == Finishing
    ensures Accounted(WorkerStep(s, false)) == Accounted(s)
  {
    FinishedFifo(s.q);
    hide Finished, Ids, Account;
  }

  /** Neither taking an item nor freeing it changes the account. */
  lemma MoveConserved(s: State, over: bool)
    ensures Accounted(WorkerStep(s, over)) == Accounted(s) && WorkerStep(s, over).q.made == s.q.made
  {
    hide Ids, Account;
    match s.worker.pc {
      case Waiting =>
        if s.q.Fifo() != [] {
          StartConserved(s);
          hide Start;
        }
      case Freeing =>
        FreeConserved(s);
        hide Accounted;
      case Finishing =>
        FinishConserved(s);
        hide Accounted;
      case _ =>
    }
  }

  // ---------- The order of starts ----------

  /** The items started, and after them the items queued. */
  function Lined(s: State): seq<Item> { s.started + s.q.Fifo() }

  predicate Increasing(items: seq<Item>) {
    forall i, j :: 0 <= i < j < |items| ==> items[i].id < items[j].id
  }

  predicate Below(items: seq<Item>, id: nat) { forall x :: x in items ==> x.id < id }

  /** Items start in the order in which their nodes were made. */
  predicate Ordered(s: State) { Increasing(Lined(s)) && Below(Lined(s), s.q.made) }

  predicate Numbered(items: seq<Item>, id: nat) { forall i :: 0 <= i < |items| ==> items[i].id == id + i }

  lemma {:induction false} NodesNumbered(reqs: seq<Request>, gain: real, batch: nat, id: nat)
    ensures Numbered(Nodes(reqs, gain, batch, id), id)
    decreases |reqs|
  {
    if reqs != [] {
      NodesNumbered(reqs[..|reqs| - 1], gain, batch, id);
    }
  }

  lemma AppendIncreasing(a: seq<Item>, b: seq<Item>, id: nat)
    requires Increasing(a) && Below(a, id) && Numbered(b, id)
    ensures Increasing(a + b) && Below(a + b, id + |b|)
  {
    assert forall i :: 0 <= i < |a| ==> a[i] in a;
  }

  lemma PrefixIncreasing(a: seq<Item>, b: seq<Item>, id: nat)
    requires Increasing(a + b) && Below(a + b, id)
    ensures Increasing(a) && Below(a, id)
  {
    assert forall i :: 0 <= i < |a| ==> (a + b)[i] == a[i];
    assert forall x :: x in a ==> x in a + b;
  }

  lemma CallOrdered(s: State, e: Event)
    requires Ordered(s) && !e.Move?
    ensures Ordered(Next(s, e))
  {
    hide Nodes, Increasing, Below;
    PrefixIncreasing(s.started, s.q.Fifo(), s.q.made);
    if e.Play? {
      if e.reqs != [] {
        hide Played;
        PlayedFifo(s.q, e.reqs, e.gain);
        PlayedCounts(s.q, e.reqs, e.gain);
        NodesNumbered(e.reqs, Positive(e.gain), s.q.token + 1, s.q.made);
        AppendIncreasing(s.started, Nodes(e.reqs, Positive(e.gain), s.q.token + 1, s.q.made), s.q.made);
      }
    } else {
      assert Next(s, e).q.Fifo() == [];
      Seqs.Nil(s.started);
    }
  }

  /** A step of the worker leaves the line as it is. */
  lemma MoveLined(s: State, over: bool)
    ensures Lined(WorkerStep(s, over)) == Lined(s)
  {
    hide Taken, Finished;
    match s.worker.pc {
      case Waiting =>
        if s.q.Fifo() != [] {
          TakenFifo(s.q);
          Seqs.ConsOfParts(s.q.Fifo());
          Seqs.Associative(s.started, [s.q.Fifo()[0]], s.q.Fifo()[1..]);
        }
      case Finishing => FinishedFifo(s.q);
      case _ =>
    }
  }

  // ---------- What every run keeps ----------

  predicate Inv(s: State) { Tagged(s) && Reported(s) && Conserved(s) && Ordered(s) }

  lemma InitInv()
    ensures Inv(Init())
  {
  }

  lemma StepKeeps(s: State, e: Event)
    requires Inv(s)
    ensures Inv(Next(s, e))
  {
    hide Tagged, Reported, Accounted, Increasing, Below, Lined;
    if e.Move? {
      MoveTagged(s, e.over);
      MoveConserved(s, e.over);
      MoveLined(s, e.over);
      hide WorkerStep;
    } else {
      CallTagged(s, e);
      CallConserved(s, e);
      CallOrdered(s, e);
      hide Next, Conserved, Ordered;
    }
  }

  lemma {:induction false} RunKeeps(s: State, es: seq<Event>)
    requires Inv(s)
    ensures Inv(Run(s, es))
    decreases |es|
  {
    hide Inv, Next;
    if es != [] {
      RunKeeps(s, es[..|es| - 1]);
      StepKeeps(Run(s, es[..|es| - 1]), es[|es| - 1]);
    }
  }

  lemma Reachable(es: seq<Event>)
    ensures Inv(Run(Init(), es))
  {
    InitInv();
    RunKeeps(Init(), es);
  }

  /** In every interleaving each node made is in exactly one place: freed once, or held by the worker,
      or queued once. */
  lemma FreedExactlyOnce(es: seq<Event>, id: nat)
    ensures var s := Run(Init(), es);
            var places := multiset(s.q.freed)[id] + multiset(Held(s))[id] + multiset(Ids(s.q.Fifo()))[id];
            places == if id < s.q.made then 1 else 0
  {
    Reachable(es);
    Seqs.CountUpTo(Run(Init(), es).q.made, id);
    hide Run, Tagged, Reported, Ordered, Seqs.UpTo, Ids;
  }

  /** No item starts twice, and items start in the order in which they were queued. */
  lemma StartedInOrder(es: seq<Event>)
    ensures var s := Run(Init(), es); Increasing(s.started) && Below(s.started, s.q.made)
  {
    Reachable(es);
    var s := Run(Init(), es);
    hide Run, Tagged, Reported, Conserved, Increasing, Below;
    PrefixIncreasing(s.started, s.q.Fifo(), s.q.made);
  }

  /** The head list never has more than one node, and while the worker has an item, that item was
      queued by the play call that made the token the worker goes by. */
  lemma HeldBelongsToToken(es: seq<Event>)
    ensures var s := Run(Init(), es);
            && |s.q.head| <= 1
            && (forall x :: x in s.q.Fifo() ==> x.batch == s.q.token)
            && (Busy(s.worker.pc) ==> s.worker.item.batch == s.worker.captured <= s.q.token)
  {
    Reachable(es);
    hide Run, Conserved, Ordered;
  }

  /** `zh_music_player_is_active` is true whenever something is queued or the worker has an item of
      the current play call. */
  lemma ActiveWhileBusy(es: seq<Event>)
    ensures var s := Run(Init(), es);
            s.q.Fifo() != [] || (Busy(s.worker.pc) && s.worker.captured == s.q.token) ==> s.q.Active()
  {
    Reachable(es);
    hide Run, Conserved, Ordered;
  }

  // ---------- One play call, undisturbed ----------

  /** After a play call, and as long as no other call comes, the worker starts exactly the nodes of
      that call, in order and once each, and the rest of them stay queued. */
  lemma {:induction false} PlayedInOrder(s: State, reqs: seq<Request>, gain: real, es: seq<Event>)
    requires reqs != [] && forall e :: e in es ==> e.Move?
    ensures var t := Run(Next(s, Play(reqs, gain)), es);
            && s.started <= t.started
            && t.started[|s.started|..] + t.q.Fifo() == Nodes(reqs, Positive(gain), s.q.token + 1, s.q.made)
    decreases |es|
  {
    hide Played, WorkerStep, Nodes;
    var p := Next(s, Play(reqs, gain));
    PlayedFifo(s.q, reqs, gain);
    if es == [] {
      Seqs.Whole(s.started);
    } else {
      var r := Run(p, es[..|es| - 1]);
      PlayedInOrder(s, reqs, gain, es[..|es| - 1]);
      assert es[|es| - 1] in es;
      StepStarts(r, es[|es| - 1]);
      MoveLined(r, es[|es| - 1].over);
      RestOfLine(s.started, r.started, r.q.Fifo(), Run(p, es).started, Run(p, es).q.Fifo());
    }
  }

  lemma RestOfLine<T>(start: seq<T>, a: seq<T>, b: seq<T>, c: seq<T>, d: seq<T>)
    requires start <= a && a <= c && a + b == c + d
    ensures start <= c && a[|start|..] + b == c[|start|..] + d
  {
    assert a[|start|..] + b == (a + b)[|start|..];
    assert c[|start|..] + d == (c + d)[|start|..];
  }

  lemma StepStarts(s: State, e: Event)
    ensures s.started <= Next(s, e).started
    ensures s.q.stop ==> Next(s, e).started == s.started && Next(s, e).q.stop
  {
    FinishedFifo(s.q);
    hide Finished, Played;
    if e.Play? {
      PlayedStop(s.q, e.reqs, e.gain);
    }
  }

  lemma PlayedStop(q: Queue, reqs: seq<Request>, gain: real)
    ensures Played(q, reqs, gain).stop == q.stop && Played(q, reqs, gain).token >= q.token
  {
    if reqs != [] {
      PlayedCounts(q, reqs, gain);
    }
  }

  // ---------- Writes after a cancellation ----------

  /** How many writes were for items of play calls before the token `t`. */
  function Late(items: seq<Item>, t: nat): nat
    decreases |items|
  {
    if items == [] then 0 else Late(items[..|items| - 1], t) + if items[|items| - 1].batch < t then 1 else 0
  }

  /** The worker is past its last look at the token, with an item of a play call before `t`. */
  function LatePending(s: State, t: nat): nat {
    if s.worker.pc.Writing? && s.worker.item.batch < t then 1 else 0
  }

  function WritePending(s: State): nat { if s.worker.pc.Writing? then 1 else 0 }

  lemma StepWrites(s: State, e: Event, t: nat)
    requires Tagged(s) && t <= s.q.token
    ensures s.q.token <= Next(s, e).q.token
    ensures
      var n := Next(s, e);
      || (n.written == s.written && LatePending(n, t) <= LatePending(s, t))
      || (n.written == s.written + [s.worker.item] && s.worker.pc.Writing? && LatePending(n, t) == 0)
    ensures s.q.stop ==> WritePending(Next(s, e)) + |Next(s, e).written| <= WritePending(s) + |s.written|
  {
    FinishedFifo(s.q);
    hide Finished, Played;
    if e.Play? {
      PlayedStop(s.q, e.reqs, e.gain);
    }
  }

  /** From any point of a run on, the items of play calls made before that point's token get at most
      one more write, across every later step of every thread. */
  lemma {:induction false} OneLateWrite(s: State, es: seq<Event>)
    requires Inv(s)
    ensures var t := Run(s, es);
            && s.written <= t.written && s.q.token <= t.q.token
            && Late(t.written[|s.written|..], s.q.token) + LatePending(t, s.q.token) <= 1
    decreases |es|
  {
    hide Next, Inv, Tagged;
    if es == [] {
      Seqs.Whole(s.written);
    } else {
      var r := Run(s, es[..|es| - 1]);
      OneLateWrite(s, es[..|es| - 1]);
      RunKeeps(s, es[..|es| - 1]);
      TaggedOfInv(r);
      StepWrites(r, es[|es| - 1], s.q.token);
      if Run(s, es).written != r.written {
        SinceSnoc(s.written, r.written, r.worker.item);
        hide Late;
        LateSnoc(r.written[|s.written|..], r.worker.item, s.q.token);
      }
    }
  }

  lemma TaggedOfInv(s: State)
    requires Inv(s)
    ensures Tagged(s)
  {
  }

  lemma SinceSnoc<T>(start: seq<T>, a: seq<T>, x: T)
    requires start <= a
    ensures start <= a + [x] && (a + [x])[|start|..] == a[|start|..] + [x]
  {
  }

  lemma LateSnoc(items: seq<Item>, x: Item, t: nat)
    ensures Late(items + [x], t) == Late(items, t) + if x.batch < t then 1 else 0
  {
    assert (items + [x])[..|items|] == items;
  }

  /** After a stop no item starts, and at most one write is still made. */
  lemma {:induction false} StopIsFinal(s: State, es: seq<Event>)
    requires Inv(s) && s.q.stop
    ensures var t := Run(s, es);
            t.q.stop && t.started == s.started && |s.written| <= |t.written| <= |s.written| + 1 - WritePending(t)
    decreases |es|
  {
    hide Next, Inv, Tagged;
    if es != [] {
      var r := Run(s, es[..|es| - 1]);
      StopIsFinal(s, es[..|es| - 1]);
      RunKeeps(s, es[..|es| - 1]);
      TaggedOfInv(r);
      StepWrites(r, es[|es| - 1], r.q.token);
      StepStarts(r, es[|es| - 1]);
    }
  }

  // ---------- When the player reports itself active ----------

  /** The call empties the queue and leaves the playing flag as it is: a stop, or a play call that
      queues nothing. */
  predicate Empties(e: Event) {
    e.Stop? || (e.Play? && e.reqs != [] && forall i :: 0 <= i < |e.reqs| ==> !Usable(e.reqs[i]))
  }

  /** The playing flag is set only while something is queued or the worker is busy. */
  predicate Honest(s: State) {
    s.q.playing ==> s.q.Fifo() != [] || Busy(s.worker.pc)
  }

  lemma {:induction false} NodesExist(reqs: seq<Request>, i: nat, gain: real, batch: nat, id: nat)
    requires i < |reqs| && Usable(reqs[i])
    ensures Nodes(reqs, gain, batch, id) != []
    decreases |reqs|
  {
    if i < |reqs| - 1 {
      NodesExist(reqs[..|reqs| - 1], i, gain, batch, id);
    }
  }

  lemma {:induction false} NoNodes(reqs: seq<Request>, gain: real, batch: nat, id: nat)
    requires forall i :: 0 <= i < |reqs| ==> !Usable(reqs[i])
    ensures Nodes(reqs, gain, batch, id) == []
    decreases |reqs|
  {
    if reqs != [] {
      NoNodes(reqs[..|reqs| - 1], gain, batch, id);
    }
  }

  /** What a play call leaves queued. */
  lemma PlayedQueue(q: Queue, reqs: seq<Request>, gain: real)
    ensures Played(q, reqs, gain).playing == q.playing
    ensures Played(q, reqs, gain).Fifo() == [] <==> if reqs == [] then q.Fifo() == [] else Empties(Play(reqs, gain))
  {
    if reqs == [] {
      PlayedNothing(q, gain);
    } else {
      PlayedFifo(q, reqs, gain);
      PlayedCounts(q, reqs, gain);
      if i :| 0 <= i < |reqs| && Usable(reqs[i]) {
        NodesExist(reqs, i, Positive(gain), q.token + 1, q.made);
      } else {
        NoNodes(reqs, Positive(gain), q.token + 1, q.made);
      }
    }
  }

  /** Exactly the calls that empty the queue while the flag is set and the worker is not busy make the
      player report itself active with nothing to do. */
  lemma HonestUnless(s: State, e: Event)
    requires Honest(s)
    ensures Honest(Next(s, e)) <==> !(Empties(e) && s.q.playing && !Busy(s.worker.pc))
  {
    FinishedFifo(s.q);
    hide Finished, Played;
    if e.Play? {
      PlayedQueue(s.q, e.reqs, e.gain);
    }
  }

  lemma PlayedNothing(q: Queue, gain: real)
    ensures Played(q, [], gain) == q
  {
  }

  /** Without a stop and without play calls that queue nothing, the player reports itself active only
      while something is queued or the worker is busy. */
  lemma {:induction false} ActiveOnlyWhileBusy(es: seq<Event>)
    requires forall e :: e in es ==> !Empties(e)
    ensures var s := Run(Init(), es); Honest(s) && (s.q.Active() ==> s.q.Fifo() != [] || Busy(s.worker.pc))
    decreases |es|
  {
    hide Next, Empties;
    if es != [] {
      ActiveOnlyWhileBusy(es[..|es| - 1]);
      assert es[|es| - 1] in es;
      HonestUnless(Run(Init(), es[..|es| - 1]), es[|es| - 1]);
    }
  }

  /** Active for good, with nothing queued and the worker waiting: no step of the worker changes it. */
  predicate Stuck(s: State) {
    && s.q.Active() && !s.q.stop && s.q.Fifo() == [] && s.worker.pc.Waiting?
    && WorkerStep(s, false) == s == WorkerStep(s, true)
  }

  function OneUrl(url: string): Event { Play([Request(url, true)], 1.0) }

  lemma PlayOne(q: Queue, url: string)
    requires url != ""
    ensures Played(q, [Request(url, true)], 1.0)
         == Cleared(q).(token := q.token + 1, streaming := false, made := q.made + 1,
                        head := [Item(q.made, url, 1.0, q.token + 1)], pending := [])
  {
    var reqs := [Request(url, true)];
    assert reqs[..0] == [];
    assert Nodes(reqs, 1.0, q.token + 1, q.made) == [Item(q.made, url, 1.0, q.token + 1)];
  }

  lemma PlayBlank(q: Queue)
    ensures Played(q, [Request("", true)], 1.0) == Cleared(q).(token := q.token + 1, streaming := false)
  {
    var reqs := [Request("", true)];
    assert reqs[..0] == [];
    assert Nodes(reqs, 1.0, q.token + 1, q.made) == [];
  }

  lemma Snoc(es: seq<Event>, e: Event)
    ensures Run(Init(), es + [e]) == Next(Run(Init(), es), e)
  {
    assert (es + [e])[..|es|] == es;
  }

  /** Play calls that queue nothing can break that: the worker ends a cancelled item while a new one
      waits in the head list, so the flag stays set, and then a play call with only a blank URL
      empties the queue. */
  lemma StuckActive() returns (es: seq<Event>)
    ensures Stuck(Run(Init(), es)) && Stop !in es
  {
    hide Run, Played;
    es := [];
    var s := Init();
    assert Run(s, es) == s by {
      RunNothing(s);
    }
    PlayOne(s.q, "a");
    Snoc(es, OneUrl("a"));
    es := es + [OneUrl("a")];
    s := Next(s, OneUrl("a"));
    Snoc(es, Move(true));
    es := es + [Move(true)];
    s := Next(s, Move(true));
    PlayOne(s.q, "b");
    Snoc(es, OneUrl("b"));
    es := es + [OneUrl("b")];
    s := Next(s, OneUrl("b"));
    for i := 0 to 3
      invariant Run(Init(), es) == s && Stop !in es
      invariant s.q.playing && s.q.head != [] && !s.q.stop && s.q.token == 2 && s.worker.captured == 1
      invariant s.worker.pc == if i == 0 then Starting else if i == 1 then Freeing
                                 else if i == 2 then Finishing else Waiting
    {
      Snoc(es, Move(true));
      es := es + [Move(true)];
      s := Next(s, Move(true));
    }
    PlayBlank(s.q);
    Snoc(es, OneUrl(""));
    es := es + [OneUrl("")];
  }

  lemma RunNothing(s: State)
    ensures Run(s, []) == s
  {
  }
}
