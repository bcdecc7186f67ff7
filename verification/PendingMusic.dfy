/** Music that waits for speech to end: who owns each list of URLs, from the message that brought it
    to the call that frees it, across any number of threads. */
module PendingMusic {
  import opened Options
  import Seqs

  /** A list of URLs as one allocation, with its identity. */
  datatype UrlList = UrlList(id: nat, urls: seq<string>)

  /** What the session's mutex guards, and the lists freed so far. */
  datatype Deferred = Deferred(pending: Option<UrlList>, freed: seq<nat>)

  function IdOf(l: Option<UrlList>): seq<nat> { if l.Some? then [l.value.id] else [] }

  function Cleared(d: Deferred): Deferred {
    Deferred(None, d.freed + IdOf(d.pending))
  }

  class Session {
    var pending: Option<UrlList>
    var freed: seq<nat>

    function View(): Deferred
      reads this
    {
      Deferred(pending, freed)
    }

    constructor ()
      ensures View() == Deferred(None, [])
    {
      pending, freed := None, [];
    }

    /** `zh_ws_free_url_list`; there may be no list. */
    method FreeUrlList(l: Option<UrlList>)
      modifies `freed
      ensures freed == old(freed) + IdOf(l)
    {
      if l.Some? {
        freed := freed + [l.value.id];
      }
    }

    /** `zh_ws_clear_pending_music_locked`, and with it closing and resetting the session. */
    method ClearPending()
      modifies this
      ensures View() == Cleared(old(View()))
    {
      FreeUrlList(pending);
      pending := None;
    }

    /** The branch for `music_server` while speech is busy. */
    method QueueMusic(l: UrlList)
      modifies this
      ensures View() == Cleared(old(View())).(pending := Some(l))
    {
      ClearPending();
      pending := Some(l);
    }

    /** `zh_ws_take_pending_music`. */
    method TakePending() returns (l: Option<UrlList>)
      modifies `pending
      ensures l == old(pending) && View() == old(View()).(pending := None)
    {
      l := pending;
      pending := None;
    }

    /** `zh_ws_play_music_urls_owned`: hands the list to the music player and frees it. */
    method PlayOwned(l: UrlList) returns (handed: Option<UrlList>)
      modifies `freed
      ensures handed == if l.urls == [] then None else Some(l)
      ensures freed == old(freed) + [l.id]
    {
      handed := None;
      if |l.urls| == 0 {
        FreeUrlList(Some(l));
        return;
      }
      handed := Some(l);
      FreeUrlList(Some(l));
    }
  }

  // ---------- Many threads ----------

  /** Where a thread stands: with nothing, with a list just collected from a message, with a list it is
      about to hand to the player, or with one that the player has copied. */
  datatype Pc = Idle | Collected(list: UrlList) | Owning(list: UrlList) | Handed(list: UrlList)

  /** The threads and the guarded state, the lists made so far, and those handed to the player. */
  datatype State = State(deferred: Deferred, threads: seq<Pc>, made: nat, handed: seq<nat>)

  /** A step of thread `i`: a message with the given URLs, the end of a round of speech, a close or a
      reset, or the next step with a list; `busy` tells whether speech is busy. */
  datatype Event = Message(i: nat, urls: seq<string>) | RoundDone(i: nat) | Close(i: nat) | Proceed(i: nat, busy: bool)

  function Init(n: nat): State { State(Deferred(None, []), seq(n, _ => Idle), 0, []) }

  function At(s: State, i: nat, pc: Pc): State
    requires i < |s.threads|
  {
    s.(threads := s.threads[i := pc])
  }

  function Next(s: State, e: Event): State {
    if e.i >= |s.threads| then s
    else if e.Proceed? then Proceeded(s, e.i, e.busy)
    else if s.threads[e.i] != Idle then s
    else
      match e
      case Message(i, urls) => if urls == [] then s else At(s, i, Collected(UrlList(s.made, urls))).(made := s.made + 1)
      case RoundDone(i) =>
        if s.deferred.pending.None? then s
        else At(s, i, Owning(s.deferred.pending.value)).(deferred := s.deferred.(pending := None))
      case _ => s.(deferred := Cleared(s.deferred))
  }

  function Proceeded(s: State, i: nat, busy: bool): State
    requires i < |s.threads|
  {
    match s.threads[i]
    case Idle => s
    case Collected(l) =>
      if busy then At(s, i, Idle).(deferred := Cleared(s.deferred).(pending := Some(l))) else At(s, i, Owning(l))
    case Owning(l) => At(s, i, Handed(l)).(handed := s.handed + [l.id])
    case Handed(l) => At(s, i, Idle).(deferred := s.deferred.(freed := s.deferred.freed + [l.id]))
  }

  function Run(s: State, es: seq<Event>): State
    decreases |es|
  {
    if es == [] then s else Next(Run(s, es[..|es| - 1]), es[|es| - 1])
  }

  // ---------- The account of all lists ----------

  /** How often `k` occurs. */
  function Count(s: seq<nat>, k: nat): nat
    decreases |s|
  {
    if s == [] then 0 else Count(s[..|s| - 1], k) + One(s[|s| - 1] == k)
  }

  function One(b: bool): nat { if b then 1 else 0 }

  lemma CountSnoc(s: seq<nat>, x: nat, k: nat)
    ensures Count(s + [x], k) == Count(s, k) + One(x == k)
    ensures Count(s + [], k) == Count(s, k)
  {
    Seqs.Nil(s);
    assert (s + [x])[..|s|] == s;
  }

  /** How many threads hold the list `k`, and how many of them have handed it over. */
  function Holders(threads: seq<Pc>, k: nat): nat
    decreases |threads|
  {
    if threads == [] then 0 else Holders(threads[..|threads| - 1], k) + One(Holds(threads[|threads| - 1], k))
  }

  function Finishers(threads: seq<Pc>, k: nat): nat
    decreases |threads|
  {
    if threads == [] then 0
    else
      var last := threads[|threads| - 1];
      Finishers(threads[..|threads| - 1], k) + One(last.Handed? && Holds(last, k))
  }

  predicate Holds(pc: Pc, k: nat) { !pc.Idle? && pc.list.id == k }

  lemma {:induction false} Replace(threads: seq<Pc>, i: nat, pc: Pc, k: nat)
    requires i < |threads|
    ensures Holders(threads[i := pc], k) == Holders(threads, k) - One(Holds(threads[i], k)) + One(Holds(pc, k))
    ensures Finishers(threads[i := pc], k)
         == Finishers(threads, k) - One(threads[i].Handed? && Holds(threads[i], k)) + One(pc.Handed? && Holds(pc, k))
    decreases |threads|
  {
    hide One, Holds;
    var front := threads[..|threads| - 1];
    if i == |threads| - 1 {
      assert threads[i := pc][..|threads| - 1] == front;
    } else {
      Replace(front, i, pc, k);
      assert threads[i := pc][..|threads| - 1] == front[i := pc];
    }
  }

  /** In how many places the list `k` is: freed, pending, or with a thread. */
  function Places(s: State, k: nat): nat {
    var pending := One(s.deferred.pending.Some? && s.deferred.pending.value.id == k);
    Count(s.deferred.freed, k) + pending + Holders(s.threads, k)
  }

  /** Each list made is in exactly one place, and each time it was handed to the player is matched by
      its being freed or about to be. */
  predicate Inv(s: State, k: nat) {
    && Places(s, k) == One(k < s.made)
    && Count(s.handed, k) <= Count(s.deferred.freed, k) + Finishers(s.threads, k)
  }

  lemma ProceedKeeps(s: State, i: nat, busy: bool, k: nat)
    requires Inv(s, k) && i < |s.threads|
    ensures Inv(Proceeded(s, i, busy), k)
  {
    hide Count, Holders, Finishers;
    var t := Proceeded(s, i, busy);
    Replace(s.threads, i, t.threads[i], k);
    if !s.threads[i].Idle? {
      var l := s.threads[i].list;
      CountSnoc(s.deferred.freed, l.id, k);
      CountSnoc(s.handed, l.id, k);
    }
    if s.deferred.pending.Some? {
      CountSnoc(s.deferred.freed, s.deferred.pending.value.id, k);
    } else {
      CountSnoc(s.deferred.freed, 0, k);
    }
  }

  lemma StepKeeps(s: State, e: Event, k: nat)
    requires Inv(s, k)
    ensures Inv(Next(s, e), k)
  {
    hide Count, Holders, Finishers;
    if e.i < |s.threads| {
      if e.Proceed? {
        ProceedKeeps(s, e.i, e.busy, k);
        hide Inv, Proceeded;
      } else {
        var t := Next(s, e);
        Replace(s.threads, e.i, t.threads[e.i], k);
        if s.deferred.pending.Some? {
          CountSnoc(s.deferred.freed, s.deferred.pending.value.id, k);
        } else {
          CountSnoc(s.deferred.freed, 0, k);
        }
        assert s.threads[e.i := t.threads[e.i]] == t.threads;
      }
    }
  }

  lemma {:induction false} NoHolders(n: nat, k: nat)
    ensures Holders(seq(n, _ => Idle), k) == 0 && Finishers(seq(n, _ => Idle), k) == 0
    decreases n
  {
    if n > 0 {
      NoHolders(n - 1, k);
      assert seq(n, _ => Idle)[..n - 1] == seq(n - 1, _ => Idle);
    }
  }

  lemma {:induction false} RunKeeps(n: nat, es: seq<Event>, k: nat)
    ensures Inv(Run(Init(n), es), k)
    decreases |es|
  {
    hide Inv, Next;
    if es == [] {
      NoHolders(n, k);
      assert Inv(Init(n), k) by { InitInv(n, k); }
    } else {
      RunKeeps(n, es[..|es| - 1], k);
      StepKeeps(Run(Init(n), es[..|es| - 1]), es[|es| - 1], k);
    }
  }

  lemma InitInv(n: nat, k: nat)
    ensures Inv(Init(n), k)
  {
    NoHolders(n, k);
  }

  /** In every interleaving each list is freed at most once and handed to the player at most once. */
  lemma AtMostOnce(n: nat, es: seq<Event>, k: nat)
    ensures var s := Run(Init(n), es); Count(s.deferred.freed, k) <= 1 && Count(s.handed, k) <= 1
  {
    RunKeeps(n, es, k);
    FinishersHold(Run(Init(n), es).threads, k);
    hide Run;
  }

  lemma {:induction false} FinishersHold(threads: seq<Pc>, k: nat)
    ensures Finishers(threads, k) <= Holders(threads, k)
    decreases |threads|
  {
    if threads != [] {
      FinishersHold(threads[..|threads| - 1], k);
    }
  }

  lemma {:induction false} HolderCounts(threads: seq<Pc>, i: nat, k: nat)
    requires i < |threads| && Holds(threads[i], k)
    ensures Holders(threads, k) >= 1
    decreases |threads|
  {
    if i < |threads| - 1 {
      HolderCounts(threads[..|threads| - 1], i, k);
    }
  }

  /** No list that a thread holds, or that is pending, was freed, and no other thread holds it: what is
      handed to the player or queued is never used after it was freed. */
  lemma NeverUsedAfterFree(n: nat, es: seq<Event>, i: nat, k: nat)
    ensures var s := Run(Init(n), es);
            && (i < |s.threads| && Holds(s.threads[i], k) ==>
                  Count(s.deferred.freed, k) == 0 && Holders(s.threads, k) == 1)
            && (s.deferred.pending.Some? && s.deferred.pending.value.id == k ==>
                  Count(s.deferred.freed, k) == 0 && Holders(s.threads, k) == 0)
  {
    var s := Run(Init(n), es);
    RunKeeps(n, es, k);
    hide Run;
    if i < |s.threads| && Holds(s.threads[i], k) {
      HolderCounts(s.threads, i, k);
    }
  }

  lemma {:induction false} IdleHold(threads: seq<Pc>, k: nat)
    requires forall pc :: pc in threads ==> pc.Idle?
    ensures Holders(threads, k) == 0
    decreases |threads|
  {
    if threads != [] {
      assert forall pc :: pc in threads[..|threads| - 1] ==> pc in threads;
      IdleHold(threads[..|threads| - 1], k);
    }
  }

  /** Nothing leaks: when no thread has a list and none is pending, every list ever made was freed. */
  lemma NothingLeaks(n: nat, es: seq<Event>, k: nat)
    requires var s := Run(Init(n), es);
             s.deferred.pending.None? && (forall pc :: pc in s.threads ==> pc.Idle?) && k < s.made
    ensures Count(Run(Init(n), es).deferred.freed, k) == 1
  {
    RunKeeps(n, es, k);
    IdleHold(Run(Init(n), es).threads, k);
    hide Run;
  }

  // ---------- Every list is played, unless it is replaced or dropped while pending ----------

  /** The event frees the list `k` while it is pending: a new list replaces it, or the session closes. */
  predicate Drops(s: State, e: Event, k: nat) {
    && s.deferred.pending.Some? && s.deferred.pending.value.id == k && e.i < |s.threads|
    && ((e.Close? && s.threads[e.i] == Idle) || (e.Proceed? && e.busy && s.threads[e.i].Collected?))
  }

  /** How often that happens along the run. */
  function Dropped(s: State, es: seq<Event>, k: nat): nat
    decreases |es|
  {
    if es == [] then 0
    else Dropped(s, es[..|es| - 1], k) + One(Drops(Run(s, es[..|es| - 1]), es[|es| - 1], k))
  }

  /** Each handing over ends with the list freed or about to be, and nothing else but a drop frees a list. */
  predicate Played(s: State, dropped: nat, k: nat) {
    Count(s.handed, k) + dropped == Count(s.deferred.freed, k) + Finishers(s.threads, k)
  }

  lemma ProceedPlayed(s: State, i: nat, busy: bool, dropped: nat, k: nat)
    requires Played(s, dropped, k) && i < |s.threads|
    ensures Played(Proceeded(s, i, busy), dropped + One(Drops(s, Proceed(i, busy), k)), k)
  {
    hide Count, Holders, Finishers;
    var t := Proceeded(s, i, busy);
    Replace(s.threads, i, t.threads[i], k);
    if !s.threads[i].Idle? {
      var l := s.threads[i].list;
      CountSnoc(s.deferred.freed, l.id, k);
      CountSnoc(s.handed, l.id, k);
    }
    if s.deferred.pending.Some? {
      CountSnoc(s.deferred.freed, s.deferred.pending.value.id, k);
    } else {
      CountSnoc(s.deferred.freed, 0, k);
    }
  }

  lemma StepPlayed(s: State, e: Event, dropped: nat, k: nat)
    requires Played(s, dropped, k)
    ensures Played(Next(s, e), dropped + One(Drops(s, e, k)), k)
  {
    hide Count, Holders, Finishers;
    if e.i < |s.threads| {
      if e.Proceed? {
        ProceedPlayed(s, e.i, e.busy, dropped, k);
        hide Played, Proceeded;
      } else {
        var t := Next(s, e);
        Replace(s.threads, e.i, t.threads[e.i], k);
        if s.deferred.pending.Some? {
          CountSnoc(s.deferred.freed, s.deferred.pending.value.id, k);
        } else {
          CountSnoc(s.deferred.freed, 0, k);
        }
        assert s.threads[e.i := t.threads[e.i]] == t.threads;
      }
    }
  }

  /** In every interleaving each list that was freed had been handed to the player first, unless it was
      replaced or cleared while it was pending: the drops make up exactly the difference. */
  lemma {:induction false} HandedOrDropped(n: nat, es: seq<Event>, k: nat)
    ensures var s := Run(Init(n), es);
            Count(s.handed, k) + Dropped(Init(n), es, k) == Count(s.deferred.freed, k) + Finishers(s.threads, k)
    decreases |es|
  {
    hide Next, Drops;
    if es == [] {
      NoHolders(n, k);
    } else {
      HandedOrDropped(n, es[..|es| - 1], k);
      StepPlayed(Run(Init(n), es[..|es| - 1]), es[|es| - 1], Dropped(Init(n), es[..|es| - 1], k), k);
    }
  }

  /** What becomes of a list that a thread has collected: while speech is busy it is pending, and the one that
      was pending before is freed; otherwise the thread goes on to play it, and nothing else changes. */
  lemma CollectedGoes(s: State, i: nat, l: UrlList, busy: bool)
    requires i < |s.threads| && s.threads[i] == Collected(l)
    ensures var t := Next(s, Proceed(i, busy));
            && t.handed == s.handed && t.made == s.made && |t.threads| == |s.threads|
            && (forall j :: 0 <= j < |s.threads| && j != i ==> t.threads[j] == s.threads[j])
            && (busy ==> t.threads[i] == Idle
                         && t.deferred == Deferred(Some(l), s.deferred.freed + IdOf(s.deferred.pending)))
            && (!busy ==> t.threads[i] == Owning(l) && t.deferred == s.deferred)
  {
  }

  /** The thread plays and frees the list it owns in two steps. */
  lemma PlaysOwned(s: State, i: nat, l: UrlList, b: bool, c: bool)
    requires i < |s.threads| && s.threads[i] == Owning(l)
    ensures var t := Next(Next(s, Proceed(i, b)), Proceed(i, c));
            && t.threads == s.threads[i := Idle] && t.handed == s.handed + [l.id] && t.made == s.made
            && t.deferred == Deferred(s.deferred.pending, s.deferred.freed + [l.id])
  {
  }

  /** The lists of one message and of the end of a round of speech: what an idle thread takes up. */
  lemma TakesUp(s: State, i: nat, urls: seq<string>)
    requires i < |s.threads| && s.threads[i] == Idle
    ensures urls != [] ==>
              Next(s, Message(i, urls))
              == s.(threads := s.threads[i := Collected(UrlList(s.made, urls))], made := s.made + 1)
    ensures urls == [] ==> Next(s, Message(i, urls)) == s
    ensures s.deferred.pending.Some? ==>
              Next(s, RoundDone(i))
              == s.(threads := s.threads[i := Owning(s.deferred.pending.value)],
                    deferred := s.deferred.(pending := None))
    ensures s.deferred.pending.None? ==> Next(s, RoundDone(i)) == s
    ensures var d := Next(s, Close(i)).deferred;
            d.pending.None? && d.freed == s.deferred.freed + IdOf(s.deferred.pending)
  {
  }

  /** A list that comes while speech is not busy is played at once. */
  lemma PlayedAtOnce(n: nat, es: seq<Event>, i: nat, urls: seq<string>, b: bool, c: bool)
    requires var s := Run(Init(n), es); i < |s.threads| && s.threads[i] == Idle && urls != []
    ensures var s := Run(Init(n), es);
            var done := Next(Next(Next(Next(s, Message(i, urls)), Proceed(i, false)), Proceed(i, b)), Proceed(i, c));
            && done.handed == s.handed + [s.made] && done.threads == s.threads
            && done.deferred == Deferred(s.deferred.pending, s.deferred.freed + [s.made])
  {
    var s := Run(Init(n), es);
    hide Run, Init;
    TakesUp(s, i, urls);
    var l := UrlList(s.made, urls);
    var a := Next(s, Message(i, urls));
    CollectedGoes(a, i, l, false);
    PlaysOwned(Next(a, Proceed(i, false)), i, l, b, c);
  }

  /** A list that comes while speech is busy is played when the round of speech is over. */
  lemma DeferredIsPlayed(n: nat, es: seq<Event>, i: nat, j: nat, urls: seq<string>, b: bool, c: bool)
    requires var s := Run(Init(n), es);
             i < |s.threads| && j < |s.threads| && s.threads[i] == Idle && s.threads[j] == Idle && urls != []
    ensures var s := Run(Init(n), es);
            var waiting := Next(Next(s, Message(i, urls)), Proceed(i, true));
            var done := Next(Next(Next(waiting, RoundDone(j)), Proceed(j, b)), Proceed(j, c));
            && waiting.handed == s.handed && waiting.deferred.pending == Some(UrlList(s.made, urls))
            && done.handed == s.handed + [s.made] && done.deferred.pending.None? && done.threads == s.threads
            && done.deferred.freed == s.deferred.freed + IdOf(s.deferred.pending) + [s.made]
  {
    var s := Run(Init(n), es);
    hide Run, Init;
    TakesUp(s, i, urls);
    var l := UrlList(s.made, urls);
    var a := Next(s, Message(i, urls));
    CollectedGoes(a, i, l, true);
    var w := Next(a, Proceed(i, true));
    TakesUp(w, j, urls);
    PlaysOwned(Next(w, RoundDone(j)), j, l, b, c);
  }
}
