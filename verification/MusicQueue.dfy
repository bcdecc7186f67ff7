/** The music player's queue: a head list and a pending list, a cancel token and a playing flag.
    Each method is one critical section of the player's mutex. */
module MusicQueue {
  import Seqs

  /** A node of a list: its identity, its contents, and the token of the play call that made it. */
  datatype Item = Item(id: nat, url: string, gain: real, batch: nat)

  /** One URL of a play call. The empty string also stands for a null pointer; `memory` tells whether
      the two allocations for the node succeed. */
  datatype Request = Request(url: string, memory: bool)

  predicate Usable(r: Request) { r.url != "" && r.memory }

  predicate IsUrl(s: string) { "http://" <= s || "https://" <= s }

  /** The nodes that a play call makes, in order; the first of them gets the identity `id`. */
  function Nodes(reqs: seq<Request>, gain: real, batch: nat, id: nat): (nodes: seq<Item>)
    ensures |nodes| <= |reqs|
    decreases |reqs|
  {
    if reqs == [] then []
    else
      var front := Nodes(reqs[..|reqs| - 1], gain, batch, id);
      var last := reqs[|reqs| - 1];
      if Usable(last) then front + [Item(id + |front|, last.url, gain, batch)] else front
  }

  /** Everything that the mutex guards, with the nodes made and freed so far. */
  datatype Queue = Queue(head: seq<Item>, pending: seq<Item>, token: nat, playing: bool, stop: bool, streaming: bool,
                         made: nat, freed: seq<nat>)
  {
    /** The two lists taken as one. */
    function Fifo(): seq<Item> { head + pending }

    predicate Active() { playing || head != [] || pending != [] }

    predicate Abort(captured: nat) { stop || token != captured }
  }

  function Ids(items: seq<Item>): (ids: seq<nat>)
    ensures |ids| == |items|
    decreases |items|
  {
    if items == [] then [] else Ids(items[..|items| - 1]) + [items[|items| - 1].id]
  }

  lemma IdsSnoc(items: seq<Item>, x: Item)
    ensures Ids(items + [x]) == Ids(items) + [x.id]
  {
    assert (items + [x])[..|items|] == items;
  }

  lemma FreeOne(was: seq<nat>, done: seq<Item>, x: Item)
    ensures was + Ids(done) + [x.id] == was + Ids(done + [x])
  {
    IdsSnoc(done, x);
    Seqs.Associative(was, Ids(done), [x.id]);
  }

  lemma NodesSnoc(reqs: seq<Request>, i: nat, gain: real, batch: nat, id: nat)
    requires i < |reqs|
    ensures var front := Nodes(reqs[..i], gain, batch, id);
            && Nodes(reqs[..i + 1], gain, batch, id)
            == if Usable(reqs[i]) then front + [Item(id + |front|, reqs[i].url, gain, batch)] else front
  {
    assert reqs[..i + 1][..i] == reqs[..i];
  }

  function Cleared(q: Queue): Queue {
    q.(head := [], pending := [], freed := q.freed + Ids(q.Fifo()))
  }

  function Positive(gain: real): real { if gain < 0.0 then 0.0 else gain }

  /** `zh_music_player_play_urls_with_gain`. */
  function Played(q: Queue, reqs: seq<Request>, gain: real): Queue {
    if reqs == [] then q
    else
      var nodes := Nodes(reqs, Positive(gain), q.token + 1, q.made);
      var first := if Usable(reqs[0]) && nodes != [] then 1 else 0;
      Cleared(q).(token := q.token + 1, streaming := false, made := q.made + |nodes|,
                  head := nodes[..first], pending := nodes[first..])
  }

  lemma {:induction false} FirstIsMade(reqs: seq<Request>, gain: real, batch: nat, id: nat)
    requires reqs != [] && Usable(reqs[0])
    ensures Nodes(reqs, gain, batch, id) != []
    decreases |reqs|
  {
    if |reqs| > 1 {
      FirstIsMade(reqs[..|reqs| - 1], gain, batch, id);
    }
  }

  function Interrupted(q: Queue): Queue {
    Cleared(q).(token := q.token + 1, streaming := false, playing := false)
  }

  function Stopped(q: Queue): Queue {
    Cleared(q).(stop := true, streaming := false)
  }

  /** The worker takes the first item of the queue. */
  function Taken(q: Queue): Queue
    requires q.Fifo() != []
  {
    if q.head != [] then q.(head := q.head[1..], playing := true, streaming := IsUrl(q.head[0].url))
    else q.(pending := q.pending[1..], playing := true, streaming := IsUrl(q.pending[0].url))
  }

  /** The worker has freed its item. */
  function Finished(q: Queue): Queue {
    if q.head != [] then q.(streaming := false)
    else if q.pending != []
    then q.(streaming := false, head := q.pending[..1], pending := q.pending[1..], playing := false)
    else q.(streaming := false, playing := false)
  }

  class MusicPlayer {
    var head: seq<Item>
    var pending: seq<Item>
    var token: nat
    var playing: bool
    var stop: bool
    var streaming: bool
    var made: nat
    var freed: seq<nat>

    function View(): Queue
      reads this
    {
      Queue(head, pending, token, playing, stop, streaming, made, freed)
    }

    constructor ()
      ensures View() == Queue([], [], 0, false, false, false, 0, [])
    {
      head, pending, token, playing, stop, streaming, made, freed := [], [], 0, false, false, false, 0, [];
    }

    /** `zh_music_clear_locked`. */
    method ClearLocked()
      modifies `head, `pending, `freed
      ensures View() == Cleared(old(View()))
    {
      ghost var all, was := head + pending, freed;
      ghost var done: seq<Item> := [];
      hide Ids;
      while head != []
        invariant done + head + pending == all
        invariant freed == was + Ids(done)
        decreases |head|
      {
        FreeOne(was, done, head[0]);
        freed := freed + [head[0].id];
        done := done + [head[0]];
        head := head[1..];
      }
      while pending != []
        invariant head == [] && done + pending == all
        invariant freed == was + Ids(done)
        decreases |pending|
      {
        FreeOne(was, done, pending[0]);
        freed := freed + [pending[0].id];
        done := done + [pending[0]];
        pending := pending[1..];
      }
      assert done == all;
    }

    /** `zh_music_player_play_urls_with_gain`. */
    method PlayUrls(urls: seq<Request>, gain: real)
      modifies this
      ensures View() == Played(old(View()), urls, gain)
    {
      if |urls| == 0 {
        return;
      }
      var level := if gain < 0.0 then 0.0 else gain;
      token := token + 1;
      streaming := false;
      ClearLocked();
      Enqueue(urls, level);
    }

    /** The loop over the URLs. */
    method Enqueue(urls: seq<Request>, level: real)
      requires urls != [] && head == [] && pending == []
      modifies `head, `pending, `made
      ensures head + pending == Nodes(urls, level, token, old(made))
      ensures made == old(made) + |head + pending|
      ensures |head| == if Usable(urls[0]) then 1 else 0
    {
      ghost var id := made;
      hide Nodes;
      assert Nodes(urls[..0], level, token, id) == [];
      for i := 0 to |urls|
        invariant made == id + |head + pending|
        invariant head + pending == Nodes(urls[..i], level, token, id)
        invariant |head| == if i > 0 && Usable(urls[0]) then 1 else 0
        invariant i == 0 ==> pending == []
      {
        NodesSnoc(urls, i, level, token, id);
        if urls[i].url == "" || !urls[i].memory {
          continue;
        }
        var item := Item(made, urls[i].url, level, token);
        made := made + 1;
        if i == 0 && head == [] {
          head := [item];
        } else {
          Seqs.Associative(head, pending, [item]);
          pending := pending + [item];
        }
      }
      Seqs.Whole(urls);
    }

    /** `zh_music_should_abort`. */
    method ShouldAbort(captured: nat) returns (abort: bool)
      ensures abort == View().Abort(captured)
    {
      abort := stop || token != captured;
    }

    /** `zh_music_player_is_active`. */
    method IsActive() returns (active: bool)
      ensures active == View().Active()
    {
      active := playing || head != [] || pending != [];
    }

    /** `zh_music_player_interrupt`. */
    method Interrupt()
      modifies this
      ensures View() == Interrupted(old(View()))
    {
      token := token + 1;
      streaming := false;
      ClearLocked();
      playing := false;
    }

    /** `zh_music_player_stop`. */
    method Stop()
      modifies this
      ensures View() == Stopped(old(View()))
    {
      stop := true;
      streaming := false;
      ClearLocked();
    }

    /** The worker's first critical section, once its wait is over: the item, unless the player stops. */
    method TakeNext() returns (items: seq<Item>, captured: nat)
      requires stop || head + pending != []
      modifies `head, `pending, `playing, `streaming
      ensures captured == token
      ensures old(stop) ==> items == [] && View() == old(View())
      ensures !old(stop) ==> items == old(View()).Fifo()[..1] && View() == Taken(old(View()))
    {
      items := [];
      captured := token;
      if !stop && head == [] {
        head := [pending[0]];
        pending := pending[1..];
      }
      if stop {
        return;
      }
      items := [head[0]];
      head := head[1..];
      playing := true;
      streaming := IsUrl(items[0].url);
    }

    /** The worker's last critical section for an item. */
    method Finish()
      modifies `head, `pending, `playing, `streaming
      ensures View() == Finished(old(View()))
    {
      streaming := false;
      if head == [] {
        if pending != [] {
          head := [pending[0]];
          pending := pending[1..];
        }
        playing := false;
      }
    }
  }
}
