/** The index of enrolled faces and the ring cache in front of it. */
module FaceIndex {
  import opened Options
  import opened Text
  import opened Seqs

  /** An entry of the index file; a field that the file does not hold, or holds in another type, is `None`. */
  datatype Entry = Entry(id: Option<string>, name: Option<string>, path: Option<string>, ts: Option<int>)

  predicate Complete(e: Entry) { e.id.Some? && e.name.Some? && e.path.Some? && e.ts.Some? }

  datatype Slot = Slot(path: string, name: string)

  const CACHE_MAX := 64
  const PATH_ROOM := 512
  const NAME_ROOM := 128

  /** Room for a name in the index file, with its escapes. */
  const ESCAPE_ROOM := 256

  /** What a lookup in the index file alone finds: the first entry with that path and a name. */
  function InIndex(index: seq<Entry>, path: string): Option<string>
    decreases |index|
  {
    if index == [] then None
    else if index[0].path == Some(path) && index[0].name.Some? then Some(index[0].name.value)
    else InIndex(index[1..], path)
  }

  /** What a lookup in the cache finds: the first used slot with that path. */
  function InCache(cells: seq<Slot>, path: string): Option<string>
    decreases |cells|
  {
    if cells == [] then None
    else if cells[0].path != [] && cells[0].path == path then Some(cells[0].name)
    else InCache(cells[1..], path)
  }

  /** The entries that an upsert of `name` keeps. */
  function Others(index: seq<Entry>, name: string): seq<Entry>
    decreases |index|
  {
    if index == [] then []
    else
      var last := index[|index| - 1];
      Others(index[..|index| - 1], name) + if Complete(last) && last.name.value != name then [last] else []
  }

  /** The index file, or nothing when it cannot be read or does not begin with a list, and the cache. */
  datatype Faces = Faces(index: Option<seq<Entry>>, cells: seq<Slot>, pos: nat)
  {
    predicate Valid() { |cells| == CACHE_MAX && pos < CACHE_MAX }

    function Entries(): seq<Entry> { if index.Some? then index.value else [] }

    function Cached(path: string, name: string): (f: Faces)
      requires Valid()
      ensures f.Valid()
    {
      Faces(index, cells[pos := Slot(Clip(path, PATH_ROOM), Clip(name, NAME_ROOM))], (pos + 1) % CACHE_MAX)
    }

    /** The name found for a path, in a buffer of the size of a name. */
    function Found(path: string): Option<string> {
      var hit := InCache(cells, path);
      if hit.Some? then Some(Clip(hit.value, NAME_ROOM))
      else
        var listed := InIndex(Entries(), path);
        if listed.Some? then Some(Clip(listed.value, NAME_ROOM)) else None
    }

    function AfterLookup(path: string): (f: Faces)
      requires Valid()
      ensures f.Valid()
    {
      if InCache(cells, path).None? && InIndex(Entries(), path).Some?
      then Cached(path, InIndex(Entries(), path).value)
      else this
    }

    function Upserted(e: Entry): Faces
      requires Complete(e)
    {
      this.(index := Some(Others(Entries(), e.name.value) + [e]))
    }
  }

  // ---------- The index and the cache in place ----------

  class FaceStore {
    var index: Option<seq<Entry>>
    const cache: array<Slot>
    var cachePos: nat

    ghost predicate Valid()
      reads this
    {
      cache.Length == CACHE_MAX && cachePos < CACHE_MAX
    }

    ghost function View(): Faces
      reads this, cache
    {
      Faces(index, cache[..], cachePos)
    }

    constructor (file: Option<seq<Entry>>)
      ensures Valid() && fresh(cache)
      ensures View() == Faces(file, seq(CACHE_MAX, _ => Slot([], [])), 0)
    {
      index := file;
      cache := new Slot[CACHE_MAX](_ => Slot([], []));
      cachePos := 0;
    }

    /** `zh_face_cache_set`. */
    method CacheSet(path: string, name: string)
      requires Valid()
      modifies `cachePos, cache
      ensures Valid() && View() == old(View()).Cached(path, name)
    {
      cache[cachePos] := Slot(Clip(path, PATH_ROOM), Clip(name, NAME_ROOM));
      cachePos := (cachePos + 1) % CACHE_MAX;
    }

    /** `zh_face_cache_get`. */
    method CacheGet(path: string) returns (name: Option<string>)
      requires Valid()
      ensures name == InCache(cache[..], path)
    {
      for i := 0 to CACHE_MAX
        invariant InCache(cache[i..], path) == InCache(cache[..], path)
      {
        if cache[i].path != [] && cache[i].path == path {
          return Some(cache[i].name);
        }
        assert cache[i..][1..] == cache[i + 1..];
      }
      name := None;
    }

    /** `zh_index_find_name`. */
    method FindName(path: string) returns (name: Option<string>)
      requires Valid()
      modifies `cachePos, cache
      ensures Valid() && name == old(View()).Found(path) && View() == old(View()).AfterLookup(path)
    {
      var hit := CacheGet(path);
      if hit.Some? {
        return Some(Clip(hit.value, NAME_ROOM));
      }
      if index.None? {
        return None;
      }
      var entries := index.value;
      var i := 0;
      while i < |entries|
        invariant i <= |entries| && InIndex(entries[i..], path) == InIndex(entries, path)
      {
        if entries[i].path == Some(path) && entries[i].name.Some? {
          CacheSet(path, entries[i].name.value);
          return Some(Clip(entries[i].name.value, NAME_ROOM));
        }
        assert entries[i..][1..] == entries[i + 1..];
        i := i + 1;
      }
      name := None;
    }

    /** `zh_upsert_index_json`; `writable` tells whether the file can be opened for writing. */
    method Upsert(id: string, name: string, path: string, ts: int, writable: bool) returns (ok: bool)
      modifies `index
      ensures ok == writable
      ensures var e := Entry(Some(id), Some(name), Some(path), Some(ts));
              index == if ok then old(View()).Upserted(e).index else old(index)
    {
      if !writable {
        return false;
      }
      var buf := index;
      var out: seq<Entry> := [];
      if buf.Some? {
        for i := 0 to |buf.value|
          invariant out == Others(buf.value[..i], name)
        {
          assert buf.value[..i + 1][..i] == buf.value[..i];
          var e := buf.value[i];
          if e.name.None? || e.name.value == name {
            continue;
          }
          if e.id.None? || e.path.None? || e.ts.None? {
            continue;
          }
          out := out + [e];
        }
        Seqs.Whole(buf.value);
      }
      index := Some(out + [Entry(Some(id), Some(name), Some(path), Some(ts))]);
      ok := true;
    }

    /** `zh_face_enroll_on_owner`, with the new embedding's file in `path`: whether a captured embedding
        is valid, and whether its file and the index can be written, is given. */
    method EnrolOwner(name: string, captured: bool, id: string, path: string, ts: int, saved: bool, writable: bool)
      returns (ok: bool)
      requires Valid()
      modifies this, cache
      ensures Valid() && ok == (name != [] && captured && saved && writable)
      ensures var e := Entry(Some(id), Some(name), Some(path), Some(ts));
              View() == if ok then old(View()).Upserted(e).Cached(path, name) else old(View())
    {
      if name == [] || !captured || !saved {
        return false;
      }
      ok := Upsert(id, name, path, ts, writable);
      if ok {
        CacheSet(path, name);
      }
    }
  }

  // ---------- Upserts ----------

  lemma {:induction false} InOthers(index: seq<Entry>, name: string, e: Entry)
    ensures e in Others(index, name) <==> e in index && Complete(e) && e.name.value != name
    decreases |index|
  {
    if index != [] {
      var front := index[..|index| - 1];
      InOthers(front, name, e);
      assert e in index <==> e in front || e == index[|index| - 1];
    }
  }

  /** The kept entries stay in order. */
  lemma {:induction false} OthersInOrder(a: seq<Entry>, b: seq<Entry>, name: string)
    ensures Others(a + b, name) == Others(a, name) + Others(b, name)
    decreases |b|
  {
    if b == [] {
      Seqs.Nil(a);
    } else {
      var front, last := b[..|b| - 1], b[|b| - 1];
      OthersInOrder(a, front, name);
      assert (a + b)[..|a + b| - 1] == a + front;
      var kept := if Complete(last) && last.name.value != name then [last] else [];
      Seqs.Associative(Others(a, name), Others(front, name), kept);
    }
  }

  /** All entries are complete, and no two have the same name. */
  predicate DistinctNames(index: seq<Entry>) {
    && (forall e :: e in index ==> Complete(e))
    && forall i, j :: 0 <= i < j < |index| ==> index[i].name != index[j].name
  }

  lemma {:induction false} OthersDistinct(index: seq<Entry>, name: string)
    requires DistinctNames(index)
    ensures DistinctNames(Others(index, name))
    decreases |index|
  {
    if index != [] {
      var front, last := index[..|index| - 1], index[|index| - 1];
      assert forall e :: e in front ==> e in index;
      OthersDistinct(front, name);
      var kept := Others(front, name);
      forall i | 0 <= i < |kept| ensures kept[i].name != last.name {
        InOthers(front, name, kept[i]);
        var j :| 0 <= j < |front| && front[j] == kept[i];
        assert index[j] == front[j];
      }
    }
  }

  /** An upsert keeps names distinct: the new entry comes last, and it is the only one of its name. */
  lemma UpsertDistinct(f: Faces, e: Entry)
    requires Complete(e) && DistinctNames(f.Entries())
    ensures DistinctNames(f.Upserted(e).Entries())
    ensures forall x :: x in f.Upserted(e).Entries() <==> x == e || (x in f.Entries() && x.name != e.name)
  {
    var kept := Others(f.Entries(), e.name.value);
    OthersDistinct(f.Entries(), e.name.value);
    forall x ensures x in kept <==> x in f.Entries() && x.name != e.name {
      InOthers(f.Entries(), e.name.value, x);
    }
    assert forall i :: 0 <= i < |kept| ==> kept[i] in kept;
  }

  /** Where the kept entries stood: in the same order, and none that is complete and of another name is missing. */
  lemma {:induction false} KeptInOrder(index: seq<Entry>, name: string) returns (at: seq<nat>)
    ensures |at| == |Others(index, name)|
    ensures forall i :: 0 <= i < |at| ==> at[i] < |index| && Others(index, name)[i] == index[at[i]]
    ensures forall i, j :: 0 <= i < j < |at| ==> at[i] < at[j]
    ensures forall k :: 0 <= k < |index| && Complete(index[k]) && index[k].name.value != name ==> k in at
    decreases |index|
  {
    at := [];
    if index != [] {
      var front, last := index[..|index| - 1], index[|index| - 1];
      var before := KeptInOrder(front, name);
      at := before;
      if Complete(last) && last.name.value != name {
        at := before + [|index| - 1];
        assert |index| - 1 in at && forall k :: k in before ==> k in at;
      }
    }
  }

  /** After an upsert the new entry is the last one, and before it stand the complete entries of other names, in
      their old order. */
  lemma UpsertOrder(f: Faces, e: Entry) returns (at: seq<nat>)
    requires Complete(e)
    ensures var old', new' := f.Entries(), f.Upserted(e).Entries();
            && |new'| == |at| + 1 && new'[|at|] == e
            && (forall i :: 0 <= i < |at| ==> at[i] < |old'| && new'[i] == old'[at[i]])
            && (forall i, j :: 0 <= i < j < |at| ==> at[i] < at[j])
            && (forall k :: 0 <= k < |old'| ==> (k in at <==> Complete(old'[k]) && old'[k].name.value != e.name.value))
  {
    at := KeptInOrder(f.Entries(), e.name.value);
    forall k | 0 <= k < |f.Entries()| && k in at
      ensures Complete(f.Entries()[k]) && f.Entries()[k].name.value != e.name.value
    {
      var i :| 0 <= i < |at| && at[i] == k;
      InOthers(f.Entries(), e.name.value, f.Entries()[k]);
      assert Others(f.Entries(), e.name.value)[i] in Others(f.Entries(), e.name.value);
    }
  }

  // ---------- Enrolments, lookups and evictions ----------

  datatype Event = Enrol(entry: Entry) | Lookup(path: string)

  /** How long a text is in the index file, where some characters are escaped. */
  function Printed(s: string): (n: nat)
    ensures n >= |s|
    decreases |s|
  {
    if s == [] then 0
    else
      var c := s[|s| - 1];
      Printed(s[..|s| - 1]) + if c == '\\' || c == '"' || c == '\n' || c == '\r' || c == '\t' then 2 else 1
  }

  /** The embedding's path and the name are not empty and are written to the file whole. */
  predicate Proper(e: Entry) {
    && Complete(e) && 0 < |e.path.value| && Printed(e.path.value) < PATH_ROOM
    && 0 < |e.name.value| && Printed(e.name.value) < ESCAPE_ROOM
  }

  function Next(f: Faces, e: Event): (g: Faces)
    requires f.Valid() && (e.Enrol? ==> Proper(e.entry))
    ensures g.Valid()
  {
    match e
    case Enrol(x) => f.Upserted(x).Cached(x.path.value, x.name.value)
    case Lookup(path) => f.AfterLookup(path)
  }

  /** The name under which each path was enrolled; `known` is for those of the file found at the start. */
  function Enrolled(es: seq<Event>, known: map<string, string>): map<string, string>
    decreases |es|
  {
    if es == [] then known
    else
      var before, e := Enrolled(es[..|es| - 1], known), es[|es| - 1];
      if e.Enrol? && Complete(e.entry) then before[e.entry.path.value := e.entry.name.value] else before
  }

  /** Every enrolment is proper, and its path was not enrolled before. */
  predicate Once(es: seq<Event>, known: map<string, string>)
    decreases |es|
  {
    es != [] ==>
      var before, e := es[..|es| - 1], es[|es| - 1];
      Once(before, known) && (e.Enrol? ==> Proper(e.entry) && e.entry.path.value !in Enrolled(before, known))
  }

  function Run(f: Faces, es: seq<Event>, known: map<string, string>): (g: Faces)
    requires f.Valid() && Once(es, known)
    ensures g.Valid()
    decreases |es|
  {
    if es == [] then f else Next(Run(f, es[..|es| - 1], known), es[|es| - 1])
  }

  /** A name in a buffer of the cache or of a lookup. */
  function Short(name: string): string { Clip(name, NAME_ROOM) }

  lemma ShortTwice(name: string)
    ensures Short(Short(name)) == Short(name)
    ensures |name| < NAME_ROOM ==> Short(name) == name
  {
  }

  /** The index gives every path the name under which it was enrolled, and the cache as much of it as fits. */
  predicate Truthful(f: Faces, m: map<string, string>) {
    && (forall p :: p in m ==> |p| < PATH_ROOM)
    && (forall e :: e in f.Entries() && e.path.Some? && e.name.Some? ==>
          e.path.value in m && m[e.path.value] == e.name.value)
    && (forall c :: c in f.cells && c.path != [] ==> c.path in m && Short(m[c.path]) == c.name)
  }

  lemma {:induction false} IndexTruthful(index: seq<Entry>, path: string) returns (e: Entry)
    requires InIndex(index, path).Some?
    ensures e in index && e.path == Some(path) && e.name == InIndex(index, path)
    decreases |index|
  {
    e := index[0];
    if !(e.path == Some(path) && e.name.Some?) {
      e := IndexTruthful(index[1..], path);
    }
  }

  lemma {:induction false} CacheTruthful(cells: seq<Slot>, path: string) returns (c: Slot)
    requires InCache(cells, path).Some?
    ensures c in cells && c.path == path && path != [] && Some(c.name) == InCache(cells, path)
    decreases |cells|
  {
    c := cells[0];
    if !(c.path != [] && c.path == path) {
      c := CacheTruthful(cells[1..], path);
    }
  }

  /** A name that is found, whether in the cache or in the index, is the one enrolled, cut to its buffer. */
  lemma FoundTruthful(f: Faces, path: string, m: map<string, string>)
    requires Truthful(f, m)
    ensures f.Found(path).Some? ==> path in m && f.Found(path).value == Short(m[path])
    ensures InIndex(f.Entries(), path).Some? ==>
              path in m && InIndex(f.Entries(), path) == Some(m[path]) && f.Found(path) == Some(Short(m[path]))
  {
    if path in m {
      ShortTwice(m[path]);
    }
    if InCache(f.cells, path).Some? {
      var c := CacheTruthful(f.cells, path);
    }
    if InIndex(f.Entries(), path).Some? {
      var e := IndexTruthful(f.Entries(), path);
    }
  }

  lemma CachedTruthful(f: Faces, path: string, name: string, m: map<string, string>)
    requires f.Valid() && Truthful(f, m) && path in m && m[path] == name
    ensures Truthful(f.Cached(path, name), m)
  {
    forall c | c in f.Cached(path, name).cells && c.path != [] ensures c.path in m && Short(m[c.path]) == c.name {
      if c in f.cells {
      } else {
        assert c == Slot(path, Short(name));
      }
    }
  }

  lemma UpsertTruthful(f: Faces, x: Entry, m: map<string, string>)
    requires Truthful(f, m) && Proper(x) && x.path.value !in m
    ensures Truthful(f.Upserted(x), m[x.path.value := x.name.value])
  {
    forall e | e in f.Upserted(x).Entries() && e != x ensures e in f.Entries() {
      InOthers(f.Entries(), x.name.value, e);
    }
  }

  lemma StepTruthful(f: Faces, e: Event, m: map<string, string>)
    requires f.Valid() && Truthful(f, m)
    requires e.Enrol? ==> Proper(e.entry) && e.entry.path.value !in m
    ensures Truthful(Next(f, e), if e.Enrol? then m[e.entry.path.value := e.entry.name.value] else m)
  {
    hide Truthful;
    match e {
      case Enrol(x) =>
        UpsertTruthful(f, x, m);
        CachedTruthful(f.Upserted(x), x.path.value, x.name.value, m[x.path.value := x.name.value]);
      case Lookup(path) =>
        FoundTruthful(f, path, m);
        if f.AfterLookup(path) != f {
          CachedTruthful(f, path, InIndex(f.Entries(), path).value, m);
        }
    }
  }

  lemma {:induction false} RunTruthful(f: Faces, es: seq<Event>, known: map<string, string>)
    requires f.Valid() && Truthful(f, known) && Once(es, known)
    ensures Truthful(Run(f, es, known), Enrolled(es, known))
    decreases |es|
  {
    hide Truthful, Next;
    if es != [] {
      RunTruthful(f, es[..|es| - 1], known);
      StepTruthful(Run(f, es[..|es| - 1], known), es[|es| - 1], Enrolled(es[..|es| - 1], known));
    }
  }

  /** What a lookup in the index alone gives, in a buffer of the size of a name. */
  function Listed(index: seq<Entry>, path: string): Option<string> {
    var listed := InIndex(index, path);
    if listed.Some? then Some(Short(listed.value)) else None
  }

  /** Over any enrolments, lookups and evictions, a found name is the one the path was enrolled under, as
      much of it as its buffer holds, and the cache and the index agree on every path still in the index. */
  lemma FoundIsEnrolled(f: Faces, es: seq<Event>, known: map<string, string>, path: string)
    requires f.Valid() && Truthful(f, known) && Once(es, known)
    ensures var g, m := Run(f, es, known), Enrolled(es, known);
            && (g.Found(path).Some? ==> path in m && g.Found(path).value == Short(m[path]))
            && (Listed(g.Entries(), path).Some? ==> g.Found(path) == Listed(g.Entries(), path))
  {
    RunTruthful(f, es, known);
    FoundTruthful(Run(f, es, known), path, Enrolled(es, known));
    hide Run, Truthful, Enrolled;
  }

  /** Names stay distinct over the same runs. */
  lemma {:induction false} NamesStayDistinct(f: Faces, es: seq<Event>, known: map<string, string>)
    requires f.Valid() && DistinctNames(f.Entries()) && Once(es, known)
    ensures DistinctNames(Run(f, es, known).Entries())
    decreases |es|
  {
    hide DistinctNames;
    if es != [] {
      NamesStayDistinct(f, es[..|es| - 1], known);
      if es[|es| - 1].Enrol? {
        UpsertDistinct(Run(f, es[..|es| - 1], known), es[|es| - 1].entry);
      }
    }
  }

  // ---------- When the cache and the index agree ----------

  /** What the event writes into the cache. */
  function Stored(f: Faces, e: Event): seq<Slot>
    requires e.Enrol? ==> Proper(e.entry)
  {
    match e
    case Enrol(x) => [Slot(Clip(x.path.value, PATH_ROOM), Clip(x.name.value, NAME_ROOM))]
    case Lookup(path) =>
      var listed := InIndex(f.Entries(), path);
      if InCache(f.cells, path).None? && listed.Some?
      then [Slot(Clip(path, PATH_ROOM), Clip(listed.value, NAME_ROOM))]
      else []
  }

  /** All that was written into the cache along the run, in order. */
  function Stores(f: Faces, es: seq<Event>, known: map<string, string>): seq<Slot>
    requires f.Valid() && Once(es, known)
    decreases |es|
  {
    if es == [] then []
    else Stores(f, es[..|es| - 1], known) + Stored(Run(f, es[..|es| - 1], known), es[|es| - 1])
  }

  const EMPTY := Slot([], [])

  /** The cache is empty. */
  predicate Unused(f: Faces) { f.Valid() && f.pos == 0 && f.cells == seq(CACHE_MAX, _ => EMPTY) }

  /** The cells, from the one that is overwritten next. */
  function Order(f: Faces): seq<Slot>
    requires f.Valid()
  {
    f.cells[f.pos..] + f.cells[..f.pos]
  }

  lemma CachedOrder(f: Faces, path: string, name: string)
    requires f.Valid()
    ensures Order(f.Cached(path, name))
         == Last(Order(f) + [Slot(Clip(path, PATH_ROOM), Clip(name, NAME_ROOM))], CACHE_MAX)
  {
    var c := f.cells[f.pos := Slot(Clip(path, PATH_ROOM), Clip(name, NAME_ROOM))];
    RingNext(f.pos, CACHE_MAX);
    Shift(f.cells, f.pos, Slot(Clip(path, PATH_ROOM), Clip(name, NAME_ROOM)));
    Whole(c);
    Nil(c);
  }

  lemma NextOrder(f: Faces, e: Event)
    requires f.Valid() && (e.Enrol? ==> Proper(e.entry))
    ensures Order(Next(f, e)) == Last(Order(f) + Stored(f, e), CACHE_MAX)
  {
    hide Order, InIndex, InCache, Others;
    match e {
      case Enrol(x) =>
        CachedOrder(f.Upserted(x), x.path.value, x.name.value);
        SameOrder(f, f.Upserted(x));
      case Lookup(path) =>
        if InCache(f.cells, path).None? && InIndex(f.Entries(), path).Some? {
          CachedOrder(f, path, InIndex(f.Entries(), path).value);
        } else {
          AllOrder(f);
        }
    }
  }

  lemma SameOrder(f: Faces, g: Faces)
    requires f.Valid() && g.cells == f.cells && g.pos == f.pos
    ensures Order(g) == Order(f)
  {
  }

  lemma AllOrder(f: Faces)
    requires f.Valid()
    ensures Last(Order(f) + [], CACHE_MAX) == Order(f)
  {
    Nil(Order(f));
  }

  /** The cache holds the last stores, as many as it has cells. */
  lemma {:induction false} CacheHoldsLast(f: Faces, es: seq<Event>, known: map<string, string>)
    requires Unused(f) && Once(es, known)
    ensures Order(Run(f, es, known)) == Last(seq(CACHE_MAX, _ => EMPTY) + Stores(f, es, known), CACHE_MAX)
    decreases |es|
  {
    var blank := seq(CACHE_MAX, _ => EMPTY);
    if es == [] {
      Nil(blank);
      assert Order(f) == blank;
    } else {
      hide Next, Stored, Order, Proper;
      var before, e := es[..|es| - 1], es[|es| - 1];
      var g := Run(f, before, known);
      CacheHoldsLast(f, before, known);
      NextOrder(g, e);
      LastAgain(blank + Stores(f, before, known), Stored(g, e), CACHE_MAX);
      Associative(blank, Stores(f, before, known), Stored(g, e));
    }
  }

  lemma LastAgain<T>(a: seq<T>, b: seq<T>, n: nat)
    ensures Last(Last(a, n) + b, n) == Last(a + b, n)
  {
    LastOfTwo(a, b, n);
    LastOfTwo(Last(a, n), b, n);
  }

  /** The path is in one of the last stores, as many as the cache has cells. */
  predicate Recent(stores: seq<Slot>, path: string) {
    exists i :: 0 <= i < |stores| && |stores| - CACHE_MAX <= i && stores[i].path == path
  }

  lemma {:induction false} InCacheIff(cells: seq<Slot>, path: string)
    requires path != []
    ensures InCache(cells, path).Some? <==> exists c :: c in cells && c.path == path
    decreases |cells|
  {
    if cells != [] {
      InCacheIff(cells[1..], path);
      assert forall c :: c in cells <==> c == cells[0] || c in cells[1..];
    }
  }

  lemma RecentIff(stores: seq<Slot>, path: string)
    requires path != []
    ensures Recent(stores, path)
       <==> exists c :: c in Last(seq(CACHE_MAX, _ => EMPTY) + stores, CACHE_MAX) && c.path == path
  {
    var blank := seq(CACHE_MAX, _ => EMPTY);
    var all := blank + stores;
    var last := Last(all, CACHE_MAX);
    assert forall k :: 0 <= k < CACHE_MAX ==> last[k] == all[|stores| + k];
    if Recent(stores, path) {
      var i :| 0 <= i < |stores| && |stores| - CACHE_MAX <= i && stores[i].path == path;
      assert last[i + CACHE_MAX - |stores|] == all[i + CACHE_MAX] == stores[i];
    }
    if c :| c in last && c.path == path {
      var k :| 0 <= k < CACHE_MAX && last[k] == c;
      assert all[|stores| + k] == c && |stores| + k >= CACHE_MAX;
      assert stores[|stores| + k - CACHE_MAX] == c;
    }
  }

  lemma OrderCells(f: Faces, path: string)
    requires f.Valid()
    ensures (exists c :: c in Order(f) && c.path == path) <==> (exists c :: c in f.cells && c.path == path)
  {
    assert f.cells == f.cells[..f.pos] + f.cells[f.pos..];
    assert forall c :: c in Order(f) <==> c in f.cells;
  }

  /** A path is found in the cache exactly when it is in one of the last 64 stores. */
  lemma CachedIffRecent(f: Faces, es: seq<Event>, known: map<string, string>, path: string)
    requires Unused(f) && Once(es, known) && path != []
    ensures InCache(Run(f, es, known).cells, path).Some? <==> Recent(Stores(f, es, known), path)
  {
    hide *;
    UnusedValid(f);
    var g := Run(f, es, known);
    CacheHoldsLast(f, es, known);
    RecentIff(Stores(f, es, known), path);
    OrderCells(g, path);
    InCacheIff(g.cells, path);
  }

  lemma UnusedValid(f: Faces)
    requires Unused(f)
    ensures f.Valid()
  {
  }

  /** The cached lookup agrees with the index alone exactly for the paths still in the index, and for
      those that are in none of the last 64 stores. */
  lemma AgreeIff(f: Faces, es: seq<Event>, known: map<string, string>, path: string)
    requires Unused(f) && Truthful(f, known) && Once(es, known) && path != []
    ensures var g := Run(f, es, known);
            var listed := Listed(g.Entries(), path);
            g.Found(path) == listed <==> listed.Some? || !Recent(Stores(f, es, known), path)
  {
    FoundIsEnrolled(f, es, known, path);
    CachedIffRecent(f, es, known, path);
    hide Run, Stores, Recent, Truthful, Once, InIndex, InCache, Enrolled;
  }

  lemma {:induction false} NotListed(index: seq<Entry>, path: string)
    ensures InIndex(index, path).None? <==> forall e :: e in index ==> e.path != Some(path) || e.name.None?
    decreases |index|
  {
    if index != [] {
      NotListed(index[1..], path);
      assert forall e :: e in index <==> e == index[0] || e in index[1..];
    }
  }

  lemma {:induction false} EnrolledGrows(es: seq<Event>, later: seq<Event>, known: map<string, string>)
    requires Once(es + later, known)
    ensures Once(es, known) && Enrolled(es, known).Keys <= Enrolled(es + later, known).Keys
    decreases |later|
  {
    if later == [] {
      Nil(es);
    } else {
      assert (es + later)[..|es + later| - 1] == es + later[..|later| - 1];
      EnrolledGrows(es, later[..|later| - 1], known);
    }
  }

  /** A path that has left the index does not come back, and is not stored again. */
  lemma StaysOut(g: Faces, e: Event, m: map<string, string>, path: string)
    requires g.Valid() && Truthful(g, m) && path in m && InIndex(g.Entries(), path).None?
    requires e.Enrol? ==> Proper(e.entry) && e.entry.path.value !in m
    ensures InIndex(Next(g, e).Entries(), path).None?
    ensures forall c :: c in Stored(g, e) ==> c.path != path
  {
    match e {
      case Enrol(x) =>
        hide Truthful;
        NotListed(g.Entries(), path);
        NotListed(Others(g.Entries(), x.name.value) + [x], path);
        forall y ensures y in Others(g.Entries(), x.name.value) ==> y in g.Entries() {
          InOthers(g.Entries(), x.name.value, y);
        }
      case Lookup(q) =>
        if InIndex(g.Entries(), q).Some? {
          FoundTruthful(g, q, m);
        }
    }
  }

  lemma {:induction false} Replaced(f: Faces, es: seq<Event>, later: seq<Event>, known: map<string, string>,
                                    path: string)
    requires f.Valid() && Truthful(f, known) && Once(es + later, known) && Once(es, known)
    requires path in Enrolled(es, known) && InIndex(Run(f, es, known).Entries(), path).None?
    ensures InIndex(Run(f, es + later, known).Entries(), path).None?
    ensures var had, all := Stores(f, es, known), Stores(f, es + later, known);
            had <= all && forall i :: |had| <= i < |all| ==> all[i].path != path
    decreases |later|
  {
    hide Next, Stored, Truthful, Proper, InIndex;
    if later == [] {
      Nil(es);
    } else {
      var front, e := later[..|later| - 1], later[|later| - 1];
      var before := es + front;
      assert (es + later)[..|es + later| - 1] == before;
      Replaced(f, es, front, known, path);
      EnrolledGrows(es, front, known);
      RunTruthful(f, before, known);
      StaysOut(Run(f, before, known), e, Enrolled(before, known), path);
      var stored := Stored(Run(f, before, known), e);
      assert forall i :: 0 <= i < |stored| ==> stored[i] in stored;
    }
  }

  /** A path that a new enrolment has pushed out of the index is still found until 64 slots have been
      stored after its last one, and never again. */
  lemma FoundUntilEvicted(f: Faces, es: seq<Event>, later: seq<Event>, known: map<string, string>, path: string, i: nat)
    requires Unused(f) && Truthful(f, known) && Once(es + later, known) && Once(es, known) && path != []
    requires path in Enrolled(es, known) && InIndex(Run(f, es, known).Entries(), path).None?
    requires i < |Stores(f, es, known)| && Stores(f, es, known)[i].path == path
    requires forall j :: i < j < |Stores(f, es, known)| ==> Stores(f, es, known)[j].path != path
    ensures var g, all := Run(f, es + later, known), Stores(f, es + later, known);
            && InIndex(g.Entries(), path).None? && i < |all|
            && (g.Found(path).Some? <==> |all| - 1 - i < CACHE_MAX)
  {
    var had, all := Stores(f, es, known), Stores(f, es + later, known);
    Replaced(f, es, later, known, path);
    CachedIffRecent(f, es + later, known, path);
    hide Run, Stores, Once, Truthful, InIndex, InCache, Enrolled;
    assert all[i] == had[i];
    forall j | i < j < |all| ensures all[j].path != path {
      if j < |had| {
        assert all[j] == had[j];
      }
    }
  }

  lemma TwoEnrolments(f: Faces, e1: Entry, e2: Entry)
    requires f.Valid() && Proper(e1) && Proper(e2) && e1.path != e2.path
    ensures Once([Enrol(e1), Enrol(e2)], map[])
    ensures Run(f, [Enrol(e1), Enrol(e2)], map[]) == Next(Next(f, Enrol(e1)), Enrol(e2))
  {
    var one, two := [Enrol(e1)], [Enrol(e1), Enrol(e2)];
    hide Next;
    assert two[..|two| - 1] == one && one[..|one| - 1] == [];
    assert Once([], map[]) && Enrolled([], map[]) == map[] && Run(f, [], map[]) == f;
    assert Once(one, map[]) && Enrolled(one, map[]) == map[e1.path.value := e1.name.value];
    assert Run(f, one, map[]) == Next(f, Enrol(e1));
  }

  lemma EnrolledAgain(f: Faces, e1: Entry, e2: Entry)
    requires f.Valid() && f.Entries() == [] && f.pos == 0 && Proper(e1) && Proper(e2) && e1.name == e2.name
    ensures var g := Next(Next(f, Enrol(e1)), Enrol(e2));
            g.Entries() == [e2] && g.cells[0] == Slot(e1.path.value, Short(e1.name.value))
  {
    var f1 := Next(f, Enrol(e1));
    assert f1.Entries() == [e1] && f1.pos == 1 && f1.cells[0] == Slot(e1.path.value, Short(e1.name.value));
    assert [e1][..0] == [];
    assert Others([e1], e2.name.value) == [];
  }

  lemma FoundInFirstSlot(f: Faces, e: Entry, path: string, name: string)
    requires f.Valid() && f.Entries() == [e] && e.path != Some(path) && f.cells[0] == Slot(path, Short(name))
    requires path != []
    ensures f.Found(path) == Some(Short(name)) && InIndex(f.Entries(), path) == None
  {
    ShortTwice(name);
    assert [e][1..] == [];
  }

  /** Agreement holds only for paths still in the index: when a name is enrolled again, its old path
      leaves the index and is still found through the cache. */
  lemma StalePathIsFound(e1: Entry, e2: Entry)
    requires Proper(e1) && Proper(e2) && e1.name == e2.name && e1.path != e2.path
    ensures var es := [Enrol(e1), Enrol(e2)];
            && Once(es, map[])
            && var f := Run(Faces(None, seq(CACHE_MAX, _ => Slot([], [])), 0), es, map[]);
               f.Found(e1.path.value) == Some(Short(e1.name.value)) && InIndex(f.Entries(), e1.path.value) == None
  {
    hide Run, Once, Next, InIndex, InCache;
    var start := Faces(None, seq(CACHE_MAX, _ => Slot([], [])), 0);
    TwoEnrolments(start, e1, e2);
    EnrolledAgain(start, e1, e2);
    FoundInFirstSlot(Next(Next(start, Enrol(e1)), Enrol(e2)), e2, e1.path.value, e1.name.value);
  }
}
