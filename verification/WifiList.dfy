/** The list of access points that the device sends: sorted by signal strength, and cut to what one
    notification can carry. */
module WifiList {
  import opened BleFrames
  import opened BleSession
  import opened Crc16
  import opened Options
  import opened Text
  import Seqs

  datatype AccessPoint = AccessPoint(ssid: string, rssi: int)

  /** What the scan can leave in the table: an SSID of at most 127 bytes, and a C int. */
  predicate Scanned(ap: AccessPoint) {
    |ap.ssid| <= 127 && IsText(ap.ssid) && '\0' !in ap.ssid && -0x8000_0000 <= ap.rssi < 0x8000_0000
  }

  const LIST_COMMAND: bv16 := 0x1001

  // ---------- Sorting ----------

  predicate Descending(aps: seq<AccessPoint>) {
    forall i, j :: 0 <= i < j < |aps| ==> aps[i].rssi >= aps[j].rssi
  }

  function Swapped(aps: seq<AccessPoint>, i: nat, j: nat): (s: seq<AccessPoint>)
    requires i < |aps| && j < |aps|
    ensures |s| == |aps| && s[i] == aps[j] && s[j] == aps[i]
    ensures forall k :: 0 <= k < |aps| && k != i && k != j ==> s[k] == aps[k]
    ensures multiset(s) == multiset(aps)
  {
    aps[i := aps[j]][j := aps[i]]
  }

  method Swap(aps: array<AccessPoint>, n: nat, i: nat, j: nat)
    requires i < n <= aps.Length && j < n
    modifies aps
    ensures aps[..n] == Swapped(old(aps[..n]), i, j) && aps[n..] == old(aps[n..])
  {
    var tmp := aps[i];
    aps[i] := aps[j];
    aps[j] := tmp;
  }

  /** The first `i` entries are at least as strong as each one after them. */
  predicate Placed(aps: seq<AccessPoint>, i: nat) {
    forall p, q :: 0 <= p < i && p < q < |aps| ==> aps[p].rssi >= aps[q].rssi
  }

  lemma SwapPlaced(aps: seq<AccessPoint>, i: nat, j: nat)
    requires Placed(aps, i) && i < j < |aps|
    ensures Placed(Swapped(aps, i, j), i)
  {
  }

  /** The inner loop: exchanges until entry `i` is the strongest of those from `i` on. */
  method PlaceStrongest(aps: array<AccessPoint>, n: nat, i: nat)
    requires i < n <= aps.Length && Placed(aps[..n], i)
    modifies aps
    ensures Placed(aps[..n], i + 1)
    ensures multiset(aps[..n]) == old(multiset(aps[..n])) && aps[n..] == old(aps[n..])
  {
    var j := i + 1;
    hide Placed, Swapped;
    while j < n
      invariant i < j <= n && Placed(aps[..n], i)
      invariant multiset(aps[..n]) == old(multiset(aps[..n])) && aps[n..] == old(aps[n..])
      invariant Tops(aps[..n], i, j)
    {
      if aps[j].rssi > aps[i].rssi {
        SwapPlaced(aps[..n], i, j);
        Swap(aps, n, i, j);
      }
      j := j + 1;
    }
    PlacedNext(aps[..n], i);
  }

  /** Entry `i` is at least as strong as those after it and before `j`. */
  predicate Tops(aps: seq<AccessPoint>, i: nat, j: nat)
    requires i < |aps| && j <= |aps|
  {
    forall q :: i < q < j ==> aps[i].rssi >= aps[q].rssi
  }

  lemma PlacedNext(aps: seq<AccessPoint>, i: nat)
    requires i < |aps| && Placed(aps, i) && Tops(aps, i, |aps|)
    ensures Placed(aps, i + 1)
  {
  }

  /** The exchange sort over the first `n` entries of the table. */
  method SortByStrength(aps: array<AccessPoint>, n: nat)
    requires n <= aps.Length
    modifies aps
    ensures Descending(aps[..n]) && multiset(aps[..n]) == old(multiset(aps[..n]))
    ensures aps[n..] == old(aps[n..])
  {
    var i := 0;
    while i + 1 < n
      invariant i == 0 || i < n
      invariant multiset(aps[..n]) == old(multiset(aps[..n])) && aps[n..] == old(aps[n..])
      invariant Placed(aps[..n], i)
    {
      PlaceStrongest(aps, n, i);
      i := i + 1;
    }
  }

  // ---------- Packing ----------

  const OPENING := "{\"ssid\":\""
  const RSSI := ",\"rssi\":"

  /** One element of the list. */
  function Entry(ap: AccessPoint): (s: string)
    ensures s != []
  {
    OPENING + (Escape(ap.ssid) + ['"'] + (RSSI + (Decimal(ap.rssi) + "}")))
  }

  /** What separates the `k`th element from those before it. */
  function Comma(k: nat): string { if k > 0 then "," else [] }

  /** The elements of the list with commas between them. */
  function Entries(aps: seq<AccessPoint>): string
    decreases |aps|
  {
    if aps == [] then []
    else
      var k := |aps| - 1;
      Entries(aps[..k]) + (Comma(k) + Entry(aps[k]))
  }

  function Json(aps: seq<AccessPoint>): string { "[" + Entries(aps) + "]" }

  function Mtu(mtu: nat): nat { if mtu < 23 then 23 else mtu }

  /** The largest list that a notification may carry: the MTU without three bytes for the attribute
      protocol and nine for the frame. */
  function MaxJson(mtu: nat): nat { Mtu(mtu) - 3 - 9 }

  lemma EntriesSnoc(aps: seq<AccessPoint>, k: nat)
    requires k < |aps|
    ensures Entries(aps[..k + 1]) == Entries(aps[..k]) + (Comma(k) + Entry(aps[k]))
  {
    assert aps[..k + 1][..k] == aps[..k];
  }

  /** Longer prefixes have longer texts, so the first that does not fit ends the search for good. */
  lemma {:induction false} JsonGrows(aps: seq<AccessPoint>, j: nat, k: nat)
    requires j < k <= |aps|
    ensures |Json(aps[..j])| < |Json(aps[..k])|
    decreases k
  {
    hide Entry, Entries;
    EntriesSnoc(aps, k - 1);
    if j < k - 1 {
      JsonGrows(aps, j, k - 1);
    }
  }

  /** The first `k` access points fit, and no more of them do. */
  predicate Longest(aps: seq<AccessPoint>, k: nat, max: nat) {
    && k <= |aps| && |Json(aps[..k])| <= max
    && forall m :: k < m <= |aps| ==> |Json(aps[..m])| > max
  }

  /** One element never outgrows its buffer of 300 bytes. */
  lemma EntryShort(ap: AccessPoint)
    requires Scanned(ap)
    ensures |Entry(ap)| <= 284
  {
    DecimalShort(ap.rssi);
  }

  lemma EntryIsText(ap: AccessPoint)
    requires Scanned(ap)
    ensures IsText(Entry(ap))
  {
    EscapeIsText(ap.ssid);
    DecimalIsText(ap.rssi);
    hide Escape, Decimal;
    AppendText(Decimal(ap.rssi), "}");
    AppendText(RSSI, Decimal(ap.rssi) + "}");
    AppendText(Escape(ap.ssid), ['"']);
    AppendText(Escape(ap.ssid) + ['"'], RSSI + (Decimal(ap.rssi) + "}"));
    AppendText(OPENING, Escape(ap.ssid) + ['"'] + (RSSI + (Decimal(ap.rssi) + "}")));
  }

  lemma {:induction false} EntriesAreText(aps: seq<AccessPoint>)
    requires forall ap :: ap in aps ==> Scanned(ap)
    ensures IsText(Entries(aps))
    decreases |aps|
  {
    hide Scanned, Entry, IsText, Comma;
    if aps == [] {
      NothingIsText();
    } else {
      var k := |aps| - 1;
      EntriesAreText(aps[..k]);
      EntryIsText(aps[k]);
      CommaIsText(k);
      AppendText(Comma(k), Entry(aps[k]));
      AppendText(Entries(aps[..k]), Comma(k) + Entry(aps[k]));
    }
  }

  lemma NothingIsText()
    ensures IsText([])
  {
  }

  lemma CommaIsText(k: nat)
    ensures IsText(Comma(k))
  {
  }

  lemma JsonIsText(aps: seq<AccessPoint>)
    requires forall ap :: ap in aps ==> Scanned(ap)
    ensures IsText(Json(aps))
  {
    EntriesAreText(aps);
    AppendText("[", Entries(aps));
    AppendText("[" + Entries(aps), "]");
  }

  /** The loop that escapes an SSID into a buffer of 256 bytes. */
  method EscapeSsid(s: string) returns (safe: string)
    requires |s| <= 127
    ensures safe == Escape(s)
  {
    safe := [];
    var si := 0;
    while si < |s| && |safe| + 2 < 256
      invariant si <= |s| && safe == Escape(s[..si])
    {
      EscapeSnoc(s[..si], s[si]);
      Seqs.SliceSnoc(s, 0, si);
      if s[si] == '"' || s[si] == '\\' {
        safe := safe + ['\\'];
      }
      safe := safe + [s[si]];
      si := si + 1;
    }
    Seqs.Whole(s);
  }

  /** The element as it is printed, which its buffer of 300 bytes never cuts. */
  method PrintEntry(ap: AccessPoint, count: nat) returns (entry: string)
    requires Scanned(ap)
    ensures entry == Comma(count) + Entry(ap) && |entry| < 300
  {
    EntryShort(ap);
    var safe := EscapeSsid(ap.ssid);
    entry := Comma(count) + (OPENING + (safe + ['"'] + (RSSI + (Decimal(ap.rssi) + "}"))));
  }

  lemma NoEntries(aps: seq<AccessPoint>)
    ensures Entries(aps[..0]) == []
  {
  }

  /** The size of the text buffer. */
  const TEXT_ROOM := 2048

  /** No prefix of the list that the notification could carry has a text by which the room left in the
      buffer, the difference of its size and the length so far, becomes negative before the last write. */
  predicate Roomy(aps: seq<AccessPoint>, max: nat) {
    forall m :: 0 <= m <= |aps| && |Json(aps[..m])| <= max ==> |Json(aps[..m])| - 1 <= TEXT_ROOM
  }

  /** The loop that appends elements while they fit, as far as the room left in the buffer is not negative. */
  method PackList(aps: seq<AccessPoint>, maxJson: nat) returns (json: string, k: nat, room: bool)
    requires (forall ap :: ap in aps ==> Scanned(ap)) && 11 <= maxJson
    ensures room <==> Roomy(aps, maxJson)
    ensures room ==> Longest(aps, k, maxJson) && json == Json(aps[..k])
  {
    json := "[";
    k, room := 0, false;
    var apCount := 0;
    NoEntries(aps);
    hide Entry, Entries, Scanned, Comma;
    while apCount < |aps|
      invariant apCount <= |aps| && json == "[" + Entries(aps[..apCount]) && |json| + 1 <= maxJson
      invariant apCount < |aps| ==> Scanned(aps[apCount])
    {
      var entry := PrintEntry(aps[apCount], apCount);
      EntriesSnoc(aps, apCount);
      if |json| + |entry| + 1 > maxJson {
        break;
      }
      if |json| > TEXT_ROOM {
        assert |Json(aps[..apCount])| <= maxJson;
        return;
      }
      Seqs.Associative("[", Entries(aps[..apCount]), entry);
      json := json + entry;
      apCount := apCount + 1;
      assert apCount < |aps| ==> aps[apCount] in aps;
    }
    k := apCount;
    assert |Json(aps[..k])| == |json| + 1;
    if |json| > TEXT_ROOM {
      return;
    }
    json := json + "]";
    room := true;
    forall m | k < m <= |aps|
      ensures |Json(aps[..m])| > maxJson
    {
      if k + 1 < m {
        JsonGrows(aps, k + 1, m);
      }
    }
    forall m | 0 <= m < k ensures |Json(aps[..m])| - 1 <= TEXT_ROOM {
      JsonGrows(aps, m, k);
    }
  }

  // ---------- Sending ----------

  lemma MembersScanned(aps: seq<AccessPoint>, was: seq<AccessPoint>)
    requires multiset(aps) == multiset(was) && forall ap :: ap in was ==> Scanned(ap)
    ensures forall ap :: ap in aps ==> Scanned(ap)
  {
    forall ap | ap in aps ensures Scanned(ap) {
      assert ap in multiset(aps);
    }
  }

  lemma PrefixScanned(aps: seq<AccessPoint>, k: nat)
    requires k <= |aps| && forall ap :: ap in aps ==> Scanned(ap)
    ensures IsText(Json(aps[..k]))
  {
    assert forall ap :: ap in aps[..k] ==> ap in aps;
    JsonIsText(aps[..k]);
  }

  /** The frame for the first `k` access points, unless notifications are off or the packet buffer is
      too small for it. */
  function Notified(enabled: bool, aps: seq<AccessPoint>, k: nat): Option<bytes>
    requires k <= |aps| && IsText(Json(aps[..k])) && |Json(aps[..k])| <= 65533
  {
    if enabled && |Json(aps[..k])| + 9 <= PKT_MAX then Some(Encode(LIST_COMMAND, Bytes(Json(aps[..k])))) else None
  }

  /** The part of `send_demo_wifi_list` after the scan, for the `total` entries that it found: they are
      sorted, and as long as the text buffer has room what goes out is the longest sorted prefix that fits,
      or the empty list. Otherwise `room` is false, and what the code then does is not modelled. */
  method SendWifiList(aps: array<AccessPoint>, total: nat, enabled: bool, mtu: nat)
    returns (sent: Option<bytes>, k: nat, room: bool)
    requires total <= aps.Length && (forall i :: 0 <= i < total ==> Scanned(aps[i])) && mtu < 0x1_0000
    modifies aps
    ensures Descending(aps[..total]) && multiset(aps[..total]) == old(multiset(aps[..total]))
    ensures room <==> Roomy(aps[..total], MaxJson(mtu))
    ensures mtu <= 2061 ==> room
    ensures room ==> Longest(aps[..total], k, MaxJson(mtu))
    ensures room ==>
              var limit := (if mtu < 23 then 23 else mtu) - 3;
              && k <= total && |Json(aps[..total][..k])| + 9 <= limit
              && forall m :: k < m <= total ==> |Json(aps[..total][..m])| + 9 > limit
    ensures room ==> IsText(Json(aps[..total][..k])) && sent == Notified(enabled, aps[..total], k)
    ensures enabled && mtu <= 771 ==> sent.Some?
    ensures room && sent.Some? ==> ReadNotified(sent.value) == Some(aps[..total][..k])
  {
    ghost var was := aps[..total];
    SortByStrength(aps, total);
    MembersScanned(aps[..total], was);
    var json;
    json, k, room := PackList(aps[..total], MaxJson(mtu));
    hide Json, Encode, Bytes, Scanned;
    if !room {
      return None, k, false;
    }
    PrefixScanned(aps[..total], k);
    sent := SendNotify(enabled, LIST_COMMAND, Bytes(json), mtu);
    hide ReadNotified, Notified;
    NotifiedIsRead(enabled, aps[..total], k, []);
    if sent.Some? {
      Seqs.Nil(sent.value);
    }
  }

  // ---------- Reading the list back ----------

  datatype EntryRead = NoEntry | EntryRead(ap: AccessPoint, rest: string)

  function ReadEntry(s: string): (r: EntryRead)
    ensures r.EntryRead? ==> |r.rest| < |s|
  {
    if OPENING <= s then
      var q := ReadQuoted(s[|OPENING|..]);
      if q.Read? && RSSI <= q.rest && |q.rest| < |s| then
        var n := ReadInt(q.rest[|RSSI|..]);
        if n.1 != [] && n.1[0] == '}' && |n.1| <= |q.rest|
        then EntryRead(AccessPoint(q.text, n.0), n.1[1..])
        else NoEntry
      else NoEntry
    else NoEntry
  }

  /** Reads the elements of a list up to its closing bracket. */
  function ReadEntries(s: string): Option<seq<AccessPoint>>
    decreases |s|
  {
    match ReadEntry(s)
    case NoEntry => None
    case EntryRead(ap, rest) =>
      if rest == "]" then Some([ap])
      else if rest != [] && rest[0] == ',' then
        (match ReadEntries(rest[1..])
         case None => None
         case Some(aps) => Some([ap] + aps))
      else None
  }

  function ReadList(s: string): Option<seq<AccessPoint>> {
    if s == "[]" then Some([])
    else if s != [] && s[0] == '[' then ReadEntries(s[1..])
    else None
  }

  lemma ReadPrinted(ap: AccessPoint, t: string)
    ensures ReadEntry(Entry(ap) + t) == EntryRead(ap, t)
  {
    var d := Decimal(ap.rssi) + ("}" + t);
    var q := RSSI + d;
    var e := Escape(ap.ssid) + ['"'] + q;
    assert Entry(ap) + t == OPENING + e;
    assert (OPENING + e)[|OPENING|..] == e;
    ReadEscaped(ap.ssid, q);
    assert q[|RSSI|..] == d;
    ReadDecimal(ap.rssi, "}" + t);
    Seqs.TailOfCons('}', t);
  }

  lemma {:induction false} EntriesHead(aps: seq<AccessPoint>)
    requires aps != []
    ensures Entries(aps) == Entry(aps[0]) + if |aps| == 1 then [] else "," + Entries(aps[1..])
    decreases |aps|
  {
    hide Entry;
    if |aps| > 1 {
      var front, last := aps[..|aps| - 1], aps[|aps| - 1];
      EntriesHead(front);
      assert front[1..] == aps[1..][..|aps| - 2];
    }
  }

  /** A reader of the elements finds them all, in order. */
  lemma {:induction false} ReadAllEntries(aps: seq<AccessPoint>)
    requires aps != []
    ensures ReadEntries(Entries(aps) + "]") == Some(aps)
    decreases |aps|
  {
    hide ReadEntry, Entry, Entries;
    EntriesHead(aps);
    if |aps| == 1 {
      Seqs.Nil(Entry(aps[0]));
      ReadPrinted(aps[0], "]");
      assert aps == [aps[0]];
    } else {
      ReadAllEntries(aps[1..]);
      var rest := Entries(aps[1..]) + "]";
      Reassociate(Entry(aps[0]), ",", Entries(aps[1..]), "]");
      ReadPrinted(aps[0], "," + rest);
      Seqs.TailOfCons(',', rest);
      Seqs.ConsOfParts(aps);
    }
  }

  lemma Reassociate<T>(a: seq<T>, b: seq<T>, c: seq<T>, d: seq<T>)
    ensures (a + (b + c)) + d == a + (b + (c + d))
  {
  }

  lemma SomeEntries(aps: seq<AccessPoint>)
    requires aps != []
    ensures Entries(aps) != []
  {
  }

  lemma OpenBracket(s: string)
    requires s != []
    ensures var j := "[" + s + "]"; j != "[]" && j[0] == '[' && j[1..] == s + "]"
  {
    var j := "[" + s + "]";
    assert |j| > 2;
  }

  /** Reading undoes packing. */
  lemma ListRoundTrip(aps: seq<AccessPoint>)
    ensures ReadList(Json(aps)) == Some(aps)
  {
    if aps == [] {
      NoEntries(aps);
      assert Json(aps) == "[]";
    } else {
      hide ReadEntries, Entry, Entries;
      SomeEntries(aps);
      ReadAllEntries(aps);
      OpenBracket(Entries(aps));
    }
  }

  // ---------- What the receiver of the list reads ----------

  /** What a receiver of notifications makes of the bytes: the list in the first frame, if it is one. */
  function ReadNotified(b: bytes): Option<seq<AccessPoint>> {
    match NextStep(b)
    case Deliver(_, m) => if m.cmd == LIST_COMMAND then ReadList(Chars(m.payload)) else None
    case _ => None
  }

  /** The phone reads exactly the access points that were packed, in order, whatever follows the frame. */
  lemma NotifiedIsRead(enabled: bool, aps: seq<AccessPoint>, k: nat, more: bytes)
    requires k <= |aps| && IsText(Json(aps[..k])) && |Json(aps[..k])| <= 65533
    ensures var sent := Notified(enabled, aps, k);
            && (sent.Some? <==> enabled && |Json(aps[..k])| <= 759)
            && (sent.Some? ==> ReadNotified(sent.value + more) == Some(aps[..k]))
  {
    var json := Json(aps[..k]);
    if enabled && |json| <= 759 {
      EncodeDelivers(LIST_COMMAND, Bytes(json), more);
      CharsOfBytes(json);
      ListRoundTrip(aps[..k]);
      hide NextStep, Encode, ReadList, Json, Chars, Bytes;
    }
  }
}
