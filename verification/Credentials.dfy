/** The Wi-Fi credentials that the app sends as JSON: the parser that finds the two fields, and the
    escaping of their values for the configuration file. */
module Credentials {
  import opened Options
  import opened Text
  import Seqs

  /** A buffer read as a C string: what comes before its first NUL. */
  function CString(s: string): (c: string)
    ensures c <= s && '\0' !in c
    ensures c == s || s[|c|] == '\0'
    decreases |s|
  {
    if s == [] || s[0] == '\0' then [] else [s[0]] + CString(s[1..])
  }

  predicate IsSpace(c: char) { c == ' ' || '\t' <= c <= '\r' }

  /** The six characters that count as spaces: the blank and those from the tabulator to the carriage return. */
  lemma SpacesAre(c: char)
    ensures IsSpace(c) <==> c as int in {9, 10, 11, 12, 13, 32}
  {
    assert c == ' ' <==> c as int == 32;
    assert '\t' as int == 9 && '\r' as int == 13;
  }

  predicate OccursAt(s: string, p: string, i: nat) { i + |p| <= |s| && s[i..i + |p|] == p }

  /** The first place from `i` on where `p` occurs, or the length of `s`. */
  function FindText(s: string, p: string, i: nat): (r: nat)
    requires i <= |s|
    ensures i <= r <= |s|
    ensures r < |s| ==> r + |p| <= |s| && OccursAt(s, p, r)
    ensures forall j :: i <= j < r ==> !OccursAt(s, p, j)
    decreases |s| - i
  {
    if i == |s| || OccursAt(s, p, i) then i else FindText(s, p, i + 1)
  }

  /** The first place from `i` on that holds `c`, or the length of `s`. */
  function FindChar(s: string, c: char, i: nat): (r: nat)
    requires i <= |s|
    ensures i <= r <= |s| && (r < |s| ==> s[r] == c)
    ensures forall j :: i <= j < r ==> s[j] != c
    decreases |s| - i
  {
    if i == |s| || s[i] == c then i else FindChar(s, c, i + 1)
  }

  function SkipSpaces(s: string, i: nat): (r: nat)
    requires i <= |s|
    ensures i <= r <= |s| && (r < |s| ==> !IsSpace(s[r]))
    ensures forall j :: i <= j < r ==> IsSpace(s[j])
    decreases |s| - i
  {
    if i == |s| || !IsSpace(s[i]) then i else SkipSpaces(s, i + 1)
  }

  function Quoted(key: string): (q: string)
    ensures |q| == |key| + 2
  {
    ['"'] + key + ['"']
  }

  /** The value of a field, from the place just after its key: past the next colon and spaces, what
      stands between two quotes. */
  function ValueAfter(json: string, p: nat): Option<string>
    requires p <= |json|
  {
    var colon := FindChar(json, ':', p);
    if colon == |json| then None
    else
      var start := SkipSpaces(json, colon + 1);
      if start == |json| || json[start] != '"' then None
      else
        var end := FindChar(json, '"', start + 1);
        if end == |json| then None else Some(json[start + 1..end])
  }

  /** The key is searched for in the C string only, the rest in the whole message. */
  function Field(json: string, key: string): Option<string> {
    var text := CString(json);
    var at := FindText(text, Quoted(key), 0);
    if at == |text| then None else ValueAfter(json, at + |Quoted(key)|)
  }

  /** The SSID and the password. */
  datatype Credential = Credential(ssid: string, pass: string)

  /** The sizes of the buffers for them. */
  const SSID_ROOM := 64
  const PASS_ROOM := 80

  function Either(json: string, key: string, other: string): Option<string> {
    if Field(json, key).Some? then Field(json, key) else Field(json, other)
  }

  function Parse(json: string): Option<Credential> {
    match Either(json, "ssid", "SSID")
    case None => None
    case Some(ssid) =>
      var pass := Either(json, "pass", "PSK");
      Some(Credential(Clip(ssid, SSID_ROOM), if pass.Some? then Clip(pass.value, PASS_ROOM) else []))
  }

  // ---------- The parser ----------

  /** `strstr`: where the text occurs first in the C string, or -1. */
  method StrStr(text: string, pattern: string) returns (at: int)
    requires pattern != []
    ensures FindText(text, pattern, 0) == if at < 0 then |text| else at
    ensures at < |text|
  {
    var i := 0;
    while i < |text|
      invariant i <= |text| && FindText(text, pattern, i) == FindText(text, pattern, 0)
    {
      if OccursAt(text, pattern, i) {
        return i;
      }
      i := i + 1;
    }
    at := -1;
  }

  /** The loops that look for one character. */
  method ScanFor(json: string, c: char, from: nat) returns (p: nat)
    requires from <= |json|
    ensures p == FindChar(json, c, from)
  {
    p := from;
    while p < |json| && json[p] != c
      invariant from <= p <= |json| && FindChar(json, c, p) == FindChar(json, c, from)
    {
      p := p + 1;
    }
  }

  method ScanSpaces(json: string, from: nat) returns (p: nat)
    requires from <= |json|
    ensures p == SkipSpaces(json, from)
  {
    p := from;
    while p < |json| && IsSpace(json[p])
      invariant from <= p <= |json| && SkipSpaces(json, p) == SkipSpaces(json, from)
    {
      p := p + 1;
    }
  }

  function Clipped(v: Option<string>, room: nat): Option<string>
    requires room > 0
  {
    if v.Some? then Some(Clip(v.value, room)) else None
  }

  /** The part of `json_get_string_field` after the key. */
  method GetValue(json: string, from: nat, room: nat) returns (r: Option<string>)
    requires room > 0 && from <= |json|
    ensures r == Clipped(ValueAfter(json, from), room)
  {
    hide FindChar, SkipSpaces;
    var p := ScanFor(json, ':', from);
    if p >= |json| {
      return None;
    }
    p := ScanSpaces(json, p + 1);
    if p >= |json| || json[p] != '"' {
      return None;
    }
    p := p + 1;
    var q := ScanFor(json, '"', p);
    if q >= |json| {
      return None;
    }
    var n := q - p;
    if n >= room {
      n := room - 1;
    }
    ClipSlice(json, p, q, n);
    return Some(json[p..p + n]);
  }

  /** `json_get_string_field`, into a buffer of `room` bytes. */
  method GetStringField(json: string, key: string, room: nat) returns (r: Option<string>)
    requires room > 0
    ensures r == Clipped(Field(json, key), room)
  {
    hide CString, Quoted, FindText, OccursAt, ValueAfter, Clip;
    var at := StrStr(CString(json), Quoted(key));
    if at < 0 {
      return None;
    }
    r := GetValue(json, at + |Quoted(key)|, room);
  }

  lemma ClipSlice(json: string, p: nat, q: nat, n: nat)
    requires p <= q <= |json| && n <= q - p
    ensures json[p..p + n] == json[p..q][..n] && (n == q - p ==> json[p..p + n] == json[p..q])
  {
  }

  /** `parse_wifi_credential`. */
  method ParseWifiCredential(json: string) returns (r: Option<Credential>)
    ensures r == Parse(json)
  {
    hide Field;
    var ssid := GetStringField(json, "ssid", SSID_ROOM);
    if ssid.None? {
      ssid := GetStringField(json, "SSID", SSID_ROOM);
      if ssid.None? {
        return None;
      }
    }
    var pass := GetStringField(json, "pass", PASS_ROOM);
    if pass.None? {
      pass := GetStringField(json, "PSK", PASS_ROOM);
      if pass.None? {
        pass := Some([]);
      }
    }
    r := Some(Credential(ssid.value, pass.value));
  }

  // ---------- What the parser finds ----------

  /** `h` with one more quoted text and the character after it. */
  function Piece(h: string, w: string, x: char): (m: string)
    ensures |m| == |h| + |w| + 3
  {
    h + Quoted(w) + [x]
  }

  /** A message with two fields. */
  function Pair(k1: string, s: string, k2: string, p: string): string {
    Piece(Piece(Piece(Piece("{", k1, ':'), s, ','), k2, ':'), p, '}')
  }

  predicate NoQuote(s: string) { forall i :: 0 <= i < |s| ==> s[i] != '"' }

  /** Without quotes and NUL bytes. */
  predicate Plain(s: string) { NoQuote(s) && '\0' !in s }

  /** What comes before the first quote. */
  function UpToQuote(s: string): string { s[..FindChar(s, '"', 0)] }

  /** At `q` stands a quote, and then `w` and another one. */
  predicate Word(m: string, q: nat, w: string) {
    && q + |w| + 2 <= |m| && m[q] == '"' && m[q + |w| + 1] == '"'
    && forall i :: q < i <= q + |w| ==> m[i] == w[i - q - 1]
  }

  lemma PieceParts(h: string, w: string, x: char)
    ensures var m := Piece(h, w, x); h <= m && Word(m, |h|, w) && m[|h| + |w| + 2] == x
  {
  }

  lemma WordInPrefix(u: string, m: string, q: nat, w: string)
    requires u <= m && Word(u, q, w)
    ensures Word(m, q, w)
  {
  }

  /** Where the parts of the message stand. */
  lemma Parts(k1: string, s: string, k2: string, p: string)
    ensures var m, a, b, c, d := Pair(k1, s, k2, p), |k1|, |s|, |k2|, |p|;
            && |m| == a + b + c + d + 13
            && Word(m, 1, k1) && Word(m, a + 4, s) && Word(m, a + b + 7, k2) && Word(m, a + b + c + 10, p)
            && m[0] == '{' && m[a + 3] == ':' && m[a + b + 6] == ',' && m[a + b + c + 9] == ':'
            && m[a + b + c + d + 12] == '}'
  {
    hide Piece, Word;
    var m1 := Piece("{", k1, ':');
    var m2 := Piece(m1, s, ',');
    var m3 := Piece(m2, k2, ':');
    var m := Piece(m3, p, '}');
    PieceParts("{", k1, ':');
    PieceParts(m1, s, ',');
    PieceParts(m2, k2, ':');
    PieceParts(m3, p, '}');
    WordInPrefix(m1, m, 1, k1);
    WordInPrefix(m2, m, |m1|, s);
    WordInPrefix(m3, m, |m2|, k2);
  }

  /** A key between quotes occurs at a quote only as the word up to the next quote. */
  lemma OccursAsWord(m: string, key: string, j: nat, w: string)
    requires NoQuote(key) && OccursAt(m, Quoted(key), j)
    requires Word(m, j, w) && NoQuote(w)
    ensures key == w
  {
    var n, k := j + |w| + 1, j + |key| + 1;
    var o := m[j..k + 1];
    assert o == Quoted(key);
    assert o[k - j] == m[k] == '"';
    assert forall i :: j < i < k ==> m[i] == o[i - j] == key[i - j - 1];
    assert n == k;
    assert forall i :: 0 <= i < |w| ==> m[j + 1 + i] == w[i];
    assert forall i :: 0 <= i < |w| ==> key[i] == w[i];
  }

  lemma OccursAtQuote(m: string, key: string, j: nat)
    requires OccursAt(m, Quoted(key), j)
    ensures m[j] == '"' && j + |key| + 1 < |m| && m[j + |key| + 1] == '"'
  {
    var w := m[j..j + |key| + 2];
    assert w[0] == m[j] && w[|key| + 1] == m[j + |key| + 1];
  }

  lemma WordOccurs(m: string, q: nat, w: string)
    requires Word(m, q, w)
    ensures OccursAt(m, Quoted(w), q) && m[q + 1..q + |w| + 1] == w
  {
    assert m[q..q + |w| + 2] == Quoted(w);
  }

  /** A key that is neither empty nor one of the marks between the words. */
  predicate ProperKey(key: string) {
    Plain(key) && ':' !in key && key != "" && key != ","
  }

  /** The key is not the first one, but the word of the first value or the second key. */
  predicate Second(k1: string, s: string, k2: string, key: string) { key != k1 && (key == s || key == k2) }

  /** Nor is the mark between two words a proper key. */
  lemma NotTheMark(m: string, key: string, j: nat, x: char)
    requires ProperKey(key) && OccursAt(m, Quoted(key), j) && Word(m, j, [x]) && x != '"'
    ensures x != ':' && x != ','
  {
    OccursAsWord(m, key, j, [x]);
    assert key[0] in key;
  }

  /** The words of the message before the second key, in which a key can occur. */
  lemma EarlyOccurrence(k1: string, s: string, k2: string, p: string, key: string, j: nat)
    requires ProperKey(key) && NoQuote(k1) && NoQuote(s)
    requires j < |k1| + |s| + 7 && OccursAt(Pair(k1, s, k2, p), Quoted(key), j)
    ensures (j == 1 && key == k1) || (j == |k1| + 4 && key == s)
  {
    var m, a, b := Pair(k1, s, k2, p), |k1|, |s|;
    Parts(k1, s, k2, p);
    OccursAtQuote(m, key, j);
    hide Pair, ProperKey, OccursAt;
    assert j == 1 || j == a + 2 || j == a + 4 || j == a + b + 5;
    ProperIsNoQuote(key);
    hide NoQuote;
    if j == 1 {
      OccursAsWord(m, key, j, k1);
    } else if j == a + 4 {
      OccursAsWord(m, key, j, s);
    } else if j == a + 2 {
      NotTheMark(m, key, j, ':');
    } else {
      NotTheMark(m, key, j, ',');
    }
  }

  lemma ProperIsNoQuote(key: string)
    requires ProperKey(key)
    ensures Plain(key) && NoQuote(key) && ':' !in key
  {
  }

  /** The words from the second key on. */
  lemma LateOccurrence(k1: string, s: string, k2: string, p: string, key: string, j: nat)
    requires ProperKey(key) && NoQuote(k2) && NoQuote(p)
    requires j >= |k1| + |s| + 7 && OccursAt(Pair(k1, s, k2, p), Quoted(key), j)
    ensures (j == |k1| + |s| + 7 && key == k2) || (j == |k1| + |s| + |k2| + 10 && key == p)
  {
    var m, c, d := Pair(k1, s, k2, p), |k2|, |p|;
    var q := |k1| + |s| + 7;
    Parts(k1, s, k2, p);
    OccursAtQuote(m, key, j);
    hide Pair, ProperKey, OccursAt;
    ProperIsNoQuote(key);
    LateQuotes(m, q, k2, p, j);
    hide NoQuote;
    if j == q {
      OccursAsWord(m, key, j, k2);
    } else if j == q + c + 3 {
      OccursAsWord(m, key, j, p);
    } else if j == q + c + 1 {
      NotTheMark(m, key, j, ':');
    } else {
      LastQuote(m, key, j);
    }
  }

  lemma LateQuotes(m: string, q: nat, k2: string, p: string, j: nat)
    requires NoQuote(k2) && NoQuote(p) && Word(m, q, k2) && Word(m, q + |k2| + 3, p)
    requires m[q + |k2| + 2] == ':' && |m| == q + |k2| + |p| + 6 && m[|m| - 1] == '}'
    requires q <= j < |m| && m[j] == '"'
    ensures j == q || j == q + |k2| + 1 || j == q + |k2| + 3 || j == |m| - 2
  {
  }

  /** After the last quote there is no room for a key. */
  lemma LastQuote(m: string, key: string, j: nat)
    requires ProperKey(key) && OccursAt(m, Quoted(key), j)
    ensures j + 2 < |m|
  {
  }

  /** The next colon and quotes after the key are those of the key's own value. */
  lemma ValueAt(json: string, p: nat, colon: nat, v: string, end: nat)
    requires p <= colon && colon + 2 + |v| == end < |json|
    requires json[colon] == ':' && json[colon + 1] == '"' && json[end] == '"'
    requires forall i :: p <= i < colon ==> json[i] != ':'
    requires json[colon + 2..end] == v && '"' !in v
    ensures ValueAfter(json, p) == Some(v)
  {
    assert FindChar(json, ':', p) == colon;
    assert SkipSpaces(json, colon + 1) == colon + 1;
    assert forall i :: colon + 2 <= i < end ==> json[i] == v[i - (colon + 2)] && v[i - (colon + 2)] in v;
    assert FindChar(json, '"', colon + 2) == end;
  }

  /** A value is read up to its first quote. */
  lemma ValueOfWord(m: string, from: nat, colon: nat, w: string)
    requires from <= colon && colon + 1 < |m| && m[colon] == ':' && Word(m, colon + 1, w)
    requires forall i :: from <= i < colon ==> m[i] != ':'
    ensures ValueAfter(m, from) == Some(UpToQuote(w))
  {
    var v := UpToQuote(w);
    assert m[colon + 2..colon + 2 + |v|] == v;
    assert |v| < |w| ==> m[colon + 2 + |v|] == w[|v|];
    ValueAt(m, from, colon, v, colon + 2 + |v|);
  }

  lemma CStringLong(s: string, n: nat)
    requires NulFree(s, n)
    ensures |CString(s)| >= n
  {
  }

  lemma FirstIs(s: string, p: string, i: nat)
    requires i < |s| && OccursAt(s, p, i) && forall j :: 0 <= j < i ==> !OccursAt(s, p, j)
    ensures FindText(s, p, 0) == i
  {
  }

  lemma NowhereIs(s: string, p: string)
    requires forall j :: 0 <= j < |s| ==> !OccursAt(s, p, j)
    ensures FindText(s, p, 0) == |s|
  {
  }

  /** The first `n` bytes are no NUL bytes. */
  predicate NulFree(m: string, n: nat) { n <= |m| && forall i :: 0 <= i < n ==> m[i] != '\0' }

  /** The key occurs first at `at`. */
  predicate FirstAt(m: string, key: string, at: nat) {
    OccursAt(m, Quoted(key), at) && forall j :: 0 <= j < at ==> !OccursAt(m, Quoted(key), j)
  }

  /** Where the first occurrence of a key leads. */
  lemma FieldAt(m: string, key: string, at: nat)
    requires FirstAt(m, key, at) && NulFree(m, at + |key| + 2)
    ensures Field(m, key) == ValueAfter(m, at + |key| + 2)
  {
    hide FindText, ValueAfter;
    var text, k := CString(m), Quoted(key);
    CStringLong(m, at + |k|);
    forall j | 0 <= j <= at ensures OccursAt(text, k, j) <==> OccursAt(m, k, j) {
      assert text[j..j + |k|] == m[j..j + |k|];
    }
    hide CString, Quoted;
    FirstIs(text, k, at);
  }

  /** Whatever the first value is, its key finds it up to its first quote. */
  lemma FindsFirst(k1: string, s: string, k2: string, p: string)
    requires ProperKey(k1)
    ensures Field(Pair(k1, s, k2, p), k1) == Some(UpToQuote(s))
  {
    var m, a := Pair(k1, s, k2, p), |k1|;
    Parts(k1, s, k2, p);
    hide Pair, ValueAfter, UpToQuote;
    WordOccurs(m, 1, k1);
    assert !OccursAt(m, Quoted(k1), 0) by {
      if OccursAt(m, Quoted(k1), 0) {
        OccursAtQuote(m, k1, 0);
      }
    }
    assert forall i :: 0 <= i < a ==> k1[i] in k1;
    hide OccursAt;
    FieldAt(m, k1, 1);
    ValueOfWord(m, a + 3, a + 3, s);
  }

  /** The place where the second key, or the first value where that is the same word, occurs first. */
  lemma SecondOccurrence(k1: string, s: string, k2: string, p: string, key: string) returns (at: nat)
    requires ProperKey(k1) && Plain(s) && ProperKey(key) && Second(k1, s, k2, key)
    ensures FirstAt(Pair(k1, s, k2, p), key, at)
    ensures at + |key| + 2 == |k1| + |s| + 6 || at + |key| + 2 == |k1| + |s| + |k2| + 9
  {
    var m, a, b := Pair(k1, s, k2, p), |k1|, |s|;
    at := if key == s then a + 4 else a + b + 7;
    Parts(k1, s, k2, p);
    hide Pair, Quoted, OccursAt, NoQuote;
    ProperIsNoQuote(k1);
    WordOccurs(m, a + 4, s);
    WordOccurs(m, a + b + 7, k2);
    hide ProperKey, Word;
    forall j | 0 <= j < at ensures !OccursAt(m, Quoted(key), j) {
      if OccursAt(m, Quoted(key), j) {
        EarlyOccurrence(k1, s, k2, p, key, j);
      }
    }
  }

  lemma SecondValue(k1: string, s: string, k2: string, p: string, from: nat)
    requires ProperKey(k2) && (from == |k1| + |s| + 6 || from == |k1| + |s| + |k2| + 9)
    ensures ValueAfter(Pair(k1, s, k2, p), from) == Some(UpToQuote(p))
  {
    var m, a, b, c := Pair(k1, s, k2, p), |k1|, |s|, |k2|;
    ProperIsNoQuote(k2);
    Parts(k1, s, k2, p);
    hide *;
    NoColon(m, from, a, b, k2);
    ValueOfWord(m, from, a + b + c + 9, p);
  }

  /** The second value is found by its key, and by the first value where that is the same word. */
  lemma FindsSecond(k1: string, s: string, k2: string, p: string, key: string)
    requires ProperKey(k1) && ProperKey(k2) && Plain(s)
    requires ProperKey(key) && Second(k1, s, k2, key)
    ensures Field(Pair(k1, s, k2, p), key) == Some(UpToQuote(p))
  {
    hide *;
    ProperIsNoQuote(k1);
    ProperIsNoQuote(k2);
    NoNulBefore(k1, s, k2, p);
    var at := SecondOccurrence(k1, s, k2, p, key);
    FieldAt(Pair(k1, s, k2, p), key, at);
    SecondValue(k1, s, k2, p, at + |key| + 2);
  }

  lemma NoColon(m: string, from: nat, a: nat, b: nat, k2: string)
    requires Word(m, a + b + 7, k2) && m[a + b + 6] == ',' && ':' !in k2 && from >= a + b + 6
    ensures forall i :: from <= i < a + b + |k2| + 9 ==> m[i] != ':'
  {
    assert forall i :: 0 <= i < |k2| ==> k2[i] in k2;
  }

  /** Up to the second key the message has no NUL byte. */
  lemma NoNulBefore(k1: string, s: string, k2: string, p: string)
    requires Plain(k1) && Plain(s) && Plain(k2)
    ensures forall n: nat :: n <= |k1| + |s| + |k2| + 9 ==> NulFree(Pair(k1, s, k2, p), n)
  {
    Parts(k1, s, k2, p);
    hide Pair;
    assert forall i :: 0 <= i < |k1| ==> k1[i] in k1;
    assert forall i :: 0 <= i < |s| ==> s[i] in s;
    assert forall i :: 0 <= i < |k2| ==> k2[i] in k2;
  }

  /** Any other key finds nothing, even where the second value is the same word. */
  lemma FindsNothing(k1: string, s: string, k2: string, p: string, key: string)
    requires ProperKey(k1) && ProperKey(k2) && Plain(s) && Plain(p)
    requires ProperKey(key) && key != k1 && key != s && key != k2
    ensures Field(Pair(k1, s, k2, p), key) == None
  {
    var m := Pair(k1, s, k2, p);
    var end := |k1| + |s| + |k2| + 10;
    NoNul(k1, s, k2, p);
    Parts(k1, s, k2, p);
    WordOccurs(m, end, p);
    forall j: nat | OccursAt(m, Quoted(key), j) ensures j == end && key == p {
      if j < |k1| + |s| + 7 {
        EarlyOccurrence(k1, s, k2, p, key, j);
      } else {
        LateOccurrence(k1, s, k2, p, key, j);
      }
    }
    hide Pair, Quoted;
    if key == p {
      FieldAt(m, key, end);
      NothingAfter(m, end + |p| + 2);
    } else {
      CStringLong(m, |m|);
      hide OccursAt, CString, ValueAfter;
      NowhereIs(m, Quoted(key));
    }
  }

  lemma NothingAfter(m: string, from: nat)
    requires from + 1 == |m| && m[from] == '}'
    ensures ValueAfter(m, from) == None
  {
    assert FindChar(m, ':', from) == |m|;
  }

  lemma NoNul(k1: string, s: string, k2: string, p: string)
    requires Plain(k1) && Plain(s) && Plain(k2) && Plain(p)
    ensures NulFree(Pair(k1, s, k2, p), |Pair(k1, s, k2, p)|)
  {
    NoNulBefore(k1, s, k2, p);
    Parts(k1, s, k2, p);
    hide Pair;
    assert NulFree(Pair(k1, s, k2, p), |k1| + |s| + |k2| + 9);
    assert forall i :: 0 <= i < |p| ==> p[i] in p;
  }

  lemma WholeUpToQuote(s: string)
    ensures UpToQuote(s) == s <==> NoQuote(s)
  {
  }

  // ---------- Spaces, and messages of one field ----------

  /** Spaces after the colon of a key change nothing. */
  lemma SpacesChangeNothing(a: string, w: string, b: string, key: string, at: nat)
    requires FirstAt(a, key, at) && '\0' !in a && at + |key| + 2 < |a| && a[|a| - 1] == ':'
    requires forall i :: at + |key| + 2 <= i < |a| - 1 ==> a[i] != ':'
    requires forall i :: 0 <= i < |w| ==> IsSpace(w[i])
    ensures Field(a + w + b, key) == Field(a + b, key)
  {
    hide FindText, ValueAfter, CString;
    KeyInFront(a, w + b, key, at);
    KeyInFront(a, b, key, at);
    Seqs.Associative(a, w, b);
    hide Field, FirstAt, Quoted;
    SpacesSkipped(a, w, b, at + |key| + 2);
  }

  lemma KeyInFront(a: string, t: string, key: string, at: nat)
    requires FirstAt(a, key, at) && '\0' !in a && at + |key| + 2 < |a|
    ensures Field(a + t, key) == ValueAfter(a + t, at + |key| + 2)
  {
    hide Field, ValueAfter, Quoted;
    var m := a + t;
    forall j: nat | j <= at ensures OccursAt(m, Quoted(key), j) <==> OccursAt(a, Quoted(key), j) {
      assert m[j..j + |Quoted(key)|] == a[j..j + |Quoted(key)|];
    }
    FieldAt(m, key, at);
  }

  lemma FirstColon(m: string, from: nat, colon: nat)
    requires from <= colon < |m| && m[colon] == ':' && forall i :: from <= i < colon ==> m[i] != ':'
    ensures FindChar(m, ':', from) == colon
  {
  }

  /** From `from` on, `m` goes on `d` places later as `n` does. */
  predicate Shifted(m: string, n: string, from: nat, d: nat) {
    |m| == |n| + d && forall k :: from <= k < |n| ==> m[k + d] == n[k]
  }

  lemma SkipShifted(m: string, n: string, from: nat, d: nat)
    requires Shifted(m, n, from, d) && from <= |n|
    ensures SkipSpaces(m, from + d) == SkipSpaces(n, from) + d
  {
    var p, q := SkipSpaces(m, from + d), SkipSpaces(n, from);
    assert p - d < |n| ==> m[p - d + d] == n[p - d];
    assert q < |n| ==> m[q + d] == n[q];
  }

  lemma FindShifted(m: string, n: string, from: nat, d: nat, c: char, i: nat)
    requires Shifted(m, n, from, d) && from <= i <= |n|
    ensures FindChar(m, c, i + d) == FindChar(n, c, i) + d
  {
    var p, q := FindChar(m, c, i + d), FindChar(n, c, i);
    assert p - d < |n| ==> m[p - d + d] == n[p - d];
    assert q < |n| ==> m[q + d] == n[q];
  }

  lemma {:induction false} SkipOver(m: string, i: nat, k: nat)
    requires i <= k <= |m| && forall j :: i <= j < k ==> IsSpace(m[j])
    ensures SkipSpaces(m, i) == SkipSpaces(m, k)
    decreases k - i
  {
    if i < k {
      SkipOver(m, i + 1, k);
    }
  }

  lemma ShiftedSlice(m: string, n: string, from: nat, d: nat, i: nat, j: nat)
    requires Shifted(m, n, from, d) && from <= i <= j <= |n|
    ensures m[i + d..j + d] == n[i..j]
  {
    forall k | 0 <= k < j - i ensures m[i + d..j + d][k] == n[i..j][k] {
      assert m[i + k + d] == n[i + k];
    }
  }

  lemma SpacesSkipped(a: string, w: string, b: string, from: nat)
    requires from < |a| && a[|a| - 1] == ':' && forall i :: from <= i < |a| - 1 ==> a[i] != ':'
    requires forall i :: 0 <= i < |w| ==> IsSpace(w[i])
    ensures ValueAfter(a + w + b, from) == ValueAfter(a + b, from)
  {
    var m, n, d := a + w + b, a + b, |w|;
    assert Shifted(m, n, |a|, d);
    FirstColon(m, from, |a| - 1);
    FirstColon(n, from, |a| - 1);
    assert forall j :: 0 <= j < d ==> m[|a| + j] == w[j];
    SkipOver(m, |a|, |a| + d);
    SkipShifted(m, n, |a|, d);
    SpacesBefore(m, n, |a|, d, from);
  }

  lemma SpacesBefore(m: string, n: string, after: nat, d: nat, from: nat)
    requires Shifted(m, n, after, d) && from < after <= |n| && m[after - 1] == n[after - 1] == ':'
    requires FindChar(m, ':', from) == after - 1 == FindChar(n, ':', from)
    requires SkipSpaces(m, after) == SkipSpaces(n, after) + d
    ensures ValueAfter(m, from) == ValueAfter(n, from)
  {
    hide FindChar, SkipSpaces;
    var p := SkipSpaces(n, after);
    if p < |n| {
      assert m[p + d] == n[p];
      FindShifted(m, n, after, d, '"', p + 1);
      ShiftedSlice(m, n, after, d, p + 1, FindChar(n, '"', p + 1));
    }
  }

  /** A message with an SSID and no password. */
  function Single(s: string): string { Piece(Piece("{", "ssid", ':'), s, '}') }

  lemma SingleParts(s: string)
    ensures var m := Single(s);
            && |m| == |s| + 11 && Word(m, 1, "ssid") && Word(m, 8, s)
            && m[0] == '{' && m[7] == ':' && m[|s| + 10] == '}'
  {
    var h := Piece("{", "ssid", ':');
    PieceParts("{", "ssid", ':');
    PieceParts(h, s, '}');
    hide Piece, Word;
    WordInPrefix(h, Single(s), 1, "ssid");
  }

  /** The places in it where a key can occur. */
  lemma SingleOccurrence(s: string, key: string, j: nat)
    requires Plain(s) && ProperKey(key) && OccursAt(Single(s), Quoted(key), j)
    ensures (j == 1 && key == "ssid") || (j == 8 && key == s)
  {
    var m := Single(s);
    SingleParts(s);
    OccursAtQuote(m, key, j);
    hide Single, OccursAt, ProperKey;
    ProperIsNoQuote(key);
    assert j == 1 || j == 6 || j == 8 by {
      assert m[2] == "ssid"[0] && m[3] == "ssid"[1] && m[4] == "ssid"[2] && m[5] == "ssid"[3];
      assert forall i :: 9 <= i < |s| + 9 ==> m[i] == s[i - 9];
    }
    if j == 1 {
      OccursAsWord(m, key, j, "ssid");
    } else if j == 8 {
      OccursAsWord(m, key, j, s);
    } else {
      NotTheMark(m, key, j, ':');
    }
  }

  lemma SingleNoNul(s: string, n: nat)
    requires Plain(s) && n <= |s| + 11
    ensures NulFree(Single(s), n)
  {
    SingleParts(s);
    hide Single;
    assert forall i :: 0 <= i < |s| ==> s[i] in s;
    assert forall i :: 0 <= i < 4 ==> "ssid"[i] != '\0';
  }

  lemma SingleFirst(s: string)
    requires Plain(s)
    ensures Field(Single(s), "ssid") == Some(s)
  {
    var m := Single(s);
    Keys();
    SingleParts(s);
    SingleNoNul(s, 7);
    WordOccurs(m, 1, "ssid");
    assert !OccursAt(m, Quoted("ssid"), 0) by {
      if OccursAt(m, Quoted("ssid"), 0) {
        OccursAtQuote(m, "ssid", 0);
      }
    }
    hide Single, OccursAt, Word, Field;
    FieldAt(m, "ssid", 1);
    ValueOfWord(m, 7, 7, s);
    WholeUpToQuote(s);
  }

  lemma SingleNothing(s: string, key: string)
    requires Plain(s) && ProperKey(key) && key != "ssid"
    ensures Field(Single(s), key) == None
  {
    var m := Single(s);
    SingleParts(s);
    SingleNoNul(s, |m|);
    WordOccurs(m, 8, s);
    forall j: nat | OccursAt(m, Quoted(key), j) ensures j == 8 && key == s {
      SingleOccurrence(s, key, j);
    }
    hide Single, Quoted;
    if key == s {
      FieldAt(m, key, 8);
      NothingAfter(m, |s| + 10);
    } else {
      CStringLong(m, |m|);
      hide OccursAt, CString, ValueAfter;
      NowhereIs(m, Quoted(key));
    }
  }

  /** A message with an SSID alone gives it with an empty password, even when the SSID is a key's word. */
  lemma NoPassword(s: string)
    requires Plain(s)
    ensures Parse(Single(s)) == Some(Credential(Clip(s, SSID_ROOM), []))
  {
    Keys();
    hide Field, Single, ProperKey, Plain;
    SingleFirst(s);
    SingleNothing(s, "pass");
    SingleNothing(s, "PSK");
  }

  // ---------- Credentials ----------

  lemma Keys()
    ensures ProperKey("ssid") && ProperKey("pass") && ProperKey("SSID") && ProperKey("PSK")
  {
  }

  /** The message that carries the SSID `s` and the password `p`. */
  function Message(s: string, p: string): string { Pair("ssid", s, "pass", p) }

  /** What the two values come to in the parser's buffers. */
  lemma ParsesMessage(s: string, p: string)
    requires Plain(s)
    ensures Parse(Message(s, p)) == Some(Credential(Clip(s, SSID_ROOM), Clip(UpToQuote(p), PASS_ROOM)))
  {
    Keys();
    hide Field, UpToQuote, Pair, ProperKey;
    FindsFirst("ssid", s, "pass", p);
    FindsSecond("ssid", s, "pass", p, "pass");
    WholeUpToQuote(s);
  }

  lemma ClipExact(s: string, room: nat)
    requires room > 0
    ensures Clip(s, room) == s <==> |s| < room
  {
  }

  /** The round trip: SSIDs of up to 63 bytes and passwords of up to 79 bytes, without quotes and NUL
      bytes, come out as they went in, even when the SSID is the word `pass`. */
  lemma CredentialRoundTrip(s: string, p: string)
    requires Plain(s) && |s| <= 63 && NoQuote(p) && |p| <= 79
    ensures Parse(Message(s, p)) == Some(Credential(s, p))
  {
    ParsesMessage(s, p);
    WholeUpToQuote(p);
    hide Parse, Message, UpToQuote;
  }

  /** And only those: a quote or a greater length is lost. */
  lemma SsidExact(s: string, p: string)
    ensures Parse(Message(s, p)).Some?
    ensures Parse(Message(s, p)).value.ssid == s <==> NoQuote(s) && |s| <= 63
  {
    Keys();
    hide Field, Pair, ProperKey, NoQuote;
    FindsFirst("ssid", s, "pass", p);
    WholeUpToQuote(s);
    ClipExact(s, SSID_ROOM);
  }

  lemma PassExact(s: string, p: string)
    requires Plain(s)
    ensures Parse(Message(s, p)).Some?
    ensures Parse(Message(s, p)).value.pass == p <==> NoQuote(p) && |p| <= 79
  {
    ParsesMessage(s, p);
    WholeUpToQuote(p);
    ClipExact(p, PASS_ROOM);
    hide Parse, Message, NoQuote;
  }

  /** The message with the other two keys that the parser knows. */
  function OtherMessage(s: string, p: string): string { Pair("SSID", s, "PSK", p) }

  /** With those keys the SSID `ssid` is taken for the first key, and the password for its value. */
  lemma ParsesOther(s: string, p: string)
    requires Plain(s) && Plain(p)
    ensures Parse(OtherMessage(s, p))
         == Some(Credential(Clip(if s == "ssid" then p else s, SSID_ROOM), Clip(p, PASS_ROOM)))
  {
    Keys();
    hide Field, UpToQuote, Pair, ProperKey, NoQuote;
    WholeUpToQuote(s);
    WholeUpToQuote(p);
    FindsFirst("SSID", s, "PSK", p);
    FindsSecond("SSID", s, "PSK", p, "PSK");
    OtherLookup(s, p, "ssid");
    OtherLookup(s, p, "pass");
  }

  lemma OtherLookup(s: string, p: string, key: string)
    requires Plain(s) && Plain(p)
    requires key == "ssid" || key == "pass"
    ensures Field(OtherMessage(s, p), key) == if s == key then Some(p) else None
  {
    Keys();
    hide Field, UpToQuote, Pair, ProperKey, NoQuote;
    WholeUpToQuote(p);
    if s == key {
      FindsSecond("SSID", s, "PSK", p, key);
    } else {
      FindsNothing("SSID", s, "PSK", p, key);
    }
  }

  /** So the round trip with those keys holds for exactly the other SSIDs. */
  lemma OtherRoundTrip(s: string, p: string)
    requires Plain(s) && |s| <= 63 && Plain(p) && |p| <= 79
    ensures Parse(OtherMessage(s, p)) == Some(Credential(s, p)) <==> s != "ssid" || p == "ssid"
  {
    ParsesOther(s, p);
    ClipExact(s, SSID_ROOM);
    ClipExact(p, PASS_ROOM);
    hide Parse, OtherMessage, NoQuote;
    if s == "ssid" && p != "ssid" {
      assert Clip(p, SSID_ROOM) != s by {
        ClipIsShort(p);
      }
    }
  }

  /** Cutting a password to an SSID's room never makes it the word `ssid`. */
  lemma ClipIsShort(p: string)
    ensures Clip(p, SSID_ROOM) == "ssid" <==> p == "ssid"
  {
  }

  // ---------- Escaping for the configuration file ----------

  /** What `escape_wpa_str` leaves in a buffer of `room` bytes. */
  function EscapeInto(s: string, room: nat): (out: string)
    requires room > 0
    ensures |out| < room
    decreases |s|
  {
    if s == [] then []
    else
      var out, c := EscapeInto(s[..|s| - 1], room), s[|s| - 1];
      if |out| + 1 >= room then out
      else if Special(c) && |out| + 2 < room then out + ['\\', c]
      else out + [c]
  }

  /** `escape_wpa_str`. */
  method EscapeWpaStr(s: string, room: nat) returns (out: string)
    requires room > 0
    ensures out == EscapeInto(CString(s), room)
  {
    var text := CString(s);
    var i := 0;
    out := [];
    while i < |s| && s[i] != '\0' && |out| + 1 < room
      invariant i <= |text| && out == EscapeInto(text[..i], room)
    {
      assert text[i] == s[i] && text[..i + 1][..i] == text[..i];
      if (s[i] == '"' || s[i] == '\\') && |out| + 2 < room {
        out := out + ['\\'];
      }
      out := out + [s[i]];
      i := i + 1;
    }
    if i < |text| {
      StaysFull(text, i, room);
    } else {
      Seqs.Whole(text);
    }
  }

  lemma {:induction false} StaysFull(s: string, i: nat, room: nat)
    requires room > 0 && i <= |s| && |EscapeInto(s[..i], room)| + 1 >= room
    ensures EscapeInto(s, room) == EscapeInto(s[..i], room)
    decreases |s|
  {
    if i < |s| {
      assert s[..|s| - 1][..i] == s[..i];
      StaysFull(s[..|s| - 1], i, room);
    } else {
      Seqs.Whole(s);
    }
  }

  /** The buffer never cuts the text exactly when the escaped text and its final NUL fit. */
  lemma {:induction false} EscapeFits(s: string, room: nat)
    requires room > 0
    ensures EscapeInto(s, room) == Escape(s) <==> |Escape(s)| < room
    ensures EscapeInto(s, room) != Escape(s) ==> |EscapeInto(s, room)| == room - 1
    decreases |s|
  {
    if s != [] {
      EscapeFits(s[..|s| - 1], room);
    }
  }

  /** Values of the lengths that the parser can give always fit, and reading them back from between
      quotes gives the value and stops at the closing quote. */
  lemma EscapedCredential(c: Credential, rest: string)
    requires |c.ssid| <= 63 && |c.pass| <= 79
    ensures ReadQuoted(EscapeInto(c.ssid, 128) + ['"'] + rest) == Read(c.ssid, rest)
    ensures ReadQuoted(EscapeInto(c.pass, 160) + ['"'] + rest) == Read(c.pass, rest)
  {
    EscapeFits(c.ssid, 128);
    EscapeFits(c.pass, 160);
    ReadEscaped(c.ssid, rest);
    ReadEscaped(c.pass, rest);
    hide Escape, EscapeInto;
  }

  lemma ParsedLengths(json: string)
    ensures Parse(json).Some? ==> |Parse(json).value.ssid| <= 63 && |Parse(json).value.pass| <= 79
  {
    hide Field;
  }

  lemma EscapeIntoSnoc(s: string, c: char, room: nat)
    requires room > 0
    ensures var out := EscapeInto(s, room);
            EscapeInto(s + [c], room)
            == if |out| + 1 >= room then out
               else if Special(c) && |out| + 2 < room then out + ['\\', c]
               else out + [c]
  {
    assert (s + [c])[..|s|] == s;
  }

  /** What the buffer holds is an escaped prefix, or one followed by a quote or backslash in the last
      place, without its escape. */
  predicate CutAfter(s: string, room: nat, k: nat, out: string) {
    && k <= |s|
    && (|| out == Escape(s[..k])
        || (k < |s| && Special(s[k]) && |Escape(s[..k])| + 2 == room && out == Escape(s[..k]) + [s[k]]))
  }

  lemma CutGrows(s: string, c: char, room: nat, k: nat, out: string)
    requires CutAfter(s, room, k, out)
    ensures CutAfter(s + [c], room, k, out)
  {
    assert (s + [c])[..k] == s[..k];
  }

  /** The shape of every text that was cut. */
  lemma {:induction false} CutShape(s: string, room: nat) returns (k: nat)
    requires room > 0
    ensures CutAfter(s, room, k, EscapeInto(s, room))
    decreases |s|
  {
    k := 0;
    if s != [] {
      var front, c := s[..|s| - 1], s[|s| - 1];
      assert s == front + [c];
      k := CutShape(front, room);
      var out := EscapeInto(front, room);
      hide EscapeInto, CutAfter;
      CutGrows(front, c, room, k, out);
      EscapeIntoSnoc(front, c, room);
      EscapeFits(front, room);
      if |out| + 1 < room {
        k := CutHere(front, c, room);
      }
    }
  }

  lemma CutHere(s: string, c: char, room: nat) returns (k: nat)
    requires room > 0 && |EscapeInto(s, room)| + 1 < room
    ensures CutAfter(s + [c], room, k, EscapeInto(s + [c], room))
  {
    EscapeIntoSnoc(s, c, room);
    EscapeFits(s, room);
    EscapeSnoc(s, c);
    hide EscapeInto, Escape;
    assert (s + [c])[..|s|] == s && (s + [c])[..|s| + 1] == s + [c];
    k := if Special(c) && |Escape(s)| + 2 >= room then |s| else |s| + 1;
  }

  /** The buffer ends just where the character at `k` would need its escape. */
  predicate CutsBare(s: string, room: nat, k: nat) {
    k < |s| && Special(s[k]) && |Escape(s[..k])| + 2 == room
  }

  lemma BareIsLeft(s: string, room: nat, k: nat)
    requires CutsBare(s, room, k)
    ensures EscapeInto(s, room) == Escape(s[..k]) + [s[k]]
  {
    EscapeFits(s[..k], room);
    EscapeIntoSnoc(s[..k], s[k], room);
    assert s[..k + 1] == s[..k] + [s[k]];
    hide EscapeInto, Escape;
    StaysFull(s, k + 1, room);
  }

  lemma {:induction false} EscapeGrows(s: string, i: nat, j: nat)
    requires i <= j <= |s|
    ensures |Escape(s[..i])| <= |Escape(s[..j])|
    ensures i < j && Special(s[i]) ==> |Escape(s[..i])| + 2 <= |Escape(s[..j])|
    decreases j
  {
    if i < j {
      assert s[..j] == s[..j - 1] + [s[j - 1]];
      EscapeSnoc(s[..j - 1], s[j - 1]);
      hide Escape;
      EscapeGrows(s, i, j - 1);
    }
  }

  /** What is left is the escaped form of a prefix, for every text and every buffer, unless the buffer ends
      just where a quote or a backslash would need its escape. */
  lemma CutIff(s: string, room: nat)
    requires room > 0
    ensures (exists k :: 0 <= k <= |s| && EscapeInto(s, room) == Escape(s[..k])) <==> !exists k :: CutsBare(s, room, k)
  {
    if k :| CutsBare(s, room, k) {
      BareIsLeft(s, room, k);
      hide EscapeInto, Escape;
      forall j | 0 <= j <= |s| ensures EscapeInto(s, room) != Escape(s[..j]) {
        if j <= k {
          EscapeGrows(s, j, k);
        } else {
          EscapeGrows(s, k, j);
        }
      }
    } else {
      var k := CutShape(s, room);
      hide EscapeInto, Escape;
      assert !CutsBare(s, room, k);
    }
  }

  /** Then a quote ends the text too early, and a backslash takes the closing quote with it. */
  lemma CutQuote(s: string, room: nat, k: nat)
    requires CutsBare(s, room, k)
    ensures ReadQuoted(EscapeInto(s, room) + ['"']) == if s[k] == '"' then Read(s[..k], ['"']) else Unfinished
  {
    BareIsLeft(s, room, k);
    hide EscapeInto, Escape;
    var e := Escape(s[..k]);
    Seqs.Associative(e, [s[k]], ['"']);
    if s[k] == '"' {
      ReadEscaped(s[..k], ['"']);
    } else {
      assert ReadQuoted(['\\', '"']) == Unfinished by { assert ['\\', '"'][2..] == []; }
      assert [s[k]] + ['"'] == ['\\', '"'];
      hide ReadQuoted;
      ReadUnfinished(s[..k], ['\\', '"']);
    }
  }
}
