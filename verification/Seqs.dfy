/** Facts about sequences. */
module Seqs {

  lemma Associative<T>(a: seq<T>, b: seq<T>, c: seq<T>)
    ensures a + (b + c) == (a + b) + c
  {
  }

  lemma Nil<T>(a: seq<T>)
    ensures a + [] == a && [] + a == a
  {
  }

  lemma DropOfAppend<T>(s: seq<T>, t: seq<T>, n: nat)
    requires n <= |s|
    ensures (s + t)[n..] == s[n..] + t
  {
  }

  lemma SliceOfAppend<T>(s: seq<T>, t: seq<T>, i: nat, j: nat)
    requires i <= j <= |s|
    ensures (s + t)[i..j] == s[i..j]
  {
  }

  lemma DropAll<T>(s: seq<T>, t: seq<T>)
    ensures (s + t)[|s|..] == t && (s + t)[..|s|] == s
  {
  }

  lemma Split<T>(s: seq<T>, n: nat)
    requires n <= |s|
    ensures s[..n] + s[n..] == s
  {
  }

  lemma SliceOfSlice<T>(s: seq<T>, n: nat, i: nat, j: nat)
    requires i <= j <= n <= |s|
    ensures s[..n][i..j] == s[i..j]
  {
  }

  lemma SliceJoin<T>(s: seq<T>, i: nat, j: nat)
    requires i <= j <= |s|
    ensures s[..i] + s[i..j] == s[..j]
  {
  }

  lemma SliceTwo<T>(s: seq<T>, i: nat, j: nat)
    requires i <= j && j + 2 <= |s|
    ensures s[i..j + 2] == s[i..j] + [s[j], s[j + 1]]
  {
  }

  lemma SliceSnoc<T>(s: seq<T>, i: nat, j: nat)
    requires i <= j < |s|
    ensures s[i..j + 1] == s[i..j] + [s[j]]
  {
  }

  lemma TailOfCons<T>(x: T, s: seq<T>)
    ensures ([x] + s)[1..] == s && ([x] + s)[0] == x
  {
  }

  lemma ConsOfParts<T>(s: seq<T>)
    requires s != []
    ensures s == [s[0]] + s[1..]
  {
  }

  lemma Whole<T>(s: seq<T>)
    ensures s[..|s|] == s && s[|s|..] == []
  {
  }

  /** The numbers below `n`, in order. */
  function UpTo(n: nat): seq<nat>
    decreases n
  {
    if n == 0 then [] else UpTo(n - 1) + [n - 1]
  }

  lemma {:induction false} CountUpTo(n: nat, k: nat)
    ensures multiset(UpTo(n))[k] == if k < n then 1 else 0
    decreases n
  {
    if n > 0 {
      CountUpTo(n - 1, k);
    }
  }

  // ---------- The end of a sequence, and rings ----------

  /** The last `n` elements, or all of them. */
  function Last<T>(s: seq<T>, n: nat): seq<T> {
    if |s| <= n then s else s[|s| - n..]
  }

  lemma NoneLast<T>(n: nat)
    ensures Last<T>([], n) == []
  {
  }

  lemma LastOfLast<T>(s: seq<T>, x: T, n: nat)
    requires n > 0
    ensures Last(Last(s, n) + [x], n) == Last(s + [x], n)
    ensures Last(s + [x], n) != [] && Last(s + [x], n)[|Last(s + [x], n)| - 1] == x
  {
  }

  lemma LastOfTwo<T>(a: seq<T>, b: seq<T>, n: nat)
    ensures Last(a + b, n) == if |b| >= n then Last(b, n) else Last(Last(a, n), n - |b|) + b
  {
  }

  lemma LastIn<T>(s: seq<T>, n: nat)
    ensures forall x :: x in Last(s, n) ==> x in s
    ensures |Last(s, n)| <= n
    ensures s != [] && n > 0 ==> Last(s, n) != [] && s[|s| - 1] in Last(s, n)
  {
    if s != [] && n > 0 {
      assert Last(s, n)[|Last(s, n)| - 1] == s[|s| - 1];
    }
  }

  /** The position after `p` in a ring of `n` cells. */
  lemma RingNext(p: nat, n: nat)
    requires p < n
    ensures (p + 1) % n == if p + 1 < n then p + 1 else 0
  {
  }

  /** Overwriting the oldest cell of a full ring, seen from the oldest cell on. */
  lemma Shift<T>(c: seq<T>, p: nat, f: T)
    requires p < |c|
    ensures c[p := f][p + 1..] + c[p := f][..p + 1] == (c[p..] + c[..p] + [f])[1..]
    ensures c[p := f][..p + 1] == c[..p] + [f]
  {
    assert c[p := f][p + 1..] == c[p + 1..];
    assert (c[p..] + c[..p] + [f])[1..] == c[p + 1..] + c[..p] + [f];
  }
}
