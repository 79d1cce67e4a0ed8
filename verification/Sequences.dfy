/** Sequences as several parts of the program use them. */
module Sequences {
  predicate NoDup<T(==)>(s: seq<T>) { forall i, j :: 0 <= i < j < |s| ==> s[i] != s[j] }

  function SetOf<T>(s: seq<T>): set<T> { set x | x in s }

  function Repeat<T>(x: T, n: nat): (r: seq<T>)
    ensures |r| == n && forall k :: 0 <= k < n ==> r[k] == x
  {
    seq(n, k => x)
  }

  lemma {:induction false} NoDupSize<T>(s: seq<T>)
    requires NoDup(s)
    ensures |SetOf(s)| == |s|
  {
    if s != [] {
      var front, x := s[..|s| - 1], s[|s| - 1];
      NoDupSize(front);
      assert s == front + [x];
      assert SetOf(s) == SetOf(front) + {x};
    }
  }

  lemma SubsetSize<T>(a: set<T>, b: set<T>)
    requires a <= b
    ensures |a| <= |b|
  {
    assert a + (b - a) == b;
  }

  // ---- one list after the other ----

  lemma Joined<T>(s: seq<T>, a: nat, b: nat, c: nat)
    requires a <= b <= c <= |s|
    ensures s[a..c] == s[a..b] + s[b..c]
  {
  }

  lemma FirstJoined<T>(s: seq<T>, a: nat, c: nat)
    requires a < c <= |s|
    ensures s[a..c] == [s[a]] + s[a + 1..c]
  {
  }

  lemma LastJoined<T>(s: seq<T>, a: nat, c: nat)
    requires a <= c < |s|
    ensures s[a..c + 1] == s[a..c] + [s[c]]
  {
  }

  /** Two parts with something between them and a separator. */
  lemma JoinedAround<T>(s: seq<T>, i: nat, e: nat, t: nat, u: nat, n: nat)
    requires i <= e <= t < u <= n <= |s|
    ensures s[i..n] == s[i..e] + s[e..t] + [s[t]] + (s[t + 1..u] + s[u..n])
  {
    Joined(s, i, e, t);
    LastJoined(s, i, t);
    Joined(s, t + 1, u, n);
    Joined(s, i, t + 1, n);
  }

  lemma CutAtOne<T>(s: seq<T>, k: nat)
    requires k < |s|
    ensures s == s[..k] + [s[k]] + s[k + 1..]
  {
  }

  lemma CutInTwo<T>(s: seq<T>, k: nat)
    requires k <= |s|
    ensures s == s[..k] + s[k..]
  {
  }

  lemma Grouped<T>(a: seq<T>, b: seq<T>, c: seq<T>)
    ensures a + b + c == a + (b + c)
  {
  }

  lemma CutBehind<T>(a: seq<T>, b: seq<T>, n: nat)
    requires |a| <= n <= |a| + |b|
    ensures (a + b)[..n] == a + b[..n - |a|]
  {
  }

  function Concat<T>(parts: seq<seq<T>>): seq<T> {
    if parts == [] then [] else Concat(parts[..|parts| - 1]) + parts[|parts| - 1]
  }

  lemma {:induction false} ConcatBoth<T>(a: seq<seq<T>>, b: seq<seq<T>>)
    ensures Concat(a + b) == Concat(a) + Concat(b)
  {
    if b == [] {
      assert a + b == a;
    } else {
      var front, last := b[..|b| - 1], b[|b| - 1];
      ConcatBoth(a, front);
      ConcatLast(a + front, last);
      ConcatLast(front, last);
      hide Concat;
      assert b == front + [last] && a + b == (a + front) + [last];
    }
  }

  lemma ConcatLast<T>(a: seq<seq<T>>, x: seq<T>)
    ensures Concat(a + [x]) == Concat(a) + x
  {
    assert (a + [x])[..|a|] == a;
  }

  // ---- taking one out ----

  /** `append(s[:i], s[i+1:]...)` at the first place of `x`. */
  function Drop<T(==)>(s: seq<T>, x: T): seq<T> {
    if s == [] then [] else if s[0] == x then s[1..] else [s[0]] + Drop(s[1..], x)
  }

  lemma {:induction false} DropAt<T>(s: seq<T>, x: T, i: nat)
    requires i < |s| && s[i] == x && x !in s[..i]
    ensures Drop(s, x) == s[..i] + s[i + 1..]
  {
    if i > 0 {
      assert s[0] in s[..i];
      assert s[1..][..i - 1] == s[..i][1..];
      DropAt(s[1..], x, i - 1);
    }
  }

  lemma {:induction false} DropNone<T>(s: seq<T>, x: T)
    requires x !in s
    ensures Drop(s, x) == s
  {
    if s != [] {
      DropNone(s[1..], x);
    }
  }

  lemma {:induction false} DropHas<T>(s: seq<T>, x: T, y: T)
    requires NoDup(s)
    ensures y in Drop(s, x) <==> y in s && y != x
  {
    if s != [] {
      assert s == [s[0]] + s[1..];
      DropHas(s[1..], x, y);
    }
  }

  lemma {:induction false} DropNoDup<T>(s: seq<T>, x: T)
    requires NoDup(s)
    ensures NoDup(Drop(s, x))
  {
    if s != [] {
      DropNoDup(s[1..], x);
      if s[0] != x {
        forall j | 0 <= j < |Drop(s[1..], x)| ensures Drop(s[1..], x)[j] != s[0] {
          DropHas(s[1..], x, Drop(s[1..], x)[j]);
        }
      }
    }
  }
}
