/** The hash of a folder: two folders have the same one exactly when they have the same entries,
    a mode of 0 standing for the default mode. */
module FolderShas {
  import opened Sequences

  datatype Entry = Entry(scope: string, sub: string, path: string, sha: string, mode: nat)

  const NUL: char := '\0'
  const LF: char := '\n'

  function Lower(c: char): char { if 'A' <= c <= 'Z' then c + 32 as char else c }

  /** `DefaultMode`: 0o755 for names that end in .sh in either case, 0o644 for others. */
  function DefaultMode(rel: string): nat {
    var n := |rel|;
    if n >= 3 && rel[n - 3] == '.' && Lower(rel[n - 2]) == 's' && Lower(rel[n - 1]) == 'h' then 493 else 420
  }

  predicate Plain(e: Entry) { e.mode == 0 || e.mode == DefaultMode(e.path) }

  function OctalDigit(n: nat): char
    requires n < 8
  {
    ['0', '1', '2', '3', '4', '5', '6', '7'][n]
  }

  function Octal(n: nat): (s: string)
    ensures s != []
  {
    if n < 8 then [OctalDigit(n)] else Octal(n / 8) + [OctalDigit(n % 8)]
  }

  function Line(e: Entry): string {
    e.scope + [NUL] + e.sub + [NUL] + e.path + [NUL] + e.sha + (if Plain(e) then [] else [NUL] + Octal(e.mode)) + [LF]
  }

  function Text(es: seq<Entry>): string { if es == [] then [] else Line(es[0]) + Text(es[1..]) }

  /** Go's order on strings. */
  predicate Less(a: string, b: string) {
    if b == [] then false
    else if a == [] then true
    else if a[0] != b[0] then a[0] < b[0]
    else Less(a[1..], b[1..])
  }

  /** The comparison the entries are sorted by. */
  predicate Before(a: Entry, b: Entry) {
    if a.scope != b.scope then Less(a.scope, b.scope)
    else if a.sub != b.sub then Less(a.sub, b.sub)
    else Less(a.path, b.path)
  }

  predicate SameKey(a: Entry, b: Entry) { a.scope == b.scope && a.sub == b.sub && a.path == b.path }

  predicate DistinctKeys(es: seq<Entry>) { forall i, j :: 0 <= i < j < |es| ==> !SameKey(es[i], es[j]) }

  /** None stands before a smaller one. */
  predicate Ordered(t: seq<Entry>) { forall i, j :: 0 <= i < j < |t| ==> !Before(t[j], t[i]) }

  /** A result of sorting: the same entries, none before a smaller one. */
  ghost predicate SortOf(es: seq<Entry>, t: seq<Entry>) { multiset(t) == multiset(es) && Ordered(t) }

  /** One way to sort: each entry moves down past those it comes before. */
  method Sort(es: seq<Entry>) returns (t: seq<Entry>)
    ensures SortOf(es, t)
  {
    hide Before;
    t := [];
    for i := 0 to |es|
      invariant SortOf(es[..i], t)
    {
      t := Insert(t, es[i]);
      assert es[..i + 1] == es[..i] + [es[i]];
    }
    assert es[..|es|] == es;
  }

  method Insert(t: seq<Entry>, e: Entry) returns (u: seq<Entry>)
    requires Ordered(t)
    ensures Ordered(u) && multiset(u) == multiset(t) + multiset{e}
  {
    hide Before;
    var j := |t|;
    while j > 0 && Before(e, t[j - 1])
      invariant 0 <= j <= |t| && forall k :: j <= k < |t| ==> Before(e, t[k])
    {
      j := j - 1;
    }
    Inserted(t, e, j);
    u := t[..j] + [e] + t[j..];
  }

  lemma Inserted(t: seq<Entry>, e: Entry, j: nat)
    requires Ordered(t) && j <= |t| && (j > 0 ==> !Before(e, t[j - 1])) && forall k :: j <= k < |t| ==> Before(e, t[k])
    ensures var u := t[..j] + [e] + t[j..]; Ordered(u) && multiset(u) == multiset(t) + multiset{e}
  {
    hide *;
    AllApart(t, e, j);
    var u := t[..j] + [e] + t[j..];
    assert t == t[..j] + t[j..];
    OrderedBetween(t, e, j);
  }

  /** The entry has its place behind the first `j`. */
  lemma AllApart(t: seq<Entry>, e: Entry, j: nat)
    requires Ordered(t) && j <= |t| && (j > 0 ==> !Before(e, t[j - 1])) && forall k :: j <= k < |t| ==> Before(e, t[k])
    ensures forall k :: 0 <= k < |t| ==> if k < j then !Before(e, t[k]) else !Before(t[k], e)
  {
    hide Before;
    forall k | 0 <= k < |t| ensures if k < j then !Before(e, t[k]) else !Before(t[k], e) {
      if k < j - 1 {
        NotBeforeTrans(e, t[j - 1], t[k]);
      }
      BeforeTotal(e, t[k]);
    }
  }

  lemma OrderedBetween(t: seq<Entry>, e: Entry, j: nat)
    requires Ordered(t) && j <= |t|
    requires forall k :: 0 <= k < |t| ==> if k < j then !Before(e, t[k]) else !Before(t[k], e)
    ensures Ordered(t[..j] + [e] + t[j..])
  {
    hide Before;
    var u := t[..j] + [e] + t[j..];
    forall a, b | 0 <= a < b < |u| ensures !Before(u[b], u[a]) {
      var x, y := if a <= j then a else a - 1, if b <= j then b else b - 1;
      assert a != j ==> u[a] == t[x];
      assert b != j ==> u[b] == t[y];
    }
  }

  /** `FolderSha`. `sha` is SHA-256 in hex. Entries with equal keys may come out in any order. */
  method FolderSha(es: seq<Entry>, sha: string -> string) returns (s: string)
    ensures exists t :: SortOf(es, t) && s == ShaOf(t, sha)
    ensures es == [] ==> s == ""
  {
    hide Line, Text, Ordered;
    if |es| == 0 {
      assert SortOf(es, []) by { NothingToSort(); }
      return "";
    }
    var t := Sort(es);
    assert |multiset(t)| == |multiset(es)| == |es| == |t|;
    var h: string := [];
    assert t[0..] == t && h + Text(t) == Text(t);
    for i := 0 to |t|
      invariant h + Text(t[i..]) == Text(t)
    {
      var e := t[i];
      var l := e.scope + [NUL] + e.sub + [NUL] + e.path + [NUL] + e.sha;
      if !(e.mode == 0 || e.mode == DefaultMode(e.path)) {
        l := l + ([NUL] + Octal(e.mode));
      }
      NextLine(t, i, h, l);
      h := h + (l + [LF]);
    }
    assert t[|t|..] == [];
    NoMoreLines(h);
    return sha(h);
  }

  lemma NothingToSort()
    ensures SortOf([], [])
  {
  }

  lemma NextLine(t: seq<Entry>, i: nat, h: string, l: string)
    requires i < |t|
    requires var e := t[i];
             l == e.scope + [NUL] + e.sub + [NUL] + e.path + [NUL] + e.sha
                  + if Plain(e) then [] else [NUL] + Octal(e.mode)
    ensures h + (l + [LF]) + Text(t[i + 1..]) == h + Text(t[i..])
  {
    hide Octal, Plain;
    assert t[i..][1..] == t[i + 1..] && t[i..][0] == t[i];
    assert Line(t[i]) == l + [LF];
    assert h + (Line(t[i]) + Text(t[i + 1..])) == h + Line(t[i]) + Text(t[i + 1..]);
  }

  lemma NoMoreLines(h: string)
    ensures h + Text([]) == h
  {
  }

  function ShaOf(t: seq<Entry>, sha: string -> string): string { if t == [] then "" else sha(Text(t)) }

  // ---- the order ----

  lemma {:induction false} LessTotal(a: string, b: string)
    ensures Less(a, b) || Less(b, a) || a == b
    ensures !(Less(a, b) && Less(b, a)) && (a == b ==> !Less(a, b))
  {
    if a != [] && b != [] && a[0] == b[0] {
      LessTotal(a[1..], b[1..]);
      assert a == [a[0]] + a[1..] && b == [b[0]] + b[1..];
    }
  }

  lemma {:induction false} LessTrans(a: string, b: string, c: string)
    requires Less(a, b) && Less(b, c)
    ensures Less(a, c)
  {
    if a != [] && a[0] == b[0] && b[0] == c[0] {
      LessTrans(a[1..], b[1..], c[1..]);
    }
  }

  lemma BeforeTotal(a: Entry, b: Entry)
    ensures Before(a, b) || Before(b, a) || SameKey(a, b)
    ensures !(Before(a, b) && Before(b, a)) && (SameKey(a, b) ==> !Before(a, b))
  {
    LessTotal(a.scope, b.scope);
    LessTotal(a.sub, b.sub);
    LessTotal(a.path, b.path);
  }

  lemma BeforeTrans(a: Entry, b: Entry, c: Entry)
    requires Before(a, b) && Before(b, c)
    ensures Before(a, c)
  {
    if a.scope == b.scope == c.scope {
      if a.sub == b.sub == c.sub {
        LessTrans(a.path, b.path, c.path);
      } else if a.sub != b.sub && b.sub != c.sub {
        LessTrans(a.sub, b.sub, c.sub);
        LessTotal(a.sub, c.sub);
        LessTotal(a.sub, b.sub);
      }
    } else if a.scope != b.scope && b.scope != c.scope {
      LessTrans(a.scope, b.scope, c.scope);
      LessTotal(a.scope, c.scope);
      LessTotal(a.scope, b.scope);
    }
  }

  lemma NotBeforeTrans(a: Entry, b: Entry, c: Entry)
    requires !Before(a, b) && !Before(b, c)
    ensures !Before(a, c)
  {
    BeforeTotal(a, b);
    BeforeTotal(b, c);
    if Before(b, a) && Before(c, b) {
      BeforeTrans(c, b, a);
      BeforeTotal(a, c);
    }
  }

  predicate Ascending(t: seq<Entry>) { forall i, j :: 0 <= i < j < |t| ==> Before(t[i], t[j]) }

  ghost predicate SameMembers(t: seq<Entry>, u: seq<Entry>) { forall e :: e in t <==> e in u }

  /** Of entries with distinct keys there is one sorted list. */
  lemma {:induction false} OneOrder(t: seq<Entry>, u: seq<Entry>)
    requires Ascending(t) && Ascending(u) && SameMembers(t, u)
    ensures t == u
  {
    if t == [] {
      if u != [] {
        HeadIn(u);
      }
    } else {
      assert t[0] in u;
      assert u[0] in t;
      var i :| 0 <= i < |u| && u[i] == t[0];
      var j :| 0 <= j < |t| && t[j] == u[0];
      BeforeTotal(t[0], u[0]);
      assert t[0] == u[0];
      forall e ensures e in t[1..] <==> e in u[1..] {
        TailHas(t, e);
        TailHas(u, e);
      }
      OneOrder(t[1..], u[1..]);
      assert t == [t[0]] + t[1..] && u == [u[0]] + u[1..];
    }
  }

  lemma HeadIn(t: seq<Entry>)
    requires t != []
    ensures exists e :: e in t
  {
    assert t[0] in t;
  }

  lemma TailHas(t: seq<Entry>, e: Entry)
    requires t != [] && Ascending(t)
    ensures e in t[1..] <==> e in t && e != t[0]
  {
    assert t == [t[0]] + t[1..];
    if e in t[1..] {
      var i :| 0 <= i < |t[1..]| && t[1..][i] == e;
      assert Before(t[0], t[i + 1]);
      BeforeTotal(t[0], t[i + 1]);
    }
  }

  lemma SortedAscends(es: seq<Entry>, t: seq<Entry>)
    requires SortOf(es, t) && DistinctKeys(es)
    ensures Ascending(t) && SameMembers(es, t)
  {
    forall e ensures e in es <==> e in t {
      assert e in es <==> e in multiset(es);
      assert e in t <==> e in multiset(t);
    }
    forall i, j | 0 <= i < j < |t| ensures Before(t[i], t[j]) {
      BeforeTotal(t[i], t[j]);
      if SameKey(t[i], t[j]) {
        TwiceInSort(es, t, i, j);
      }
    }
  }

  /** Two places of the sorted list come from two places of the list. */
  lemma TwiceInSort(es: seq<Entry>, t: seq<Entry>, i: nat, j: nat)
    requires multiset(es) == multiset(t) && i < j < |t| && SameKey(t[i], t[j])
    ensures !DistinctKeys(es)
  {
    assert t[i] in multiset(t) && t[j] in multiset(t);
    assert t[i] in multiset(es) && t[j] in multiset(es);
    if t[i] == t[j] {
      assert t == t[..i] + [t[i]] + t[i + 1..j] + [t[j]] + t[j + 1..];
      assert multiset(t)[t[i]] >= 2;
      TwoPlaces(es, t[i]);
    } else {
      var k :| 0 <= k < |es| && es[k] == t[i];
      var l :| 0 <= l < |es| && es[l] == t[j];
      assert k < l || l < k;
    }
  }

  lemma {:induction false} TwoPlaces(es: seq<Entry>, e: Entry)
    requires multiset(es)[e] >= 2
    ensures !DistinctKeys(es)
  {
    assert e in multiset(es);
    var k :| 0 <= k < |es| && es[k] == e;
    var rest := es[..k] + es[k + 1..];
    assert es == es[..k] + [es[k]] + es[k + 1..];
    assert multiset(rest)[e] >= 1;
    assert e in multiset(rest);
    var l :| 0 <= l < |rest| && rest[l] == e;
    if l < k {
      assert es[l] == e;
    } else {
      assert es[l + 1] == e;
    }
  }

  // ---- the text says which entries ----

  /** The entry with its mode written out. */
  function Norm(e: Entry): Entry { if e.mode == 0 then e.(mode := DefaultMode(e.path)) else e }

  function NormAll(es: seq<Entry>): (r: seq<Entry>)
    ensures |r| == |es| && forall i :: 0 <= i < |es| ==> r[i] == Norm(es[i])
  {
    seq(|es|, i requires 0 <= i < |es| => Norm(es[i]))
  }

  /** Names as the store lets them in: no NUL; a file hash has no line end either. */
  predicate Clean(e: Entry) { NUL !in e.scope && NUL !in e.sub && NUL !in e.path && NUL !in e.sha && LF !in e.sha }

  predicate Stop(c: char) { c == NUL || c == LF }

  function FirstStop(s: string, onlyNul: bool): nat {
    if s == [] || s[0] == NUL || (s[0] == LF && !onlyNul) then 0 else 1 + FirstStop(s[1..], onlyNul)
  }

  lemma {:induction false} StopsAt(a: string, c: char, x: string, onlyNul: bool)
    requires c == NUL || (c == LF && !onlyNul)
    requires NUL !in a && (!onlyNul ==> LF !in a)
    ensures FirstStop(a + [c] + x, onlyNul) == |a|
  {
    var s := a + [c] + x;
    if a == [] {
      assert s[0] == c;
    } else {
      assert a[0] in a;
      assert s[1..] == a[1..] + [c] + x;
      StopsAt(a[1..], c, x, onlyNul);
    }
  }

  /** What stands before the first stop is the same in equal texts. */
  lemma SplitAt(a: string, c: char, x: string, b: string, d: char, y: string, onlyNul: bool)
    requires a + [c] + x == b + [d] + y
    requires if onlyNul then c == NUL && d == NUL && NUL !in a && NUL !in b
             else Stop(c) && Stop(d) && NUL !in a && LF !in a && NUL !in b && LF !in b
    ensures a == b && c == d && x == y
  {
    var s := a + [c] + x;
    StopsAt(a, c, x, onlyNul);
    StopsAt(b, d, y, onlyNul);
    assert a == s[..|a|] == (b + [d] + y)[..|b|] == b;
    assert c == s[|a|] == (b + [d] + y)[|b|] == d;
    assert x == s[|a| + 1..] == (b + [d] + y)[|b| + 1..] == y;
  }

  lemma {:induction false} OctalClean(n: nat)
    ensures NUL !in Octal(n) && LF !in Octal(n)
  {
    if n >= 8 {
      OctalClean(n / 8);
    }
  }

  lemma {:induction false} OctalInjective(m: nat, n: nat)
    requires Octal(m) == Octal(n)
    ensures m == n
  {
    assert Octal(m)[|Octal(m)| - 1] == OctalDigit(m % 8) && Octal(n)[|Octal(n)| - 1] == OctalDigit(n % 8);
    if m >= 8 && n >= 8 {
      assert Octal(m)[..|Octal(m)| - 1] == Octal(m / 8) && Octal(n)[..|Octal(n)| - 1] == Octal(n / 8);
      OctalInjective(m / 8, n / 8);
    }
  }

  function ModePart(e: Entry): string { if Plain(e) then [] else [NUL] + Octal(e.mode) }

  /** Equal texts that begin with a line each begin with lines of the same entry. */
  lemma LineInjective(a: Entry, x: string, b: Entry, y: string)
    requires Clean(a) && Clean(b) && Line(a) + x == Line(b) + y
    ensures Norm(a) == Norm(b) && x == y
  {
    var a3, b3 := a.sha + ModePart(a) + [LF] + x, b.sha + ModePart(b) + [LF] + y;
    var a2, b2 := a.path + [NUL] + a3, b.path + [NUL] + b3;
    var a1, b1 := a.sub + [NUL] + a2, b.sub + [NUL] + b2;
    LineParts(a, x);
    LineParts(b, y);
    SplitAt(a.scope, NUL, a1, b.scope, NUL, b1, true);
    SplitAt(a.sub, NUL, a2, b.sub, NUL, b2, true);
    SplitAt(a.path, NUL, a3, b.path, NUL, b3, true);
    EndInjective(a, x, b, y);
  }

  lemma LineParts(a: Entry, x: string)
    ensures Line(a) + x == a.scope + [NUL] + (a.sub + [NUL] + (a.path + [NUL] + (a.sha + ModePart(a) + [LF] + x)))
  {
  }

  lemma EndInjective(a: Entry, x: string, b: Entry, y: string)
    requires Clean(a) && Clean(b) && a.path == b.path && a.scope == b.scope && a.sub == b.sub
    requires a.sha + ModePart(a) + [LF] + x == b.sha + ModePart(b) + [LF] + y
    ensures Norm(a) == Norm(b) && x == y
  {
    var ca, xa := EndOf(a, x);
    var cb, xb := EndOf(b, y);
    SplitAt(a.sha, ca, xa, b.sha, cb, xb, false);
    if ca == NUL {
      OctalClean(a.mode);
      OctalClean(b.mode);
      SplitAt(Octal(a.mode), LF, x, Octal(b.mode), LF, y, false);
      OctalInjective(a.mode, b.mode);
    }
  }

  lemma EndOf(a: Entry, x: string) returns (c: char, rest: string)
    ensures a.sha + ModePart(a) + [LF] + x == a.sha + [c] + rest
    ensures if Plain(a) then c == LF && rest == x else c == NUL && rest == Octal(a.mode) + [LF] + x
  {
    if Plain(a) {
      c, rest := LF, x;
      assert a.sha + [] + [LF] + x == a.sha + [LF] + x;
    } else {
      c, rest := NUL, Octal(a.mode) + [LF] + x;
      assert a.sha + ([NUL] + Octal(a.mode)) + [LF] + x == a.sha + [NUL] + (Octal(a.mode) + [LF] + x);
    }
  }

  lemma {:induction false} TextInjective(t: seq<Entry>, u: seq<Entry>)
    requires (forall e :: e in t ==> Clean(e)) && (forall e :: e in u ==> Clean(e)) && Text(t) == Text(u)
    ensures NormAll(t) == NormAll(u)
  {
    hide Line, Norm;
    if t == [] || u == [] {
      LineNotEmpty(t);
      LineNotEmpty(u);
    } else {
      LineInjective(t[0], Text(t[1..]), u[0], Text(u[1..]));
      TextInjective(t[1..], u[1..]);
      assert NormAll(t) == [Norm(t[0])] + NormAll(t[1..]);
      assert NormAll(u) == [Norm(u[0])] + NormAll(u[1..]);
    }
  }

  lemma LineNotEmpty(t: seq<Entry>)
    ensures Text(t) == [] <==> t == []
  {
  }

  /** The text depends on the written-out modes only. */
  lemma {:induction false} TextOfNorm(t: seq<Entry>)
    ensures Text(NormAll(t)) == Text(t)
  {
    if t != [] {
      TextOfNorm(t[1..]);
      assert NormAll(t)[1..] == NormAll(t[1..]);
      assert Line(Norm(t[0])) == Line(t[0]);
    }
  }

  /** So a list of entries with distinct keys has one hash, in whatever order it is given. */
  lemma OneHash(es: seq<Entry>, t: seq<Entry>, fs: seq<Entry>, u: seq<Entry>, sha: string -> string)
    requires SortOf(es, t) && SortOf(fs, u) && multiset(es) == multiset(fs) && DistinctKeys(es)
    ensures ShaOf(t, sha) == ShaOf(u, sha)
  {
    hide Text, Before, SameKey;
    SortedAscends(es, t);
    SortedAscends(es, u);
    OneOrder(t, u);
  }

  /** For any two lists of entries with distinct keys, sorted in whatever way: the hashes are equal
      exactly when the entries are, in whatever order they were given. */
  lemma SameShaSameEntries(es: seq<Entry>, t: seq<Entry>, fs: seq<Entry>, u: seq<Entry>, sha: string -> string)
    requires SortOf(es, t) && SortOf(fs, u) && DistinctKeys(es) && DistinctKeys(fs)
    requires (forall e :: e in es ==> Clean(e)) && (forall e :: e in fs ==> Clean(e))
    requires (forall x, y {:trigger sha(x), sha(y)} :: sha(x) == sha(y) ==> x == y) && forall x :: sha(x) != ""
    ensures ShaOf(t, sha) == ShaOf(u, sha) <==> SameMembers(NormAll(es), NormAll(fs))
  {
    hide Text, Before, Clean, SameKey;
    SortedAscends(es, t);
    SortedAscends(fs, u);
    NormMembers(es, t);
    NormMembers(fs, u);
    LineNotEmpty(t);
    LineNotEmpty(u);
    if ShaOf(t, sha) == ShaOf(u, sha) {
      assert Text(t) == Text(u);
      TextInjective(t, u);
    }
    if SameMembers(NormAll(es), NormAll(fs)) {
      NormAscends(t);
      NormAscends(u);
      OneOrder(NormAll(t), NormAll(u));
      TextOfNorm(t);
      TextOfNorm(u);
      assert |t| == |u|;
    }
  }

  lemma NormMembers(es: seq<Entry>, t: seq<Entry>)
    requires SameMembers(es, t)
    ensures SameMembers(NormAll(es), NormAll(t))
  {
    forall n ensures n in NormAll(es) <==> n in NormAll(t) {
      if n in NormAll(es) {
        var i :| 0 <= i < |es| && NormAll(es)[i] == n;
        assert es[i] in t;
        var j :| 0 <= j < |t| && t[j] == es[i];
        assert NormAll(t)[j] == n;
      }
      if n in NormAll(t) {
        var i :| 0 <= i < |t| && NormAll(t)[i] == n;
        assert t[i] in es;
        var j :| 0 <= j < |es| && es[j] == t[i];
        assert NormAll(es)[j] == n;
      }
    }
  }

  lemma NormAscends(t: seq<Entry>)
    requires Ascending(t)
    ensures Ascending(NormAll(t))
  {
    forall i, j | 0 <= i < j < |t| ensures Before(Norm(t[i]), Norm(t[j])) {
      assert Before(t[i], t[j]);
    }
  }

  // ---- the format ----

  /** Scripts may be run, other files not. */
  lemma DefaultModes(rel: string)
    ensures DefaultMode(rel) == if exists a, x :: rel == a + x && x in [".sh", ".Sh", ".sH", ".SH"] then 493 else 420
  {
    var n := |rel|;
    if n >= 3 && rel[n - 3..] in [".sh", ".Sh", ".sH", ".SH"] {
      assert rel == rel[..n - 3] + rel[n - 3..];
    }
    if a, x :| rel == a + x && x in [".sh", ".Sh", ".sH", ".SH"] {
      assert rel[n - 3..] == x;
    }
    if n >= 3 {
      var x := rel[n - 3..];
      assert rel[n - 3] == x[0] && rel[n - 2] == x[1] && rel[n - 1] == x[2];
      assert Lower(x[1]) == 's' <==> x[1] in "sS";
      assert Lower(x[2]) == 'h' <==> x[2] in "hH";
      assert forall y: string :: |y| == 3 && x[0] == y[0] && x[1] == y[1] && x[2] == y[2] ==> x == y;
    }
  }

  /** `a` stands before `b` where they first differ, or is a beginning of it. */
  predicate Earlier(a: string, b: string) {
    exists k: nat {:trigger a[..k]} ::
      && k <= |a| && k <= |b| && a[..k] == b[..k] && k < |b| && (k == |a| || a[k] < b[k])
  }

  lemma {:induction false} LessIsEarlier(a: string, b: string)
    ensures Less(a, b) <==> Earlier(a, b)
  {
    if a != [] && b != [] && a[0] == b[0] {
      LessIsEarlier(a[1..], b[1..]);
      if k: nat :| k <= |a[1..]| && k <= |b[1..]| && a[1..][..k] == b[1..][..k] && k < |b[1..]|
                   && (k == |a[1..]| || a[1..][k] < b[1..][k])
      {
        assert a[..k + 1] == [a[0]] + a[1..][..k] && b[..k + 1] == [b[0]] + b[1..][..k];
      }
      if k: nat :| k <= |a| && k <= |b| && a[..k] == b[..k] && k < |b| && (k == |a| || a[k] < b[k]) {
        assert k > 0;
        assert a[1..][..k - 1] == a[..k][1..] && b[1..][..k - 1] == b[..k][1..];
      }
    } else if a == [] && b != [] {
      assert a[..0] == b[..0];
    } else if a != [] && b != [] {
      assert a[0] < b[0] ==> a[..0] == b[..0];
      forall k: nat | 0 < k <= |a| && k <= |b| ensures a[..k] != b[..k] {
        assert a[..k][0] != b[..k][0];
      }
    }
  }

  /** A later entry has a scope that is not earlier; of equal scopes a sub key, of equal sub keys a path. */
  lemma SortedByName(t: seq<Entry>, i: nat, j: nat)
    requires Ordered(t) && i < j < |t|
    ensures !Earlier(t[j].scope, t[i].scope)
    ensures t[i].scope == t[j].scope ==> !Earlier(t[j].sub, t[i].sub)
    ensures t[i].scope == t[j].scope && t[i].sub == t[j].sub ==> !Earlier(t[j].path, t[i].path)
  {
    var a, b := t[j], t[i];
    LessIsEarlier(a.scope, b.scope);
    LessIsEarlier(a.sub, b.sub);
    LessIsEarlier(a.path, b.path);
    hide Earlier;
    LessTotal(a.scope, b.scope);
    LessTotal(a.sub, b.sub);
  }

  predicate IsOctal(s: string) { forall k :: 0 <= k < |s| ==> '0' <= s[k] <= '7' }

  function OctalValue(s: string): nat
    requires IsOctal(s)
  {
    if s == [] then 0 else 8 * OctalValue(s[..|s| - 1]) + (s[|s| - 1] as int - '0' as int)
  }

  lemma {:induction false} OctalReads(n: nat)
    ensures IsOctal(Octal(n)) && OctalValue(Octal(n)) == n && (|Octal(n)| > 1 ==> Octal(n)[0] != '0')
  {
    if n >= 8 {
      OctalReads(n / 8);
      assert Octal(n)[..|Octal(n)| - 1] == Octal(n / 8);
      assert n / 8 > 0 && |Octal(n / 8)| == 1 ==> Octal(n / 8) == [OctalDigit(n / 8)];
    }
  }

  /** The fields with a NUL between them and a line feed at the end; a mode that is not the default
      is a fifth field. */
  function Row(fields: seq<string>): string
    requires fields != []
  {
    if |fields| == 1 then fields[0] + "\n" else fields[0] + "\0" + Row(fields[1..])
  }

  function RowOf(e: Entry): string {
    Row([e.scope, e.sub, e.path, e.sha] + if Plain(e) then [] else [Octal(e.mode)])
  }

  lemma RowMore(a: string, rest: seq<string>)
    requires rest != []
    ensures Row([a] + rest) == a + "\0" + Row(rest)
  {
    assert ([a] + rest)[1..] == rest;
  }

  lemma RowOne(a: string)
    ensures Row([a]) == a + "\n"
  {
  }

  lemma RowIs(e: Entry)
    ensures RowOf(e) == Line(e)
  {
    hide Octal, Plain, Row;
    var mode := if Plain(e) then [] else [Octal(e.mode)];
    RowMore(e.path, [e.sha] + mode);
    RowMore(e.sub, [e.path] + ([e.sha] + mode));
    RowMore(e.scope, [e.sub] + ([e.path] + ([e.sha] + mode)));
    assert [e.scope, e.sub, e.path, e.sha] + mode == [e.scope] + ([e.sub] + ([e.path] + ([e.sha] + mode)));
    if Plain(e) {
      assert [e.sha] + mode == [e.sha];
      RowOne(e.sha);
    } else {
      RowMore(e.sha, mode);
      RowOne(Octal(e.mode));
    }
  }

  lemma {:induction false} TextBoth(a: seq<Entry>, b: seq<Entry>)
    ensures Text(a + b) == Text(a) + Text(b)
  {
    hide Line;
    if a == [] {
      assert a + b == b;
    } else {
      assert (a + b)[1..] == a[1..] + b;
      TextBoth(a[1..], b);
      hide Text;
      assert Line(a[0]) + (Text(a[1..]) + Text(b)) == Line(a[0]) + Text(a[1..]) + Text(b);
    }
  }

  /** The text is a row for each entry, in order. */
  lemma TextIsRows(t: seq<Entry>, k: nat)
    requires k < |t|
    ensures Text(t) == Text(t[..k]) + RowOf(t[k]) + Text(t[k + 1..]) && Text([]) == []
  {
    hide *;
    RowIs(t[k]);
    OneLine(t[k]);
    CutAtOne(t, k);
    TextBoth(t[..k] + [t[k]], t[k + 1..]);
    TextBoth(t[..k], [t[k]]);
  }

  lemma OneLine(e: Entry)
    ensures Text([e]) == Line(e) && Text([]) == []
  {
    hide Line;
    assert [e][1..] == [];
    assert Line(e) + [] == Line(e);
  }
}
