/** Which screen a terminal is on: set by the last enter or leave sequence of its whole output,
    and found chunk by chunk from the last seven bytes before each chunk. */
module AltScreen {
  import opened Sequences
  import opened Wrappers
  import opened Bytes
  import opened Rings

  const ESC: byte := 0x1B
  const ALT_CARRY: nat := 7

  /** `altSeqs`: ESC [ ? 1049 h, ... 1049 l, 1047 h, 1047 l, 47 h, 47 l. */
  const SEQS: seq<(seq<byte>, bool)> := [
    ([ESC, 0x5B, 0x3F, 0x31, 0x30, 0x34, 0x39, 0x68], true), ([ESC, 0x5B, 0x3F, 0x31, 0x30, 0x34, 0x39, 0x6C], false),
    ([ESC, 0x5B, 0x3F, 0x31, 0x30, 0x34, 0x37, 0x68], true), ([ESC, 0x5B, 0x3F, 0x31, 0x30, 0x34, 0x37, 0x6C], false),
    ([ESC, 0x5B, 0x3F, 0x34, 0x37, 0x68], true), ([ESC, 0x5B, 0x3F, 0x34, 0x37, 0x6C], false)]

  predicate StartsAt(b: seq<byte>, i: nat, q: seq<byte>) { i + |q| <= |b| && b[i..i + |q|] == q }

  /** The sequence at a position, among the first `n`. */
  function MatchIn(b: seq<byte>, i: nat, n: nat): Option<bool>
    requires n <= |SEQS|
  {
    if n == 0 then None else if StartsAt(b, i, SEQS[n - 1].0) then Some(SEQS[n - 1].1) else MatchIn(b, i, n - 1)
  }

  function MatchAt(b: seq<byte>, i: nat): Option<bool> { MatchIn(b, i, |SEQS|) }

  /** The last sequence that starts before `k`. */
  function LastMatch(b: seq<byte>, k: nat): Option<bool> {
    if k == 0 then None else if MatchAt(b, k - 1).Some? then MatchAt(b, k - 1) else LastMatch(b, k - 1)
  }

  function LastAlt(b: seq<byte>): Option<bool> { LastMatch(b, |b|) }

  /** The screen after an output, from the screen before it. */
  function Alt(s: seq<byte>, init: bool): bool { if LastAlt(s).Some? then LastAlt(s).value else init }

  function Edge(tail: seq<byte>, p: seq<byte>): seq<byte> { tail + p[..if |p| < ALT_CARRY then |p| else ALT_CARRY] }

  /** What one write makes of the screen and of the bytes carried over. */
  function AltAfter(alt: bool, tail: seq<byte>, p: seq<byte>): bool { Alt(p, Alt(Edge(tail, p), alt)) }

  function TailAfter(tail: seq<byte>, p: seq<byte>): seq<byte> {
    Suffix(if |p| > ALT_CARRY then p else Edge(tail, p), ALT_CARRY)
  }

  // ---- matches ----

  /** Every sequence is six or eight bytes long, and none begins another. */
  lemma SeqLengths(n: nat)
    requires n < |SEQS|
    ensures |SEQS[n].0| == if n < 4 then 8 else 6
  {
  }

  lemma OnlyOne(b: seq<byte>, i: nat, m: nat, n: nat)
    requires m < |SEQS| && n < |SEQS| && StartsAt(b, i, SEQS[m].0) && StartsAt(b, i, SEQS[n].0)
    ensures m == n
  {
    SeqLengths(m);
    SeqLengths(n);
    assert forall k :: 0 <= k < 6 ==> SEQS[m].0[k] == b[i..i + |SEQS[m].0|][k] == b[i + k];
    assert forall k :: 0 <= k < 6 ==> SEQS[n].0[k] == b[i..i + |SEQS[n].0|][k] == b[i + k];
    assert m < 4 && n < 4 ==> SEQS[m].0[6] == b[i..i + 8][6] == SEQS[n].0[6];
    assert m < 4 && n < 4 ==> SEQS[m].0[7] == b[i..i + 8][7] == SEQS[n].0[7];
    assert SEQS[m].0[3] == SEQS[n].0[3] && SEQS[m].0[5] == SEQS[n].0[5];
  }

  lemma {:induction false} MatchInIff(b: seq<byte>, i: nat, n: nat, m: nat)
    requires m < n <= |SEQS| && StartsAt(b, i, SEQS[m].0)
    ensures MatchIn(b, i, n) == Some(SEQS[m].1)
  {
    if StartsAt(b, i, SEQS[n - 1].0) {
      OnlyOne(b, i, m, n - 1);
    } else {
      MatchInIff(b, i, n - 1, m);
    }
  }

  lemma {:induction false} MatchedBy(b: seq<byte>, i: nat, n: nat) returns (m: nat)
    requires n <= |SEQS| && MatchIn(b, i, n).Some?
    ensures m < n && StartsAt(b, i, SEQS[m].0) && MatchIn(b, i, n) == Some(SEQS[m].1)
  {
    if StartsAt(b, i, SEQS[n - 1].0) {
      m := n - 1;
    } else {
      m := MatchedBy(b, i, n - 1);
    }
  }

  /** A match needs the eight bytes behind its start at most. */
  lemma MatchMoves(a: seq<byte>, i: nat, b: seq<byte>, j: nat)
    requires i <= |a| && j <= |b| && a[i..] <= b[j..]
    requires |a| - i >= 8 || a[i..] == b[j..]
    ensures MatchAt(a, i) == MatchAt(b, j)
  {
    forall m | 0 <= m < |SEQS| ensures StartsAt(a, i, SEQS[m].0) <==> StartsAt(b, j, SEQS[m].0) {
      SeqLengths(m);
      var l := |SEQS[m].0|;
      if i + l <= |a| {
        assert a[i..i + l] == a[i..][..l] == b[j..][..l] == b[j..j + l];
      }
    }
    SameMatches(a, i, b, j, |SEQS|);
  }

  lemma {:induction false} SameMatches(a: seq<byte>, i: nat, b: seq<byte>, j: nat, n: nat)
    requires n <= |SEQS| && forall m :: 0 <= m < |SEQS| ==> (StartsAt(a, i, SEQS[m].0) <==> StartsAt(b, j, SEQS[m].0))
    ensures MatchIn(a, i, n) == MatchIn(b, j, n)
  {
    if n > 0 {
      SameMatches(a, i, b, j, n - 1);
    }
  }

  // ---- the last match ----

  lemma {:induction false} LastIs(b: seq<byte>, k: nat, i: nat)
    requires i < k && MatchAt(b, i).Some? && forall j :: i < j < k ==> MatchAt(b, j).None?
    ensures LastMatch(b, k) == MatchAt(b, i)
  {
    if i < k - 1 {
      LastIs(b, k - 1, i);
    }
  }

  lemma {:induction false} NoLast(b: seq<byte>, k: nat)
    requires forall j :: 0 <= j < k ==> MatchAt(b, j).None?
    ensures LastMatch(b, k) == None
  {
    if k > 0 {
      NoLast(b, k - 1);
    }
  }

  /** Where the last match before `k` is. */
  lemma {:induction false} Where(b: seq<byte>, k: nat) returns (i: nat)
    requires LastMatch(b, k).Some?
    ensures i < k && MatchAt(b, i) == LastMatch(b, k) && forall j :: i < j < k ==> MatchAt(b, j).None?
  {
    if MatchAt(b, k - 1).Some? {
      i := k - 1;
    } else {
      i := Where(b, k - 1);
    }
  }

  lemma {:induction false} NoneBefore(b: seq<byte>, k: nat, j: nat)
    requires LastMatch(b, k).None? && j < k
    ensures MatchAt(b, j).None?
  {
    if j < k - 1 {
      NoneBefore(b, k - 1, j);
    }
  }

  // ---- one write ----

  /** A position of the whole output, seen in the chunk, in the edge, or in the output before. */
  lemma Seen(s: seq<byte>, tail: seq<byte>, p: seq<byte>, i: nat)
    requires tail == Suffix(s, ALT_CARRY) && i < |s| + |p|
    ensures i >= |s| ==> MatchAt(s + p, i) == MatchAt(p, i - |s|)
    ensures |s| - |tail| <= i < |s| ==> MatchAt(s + p, i) == MatchAt(Edge(tail, p), i - (|s| - |tail|))
    ensures i < |s| - |tail| ==> MatchAt(s + p, i) == MatchAt(s, i)
  {
    hide MatchAt, Suffix, Edge;
    if i >= |s| {
      assert (s + p)[i..] == p[i - |s|..];
      MatchMoves(s + p, i, p, i - |s|);
    } else if i >= |s| - |tail| {
      SeenAcross(s, tail, p, i);
    } else {
      assert (s + p)[i..] == s[i..] + p;
      MatchMoves(s, i, s + p, i);
    }
  }

  lemma SeenAcross(s: seq<byte>, tail: seq<byte>, p: seq<byte>, i: nat)
    requires tail == Suffix(s, ALT_CARRY) && |s| - |tail| <= i < |s|
    ensures MatchAt(s + p, i) == MatchAt(Edge(tail, p), i - (|s| - |tail|))
  {
    hide MatchAt;
    var j := i - (|s| - |tail|);
    var n := if |p| < ALT_CARRY then |p| else ALT_CARRY;
    var e := Edge(tail, p);
    assert e == tail + p[..n];
    assert s[i..] == tail[j..];
    hide Suffix, Edge;
    assert e[j..] == s[i..] + p[..n];
    assert (s + p)[i..] == s[i..] + p;
    PrefixOfMore(s[i..], p, n);
    MatchMoves(e, j, s + p, i);
  }

  lemma PrefixOfMore(a: seq<byte>, p: seq<byte>, n: nat)
    requires n <= |p|
    ensures a + p[..n] <= a + p
    ensures n == |p| ==> a + p[..n] == a + p
  {
  }

  /** In the edge only matches inside the bytes before the chunk are matches there too. */
  lemma SeenInEdge(s: seq<byte>, tail: seq<byte>, p: seq<byte>, j: nat)
    requires tail == Suffix(s, ALT_CARRY) && |tail| <= j < |Edge(tail, p)| && MatchAt(Edge(tail, p), j).Some?
    ensures MatchAt(p, j - |tail|) == MatchAt(Edge(tail, p), j)
  {
    var e := Edge(tail, p);
    var m := MatchedBy(e, j, |SEQS|);
    SeqLengths(m);
    var l := |SEQS[m].0|;
    var q := j - |tail|;
    assert p[q..q + l] == e[j..j + l];
    MatchInIff(p, q, |SEQS|, m);
  }

  /** After any chunk the state is the one the whole output sets, whatever the chunk's borders. */
  lemma WriteTracks(s: seq<byte>, init: bool, alt: bool, tail: seq<byte>, p: seq<byte>)
    requires tail == Suffix(s, ALT_CARRY) && alt == Alt(s, init)
    ensures AltAfter(alt, tail, p) == Alt(s + p, init) && TailAfter(tail, p) == Suffix(s + p, ALT_CARRY)
  {
    hide MatchAt;
    TailTracks(s, tail, p);
    var e := Edge(tail, p);
    if LastAlt(p).Some? {
      var j := Where(p, |p|);
      forall i | |s| + j <= i < |s| + |p| ensures MatchAt(s + p, i) == MatchAt(p, i - |s|) {
        Seen(s, tail, p, i);
      }
      LastIs(s + p, |s| + |p|, |s| + j);
    } else if LastAlt(e).Some? {
      var j := Where(e, |e|);
      if j >= |tail| {
        SeenInEdge(s, tail, p, j);
        NoneBefore(p, |p|, j - |tail|);
      } else {
        var at := j + |s| - |tail|;
        forall i | at <= i < |s| + |p| ensures MatchAt(s + p, i) == if i == at then MatchAt(e, j) else None {
          Seen(s, tail, p, i);
          if i >= |s| {
            NoneBefore(p, |p|, i - |s|);
          }
        }
        LastIs(s + p, |s| + |p|, at);
      }
    } else {
      NoNewMatch(s, tail, p);
    }
  }

  lemma NoNewMatch(s: seq<byte>, tail: seq<byte>, p: seq<byte>)
    requires tail == Suffix(s, ALT_CARRY) && LastAlt(p).None? && LastAlt(Edge(tail, p)).None?
    ensures LastAlt(s + p) == LastAlt(s)
  {
    hide MatchAt;
    var e := Edge(tail, p);
    forall i | |s| - |tail| <= i < |s| + |p| ensures MatchAt(s + p, i).None? {
      Seen(s, tail, p, i);
      if i >= |s| {
        NoneBefore(p, |p|, i - |s|);
      } else {
        NoneBefore(e, |e|, i - (|s| - |tail|));
      }
    }
    forall i | 0 <= i < |s| - |tail| ensures MatchAt(s + p, i) == MatchAt(s, i) {
      Seen(s, tail, p, i);
    }
    forall i | |s| - |tail| <= i < |s| ensures MatchAt(s, i).None? {
      TailMatch(s, tail, p, i);
    }
    if LastAlt(s).Some? {
      var j := Where(s, |s|);
      LastIs(s + p, |s| + |p|, j);
    } else {
      forall i | 0 <= i < |s| + |p| ensures MatchAt(s + p, i).None? {
        if i < |s| - |tail| {
          NoneBefore(s, |s|, i);
        }
      }
      NoLast(s + p, |s| + |p|);
    }
  }

  /** A match inside the carried bytes shows in the edge. */
  lemma TailMatch(s: seq<byte>, tail: seq<byte>, p: seq<byte>, i: nat)
    requires tail == Suffix(s, ALT_CARRY) && |s| - |tail| <= i < |s| && MatchAt(s + p, i).None?
    ensures MatchAt(s, i).None?
  {
    if MatchAt(s, i).Some? {
      var m := MatchedBy(s, i, |SEQS|);
      var l := |SEQS[m].0|;
      assert (s + p)[i..i + l] == s[i..i + l];
      MatchInIff(s + p, i, |SEQS|, m);
    }
  }

  lemma TailTracks(s: seq<byte>, tail: seq<byte>, p: seq<byte>)
    requires tail == Suffix(s, ALT_CARRY)
    ensures TailAfter(tail, p) == Suffix(s + p, ALT_CARRY)
  {
    if |p| > ALT_CARRY {
      assert Suffix(p, ALT_CARRY) == Suffix(s + p, ALT_CARRY);
    } else {
      assert p[..|p|] == p;
      SuffixOfSuffix(s, p, ALT_CARRY);
    }
  }

  // ---- any number of writes ----

  /** The screen and the carry after a list of writes. */
  function Run(alt: bool, chunks: seq<seq<byte>>): (bool, seq<byte>) {
    if chunks == [] then (alt, [])
    else
      var (a, t) := Run(alt, chunks[..|chunks| - 1]);
      (AltAfter(a, t, chunks[|chunks| - 1]), TailAfter(t, chunks[|chunks| - 1]))
  }

  lemma {:induction false} RunTracks(alt: bool, chunks: seq<seq<byte>>)
    ensures Run(alt, chunks) == (Alt(Concat(chunks), alt), Suffix(Concat(chunks), ALT_CARRY))
  {
    hide Alt, AltAfter, TailAfter;
    if chunks == [] {
      NothingSeen(alt);
    } else {
      var front, p := chunks[..|chunks| - 1], chunks[|chunks| - 1];
      RunTracks(alt, front);
      WriteTracks(Concat(front), alt, Run(alt, front).0, Run(alt, front).1, p);
    }
  }

  lemma NothingSeen(alt: bool)
    ensures Alt([], alt) == alt
  {
  }

  /** How an output is cut into chunks makes no difference. */
  lemma ChunkingDoesNotMatter(alt: bool, a: seq<seq<byte>>, b: seq<seq<byte>>)
    requires Concat(a) == Concat(b)
    ensures Run(alt, a) == Run(alt, b)
  {
    RunTracks(alt, a);
    RunTracks(alt, b);
  }

  // ---- what the flag means ----

  /** The control sequence that turns the private mode `n` on or off. */
  function Switch(n: string, on: bool): seq<byte>
    requires forall k :: 0 <= k < |n| ==> n[k] < 128 as char
  {
    [0x1B] + Ascii("[?") + Ascii(n) + Ascii(if on then "h" else "l")
  }

  predicate Spelled(s: seq<byte>, i: nat, q: seq<byte>) { i + |q| <= |s| && s[i..i + |q|] == q }

  /** Here the alternate screen is entered or left. */
  predicate SwitchesAt(s: seq<byte>, i: nat, on: bool) {
    Spelled(s, i, Switch("1049", on)) || Spelled(s, i, Switch("1047", on)) || Spelled(s, i, Switch("47", on))
  }

  function ModeOf(n: nat): string { if n < 2 then "1049" else if n < 4 then "1047" else "47" }

  lemma TableSpells(n: nat)
    requires n < |SEQS|
    ensures SEQS[n].0 == Switch(ModeOf(n), n % 2 == 0) && SEQS[n].1 == (n % 2 == 0)
  {
    var q := Switch(ModeOf(n), n % 2 == 0);
    assert |q| == |SEQS[n].0| && forall k :: 0 <= k < |q| ==> q[k] == SEQS[n].0[k];
    assert q == SEQS[n].0;
  }

  /** The place of a sequence in the table. */
  lemma InTable(s: seq<byte>, i: nat, on: bool) returns (n: nat)
    requires SwitchesAt(s, i, on)
    ensures n < |SEQS| && StartsAt(s, i, SEQS[n].0) && SEQS[n].1 == on
  {
    hide Switch;
    n := if Spelled(s, i, Switch("1049", on)) then 0 else if Spelled(s, i, Switch("1047", on)) then 2 else 4;
    n := if on then n else n + 1;
    TableSpells(n);
  }

  lemma OffTable(s: seq<byte>, i: nat, n: nat)
    requires n < |SEQS| && StartsAt(s, i, SEQS[n].0)
    ensures SwitchesAt(s, i, SEQS[n].1)
  {
    hide Switch;
    TableSpells(n);
    assert Spelled(s, i, Switch(ModeOf(n), n % 2 == 0));
  }

  lemma MatchSwitches(s: seq<byte>, i: nat, on: bool)
    ensures SwitchesAt(s, i, on) <==> MatchAt(s, i) == Some(on)
  {
    hide SwitchesAt, StartsAt, MatchIn;
    if SwitchesAt(s, i, on) {
      var n := InTable(s, i, on);
      MatchInIff(s, i, |SEQS|, n);
    }
    if MatchAt(s, i) == Some(on) {
      var n := MatchedBy(s, i, |SEQS|);
      OffTable(s, i, n);
    }
  }

  /** The screen after an output is the alternate one exactly if somewhere it is entered and nowhere
      behind left, or it was so before and nowhere left. */
  lemma AltMeans(s: seq<byte>, init: bool)
    ensures Alt(s, init) <==>
              || (exists i: nat :: SwitchesAt(s, i, true) && forall k: nat :: k > i ==> !SwitchesAt(s, k, false))
              || (init && forall k: nat :: !SwitchesAt(s, k, false))
  {
    forall i: nat, on: bool ensures SwitchesAt(s, i, on) <==> MatchAt(s, i) == Some(on) {
      MatchSwitches(s, i, on);
    }
    hide *;
    forall i: nat | i >= |s| ensures MatchAt(s, i).None? {
      NoneBehind(s, i);
    }
    if LastMatch(s, |s|).Some? {
      var i := Where(s, |s|);
      LastDecides(s, init, i);
    } else {
      forall i: nat ensures MatchAt(s, i).None? {
        if i < |s| {
          NoneBefore(s, |s|, i);
        }
      }
      NothingDecides(s, init);
    }
  }

  lemma LastDecides(s: seq<byte>, init: bool, i: nat)
    requires LastMatch(s, |s|).Some? && MatchAt(s, i) == LastMatch(s, |s|)
    ensures Some(Alt(s, init)) == MatchAt(s, i)
  {
  }

  lemma NothingDecides(s: seq<byte>, init: bool)
    requires LastMatch(s, |s|).None?
    ensures Alt(s, init) == init
  {
  }

  lemma NoneBehind(s: seq<byte>, i: nat)
    requires i >= |s|
    ensures MatchAt(s, i).None?
  {
    if MatchAt(s, i).Some? {
      var n := MatchedBy(s, i, |SEQS|);
      SeqLengths(n);
    }
  }
}
