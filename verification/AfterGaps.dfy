/** The alt flag of a supervisor's copy behind a gap: it may be stale, and it is right again as
    soon as the bytes received since then hold a whole enter or leave sequence. */
module AfterGaps {
  import opened Bytes
  import opened Rings
  import opened AltScreen
  import opened Screens
  import opened Replication

  // ---- one screen ----

  /** A match inside the carried bytes is found in the first edge behind them. */
  lemma CarriedMatch(t: seq<byte>, p: seq<byte>)
    requires |t| <= ALT_CARRY && LastAlt(t).Some?
    ensures LastAlt(Edge(t, p)).Some?
  {
    hide MatchAt, StartsAt;
    var e := Edge(t, p);
    var i := Where(t, |t|);
    MatchShows(t, e, i);
    if LastAlt(e).None? {
      NoneBefore(e, |e|, i);
    }
  }

  lemma MatchShows(t: seq<byte>, e: seq<byte>, i: nat)
    requires t <= e && i < |t| && MatchAt(t, i).Some?
    ensures MatchAt(e, i).Some?
  {
    var m := MatchedBy(t, i, |SEQS|);
    var l := |SEQS[m].0|;
    assert e[i..i + l] == t[i..i + l];
    MatchInIff(e, i, |SEQS|, m);
  }

  /** The first chunk behind carried bytes that have nothing to do with the flag. */
  lemma FirstChunk(t: seq<byte>, alt: bool, p: seq<byte>)
    requires |t| <= ALT_CARRY
    ensures AltAfter(alt, t, p) == Alt(t + p, alt) && TailAfter(t, p) == Suffix(t + p, ALT_CARRY)
  {
    hide LastAlt, Edge, TailAfter;
    WriteTracks(t, alt, Alt(t, alt), t, p);
    if LastAlt(t).Some? {
      CarriedMatch(t, p);
    }
  }

  /** What stands in front does not matter once a match is there. */
  lemma LastOfSuffix(x: seq<byte>, g: seq<byte>)
    requires LastAlt(g).Some?
    ensures LastAlt(x + g) == LastAlt(g)
  {
    hide MatchAt;
    var j := Where(g, |g|);
    forall i | j <= i < |g| ensures MatchAt(x + g, |x| + i) == MatchAt(g, i) {
      assert (x + g)[|x| + i..] == g[i..];
      MatchMoves(x + g, |x| + i, g, i);
    }
    forall i | |x| + j < i < |x| + |g| ensures MatchAt(x + g, i).None? {
      assert MatchAt(x + g, |x| + (i - |x|)) == MatchAt(g, i - |x|);
    }
    LastIs(x + g, |x| + |g|, |x| + j);
  }

  // ---- the copy ----

  /** The flag and the carry are those of the output `g` behind the bytes `t`, with the flag `a`. */
  predicate AltFrom(t: seq<byte>, a: bool, g: seq<byte>, v: View) {
    |t| <= ALT_CARRY && v.alt == Alt(t + g, a) && v.tail == Suffix(t + g, ALT_CARRY)
  }

  /** The copy has followed the stream from the offset `from` on. */
  ghost predicate Resumed(stream: seq<byte>, v: View, from: int) {
    0 <= from <= v.off <= |stream| && exists t, a :: AltFrom(t, a, stream[from..v.off], v)
  }

  /** From where on the copy has no gap, after one more message. */
  function SinceAfter(v: View, m: Msg, since: int): int {
    if m.off <= v.off then since
    else if m.Snap? then 0
    else if m.off - |m.bytes| > v.off then m.off - |m.bytes|
    else since
  }

  function Since(states: seq<State>, steps: seq<Step>, n: nat): int
    requires n <= |steps| && |states| == |steps| + 1
  {
    if n == 0 then 0
    else match steps[n - 1]
         case Deliver(m) => SinceAfter(states[n - 1].copy, m, Since(states, steps, n - 1))
         case _ => Since(states, steps, n - 1)
  }

  lemma AltFromGrows(t: seq<byte>, a: bool, g: seq<byte>, v: View, q: seq<byte>, cap: nat)
    requires AltFrom(t, a, g, v)
    ensures AltFrom(t, a, g + q, Written(v, q, cap))
  {
    hide Alt, AltAfter, TailAfter, Suffix;
    WriteTracks(t + g, a, v.alt, v.tail, q);
    assert (t + g) + q == t + (g + q);
  }

  /** Bytes that go on where the copy stands. */
  lemma GoesOn(stream: seq<byte>, v: View, from: int, q: seq<byte>, cap: nat)
    requires Resumed(stream, v, from) && Ends(stream, q, v.off + |q|)
    ensures Resumed(stream, Written(v, q, cap), from)
  {
    hide AltFrom, Written, Ends;
    var g := stream[from..v.off];
    var t, a :| AltFrom(t, a, g, v);
    AltFromGrows(t, a, g, v, q, cap);
    OffAfter(v, q, cap);
    Stretch(stream, from, v.off, q);
  }

  lemma Stretch(stream: seq<byte>, from: int, off: int, q: seq<byte>)
    requires 0 <= from <= off && Ends(stream, q, off + |q|)
    ensures off + |q| <= |stream| && stream[from..off + |q|] == stream[from..off] + q
  {
  }

  /** Bytes behind a gap: whatever is carried then stands in front of them. */
  lemma BehindGap(stream: seq<byte>, v: View, m: Msg, copyCap: nat)
    requires |v.tail| <= ALT_CARRY && Ends(stream, m.bytes, m.off)
    ensures var start := m.off - |m.bytes|;
            Resumed(stream, Written(v.(data := [], off := start), m.bytes, copyCap), start)
  {
    hide Alt, AltAfter, TailAfter, Suffix;
    FirstChunk(v.tail, v.alt, m.bytes);
    var start := m.off - |m.bytes|;
    assert stream[start..m.off] == m.bytes;
    assert AltFrom(v.tail, v.alt, m.bytes, Written(v.(data := [], off := start), m.bytes, copyCap));
  }

  lemma FollowsIsResumed(stream: seq<byte>, v: View)
    requires AltFollows(stream, v)
    ensures Resumed(stream, v, 0)
  {
    hide Alt, Suffix;
    assert stream[0..v.off] == stream[..v.off] && [] + stream[..v.off] == stream[..v.off];
    assert AltFrom([], false, stream[0..v.off], v);
  }

  lemma CarryIsShort(stream: seq<byte>, v: View, from: int)
    requires Resumed(stream, v, from)
    ensures |v.tail| <= ALT_CARRY && v.off >= 0
  {
    hide Alt;
  }

  lemma DataResumes(stream: seq<byte>, v: View, from: int, m: Msg, copyCap: nat)
    requires Resumed(stream, v, from) && m.Data? && Ends(stream, m.bytes, m.off) && m.off > v.off
    ensures Resumed(stream, WrittenAt(v, m.bytes, m.off, copyCap), SinceAfter(v, m, from))
  {
    hide Resumed, Ends, Written;
    CarryIsShort(stream, v, from);
    var start := m.off - |m.bytes|;
    if start > v.off {
      BehindGap(stream, v, m, copyCap);
    } else {
      var q := m.bytes[v.off - start..];
      Cut(stream, m.bytes, m.off, v.off - start);
      GoesOn(stream, v, from, q, copyCap);
      if start == v.off {
        assert q == m.bytes;
      }
    }
  }

  lemma DeliveryResumes(s: State, s1: State, cap: nat, copyCap: nat, m: Msg, from: int)
    requires Inv(s, cap, copyCap) && cap >= ALT_CARRY && Next(s, s1, cap, copyCap, Deliver(m))
    requires Resumed(s.stream, s.copy, from)
    ensures Resumed(s1.stream, s1.copy, SinceAfter(s.copy, m, from))
  {
    var v := s.copy;
    hide ViewOk, OutOk, Ends, Written, WrittenAt, Follows, Resumed, Suffix, Alt, Seeded;
    assert Told(s.stream, m, cap);
    CarryIsShort(s.stream, v, from);
    if m.off <= v.off {
      NotTaken(s.stream, v, m, from, copyCap);
    } else if m.Snap? {
      SeedFollows(s.stream, v, m, cap, copyCap);
      DataOff(v, m, copyCap);
      FollowsIsResumed(s.stream, Seeded(v, m.bytes, m.off, m.alt, copyCap));
    } else {
      DataResumes(s.stream, v, from, m, copyCap);
    }
  }

  /** A message the copy has no use for; one at offset 0 has no bytes. */
  lemma NotTaken(stream: seq<byte>, v: View, m: Msg, from: int, copyCap: nat)
    requires Resumed(stream, v, from) && Ends(stream, m.bytes, m.off) && m.off <= v.off
    ensures Resumed(stream, Relayed(v, ChunkOf(m), copyCap).0, from)
  {
    hide AltFrom, Written;
    if m.Data? && m.off <= 0 {
      assert m.bytes == [] && Ends(stream, [], v.off + 0);
      GoesOn(stream, v, from, [], copyCap);
    }
  }

  lemma {:induction false} ResumedOverRuns(states: seq<State>, steps: seq<Step>, cap: nat, copyCap: nat, n: nat)
    requires IsRun(states, steps, cap, copyCap) && cap >= ALT_CARRY && n <= |steps|
    ensures Resumed(states[n].stream, states[n].copy, Since(states, steps, n))
  {
    hide Resumed, Inv;
    if n == 0 {
      StartResumed(states[0]);
    } else {
      ResumedOverRuns(states, steps, cap, copyCap, n - 1);
      InvOverRuns(states, steps, cap, copyCap, n - 1);
      var s, s1, from := states[n - 1], states[n], Since(states, steps, n - 1);
      match steps[n - 1]
      case Produce(p) => LaterResumed(s.stream, p, s.copy, from);
      case SendSnap =>
      case Deliver(m) => DeliveryResumes(s, s1, cap, copyCap, m, from);
    }
  }

  lemma StartResumed(s: State)
    requires Init(s)
    ensures Resumed(s.stream, s.copy, 0)
  {
    hide Alt;
    NothingSeen(false);
    var none: seq<byte> := [];
    assert none + none == none && s.stream[0..0] == none;
    assert AltFrom(none, false, none, EMPTY);
  }

  lemma LaterResumed(stream: seq<byte>, p: seq<byte>, v: View, from: int)
    requires Resumed(stream, v, from)
    ensures Resumed(stream + p, v, from)
  {
    hide AltFrom;
    assert (stream + p)[from..v.off] == stream[from..v.off];
  }

  /** A whole sequence since `from` decides the flag. */
  lemma RightFrom(stream: seq<byte>, v: View, from: int)
    requires Resumed(stream, v, from) && LastAlt(stream[from..v.off]).Some?
    ensures v.alt == Alt(stream[..v.off], false)
  {
    hide LastAlt;
    var g := stream[from..v.off];
    var t, a :| AltFrom(t, a, g, v);
    LastOfSuffix(t, g);
    LastOfSuffix(stream[..from], g);
    assert stream[..from] + g == stream[..v.off];
  }

  lemma ResumedBounds(stream: seq<byte>, v: View, from: int)
    requires Resumed(stream, v, from)
    ensures 0 <= from <= v.off <= |stream|
  {
  }

  /** In every run: once the bytes received since the last gap hold a whole sequence, the alt flag
      is that of the holder's output up to there, whatever the copy carried over the gap. */
  lemma RightAgain(states: seq<State>, steps: seq<Step>, cap: nat, copyCap: nat, n: nat)
    requires IsRun(states, steps, cap, copyCap) && cap >= ALT_CARRY && n <= |steps|
    ensures var s, from := states[n], Since(states, steps, n);
            && 0 <= from <= s.copy.off <= |s.stream|
            && (LastAlt(s.stream[from..s.copy.off]).Some? ==> s.copy.alt == Alt(s.stream[..s.copy.off], false))
  {
    assert |states| == |steps| + 1;
    hide *;
    var s, from := states[n], Since(states, steps, n);
    ResumedOverRuns(states, steps, cap, copyCap, n);
    ResumedBounds(s.stream, s.copy, from);
    if LastAlt(s.stream[from..s.copy.off]).Some? {
      RightFrom(s.stream, s.copy, from);
    }
  }
}
