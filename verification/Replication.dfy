/** The copy a supervisor keeps of a holder's screen. Messages from the holder may be lost,
    delivered twice, and delivered in any order. */
module Replication {
  import opened Wrappers
  import opened Bytes
  import opened Rings
  import opened AltScreen
  import opened Screens

  /** `MsgData` and `MsgSnap`. */
  datatype Msg = Data(bytes: seq<byte>, off: int) | Snap(bytes: seq<byte>, off: int, alt: bool)

  function ChunkOf(m: Msg): Chunk {
    match m
    case Data(bytes, off) => Chunk(bytes, off, false, false)
    case Snap(bytes, off, alt) => Chunk(bytes, off, true, alt)
  }

  /** All output so far, the holder's screen, everything ever sent, the supervisor's copy, whether
      the copy's input has been without a gap since its start or its last accepted snapshot, and
      what went on to the browsers. */
  datatype State = State(stream: seq<byte>, holder: View, sent: set<Msg>, copy: View, gapless: bool, out: seq<Event>)

  datatype Step = Produce(p: seq<byte>) | SendSnap | Deliver(m: Msg)

  const EMPTY: View := View([], 0, false, [])

  ghost predicate Init(s: State) { s == State([], EMPTY, {}, EMPTY, true, []) }

  predicate Gapless(v: View, m: Msg, before: bool) {
    if m.off <= v.off then before else if m.Snap? then true else before && m.off - |m.bytes| <= v.off
  }

  /** `cap` is the holder's ring, `copyCap` the supervisor's. A message once sent stays on its way
      for ever, so that it can be lost, repeated and overtaken. */
  ghost predicate Next(s: State, s1: State, cap: nat, copyCap: nat, e: Step) {
    match e
    case Produce(p) =>
      var h := Written(s.holder, p, cap);
      s1 == s.(stream := s.stream + p, holder := h, sent := s.sent + {Data(p, h.off)})
    case SendSnap => s1 == s.(sent := s.sent + {Snap(s.holder.data, s.holder.off, s.holder.alt)})
    case Deliver(m) =>
      && m in s.sent
      && var (v, sent) := Relayed(s.copy, ChunkOf(m), copyCap);
         s1 == s.(copy := v, gapless := Gapless(s.copy, m, s.gapless),
                  out := if sent.Some? then s.out + [sent.value] else s.out)
  }

  /** The bytes are those of the stream that end at the offset. */
  predicate Ends(stream: seq<byte>, bytes: seq<byte>, off: int) {
    |bytes| <= off <= |stream| && stream[off - |bytes|..off] == bytes
  }

  /** A screen that has seen the stream up to its offset without a gap. */
  predicate Follows(stream: seq<byte>, v: View, cap: nat) {
    0 <= v.off <= |stream|
    && v == View(Suffix(stream[..v.off], cap), v.off, Alt(stream[..v.off], false), Suffix(stream[..v.off], ALT_CARRY))
  }

  /** The alt flag and the carried bytes are those of the output `s`. */
  predicate AltIs(s: seq<byte>, v: View) { v.alt == Alt(s, false) && v.tail == Suffix(s, ALT_CARRY) }

  predicate AltFollows(stream: seq<byte>, v: View) { 0 <= v.off <= |stream| && AltIs(stream[..v.off], v) }

  predicate Told(stream: seq<byte>, m: Msg, cap: nat) {
    && Ends(stream, m.bytes, m.off)
    && (m.Snap? ==> m.alt == Alt(stream[..m.off], false) && m.bytes == Suffix(stream[..m.off], cap))
  }

  /** What the copy is, with the flag that says its input had no gap. */
  ghost predicate ViewOk(stream: seq<byte>, v: View, gapless: bool, cap: nat, copyCap: nat) {
    && Ends(stream, v.data, v.off) && |v.data| <= copyCap
    && (gapless ==> AltFollows(stream, v) && (copyCap <= cap ==> v.data == Suffix(stream[..v.off], copyCap)))
  }

  ghost predicate CopyOk(s: State, cap: nat, copyCap: nat) { ViewOk(s.stream, s.copy, s.gapless, cap, copyCap) }

  ghost predicate OutOk(s: State) {
    && (forall i :: 0 <= i < |s.out| ==> Ends(s.stream, s.out[i].data, s.out[i].off) && s.out[i].off <= s.copy.off)
    && (forall i, j ::
          0 <= i < j < |s.out| ==> s.out[i].off < s.out[j].off || (s.out[i].off == s.out[j].off && s.out[j].data == []))
  }

  ghost predicate Inv(s: State, cap: nat, copyCap: nat) {
    && Follows(s.stream, s.holder, cap) && s.holder.off == |s.stream|
    && (forall m :: m in s.sent ==> Told(s.stream, m, cap))
    && CopyOk(s, cap, copyCap) && OutOk(s)
  }

  // ---- views and the stream ----

  lemma MoreStream(stream: seq<byte>, p: seq<byte>, k: nat)
    requires k <= |stream|
    ensures (stream + p)[..k] == stream[..k]
  {
  }

  lemma EndsLater(stream: seq<byte>, p: seq<byte>, bytes: seq<byte>, off: int)
    requires Ends(stream, bytes, off)
    ensures Ends(stream + p, bytes, off)
  {
  }

  lemma WriteAltIs(s: seq<byte>, v: View, p: seq<byte>, cap: nat)
    requires AltIs(s, v)
    ensures AltIs(s + p, Written(v, p, cap))
    ensures v.data == Suffix(s, cap) ==> Written(v, p, cap).data == Suffix(s + p, cap)
  {
    hide Alt, AltAfter, TailAfter, Suffix;
    WriteTracks(s, false, v.alt, v.tail, p);
    SuffixOfSuffix(s, p, cap);
  }

  /** The next bytes of the stream written onto a screen that has followed it so far. */
  lemma WriteFollows(stream: seq<byte>, v: View, p: seq<byte>, cap: nat)
    requires AltFollows(stream, v) && Ends(stream, p, v.off + |p|)
    ensures AltFollows(stream, Written(v, p, cap))
    ensures v.data == Suffix(stream[..v.off], cap) ==> Written(v, p, cap).data == Suffix(stream[..v.off + |p|], cap)
  {
    EndsExtend(stream, p, v.off);
    OffAfter(v, p, cap);
    hide Ends, AltIs, Written, Suffix;
    WriteAltIs(stream[..v.off], v, p, cap);
  }

  lemma EndsExtend(stream: seq<byte>, p: seq<byte>, at: int)
    requires 0 <= at && Ends(stream, p, at + |p|)
    ensures at + |p| <= |stream| && stream[..at + |p|] == stream[..at] + p
  {
  }

  /** Whatever the alt flag, the bytes kept stay bytes of the stream. */
  lemma WriteEnds(stream: seq<byte>, v: View, p: seq<byte>, cap: nat)
    requires Ends(stream, v.data, v.off) && Ends(stream, p, v.off + |p|)
    ensures Ends(stream, Written(v, p, cap).data, v.off + |p|) && |Written(v, p, cap).data| <= cap
  {
    hide AltAfter, TailAfter;
    assert stream[v.off - |v.data|..v.off + |p|] == v.data + p;
    SuffixEnds(stream, v.data + p, v.off + |p|, cap);
  }

  lemma SuffixEnds(stream: seq<byte>, bytes: seq<byte>, off: int, cap: nat)
    requires Ends(stream, bytes, off)
    ensures Ends(stream, Suffix(bytes, cap), off)
  {
  }

  /** A screen filled anew from a snapshot follows the stream. */
  lemma SeedFollows(stream: seq<byte>, v: View, m: Msg, cap: nat, copyCap: nat)
    requires m.Snap? && Told(stream, m, cap) && m.off > v.off && cap >= ALT_CARRY
    ensures var w := Seeded(v, m.bytes, m.off, m.alt, copyCap);
            AltFollows(stream, w) && Ends(stream, w.data, w.off)
            && (copyCap <= cap ==> w.data == Suffix(stream[..m.off], copyCap))
  {
    hide Alt;
    ShorterSuffix(stream[..m.off], ALT_CARRY, cap);
    SuffixEnds(stream, m.bytes, m.off, copyCap);
    if copyCap <= cap {
      ShorterSuffix(stream[..m.off], copyCap, cap);
    }
  }

  // ---- the steps ----

  lemma ProduceKeeps(s: State, s1: State, cap: nat, copyCap: nat, p: seq<byte>)
    requires Inv(s, cap, copyCap) && Next(s, s1, cap, copyCap, Produce(p))
    ensures Inv(s1, cap, copyCap)
  {
    hide Alt, AltAfter, TailAfter, Suffix, Told, CopyOk, OutOk, Follows;
    HolderFollows(s.stream, s.holder, p, cap);
    forall m | m in s1.sent ensures Told(s1.stream, m, cap) {
      if m in s.sent {
        ToldLater(s.stream, p, m, cap);
      } else {
        NewsTold(s.stream, p, cap);
      }
    }
    CopyLater(s, s1, cap, copyCap, p);
  }

  lemma HolderFollows(stream: seq<byte>, v: View, p: seq<byte>, cap: nat)
    requires Follows(stream, v, cap) && v.off == |stream|
    ensures Follows(stream + p, Written(v, p, cap), cap)
  {
    hide Alt, AltAfter, TailAfter, Suffix;
    assert (stream + p)[..|stream|] == stream && (stream + p)[..|stream + p|] == stream + p
           && stream[..|stream|] == stream;
    WriteFollows(stream + p, v, p, cap);
  }

  lemma ToldLater(stream: seq<byte>, p: seq<byte>, m: Msg, cap: nat)
    requires Told(stream, m, cap)
    ensures Told(stream + p, m, cap)
  {
    hide Alt, Suffix;
    EndsLater(stream, p, m.bytes, m.off);
    MoreStream(stream, p, m.off);
  }

  lemma NewsTold(stream: seq<byte>, p: seq<byte>, cap: nat)
    ensures Told(stream + p, Data(p, |stream| + |p|), cap)
  {
  }

  lemma CopyLater(s: State, s1: State, cap: nat, copyCap: nat, p: seq<byte>)
    requires CopyOk(s, cap, copyCap) && OutOk(s) && s1.stream == s.stream + p && s1.copy == s.copy
             && s1.gapless == s.gapless && s1.out == s.out
    ensures CopyOk(s1, cap, copyCap) && OutOk(s1)
  {
    hide Alt, Suffix, Ends;
    assert Ends(s1.stream, s.copy.data, s.copy.off) by { EndsLater(s.stream, p, s.copy.data, s.copy.off); }
    if s.gapless {
      MoreStream(s.stream, p, s.copy.off);
    }
    forall i | 0 <= i < |s1.out| ensures Ends(s1.stream, s1.out[i].data, s1.out[i].off) {
      EndsLater(s.stream, p, s.out[i].data, s.out[i].off);
    }
  }

  lemma SnapKeeps(s: State, s1: State, cap: nat, copyCap: nat)
    requires Inv(s, cap, copyCap) && Next(s, s1, cap, copyCap, SendSnap)
    ensures Inv(s1, cap, copyCap)
  {
    hide Alt;
  }

  lemma DeliverSnap(s: State, s1: State, cap: nat, copyCap: nat, m: Msg)
    requires Inv(s, cap, copyCap) && cap >= ALT_CARRY && m.Snap? && Next(s, s1, cap, copyCap, Deliver(m))
    ensures CopyOk(s1, cap, copyCap) && s1.copy.off >= s.copy.off
  {
    hide Alt, OutOk;
    assert Told(s.stream, m, cap);
    if m.off > s.copy.off {
      SeedFollows(s.stream, s.copy, m, cap, copyCap);
    }
  }

  /** Bytes that begin at the copy's offset or before it. */
  lemma DataOverlaps(stream: seq<byte>, v: View, gapless: bool, p: seq<byte>, cap: nat, copyCap: nat)
    requires ViewOk(stream, v, gapless, cap, copyCap) && Ends(stream, p, v.off + |p|)
    ensures ViewOk(stream, Written(v, p, copyCap), gapless, cap, copyCap)
  {
    hide Alt, AltAfter, TailAfter, Suffix, AltFollows, Ends;
    WriteEnds(stream, v, p, copyCap);
    OffAfter(v, p, copyCap);
    if gapless {
      WriteFollows(stream, v, p, copyCap);
    }
  }

  /** Bytes that begin behind it: the ring starts anew. */
  lemma DataBehind(stream: seq<byte>, v: View, m: Msg, cap: nat, copyCap: nat)
    requires Ends(stream, m.bytes, m.off)
    ensures ViewOk(stream, Written(v.(data := [], off := m.off - |m.bytes|), m.bytes, copyCap), false, cap, copyCap)
  {
    var w := v.(data := [], off := m.off - |m.bytes|);
    NothingEnds(stream, m.bytes, m.off);
    hide Ends, Written, AltFollows, Suffix;
    WriteEnds(stream, w, m.bytes, copyCap);
    OffAfter(w, m.bytes, copyCap);
  }

  lemma NothingEnds(stream: seq<byte>, bytes: seq<byte>, off: int)
    requires Ends(stream, bytes, off)
    ensures Ends(stream, [], off - |bytes|)
  {
  }

  lemma Cut(stream: seq<byte>, bytes: seq<byte>, off: int, k: int)
    requires Ends(stream, bytes, off) && 0 <= k <= |bytes|
    ensures Ends(stream, bytes[k..], off)
  {
  }

  lemma DataKeeps(stream: seq<byte>, v: View, gapless: bool, m: Msg, cap: nat, copyCap: nat)
    requires ViewOk(stream, v, gapless, cap, copyCap) && m.Data? && Ends(stream, m.bytes, m.off) && m.off > v.off
    ensures ViewOk(stream, WrittenAt(v, m.bytes, m.off, copyCap), Gapless(v, m, gapless), cap, copyCap)
    ensures WrittenAt(v, m.bytes, m.off, copyCap).off == m.off
  {
    hide ViewOk, Ends, Written;
    var start := m.off - |m.bytes|;
    if start > v.off {
      DataBehind(stream, v, m, cap, copyCap);
      OffAfter(v.(data := [], off := start), m.bytes, copyCap);
    } else {
      var q := m.bytes[v.off - start..];
      Cut(stream, m.bytes, m.off, v.off - start);
      DataOverlaps(stream, v, gapless, q, cap, copyCap);
      OffAfter(v, q, copyCap);
      if start == v.off {
        assert q == m.bytes;
      }
    }
  }

  lemma DeliverData(s: State, s1: State, cap: nat, copyCap: nat, m: Msg)
    requires Inv(s, cap, copyCap) && m.Data? && Next(s, s1, cap, copyCap, Deliver(m))
    ensures CopyOk(s1, cap, copyCap) && s1.copy.off >= s.copy.off
  {
    assert s.copy.off >= 0;
    hide ViewOk, OutOk, Ends, Written, WrittenAt, Gapless, Follows;
    assert Told(s.stream, m, cap);
    var v := s.copy;
    if m.off > v.off {
      DataKeeps(s.stream, v, s.gapless, m, cap, copyCap);
    } else if m.off <= 0 {
      NoBytes(s.stream, m.bytes, m.off, v);
      DataOverlaps(s.stream, v, s.gapless, [], cap, copyCap);
      OffAfter(v, [], copyCap);
      StillGapless(v, m, s.gapless);
    } else {
      NothingNew(v, m, s.gapless, copyCap);
    }
  }

  lemma StillGapless(v: View, m: Msg, gapless: bool)
    requires m.off <= v.off
    ensures Gapless(v, m, gapless) == gapless
  {
  }

  lemma NothingNew(v: View, m: Msg, gapless: bool, copyCap: nat)
    requires m.off <= v.off
    ensures Gapless(v, m, gapless) == gapless && WrittenAt(v, m.bytes, m.off, copyCap) == v
  {
  }

  lemma NoBytes(stream: seq<byte>, bytes: seq<byte>, off: int, v: View)
    requires Ends(stream, bytes, off) && off <= 0 && Ends(stream, v.data, v.off)
    ensures bytes == [] && Ends(stream, [], v.off + 0)
  {
  }

  /** An event joins those before it. */
  lemma OutGrows(s: State, s1: State, e: Event)
    requires OutOk(s) && s1.stream == s.stream && s1.out == s.out + [e] && s1.copy.off >= s.copy.off
    requires Ends(s.stream, e.data, e.off) && e.off <= s1.copy.off
             && (s.copy.off < e.off || (s.copy.off == e.off && e.data == []))
    ensures OutOk(s1)
  {
    hide Ends;
  }

  lemma DeliverOut(s: State, s1: State, cap: nat, copyCap: nat, m: Msg)
    requires Inv(s, cap, copyCap) && Next(s, s1, cap, copyCap, Deliver(m)) && s1.copy.off >= s.copy.off
    ensures OutOk(s1)
  {
    assert Told(s.stream, m, cap);
    assert s.copy.off >= 0 && Ends(s.stream, m.bytes, m.off);
    assert m.off == 0 ==> m.bytes == [] && Ends(s.stream, [], s.copy.off);
    hide Ends, ViewOk, Follows, OutOk, Told;
    if m.off > s.copy.off {
      DataOff(s.copy, m, copyCap);
      OutGrows(s, s1, Event(m.bytes, m.off));
    } else if m.Data? && m.off <= 0 {
      OffAfter(s.copy, [], copyCap);
      OutGrows(s, s1, Event([], s.copy.off));
    } else {
      SameOut(s, s1);
    }
  }

  lemma DataOff(v: View, m: Msg, copyCap: nat)
    requires m.off > v.off
    ensures WrittenAt(v, m.bytes, m.off, copyCap).off == m.off && Seeded(v, m.bytes, m.off, true, copyCap).off == m.off
  {
    hide AltAfter, TailAfter, Suffix;
  }

  lemma SameOut(s: State, s1: State)
    requires OutOk(s) && s1.stream == s.stream && s1.out == s.out && s1.copy.off >= s.copy.off
    ensures OutOk(s1)
  {
    hide Ends;
  }

  lemma StepKeepsInv(s: State, s1: State, cap: nat, copyCap: nat, e: Step)
    requires Inv(s, cap, copyCap) && cap >= ALT_CARRY && Next(s, s1, cap, copyCap, e)
    ensures Inv(s1, cap, copyCap) && s1.copy.off >= s.copy.off
  {
    hide CopyOk, OutOk, Told, Follows, Relayed;
    match e
    case Produce(p) => ProduceKeeps(s, s1, cap, copyCap, p);
    case SendSnap => SnapKeeps(s, s1, cap, copyCap);
    case Deliver(m) =>
      if m.Snap? {
        DeliverSnap(s, s1, cap, copyCap, m);
      } else {
        DeliverData(s, s1, cap, copyCap, m);
      }
      DeliverOut(s, s1, cap, copyCap, m);
  }

  ghost predicate IsRun(states: seq<State>, steps: seq<Step>, cap: nat, copyCap: nat) {
    && |states| == |steps| + 1 && Init(states[0])
    && forall k {:trigger steps[k]} :: 0 <= k < |steps| ==> Next(states[k], states[k + 1], cap, copyCap, steps[k])
  }

  lemma EmptyInv(s: State, cap: nat, copyCap: nat)
    requires Init(s)
    ensures Inv(s, cap, copyCap)
  {
    NothingSeen(false);
    hide Alt;
  }

  lemma {:induction false} InvOverRuns(states: seq<State>, steps: seq<Step>, cap: nat, copyCap: nat, n: nat)
    requires IsRun(states, steps, cap, copyCap) && cap >= ALT_CARRY && n <= |steps|
    ensures Inv(states[n], cap, copyCap)
    ensures n > 0 ==> states[n - 1].copy.off <= states[n].copy.off
  {
    hide Inv, Next;
    if n == 0 {
      EmptyInv(states[0], cap, copyCap);
    } else {
      InvOverRuns(states, steps, cap, copyCap, n - 1);
      StepKeepsInv(states[n - 1], states[n], cap, copyCap, steps[n - 1]);
    }
  }

  /** In every run the copy holds the stream's bytes that end at its own offset, what went to the
      browsers are such bytes too, with offsets that only grow, and without a gap the alt flag is
      the one the output up to there set. */
  lemma CopyOverRuns(states: seq<State>, steps: seq<Step>, cap: nat, copyCap: nat, n: nat)
    requires IsRun(states, steps, cap, copyCap) && cap >= ALT_CARRY && n <= |steps|
    ensures var s := states[n];
            && 0 <= s.copy.off <= |s.stream| && |s.copy.data| <= s.copy.off
            && s.copy.data == s.stream[s.copy.off - |s.copy.data|..s.copy.off]
            && (forall i :: 0 <= i < |s.out| ==> Ends(s.stream, s.out[i].data, s.out[i].off))
            && (forall i, j :: 0 <= i < j < |s.out| ==> s.out[i].off <= s.out[j].off)
            && (s.gapless ==> s.copy.alt == Alt(s.stream[..s.copy.off], false))
    ensures n > 0 ==> states[n - 1].copy.off <= states[n].copy.off
  {
    hide Alt, Next, Told, Follows, IsRun;
    InvOverRuns(states, steps, cap, copyCap, n);
  }

  /** A copy with a ring of the same size that is up to date and without a gap is the holder's
      screen, byte for byte. */
  lemma CaughtUp(states: seq<State>, steps: seq<Step>, cap: nat, n: nat)
    requires IsRun(states, steps, cap, cap) && cap >= ALT_CARRY && n <= |steps|
    requires states[n].gapless && states[n].copy.off == |states[n].stream|
    ensures states[n].copy == states[n].holder
  {
    hide Alt, Next, Told, OutOk, IsRun, Suffix;
    InvOverRuns(states, steps, cap, cap, n);
  }

  /** A snapshot of the newest state, when it arrives, makes the copy up to date, whatever was lost
      before. It is taken, and with it the input gapless, exactly if it ends behind the copy's
      offset; one that is refused leaves the alt flag as it is, right or wrong. */
  lemma SnapshotHeals(states: seq<State>, steps: seq<Step>, cap: nat, copyCap: nat, n: nat)
    requires IsRun(states, steps, cap, copyCap) && cap >= ALT_CARRY && n < |steps|
    requires var h := states[n].holder; steps[n] == Deliver(Snap(h.data, h.off, h.alt))
    ensures var s, s1 := states[n], states[n + 1];
            && s1.copy.off == |s1.stream| && s1.holder == s.holder
            && (s1.gapless <==> s.gapless || s.copy.off < s.holder.off)
            && (s1.copy.alt == s1.holder.alt <==> s.copy.off < s.holder.off || s.copy.alt == s.holder.alt)
            && (s1.copy == s.copy <==> s.holder.off <= s.copy.off)
  {
    InvOverRuns(states, steps, cap, copyCap, n);
    NewestTaken(states[n], states[n + 1], cap, copyCap);
  }

  lemma NewestTaken(s: State, s1: State, cap: nat, copyCap: nat)
    requires Inv(s, cap, copyCap) && Next(s, s1, cap, copyCap, Deliver(Snap(s.holder.data, s.holder.off, s.holder.alt)))
    ensures s1.copy.off == |s.stream| && s1.holder == s.holder && s1.stream == s.stream
    ensures s1.gapless <==> s.gapless || s.copy.off < s.holder.off
    ensures s.copy.off < s.holder.off ==> s1.copy.alt == s.holder.alt
    ensures s.copy.off >= s.holder.off ==> s1.copy == s.copy
  {
    hide Alt, OutOk, Suffix, Told;
  }

  /** But a snapshot that ends where the copy is already is refused, so after a gap the alt flag
      can stay wrong as long as there is no new output. */
  lemma StaleAfterGap(cap: nat) returns (states: seq<State>, steps: seq<Step>)
    requires cap >= ALT_CARRY
    ensures |steps| == 5 && IsRun(states, steps, cap, cap)
    ensures steps[4] == Deliver(Snap(states[4].holder.data, states[4].holder.off, states[4].holder.alt))
    ensures states[5].copy.off == |states[5].stream| && states[5].copy.alt != states[5].holder.alt
  {
    hide Alt, AltAfter, TailAfter, Suffix;
    var q, x := SEQS[4].0, [0x78];
    SeqLengths(4);
    EnterThenText(q, x);
    states, steps := LostThenSeed(q, x, cap);
  }

  /** The run: two chunks, of which the first is lost, then a snapshot of the end. */
  lemma LostThenSeed(q: seq<byte>, x: seq<byte>, cap: nat) returns (states: seq<State>, steps: seq<Step>)
    requires |q| == 6 && |x| == 1
    ensures |steps| == 5 && IsRun(states, steps, cap, cap)
    ensures steps[4] == Deliver(Snap(states[4].holder.data, states[4].holder.off, states[4].holder.alt))
    ensures states[5].copy.off == |states[5].stream|
    ensures states[5].copy.alt == Alt(x, false) && states[5].holder.alt == Alt(q + x, false)
  {
    hide Alt, AltAfter, TailAfter, Suffix, Written;
    TwoWrites(q, x, cap);
    var h1 := Written(EMPTY, q, cap);
    var h2 := Written(h1, x, cap);
    var v := Written(EMPTY.(off := 6), x, cap);
    OffAfter(EMPTY, q, cap);
    OffAfter(h1, x, cap);
    OffAfter(EMPTY.(off := 6), x, cap);
    var s0 := State([], EMPTY, {}, EMPTY, true, []);
    var s1 := s0.(stream := [] + q, holder := h1, sent := s0.sent + {Data(q, h1.off)});
    var s2 := s1.(stream := s1.stream + x, holder := h2, sent := s1.sent + {Data(x, h2.off)});
    var s3 := s2.(copy := v, gapless := false, out := s2.out + [Event(x, 7)]);
    var s4 := s3.(sent := s3.sent + {Snap(h2.data, h2.off, h2.alt)});
    states := [s0, s1, s2, s3, s4, s4];
    steps := [Produce(q), Produce(x), Deliver(Data(x, 7)), SendSnap, Deliver(Snap(h2.data, 7, h2.alt))];
    assert EMPTY.(data := [], off := 6) == EMPTY.(off := 6);
    assert WrittenAt(EMPTY, x, 7, cap) == v;
    assert Seeded(v, h2.data, 7, h2.alt, cap) == v;
    assert [] + q == q;
    assert forall k {:trigger steps[k]} :: 0 <= k < 5 ==> k == 0 || k == 1 || k == 2 || k == 3 || k == 4;
  }

  lemma TwoWrites(q: seq<byte>, x: seq<byte>, cap: nat)
    ensures Written(Written(EMPTY, q, cap), x, cap).alt == Alt(q + x, false)
    ensures Written(EMPTY.(off := |q|), x, cap).alt == Alt(x, false)
  {
    hide Alt, AltAfter, TailAfter;
    NothingSeen(false);
    assert Suffix([], ALT_CARRY) == [];
    assert [] + q == q && [] + x == x;
    WriteTracks([], false, false, [], q);
    WriteTracks([], false, false, [], x);
    WriteTracks(q, false, AltAfter(false, [], q), TailAfter([], q), x);
  }

  /** Entering, then plain text: the last sequence is the first six bytes. */
  lemma EnterThenText(q: seq<byte>, x: seq<byte>)
    requires q == SEQS[4].0 && x == [0x78]
    ensures Alt(q + x, false) && !Alt(x, false)
  {
    hide MatchAt;
    var w := q + x;
    SeqLengths(4);
    assert StartsAt(w, 0, q) by { assert w[0..0 + |q|] == q; }
    assert MatchAt(w, 0) == Some(true) by { MatchInIff(w, 0, |SEQS|, 4); IsMatchIn(w, 0); }
    forall j | 0 < j < |w| ensures MatchAt(w, j).None? {
      assert w[j] != ESC by { NoEscapeInside(q, x, j); }
      NoEscape(w, j);
    }
    LastIs(w, |w|, 0);
    NoEscape(x, 0);
    NoLast(x, |x|);
  }

  lemma IsMatchIn(b: seq<byte>, i: nat)
    ensures MatchAt(b, i) == MatchIn(b, i, |SEQS|)
  {
  }

  lemma NoEscapeInside(q: seq<byte>, x: seq<byte>, j: nat)
    requires q == SEQS[4].0 && x == [0x78] && 0 < j < |q + x|
    ensures (q + x)[j] != ESC
  {
    if j < |q| {
      assert (q + x)[j] == q[j];
    } else {
      assert (q + x)[j] == x[j - |q|];
    }
  }

  lemma MatchHasEscape(b: seq<byte>, i: nat)
    requires i < |b| && MatchAt(b, i).Some?
    ensures b[i] == ESC
  {
    var m := MatchedBy(b, i, |SEQS|);
    BeginsWithEscape(m);
    assert b[i..i + |SEQS[m].0|][0] == b[i];
  }

  lemma NoEscape(b: seq<byte>, i: nat)
    requires i < |b| && b[i] != ESC
    ensures MatchAt(b, i).None?
  {
    if MatchAt(b, i).Some? {
      MatchHasEscape(b, i);
    }
  }

  lemma BeginsWithEscape(m: nat)
    requires m < |SEQS|
    ensures |SEQS[m].0| > 0 && SEQS[m].0[0] == ESC
  {
  }
}
