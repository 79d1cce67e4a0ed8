/** The screen of one process as an object over the ring, and the relay that feeds a copy of it. */
module Screens {
  import opened Wrappers
  import opened Bytes
  import opened Rings
  import opened AltScreen

  /** What a screen is: the bytes kept, the offset behind them, the alt flag, the carried bytes. */
  datatype View = View(data: seq<byte>, off: int, alt: bool, tail: seq<byte>)

  function Written(v: View, p: seq<byte>, cap: nat): View {
    View(Suffix(v.data + p, cap), v.off + |p|, AltAfter(v.alt, v.tail, p), TailAfter(v.tail, p))
  }

  /** `WriteAt`: what is held already is dropped, a gap empties the ring first. */
  function WrittenAt(v: View, p: seq<byte>, end: int, cap: nat): View {
    var start := end - |p|;
    if end <= v.off then v
    else if start < v.off then Written(v, p[v.off - start..], cap)
    else if start > v.off then Written(v.(data := [], off := start), p, cap)
    else Written(v, p, cap)
  }

  function Seeded(v: View, data: seq<byte>, end: int, alt: bool, cap: nat): View {
    if end <= v.off then v else View(Suffix(data, cap), end, alt, Suffix(data, ALT_CARRY))
  }

  class Screen {
    const ring: Ring
    var alt: bool
    var tail: seq<byte>

    constructor (capacity: nat)
      ensures Valid() && fresh(ring) && fresh(ring.buf) && ring.buf.Length == capacity
              && Now() == View([], 0, false, [])
    {
      ring := new Ring(capacity);
      alt, tail := false, [];
    }

    ghost predicate Valid()
      reads this, ring, ring.buf
    {
      ring.Valid() && |tail| <= ALT_CARRY
    }

    ghost function Now(): View
      requires Valid()
      reads this, ring, ring.buf
    {
      View(ring.Contents(), ring.off, alt, tail)
    }

    /** `lastAlt`: of the six sequences the one found last. */
    method FindLastAlt(b: seq<byte>) returns (found: Option<bool>)
      ensures found == LastAlt(b)
    {
      hide MatchAt, MatchIn, StartsAt;
      var at, state := -1, false;
      for n := 0 to |SEQS|
        invariant -1 <= at < |b|
        invariant at >= 0 ==> exists m :: 0 <= m < n && StartsAt(b, at, SEQS[m].0) && state == SEQS[m].1
        invariant forall m, i :: 0 <= m < n && at < i < |b| ==> !StartsAt(b, i, SEQS[m].0)
      {
        var i := LastIndex(b, SEQS[n].0);
        if i > at {
          at, state := i, SEQS[n].1;
        }
      }
      forall i | at < i < |b| ensures MatchAt(b, i).None? {
        NotMatched(b, i);
      }
      if at >= 0 {
        var m :| 0 <= m < |SEQS| && StartsAt(b, at, SEQS[m].0) && state == SEQS[m].1;
        Matched(b, at, m);
        LastIs(b, |b|, at);
        return Some(state);
      } else {
        NoLast(b, |b|);
        return None;
      }
    }

    method Append(p: seq<byte>) returns (end: int)
      requires Valid()
      modifies this, ring, ring.buf
      ensures Valid() && Now() == Written(old(Now()), p, ring.buf.Length) && end == ring.off
    {
      hide LastAlt, Window, Edge, AltAfter, TailAfter, Suffix;
      Follow(p);
      end := ring.Write(p);
    }

    /** The alt flag and the carried bytes after one more chunk. */
    method Follow(p: seq<byte>)
      modifies this
      ensures alt == AltAfter(old(alt), old(tail), p) && tail == TailAfter(old(tail), p) && |tail| <= ALT_CARRY
    {
      hide LastAlt;
      var edge := tail + p[..if |p| < ALT_CARRY then |p| else ALT_CARRY];
      var found := FindLastAlt(edge);
      if found.Some? {
        alt := found.value;
      }
      found := FindLastAlt(p);
      if found.Some? {
        alt := found.value;
      }
      var src := if |p| > ALT_CARRY then p else edge;
      tail := Suffix(src, ALT_CARRY);
    }

    method WriteAt(p: seq<byte>, end: int) returns (ok: bool)
      requires Valid()
      modifies this, ring, ring.buf
      ensures Valid() && Now() == WrittenAt(old(Now()), p, end, ring.buf.Length)
      ensures ok <==> end > old(ring.off)
    {
      hide Written;
      if end <= ring.off {
        return false;
      }
      var start, q := end - |p|, p;
      if start < ring.off {
        q := p[ring.off - start..];
      } else if start > ring.off {
        ring.Reset(start);
      }
      var e := Append(q);
      return true;
    }

    method Seed(data: seq<byte>, end: int, alt: bool) returns (ok: bool)
      requires Valid()
      modifies this, ring, ring.buf
      ensures Valid() && Now() == Seeded(old(Now()), data, end, alt, ring.buf.Length)
      ensures ok <==> end > old(ring.off)
    {
      if end <= ring.off {
        return false;
      }
      ring.Reset(end - |data|);
      var e := ring.Write(data);
      assert [] + data == data;
      this.alt := alt;
      tail := Suffix(data, ALT_CARRY);
      return true;
    }

    method Snapshot() returns (data: seq<byte>, off: int, alt: bool)
      requires Valid() && ring.buf.Length > 0
      ensures data == Now().data && off == Now().off && alt == Now().alt
    {
      data, off := ring.Snapshot();
      alt := this.alt;
    }
  }

  /** `bytes.LastIndex`. */
  method LastIndex(b: seq<byte>, q: seq<byte>) returns (i: int)
    requires q != []
    ensures -1 <= i < |b|
    ensures i >= 0 ==> StartsAt(b, i, q)
    ensures forall j :: i < j < |b| ==> !StartsAt(b, j, q)
  {
    i := |b| - 1;
    while i >= 0
      invariant -1 <= i < |b| && forall j :: i < j < |b| ==> !StartsAt(b, j, q)
    {
      if i + |q| <= |b| && b[i..i + |q|] == q {
        return;
      }
      i := i - 1;
    }
  }

  lemma NotMatched(b: seq<byte>, i: nat)
    requires forall m :: 0 <= m < |SEQS| ==> !StartsAt(b, i, SEQS[m].0)
    ensures MatchAt(b, i).None?
  {
    if MatchAt(b, i).Some? {
      var m := MatchedBy(b, i, |SEQS|);
    }
  }

  lemma Matched(b: seq<byte>, i: nat, m: nat)
    requires m < |SEQS| && StartsAt(b, i, SEQS[m].0)
    ensures MatchAt(b, i) == Some(SEQS[m].1)
  {
    MatchInIff(b, i, |SEQS|, m);
  }

  // ---- the relay ----

  /** `execute.Chunk`: bytes with the offset behind them (0 if the source counts none), or a
      whole screen. */
  datatype Chunk = Chunk(data: seq<byte>, off: int, seed: bool, alt: bool)

  /** `protocol.DataEvent`. */
  datatype Event = Event(data: seq<byte>, off: int)

  /** What the relay's copy becomes, and what goes on to the browsers. */
  function Relayed(v: View, c: Chunk, cap: nat): (View, Option<Event>) {
    if c.seed then (Seeded(v, c.data, c.off, c.alt, cap), if c.off > v.off then Some(Event(c.data, c.off)) else None)
    else if c.off > 0 then (WrittenAt(v, c.data, c.off, cap),
                            if c.off > v.off then Some(Event(c.data, c.off)) else None)
    else (Written(v, c.data, cap), Some(Event(c.data, v.off + |c.data|)))
  }

  class Relay {
    const screen: Screen?

    constructor (screen: Screen?)
      ensures this.screen == screen
    {
      this.screen := screen;
    }

    method RelayChunk(c: Chunk) returns (sent: Option<Event>)
      requires screen != null ==> screen.Valid()
      modifies if screen == null then {} else {screen, screen.ring, screen.ring.buf}
      ensures screen == null ==> sent == if c.seed then None else Some(Event(c.data, c.off))
      ensures screen != null ==>
                screen.Valid() && (screen.Now(), sent) == Relayed(old(screen.Now()), c, screen.ring.buf.Length)
      ensures screen != null && (c.seed || c.off > 0) ==>
                sent == if c.off > old(screen.Now()).off then Some(Event(c.data, c.off)) else None
      ensures screen != null && !c.seed && c.off <= 0 ==> sent == Some(Event(c.data, old(screen.Now()).off + |c.data|))
    {
      if screen == null {
        if c.seed {
          return None;
        }
        return Some(Event(c.data, c.off));
      }
      var kept, off := Feed(screen, c);
      return if kept then Some(Event(c.data, off)) else None;
    }

    /** The three ways a chunk goes into the copy. */
    method Feed(sc: Screen, c: Chunk) returns (kept: bool, off: int)
      requires sc.Valid()
      modifies sc, sc.ring, sc.ring.buf
      ensures sc.Valid()
      ensures (sc.Now(), if kept then Some(Event(c.data, off)) else None) == Relayed(old(sc.Now()), c,
                  sc.ring.buf.Length)
    {
      hide Written, WrittenAt, Seeded, Window;
      off := c.off;
      if c.seed {
        kept := sc.Seed(c.data, c.off, c.alt);
      } else if c.off > 0 {
        kept := sc.WriteAt(c.data, c.off);
      } else {
        kept := true;
        OffAfter(sc.Now(), c.data, sc.ring.buf.Length);
        off := sc.Append(c.data);
      }
    }
  }

  lemma OffAfter(v: View, p: seq<byte>, cap: nat)
    ensures Written(v, p, cap).off == v.off + |p|
  {
  }
}
