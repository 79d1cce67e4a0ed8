/** The byte ring: the last bytes written and how many were written in all. */
module Rings {
  import opened Bytes

  /** The last `n` bytes, or all of a shorter text. */
  function Suffix(s: seq<byte>, n: nat): (r: seq<byte>)
    ensures |r| == if |s| < n then |s| else n
  {
    if |s| <= n then s else s[|s| - n..]
  }

  lemma SuffixOfSuffix(a: seq<byte>, p: seq<byte>, n: nat)
    ensures Suffix(Suffix(a, n) + p, n) == Suffix(a + p, n)
  {
    var x, y := Suffix(Suffix(a, n) + p, n), Suffix(a + p, n);
    assert |x| == |y|;
    forall i | 0 <= i < |x| ensures x[i] == y[i] {
      assert x[i] == (a + p)[|a| + |p| - |x| + i];
    }
  }

  lemma ShorterSuffix(a: seq<byte>, m: nat, n: nat)
    requires m <= n
    ensures Suffix(Suffix(a, n), m) == Suffix(a, m)
  {
  }

  /** The `size` cells before `head`, going around. */
  function Window(cells: seq<byte>, head: nat, size: nat): (s: seq<byte>)
    requires size <= |cells| && head <= |cells|
    ensures |s| == size
  {
    if head >= size then cells[head - size..head] else cells[|cells| - (size - head)..] + cells[..head]
  }

  function Overlay(cells: seq<byte>, at: nat, p: seq<byte>): (r: seq<byte>)
    requires at + |p| <= |cells|
    ensures |r| == |cells|
  {
    cells[..at] + p + cells[at + |p|..]
  }

  lemma WindowAt(cells: seq<byte>, head: nat, size: nat, i: nat)
    requires size <= |cells| && head <= |cells| && i < size
    ensures Window(cells, head, size)[i] == cells[if head + i >= size then head - size + i
                                                  else |cells| + head - size + i]
  {
  }

  lemma OverlayAt(cells: seq<byte>, at: nat, p: seq<byte>, i: nat)
    requires at + |p| <= |cells| && i < |cells|
    ensures Overlay(cells, at, p)[i] == if at <= i < at + |p| then p[i - at] else cells[i]
  {
  }

  /** Writing less than the whole ring, around its end if need be. */
  lemma Around(cells: seq<byte>, head: nat, size: nat, p: seq<byte>, c: nat, head1: nat, size1: nat)
    requires size <= |cells| && head < |cells| && |p| < |cells|
    requires c == if |p| < |cells| - head then |p| else |cells| - head
    requires head1 == if head + |p| < |cells| then head + |p| else head + |p| - |cells|
    requires size1 == if size + |p| < |cells| then size + |p| else |cells|
    ensures Window(Overlay(Overlay(cells, head, p[..c]), 0, p[c..]), head1, size1) == Suffix(Window(cells, head,
                size) + p, |cells|)
  {
    hide Window, Overlay;
    var after := Overlay(Overlay(cells, head, p[..c]), 0, p[c..]);
    var was, n := Window(cells, head, size), |cells|;
    forall i | 0 <= i < size1 ensures Window(after, head1, size1)[i] == Suffix(was + p, n)[i] {
      WindowAt(after, head1, size1, i);
      var k := if head1 + i >= size1 then head1 - size1 + i else n + head1 - size1 + i;
      AroundAt(cells, head, p, c, k);
      var j := size + |p| - size1 + i;
      assert Suffix(was + p, n)[i] == (was + p)[j];
      if j < size {
        WindowAt(cells, head, size, j);
        assert (was + p)[j] == was[j];
      } else {
        assert (was + p)[j] == p[j - size];
      }
    }
  }

  /** What is in a cell after the two copies. */
  lemma AroundAt(cells: seq<byte>, head: nat, p: seq<byte>, c: nat, k: nat)
    requires head < |cells| && |p| < |cells| && k < |cells|
    requires c == if |p| < |cells| - head then |p| else |cells| - head
    ensures Overlay(Overlay(cells, head, p[..c]), 0, p[c..])[k] ==
      if k < |p| - c then p[c + k] else if head <= k < head + c then p[k - head] else cells[k]
  {
    OverlayAt(Overlay(cells, head, p[..c]), 0, p[c..], k);
    OverlayAt(cells, head, p[..c], k);
  }

  /** Writing the whole ring anew. */
  lemma Whole(after: seq<byte>, cells: seq<byte>, p: seq<byte>)
    requires |p| == |cells| && after == Overlay(cells, 0, p)
    ensures Window(after, 0, |p|) == p
  {
  }

  class Ring {
    const buf: array<byte>
    var head: nat
    var size: nat
    var off: int

    constructor (capacity: nat)
      ensures Valid() && fresh(buf) && buf.Length == capacity && Contents() == [] && off == 0
    {
      buf := new byte[capacity](i => 0);
      head, size, off := 0, 0, 0;
    }

    ghost predicate Valid()
      reads this, buf
    {
      size <= buf.Length && (head < buf.Length || head == buf.Length == 0)
    }

    /** What is kept, the oldest byte first. */
    ghost function Contents(): (s: seq<byte>)
      requires Valid()
      reads this, buf
    {
      Window(buf[..], head, size)
    }

    /** `copy(buf[at:], p)` for what fits. */
    method CopyIn(at: nat, p: seq<byte>)
      requires at + |p| <= buf.Length
      modifies buf
      ensures buf[..] == Overlay(old(buf[..]), at, p)
    {
      forall i | 0 <= i < |p| {
        buf[at + i] := p[i];
      }
    }

    method Write(p: seq<byte>) returns (end: int)
      requires Valid()
      modifies this`head, this`size, this`off, buf
      ensures Valid() && Contents() == Suffix(old(Contents()) + p, buf.Length)
      ensures off == old(off) + |p| && end == off
    {
      hide Window, Overlay;
      off := off + |p|;
      end := off;
      var n := buf.Length;
      if |p| >= n {
        CopyIn(0, p[|p| - n..]);
        Whole(buf[..], old(buf[..]), p[|p| - n..]);
        head, size := 0, n;
        return;
      }
      ghost var cells := buf[..];
      var c := if |p| < n - head then |p| else n - head;
      CopyIn(head, p[..c]);
      CopyIn(0, p[c..]);
      Wrap(head + |p|, n);
      ghost var h, z := head, size;
      head := (head + |p|) % n;
      size := if size + |p| < n then size + |p| else n;
      Around(cells, h, z, p, c, head, size);
    }

    method Snapshot() returns (out: seq<byte>, end: int)
      requires Valid() && buf.Length > 0
      ensures out == Contents() && end == off
    {
      var n := buf.Length;
      Wrap(head - size + n, n);
      var start := (head - size + n) % n;
      var c := if start + size < n then size else n - start;
      out := buf[start..start + c] + buf[..size - c];
      end := off;
    }

    method Reset(off: int)
      modifies this`head, this`size, this`off
      ensures Valid() && Contents() == [] && this.off == off
    {
      head, size, this.off := 0, 0, off;
    }
  }

  lemma Wrap(x: nat, n: nat)
    requires n > 0 && x < 2 * n
    ensures x % n == if x < n then x else x - n
  {
    if x >= n {
      assert x == (x - n) + n * 1;
      assert (x - n) % n == x - n;
      assert x % n == (x - n) % n;
    }
  }
}
