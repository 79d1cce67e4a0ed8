/** Cutting a stream of output into lines as it comes in. */
module LineCutter {
  import opened Sequences
  import opened Bytes

  const LINE_MAX: nat := 4096
  const LF: byte := 0x0A
  const CR: byte := 0x0D

  /** `bytes.IndexAny(s, "\r\n")`, or the length. */
  function First(s: seq<byte>): (i: nat)
    ensures i <= |s|
  {
    if s == [] || s[0] == CR || s[0] == LF then 0 else 1 + First(s[1..])
  }

  /** Where the first line ends, or 0 if that cannot be known yet: LF may follow a last CR. */
  function End(s: seq<byte>): (e: nat)
    ensures e <= |s|
  {
    var i := First(s);
    if i == |s| then 0
    else if s[i] != CR then i + 1
    else if i + 1 == |s| then 0
    else if s[i + 1] == LF then i + 2
    else i + 1
  }

  function Pieces(s: seq<byte>): seq<seq<byte>> {
    if End(s) == 0 then [] else [s[..End(s)]] + Pieces(s[End(s)..])
  }

  function Rest(s: seq<byte>): seq<byte> {
    if End(s) == 0 then s else Rest(s[End(s)..])
  }

  /** What one write sends on and keeps; too long a rest goes as it is. */
  function Fed(out: seq<seq<byte>>, buf: seq<byte>, b: seq<byte>): (seq<seq<byte>>, seq<byte>) {
    var r := Rest(buf + b);
    if |r| > LINE_MAX then (out + Pieces(buf + b) + [r], []) else (out + Pieces(buf + b), r)
  }

  function Closed(out: seq<seq<byte>>, buf: seq<byte>): seq<seq<byte>> { if buf == [] then out else out + [buf] }

  class Cutter {
    var buf: seq<byte>
    var out: seq<seq<byte>>

    constructor ()
      ensures buf == [] && out == []
    {
      buf, out := [], [];
    }

    method Write(b: seq<byte>)
      modifies this
      ensures (out, buf) == Fed(old(out), old(buf), b)
    {
      hide Pieces, Rest, First;
      buf := buf + b;
      ghost var all := buf;
      while true
        invariant out + Pieces(buf) == old(out) + Pieces(all) && Rest(buf) == Rest(all)
        decreases |buf|
      {
        var i := IndexAny(buf);
        if i == |buf| || (buf[i] == CR && i + 1 == |buf|) {
          break;
        }
        var end := i + 1;
        if buf[i] == CR && buf[end] == LF {
          end := end + 1;
        }
        CutOne(out, buf);
        out := out + [buf[..end]];
        buf := buf[end..];
      }
      NoneToCut(out, buf);
      if |buf| > LINE_MAX {
        out := out + [buf];
        buf := [];
      }
    }

    method Close()
      modifies this
      ensures out == Closed(old(out), old(buf)) && buf == []
    {
      if |buf| > 0 {
        out := out + [buf];
        buf := [];
      }
    }
  }

  lemma CutOne(out: seq<seq<byte>>, s: seq<byte>)
    requires End(s) > 0
    ensures out + Pieces(s) == out + [s[..End(s)]] + Pieces(s[End(s)..]) && Rest(s) == Rest(s[End(s)..])
  {
  }

  lemma NoneToCut(out: seq<seq<byte>>, s: seq<byte>)
    requires End(s) == 0
    ensures out + Pieces(s) == out && Rest(s) == s
  {
  }

  method IndexAny(s: seq<byte>) returns (i: nat)
    ensures i == First(s)
  {
    i := 0;
    while i < |s|
      invariant i <= |s| && First(s) == i + First(s[i..])
    {
      if s[i] == CR || s[i] == LF {
        return;
      }
      assert s[i..][1..] == s[i + 1..];
      i := i + 1;
    }
  }

  // ---- more input ----

  lemma {:induction false} FirstIs(s: seq<byte>)
    ensures forall j :: 0 <= j < First(s) ==> s[j] != CR && s[j] != LF
    ensures First(s) < |s| ==> s[First(s)] == CR || s[First(s)] == LF
  {
    if s != [] && s[0] != CR && s[0] != LF {
      FirstIs(s[1..]);
      assert forall j :: 1 <= j < |s| ==> s[j] == s[1..][j - 1];
    }
  }

  lemma {:induction false} FirstLater(a: seq<byte>, b: seq<byte>)
    ensures First(a) < |a| ==> First(a + b) == First(a)
    ensures First(a) == |a| ==> First(a + b) == |a| + First(b)
  {
    if a == [] {
      assert a + b == b;
    } else {
      assert (a + b)[1..] == a[1..] + b;
      FirstLater(a[1..], b);
    }
  }

  lemma EndLater(a: seq<byte>, b: seq<byte>)
    requires End(a) > 0
    ensures End(a + b) == End(a)
  {
    FirstLater(a, b);
  }

  /** The lines of more input are the lines so far and those of the rest with it. */
  lemma {:induction false} CutLater(a: seq<byte>, b: seq<byte>)
    ensures Pieces(a + b) == Pieces(a) + Pieces(Rest(a) + b) && Rest(a + b) == Rest(Rest(a) + b)
    decreases |a|
  {
    hide First;
    var e := End(a);
    if e > 0 {
      EndLater(a, b);
      assert (a + b)[..e] == a[..e] && (a + b)[e..] == a[e..] + b;
      CutLater(a[e..], b);
    }
  }

  lemma {:induction false} RestHasNoEnd(s: seq<byte>)
    ensures End(Rest(s)) == 0
    decreases |s|
  {
    if End(s) > 0 {
      RestHasNoEnd(s[End(s)..]);
    }
  }

  /** The first cut. */
  lemma FirstPiece(s: seq<byte>)
    ensures End(s) == 0 ==> Pieces(s) == [] && Rest(s) == s
    ensures End(s) > 0 ==> Pieces(s) == [s[..End(s)]] + Pieces(s[End(s)..]) && Rest(s) == Rest(s[End(s)..])
  {
    hide End;
  }

  lemma FirstOf(p: seq<byte>, ps: seq<seq<byte>>)
    ensures Concat([p] + ps) == p + Concat(ps) && ([p] + ps)[1..] == ps
  {
    ConcatBoth([p], ps);
    OnePiece(p);
  }

  lemma {:induction false} CutConserves(s: seq<byte>)
    ensures Concat(Pieces(s)) + Rest(s) == s
    decreases |s|
  {
    hide End, Pieces, Rest;
    FirstPiece(s);
    var e := End(s);
    if e > 0 {
      CutConserves(s[e..]);
      hide Concat;
      FirstOf(s[..e], Pieces(s[e..]));
      assert s == s[..e] + s[e..];
    }
  }

  /** A line has its end at its end and no other inside. */
  predicate IsLine(p: seq<byte>) {
    && |p| > 0 && (p[|p| - 1] == LF || p[|p| - 1] == CR)
    && forall j :: 0 <= j < |p| - 1 ==> p[j] != LF && (p[j] == CR ==> j == |p| - 2 && p[j + 1] == LF)
  }

  /** The first line is one, and if it ends in CR what follows is there and is not LF. */
  lemma FirstIsLine(s: seq<byte>)
    requires End(s) > 0
    ensures IsLine(s[..End(s)]) && (s[End(s) - 1] == CR ==> End(s) < |s| && s[End(s)] != LF)
  {
    FirstIs(s);
    var p, i := s[..End(s)], First(s);
    assert forall j :: 0 <= j < |p| ==> p[j] == s[j];
  }

  /** What stands behind a piece. */
  function Behind(s: seq<byte>, i: nat): seq<byte>
    requires i < |Pieces(s)|
  {
    Concat(Pieces(s)[i + 1..]) + Rest(s)
  }

  /** The cut pieces are lines, and CR LF is never cut in two. */
  lemma {:induction false} PiecesAreLines(s: seq<byte>, i: nat)
    requires i < |Pieces(s)|
    ensures var p, after := Pieces(s)[i], Behind(s, i);
            IsLine(p) && (p[|p| - 1] == CR ==> after != [] && after[0] != LF)
    decreases |s|
  {
    FirstPiece(s);
    hide End, Pieces, Rest, First, Concat, Behind;
    FirstIsLine(s);
    var e := End(s);
    if i == 0 {
      FirstBehind(s);
    } else {
      PiecesAreLines(s[e..], i - 1);
      NextBehind(s, i);
    }
  }

  lemma FirstBehind(s: seq<byte>)
    requires End(s) > 0
    ensures |Pieces(s)| > 0 && Pieces(s)[0] == s[..End(s)] && Behind(s, 0) == s[End(s)..]
  {
    hide End, Pieces, Rest, Concat;
    FirstPiece(s);
    CutConserves(s[End(s)..]);
    FirstOf(s[..End(s)], Pieces(s[End(s)..]));
  }

  lemma NextBehind(s: seq<byte>, i: nat)
    requires End(s) > 0 && 0 < i < |Pieces(s)|
    ensures i - 1 < |Pieces(s[End(s)..])| && Pieces(s)[i] == Pieces(s[End(s)..])[i - 1]
    ensures Behind(s, i) == Behind(s[End(s)..], i - 1)
  {
    hide End, Pieces, Rest, Concat;
    FirstPiece(s);
    assert Pieces(s)[i + 1..] == Pieces(s[End(s)..])[i..];
  }

  // ---- any chunks ----

  function Run(chunks: seq<seq<byte>>): (seq<seq<byte>>, seq<byte>) {
    if chunks == [] then ([], [])
    else
      var (out, buf) := Run(chunks[..|chunks| - 1]);
      Fed(out, buf, chunks[|chunks| - 1])
  }

  /** However the stream is cut into chunks and however long its lines are, no byte is lost,
      doubled or moved. */
  lemma {:induction false} RunConserves(chunks: seq<seq<byte>>)
    ensures Concat(Run(chunks).0) + Run(chunks).1 == Concat(chunks)
    ensures Concat(Closed(Run(chunks).0, Run(chunks).1)) == Concat(chunks)
  {
    hide Fed, Concat, Closed;
    ClosedConserves(Run(chunks).0, Run(chunks).1);
    if chunks == [] {
      NothingIn();
    } else {
      var front, b := chunks[..|chunks| - 1], chunks[|chunks| - 1];
      RunConserves(front);
      assert chunks == front + [b];
      ConcatBoth(front, [b]);
      OnePiece(b);
      FedConserves(Run(front).0, Run(front).1, b);
    }
  }

  lemma NothingIn()
    ensures var none: seq<seq<byte>> := []; Concat(none) == [] && Concat(none) + [] == []
  {
  }

  lemma ClosedConserves(out: seq<seq<byte>>, buf: seq<byte>)
    ensures Concat(Closed(out, buf)) == Concat(out) + buf
  {
    hide Concat;
    OnePiece(buf);
    ConcatBoth(out, [buf]);
    assert Concat(out) + [] == Concat(out);
  }

  lemma FedConserves(out: seq<seq<byte>>, buf: seq<byte>, b: seq<byte>)
    ensures Concat(Fed(out, buf, b).0) + Fed(out, buf, b).1 == Concat(out) + buf + b
  {
    hide Pieces, Rest, Concat;
    var ps, r := Pieces(buf + b), Rest(buf + b);
    CutConserves(buf + b);
    ConcatBoth(out, ps);
    OnePiece(r);
    ConcatBoth(out + ps, [r]);
    assert Concat(out) + buf + b == Concat(out) + (buf + b);
    assert Concat(out) + (Concat(ps) + r) == Concat(out) + Concat(ps) + r;
  }

  lemma OnePiece(b: seq<byte>)
    ensures Concat([b]) == b
  {
    assert [b][..0] == [];
    assert [] + b == b;
  }

  /** The rest that would be kept here is not too long, or is a whole line anyway. */
  predicate FitsAt(s: seq<byte>, k: nat)
    requires k < |s|
  {
    var r := Rest(s[..k]);
    |r| <= LINE_MAX || (r[|r| - 1] == CR && s[k] != LF)
  }

  predicate Fits(s: seq<byte>) { forall k :: 0 <= k < |s| ==> FitsAt(s, k) }

  /** A rest that ends in CR is a line once something other than LF follows. */
  lemma RestIsLine(r: seq<byte>, b: seq<byte>)
    requires r != [] && r[|r| - 1] == CR && End(r) == 0 && b != [] && b[0] != LF
    ensures Pieces(r + b) == [r] + Pieces(b) && Rest(r + b) == Rest(b)
  {
    FirstIs(r);
    var i := First(r);
    assert i == |r| - 1;
    FirstLater(r, b);
    assert (r + b)[i] == CR && (r + b)[i + 1] == b[0];
    assert End(r + b) == |r|;
    assert (r + b)[..|r|] == r && (r + b)[|r|..] == b;
  }

  /** What was sent on is the lines so far; if the rest was too long it went too. */
  ghost predicate AsWhole(all: seq<byte>, out: seq<seq<byte>>, buf: seq<byte>) {
    || (out == Pieces(all) && buf == Rest(all))
    || (out == Pieces(all) + [Rest(all)] && buf == [] && |Rest(all)| > LINE_MAX)
  }

  lemma FedAsWhole(all: seq<byte>, out: seq<seq<byte>>, buf: seq<byte>, b: seq<byte>)
    requires AsWhole(all, out, buf) && Fits(all + b)
    ensures AsWhole(all + b, Fed(out, buf, b).0, Fed(out, buf, b).1)
  {
    hide Pieces, Rest;
    CutLater(all, b);
    if out == Pieces(all) && buf == Rest(all) {
    } else if b == [] {
      assert all + b == all && buf + b == [];
      EmptyCut();
      assert out + [] == out;
    } else {
      var r := Rest(all);
      assert FitsAt(all + b, |all|);
      assert (all + b)[..|all|] == all && (all + b)[|all|] == b[0];
      RestHasNoEnd(all);
      RestIsLine(r, b);
      assert buf + b == b;
      assert Pieces(all) + ([r] + Pieces(b)) == Pieces(all) + [r] + Pieces(b);
    }
  }

  lemma EmptyCut()
    ensures Pieces([]) == [] && Rest([]) == []
  {
  }

  lemma {:induction false} RunAsWhole(chunks: seq<seq<byte>>)
    requires Fits(Concat(chunks))
    ensures AsWhole(Concat(chunks), Run(chunks).0, Run(chunks).1)
  {
    hide AsWhole, Fed, Fits;
    if chunks == [] {
      EmptyAsWhole();
    } else {
      var front, b := chunks[..|chunks| - 1], chunks[|chunks| - 1];
      assert chunks == front + [b];
      ConcatBoth(front, [b]);
      OnePiece(b);
      FitsShorter(Concat(front), b);
      RunAsWhole(front);
      FedAsWhole(Concat(front), Run(front).0, Run(front).1, b);
    }
  }

  lemma EmptyAsWhole()
    ensures AsWhole([], [], [])
  {
  }

  lemma FitsShorter(a: seq<byte>, b: seq<byte>)
    requires Fits(a + b)
    ensures Fits(a)
  {
    forall k | 0 <= k < |a| ensures FitsAt(a, k) {
      assert FitsAt(a + b, k);
      assert (a + b)[..k] == a[..k];
    }
  }

  /** Lines that fit are cut the same however the stream comes in. */
  lemma ChunksDoNotMatter(chunks: seq<seq<byte>>)
    requires Fits(Concat(chunks))
    ensures Closed(Run(chunks).0, Run(chunks).1) == Closed(Pieces(Concat(chunks)), Rest(Concat(chunks)))
  {
    RunAsWhole(chunks);
  }

  /** Lines that do not fit are cut elsewhere by a stream that comes in two parts. */
  lemma TooLongIsCut(a: seq<byte>, b: seq<byte>)
    requires b != [] && !FitsAt(a + b, |a|)
    ensures Closed(Run([a, b]).0, Run([a, b]).1) != Closed(Pieces(a + b), Rest(a + b))
  {
    TooLong(a, b);
    hide Pieces, Rest, End, Fed, Closed, FitsAt, Run;
    TwoRuns(a, b);
    FedFirst(a);
    CutThere(Pieces(a), Rest(a), b);
    WholeThere(a, b);
  }

  lemma TooLong(a: seq<byte>, b: seq<byte>)
    requires b != [] && !FitsAt(a + b, |a|)
    ensures |Rest(a)| > LINE_MAX && !(Rest(a)[|Rest(a)| - 1] == CR && b[0] != LF)
  {
    assert (a + b)[..|a|] == a && (a + b)[|a|] == b[0];
  }

  lemma TwoRuns(a: seq<byte>, b: seq<byte>)
    ensures Run([a, b]) == Fed(Fed([], [], a).0, Fed([], [], a).1, b)
  {
    hide Fed;
    var none: seq<seq<byte>> := [];
    assert [a, b][..1] == [a];
    assert [a][..0] == none;
    assert Run(none) == (none, []);
    assert Run([a]) == Fed(none, [], a);
    assert [a, b][1] == b;
  }

  lemma FedFirst(a: seq<byte>)
    requires |Rest(a)| > LINE_MAX
    ensures Fed([], [], a) == (Pieces(a) + [Rest(a)], [])
  {
    hide Pieces, Rest;
    assert [] + a == a;
    assert [] + Pieces(a) == Pieces(a);
  }

  /** The two-part stream has the too long rest as a piece of its own. */
  lemma CutThere(ps: seq<seq<byte>>, r: seq<byte>, b: seq<byte>)
    ensures var (out, buf) := Fed(ps + [r], [], b); var cut := Closed(out, buf); |ps| < |cut| && cut[|ps|] == r
  {
    hide Pieces, Rest;
  }

  /** In the whole stream the piece at that place is longer. */
  lemma WholeThere(a: seq<byte>, b: seq<byte>)
    requires b != [] && Rest(a) != [] && !(Rest(a)[|Rest(a)| - 1] == CR && b[0] != LF)
    ensures var whole := Closed(Pieces(a + b), Rest(a + b)); |Pieces(a)| < |whole| && whole[|Pieces(a)|] != Rest(a)
  {
    hide Pieces, Rest;
    CutLater(a, b);
    NextIsLonger(a, b);
  }

  /** The line begun by a rest that is no line by itself is longer than the rest. */
  lemma NextIsLonger(a: seq<byte>, b: seq<byte>)
    requires b != [] && Rest(a) != [] && !(Rest(a)[|Rest(a)| - 1] == CR && b[0] != LF)
    ensures var r := Rest(a); if Pieces(r + b) == [] then Rest(r + b) == r + b else |Pieces(r + b)[0]| > |r|
  {
    var r := Rest(a);
    RestHasNoEnd(a);
    FirstIs(r);
    FirstLater(r, b);
    if First(r) < |r| {
      assert First(r) == |r| - 1;
      assert (r + b)[|r|] == b[0];
    }
  }

  /** A rest of up to 4096 bytes is kept, a longer one is not. */
  lemma RestIsBounded(out: seq<seq<byte>>, buf: seq<byte>, b: seq<byte>)
    ensures Fed(out, buf, b).1 == if |Rest(buf + b)| <= 4096 then Rest(buf + b) else []
  {
  }
}
