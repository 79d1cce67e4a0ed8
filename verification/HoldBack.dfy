/** The terminal output loop holds back a character that has not fully arrived. Valid text is
    that of sections 3 and 4 of RFC 3629. */
module HoldBack {
  import opened Sequences

  type Text = seq<bv8>

  predicate Cont(b: bv8) { b & 0xC0 == 0x80 }

  /** Bytes of the character a lead byte begins, or 0 for none. */
  function Width(b: bv8): nat {
    if b <= 0x7F then 1 else if 0xC2 <= b <= 0xDF then 2 else if 0xE0 <= b <= 0xEF then 3
    else if 0xF0 <= b <= 0xF4 then 4 else 0
  }

  /** One character: UTF8-1, UTF8-2, UTF8-3 or UTF8-4 of section 4. */
  predicate IsChar(c: Text) {
    || (|c| == 1 && c[0] <= 0x7F)
    || (|c| == 2 && 0xC2 <= c[0] <= 0xDF && Cont(c[1]))
    || (|c| == 3 && 0xE0 <= c[0] <= 0xEF && Cont(c[1]) && Cont(c[2]) && (c[0] == 0xE0 ==> c[1] >= 0xA0)
        && (c[0] == 0xED ==> c[1] <= 0x9F))
    || (|c| == 4 && 0xF0 <= c[0] <= 0xF4 && Cont(c[1]) && Cont(c[2]) && Cont(c[3]) && (c[0] == 0xF0 ==> c[1] >= 0x90)
        && (c[0] == 0xF4 ==> c[1] <= 0x8F))
  }

  predicate ValidText(s: Text) {
    s == [] || var w := Width(s[0]); 1 <= w <= |s| && IsChar(s[..w]) && ValidText(s[w..])
  }

  /** The length of the characters that are all there. */
  function Whole(s: Text): (n: nat)
    ensures n <= |s|
  {
    if s == [] then 0
    else
      var w := Width(s[0]);
      if 1 <= w <= |s| then w + Whole(s[w..]) else 0
  }

  /** How many bytes from the end the last one is that continues nothing, if it is among the
      last four; else 0. */
  function Back(s: Text): nat {
    if |s| >= 1 && !Cont(s[|s| - 1]) then 1
    else if |s| >= 2 && !Cont(s[|s| - 2]) then 2
    else if |s| >= 3 && !Cont(s[|s| - 3]) then 3
    else if |s| >= 4 && !Cont(s[|s| - 4]) then 4
    else 0
  }

  /** `expectedBytes`, 0 for what begins no longer character. */
  function Expected(b: bv8): nat {
    if b & 0xE0 == 0xC0 then 2 else if b & 0xF0 == 0xE0 then 3 else if b & 0xF8 == 0xF0 then 4 else 0
  }

  function TailLen(s: Text): nat {
    if s == [] || s[|s| - 1] & 0x80 == 0 then 0
    else if 1 <= Back(s) <= |s| && Back(s) < Expected(s[|s| - Back(s)]) then Back(s)
    else 0
  }

  function Completed(s: Text): (int, int) {
    if s == [] then (-1, 0)
    else if s[|s| - 1] & 0x80 == 0 then (|s| - 1, 0)
    else if !(1 <= Back(s) <= |s|) then (-1, -1)
    else
      var k := Back(s);
      var e := Expected(s[|s| - k]);
      if k == e then (|s| - 1, 0) else if k < e then (-1, e - k) else (-1, -1)
  }

  method IncompleteTailLen(data: Text) returns (n: nat)
    ensures n == TailLen(data)
  {
    if |data| == 0 {
      return 0;
    }
    var last := |data| - 1;
    if data[last] & 0x80 == 0 {
      return 0;
    }
    var count, i := 0, last;
    while i >= 0 && i > last - 4
      invariant count == last - i && -1 <= i && 0 <= count <= 4
      invariant forall j :: i < j <= last ==> Cont(data[j])
      decreases i + 1
    {
      var b := data[i];
      if b & 0xC0 == 0x80 {
        count := count + 1;
        i := i - 1;
        continue;
      }
      assert Back(data) == count + 1;
      var actual := count + 1;
      if actual >= Expected(b) {
        return 0;
      }
      return actual;
    }
    assert Back(data) == 0;
    return 0;
  }

  method IsCompletedUTF8(data: Text) returns (last: int, missing: int)
    ensures (last, missing) == Completed(data)
  {
    if |data| == 0 {
      return -1, 0;
    }
    last := |data| - 1;
    if data[last] & 0x80 == 0 {
      return last, 0;
    }
    var count, i := 0, last;
    while i >= 0 && i > last - 4
      invariant last == |data| - 1 && count == last - i && -1 <= i && 0 <= count <= 4
      invariant forall j :: i < j <= last ==> Cont(data[j])
      decreases i + 1
    {
      var b := data[i];
      if b & 0xC0 == 0x80 {
        count := count + 1;
        i := i - 1;
        continue;
      }
      assert Back(data) == count + 1;
      var actual := count + 1;
      if actual == Expected(b) {
        return last, 0;
      } else if actual < Expected(b) {
        return -1, Expected(b) - actual;
      } else {
        return -1, -1;
      }
    }
    assert Back(data) == 0;
    return -1, -1;
  }

  /** `streamOutputLogic`: the bytes held, those that passed the entry test of `publishLine` or
      were pushed at the end, and those the test dropped. */
  class OutputLoop {
    var lines: Text
    var published: Text
    var dropped: Text

    constructor ()
      ensures lines == [] && published == [] && dropped == []
    {
      lines, published, dropped := [], [], [];
    }

    method Publish(safe: Text) returns (ok: bool)
      modifies this`published
      ensures ok <==> Completed(safe).0 > -1
      ensures published == old(published) + if ok then safe else []
    {
      var last, missing := IsCompletedUTF8(safe);
      ok := last > -1;
      if ok {
        published := published + safe;
      }
    }

    /** One read that gave bytes. */
    method Take(buffer: Text)
      requires buffer != []
      modifies this
      ensures (published, dropped, lines) == Round(old(published), old(dropped), old(lines), buffer)
    {
      hide Completed, TailLen;
      lines := lines + buffer;
      var hold := IncompleteTailLen(lines);
      TailFits(lines);
      var ok := Publish(lines[..|lines| - hold]);
      if !ok {
        dropped := dropped + lines[..|lines| - hold];
      }
      assert old(published) + [] == old(published);
      lines := lines[|lines| - hold..];
    }

    /** The end of the output: what is held is put to the entry test first. If it passes, nothing is
        left of it; what is left goes out as it is. */
    method End()
      modifies this
      ensures published == Ended(old(published), old(lines)) && dropped == old(dropped) && lines == []
    {
      hide Completed;
      if |lines| > 0 {
        var ok := Publish(lines);
        if ok {
          lines := [];
        }
        published := published + lines;
        lines := [];
      }
    }
  }

  lemma TailFits(s: Text)
    ensures TailLen(s) <= |s| && TailLen(s) <= 3
  {
    if s != [] && 1 <= Back(s) <= |s| {
      var b := s[|s| - Back(s)];
    }
  }

  function Round(published: Text, dropped: Text, lines: Text, buffer: Text): (Text, Text, Text) {
    var all := lines + buffer;
    TailFits(all);
    var safe := all[..|all| - TailLen(all)];
    if Completed(safe).0 > -1 then (published + safe, dropped, all[|all| - TailLen(all)..])
    else (published, dropped + safe, all[|all| - TailLen(all)..])
  }

  function Ended(published: Text, lines: Text): Text { published + lines }

  /** What is held back, of whatever bytes, never passes the entry test. */
  lemma HeldFails(s: Text)
    ensures TailLen(s) <= |s| && Completed(s[|s| - TailLen(s)..]).0 == -1
  {
    TailFits(s);
    var k := TailLen(s);
    var held := s[|s| - k..];
    if k > 0 {
      assert forall j :: 0 <= j < k ==> held[j] == s[|s| - k + j];
      LeadIsLonger(s[|s| - k], k);
      hide Expected;
      assert Back(held) == k;
    }
  }

  lemma LeadIsLonger(b: bv8, k: nat)
    requires 1 <= k < Expected(b)
    ensures !Cont(b) && b & 0x80 != 0
  {
  }

  // ---- text cut anywhere ----

  /** The text is the beginning of a valid one. */
  ghost predicate Begins(s: Text) { exists t :: ValidText(s + t) }

  /** Some bytes of a longer character. */
  predicate Partial(s: Text) { s == [] || (|s| < Width(s[0]) && forall j :: 1 <= j < |s| ==> Cont(s[j])) }

  lemma {:induction false} CutText(s: Text, t: Text)
    requires ValidText(s + t)
    ensures ValidText(s[..Whole(s)]) && Partial(s[Whole(s)..])
    decreases |s|
  {
    hide IsChar, Width, ValidText;
    NoneIsValid();
    if s != [] {
      var w := Width(s[0]);
      FirstChar(s + t);
      assert (s + t)[0] == s[0];
      if w <= |s| {
        assert (s + t)[..w] == s[..w] && (s + t)[w..] == s[w..] + t;
        CutText(s[w..], t);
        var n := Whole(s);
        assert s[..n][..w] == s[..w] && s[..n][w..] == s[w..][..n - w];
        CharAhead(s[..n]);
        assert s[n..] == s[w..][n - w..];
      } else {
        var c := (s + t)[..w];
        TailsContinue(c);
        assert forall j :: 1 <= j < |s| ==> c[j] == s[j];
      }
    }
  }

  lemma NoneIsValid()
    ensures ValidText([])
  {
  }

  lemma CharAhead(s: Text)
    requires s != [] && 1 <= Width(s[0]) <= |s| && IsChar(s[..Width(s[0])]) && ValidText(s[Width(s[0])..])
    ensures ValidText(s)
  {
    hide IsChar, Width;
  }

  lemma TailsContinue(c: Text)
    requires IsChar(c)
    ensures forall j :: 1 <= j < |c| ==> Cont(c[j])
  {
  }

  /** The last character of a valid text. */
  lemma {:induction false} LastChar(s: Text) returns (w: nat)
    requires ValidText(s) && s != []
    ensures 1 <= w <= 4 && w <= |s| && IsChar(s[|s| - w..])
    decreases |s|
  {
    w := Width(s[0]);
    if w == |s| {
      assert s[..w] == s == s[|s| - w..];
    } else {
      var first := w;
      w := LastChar(s[first..]);
      assert s[first..][|s[first..]| - w..] == s[|s| - w..];
    }
  }

  lemma BackOfChar(s: Text, w: nat)
    requires 1 <= w <= 4 && w <= |s| && IsChar(s[|s| - w..])
    ensures w == 1 ==> s[|s| - 1] & 0x80 == 0
    ensures w > 1 ==> Back(s) == w && Expected(s[|s| - w]) == w && s[|s| - 1] & 0x80 != 0
  {
    var c := s[|s| - w..];
    assert forall j :: 0 <= j < w ==> c[j] == s[|s| - w + j];
    LeadOf(c[0]);
    if w > 1 {
      assert Cont(c[w - 1]);
      assert c[w - 1] == s[|s| - 1];
      assert c[0] == s[|s| - w] && !Cont(c[0]);
      assert w >= 3 ==> Cont(c[w - 2]) && c[w - 2] == s[|s| - 2];
      assert w == 4 ==> Cont(c[1]) && c[1] == s[|s| - 3];
    }
  }

  /** The masks of the code and the ranges of the standard agree on lead bytes. */
  lemma LeadOf(b: bv8)
    ensures Width(b) >= 1 ==> !Cont(b)
    ensures Width(b) >= 2 ==> Expected(b) == Width(b) && b & 0x80 != 0
    ensures Width(b) == 1 <==> b & 0x80 == 0
  {
  }

  lemma BackOfPartial(s: Text, r: nat)
    requires 1 <= r <= 3 && r <= |s| && Partial(s[|s| - r..])
    ensures TailLen(s) == r
  {
    PartialEnds(s, r);
    LeadOf(s[|s| - r]);
    hide Partial, Back, Expected, Width, Cont;
  }

  /** Of text cut anywhere, what is held back is just the character cut, three bytes at most, and
      what is kept ends on a character and passes the entry test unless it is empty. */
  lemma HoldsTheCutOnly(s: Text)
    requires Begins(s)
    ensures TailLen(s) == |s| - Whole(s) <= 3
    ensures ValidText(s[..Whole(s)])
    ensures Whole(s) > 0 ==> Completed(s[..Whole(s)]).0 == Whole(s) - 1
  {
    hide Back, Expected, Width, IsChar, Cont, ValidText, Whole;
    var t :| ValidText(s + t);
    CutText(s, t);
    var n := Whole(s);
    var kept, r := s[..n], |s| - n;
    if r > 0 {
      PartialSize(s[n..]);
      assert s[|s| - r..] == s[n..];
      BackOfPartial(s, r);
    }
    if n > 0 {
      var w := LastChar(kept);
      BackOfChar(kept, w);
      if r == 0 {
        assert kept == s;
      }
    }
  }

  lemma {:induction false} ValidBehind(a: Text, b: Text)
    requires ValidText(a)
    ensures ValidText(a + b) <==> ValidText(b)
    decreases |a|
  {
    if a == [] {
      assert a + b == b;
    } else {
      hide IsChar, Width;
      var w := Width(a[0]);
      assert (a + b)[w..] == a[w..] + b && (a + b)[..w] == a[..w];
      ValidBehind(a[w..], b);
    }
  }

  lemma PartialCompleted(s: Text, r: nat)
    requires 1 <= r <= 3 && r <= |s| && Partial(s[|s| - r..])
    ensures Completed(s) == (-1, Width(s[|s| - r]) - r)
  {
    PartialEnds(s, r);
    LeadOf(s[|s| - r]);
    hide Partial, Back, Expected, Width, Cont;
  }

  /** At the end of such a text stand a lead byte and what follows it. */
  lemma PartialEnds(s: Text, r: nat)
    requires 1 <= r <= 3 && r <= |s| && Partial(s[|s| - r..])
    ensures Back(s) == r < Width(s[|s| - r]) && s[|s| - 1] & 0x80 != 0
  {
    var c := s[|s| - r..];
    LeadOf(c[0]);
    hide Width;
    assert forall j :: 0 <= j < r ==> c[j] == s[|s| - r + j];
    assert !Cont(s[|s| - r]);
    assert forall j :: |s| - r < j < |s| ==> Cont(s[j]) by {
      forall j | |s| - r < j < |s| ensures Cont(s[j]) {
        assert c[j - (|s| - r)] == s[j];
      }
    }
    HighBit(s[|s| - 1]);
    hide Cont;
  }

  lemma HighBit(b: bv8)
    ensures Cont(b) ==> b & 0x80 != 0
  {
  }

  lemma WholeCompleted(s: Text)
    requires ValidText(s) && s != []
    ensures Completed(s) == (|s| - 1, 0)
  {
    hide ValidText;
    var w := LastChar(s);
    hide Back, Expected, Width, IsChar, Cont;
    BackOfChar(s, w);
  }

  /** How many bytes the cut character still needs: with one text of so many the whole is valid, and
      with no shorter one. Of text that is not cut the last index comes back, and no text is malformed. */
  lemma MissingIsExact(s: Text)
    requires Begins(s) && s != []
    ensures var (at, n) := Completed(s);
            if ValidText(s) then (at, n) == (|s| - 1, 0)
            else at == -1 && n > 0 && (exists t :: |t| == n && ValidText(s + t))
                 && forall t {:trigger ValidText(s + t)} :: ValidText(s + t) ==> |t| >= n
  {
    var t0 :| ValidText(s + t0);
    if ValidText(s) {
      WholeCompleted(s);
    } else {
      CutText(s, t0);
      hide *;
      var kept, c := s[..Whole(s)], s[Whole(s)..];
      CutInTwo(s, Whole(s));
      SomeIsLeft(kept, c);
      PartialSize(c);
      PartialCompleted(s, |c|);
      Missing(kept, c, t0);
    }
  }

  /** The three answers for any bytes: the last index, the bytes missing, which is just when something
      is held back, or malformed, which no beginning of a text is. */
  lemma AnswersAre(s: Text)
    requires s != []
    ensures Completed(s) == (|s| - 1, 0) || (Completed(s).0 == -1 && Completed(s).1 > 0) || Completed(s) == (-1, -1)
    ensures Completed(s).1 > 0 <==> TailLen(s) > 0
    ensures Completed(s) == (-1, -1) ==> !Begins(s)
  {
    if Begins(s) {
      MissingIsExact(s);
    }
  }

  lemma SomeIsLeft(kept: Text, c: Text)
    requires ValidText(kept) && !ValidText(kept + c)
    ensures c != []
  {
    assert c == [] ==> kept + c == kept;
  }

  lemma Missing(kept: Text, c: Text, t0: Text)
    requires ValidText(kept) && c != [] && Partial(c) && ValidText(kept + c + t0)
    ensures var n := Width(c[0]) - |c|;
            && n > 0 && (exists t :: |t| == n && ValidText(kept + c + t))
            && forall t {:trigger ValidText(kept + c + t)} :: ValidText(kept + c + t) ==> |t| >= n
  {
    var n := Width(c[0]) - |c|;
    assert n > 0;
    hide *;
    forall t {:trigger ValidText(kept + c + t)} | ValidText(kept + c + t) ensures |t| >= n {
      EnoughIsThere(kept, c, t);
    }
    EnoughIsThere(kept, c, t0);
  }

  lemma EnoughIsThere(kept: Text, c: Text, t: Text)
    requires ValidText(kept) && c != [] && |c| < Width(c[0]) && ValidText(kept + c + t)
    ensures var n := Width(c[0]) - |c|; n <= |t| && ValidText(kept + c + t[..n])
  {
    hide *;
    Grouped(kept, c, t);
    ValidBehind(kept, c + t);
    FirstIsThere(c, t);
    var u := t[..Width(c[0]) - |c|];
    ValidBehind(kept, c + u);
    Grouped(kept, c, u);
  }

  lemma FirstIsThere(c: Text, t: Text)
    requires c != [] && |c| < Width(c[0]) && ValidText(c + t)
    ensures var n := Width(c[0]) - |c|; n <= |t| && ValidText(c + t[..n])
  {
    hide *;
    var w := Width(c[0]);
    assert (c + t)[0] == c[0];
    FirstChar(c + t);
    CutBehind(c, t, w);
    OneChar(c + t[..w - |c|]);
  }

  lemma FirstChar(s: Text)
    requires s != [] && ValidText(s)
    ensures 1 <= Width(s[0]) <= |s| && IsChar(s[..Width(s[0])]) && ValidText(s[Width(s[0])..])
  {
    hide IsChar, Width;
  }

  lemma OneChar(c: Text)
    requires c != [] && |c| == Width(c[0]) && IsChar(c)
    ensures ValidText(c)
  {
    hide IsChar, Width;
    assert c[..|c|] == c && c[|c|..] == [];
  }

  lemma PartialSize(s: Text)
    requires Partial(s)
    ensures |s| <= 3
  {
  }

  // ---- the whole loop ----

  function Rounds(chunks: seq<Text>): (Text, Text, Text) {
    if chunks == [] then ([], [], [])
    else
      var (p, d, l) := Rounds(chunks[..|chunks| - 1]);
      Round(p, d, l, chunks[|chunks| - 1])
  }

  lemma {:induction false} WholeAfter(a: Text, b: Text)
    requires ValidText(a)
    ensures Whole(a + b) == |a| + Whole(b)
    decreases |a|
  {
    if a == [] {
      assert a + b == b;
    } else {
      var w := Width(a[0]);
      assert (a + b)[w..] == a[w..] + b;
      WholeAfter(a[w..], b);
    }
  }

  lemma {:induction false} ValidPrefix(a: Text, s: Text)
    requires ValidText(a) && Begins(a + s)
    ensures Begins(s)
    decreases |a|
  {
    if a == [] {
      assert a + s == s;
    } else {
      var t :| ValidText(a + s + t);
      var w := Width(a[0]);
      assert (a + s + t)[w..] == a[w..] + s + t;
      ValidPrefix(a[w..], s);
    }
  }

  /** After any reads of a valid text, cut anywhere: what has gone out are the characters that are
      all there, at most three bytes wait, and nothing was dropped. */
  lemma {:induction false} LoopKeepsText(chunks: seq<Text>)
    requires Begins(Concat(chunks))
    ensures var (p, d, l) := Rounds(chunks); var all := Concat(chunks);
            d == [] && p == all[..Whole(all)] && l == all[Whole(all)..] && |l| <= 3 && p + l == all && ValidText(p)
  {
    hide Completed, TailLen, Whole, ValidText, Round;
    var all := Concat(chunks);
    if chunks == [] {
      NothingWhole();
    } else {
      var front, b := chunks[..|chunks| - 1], chunks[|chunks| - 1];
      ShorterBegins(Concat(front), b);
      LoopKeepsText(front);
      var (p, d, l) := Rounds(front);
      assert all == p + (l + b);
      RoundKeepsText(p, l, b);
    }
  }

  /** No byte is lost on the way or made up, whatever is read: each went out, was dropped or waits. */
  lemma {:induction false} EveryByteAccounted(chunks: seq<Text>)
    ensures var (p, d, l) := Rounds(chunks); multiset(p) + multiset(d) + multiset(l) == multiset(Concat(chunks))
  {
    if chunks != [] {
      var front, b := chunks[..|chunks| - 1], chunks[|chunks| - 1];
      EveryByteAccounted(front);
      var (p, d, l) := Rounds(front);
      RoundAccounted(p, d, l, b);
      hide *;
      var (p1, d1, l1) := Round(p, d, l, b);
      assert Rounds(chunks) == (p1, d1, l1) by { RoundsNext(chunks); }
      assert Concat(chunks) == Concat(front) + b by { ConcatNext(chunks); }
    }
  }

  lemma RoundsNext(chunks: seq<Text>)
    requires chunks != []
    ensures var (p, d, l) := Rounds(chunks[..|chunks| - 1]); Rounds(chunks) == Round(p, d, l, chunks[|chunks| - 1])
  {
    hide Round;
  }

  lemma ConcatNext(chunks: seq<Text>)
    requires chunks != []
    ensures Concat(chunks) == Concat(chunks[..|chunks| - 1]) + chunks[|chunks| - 1]
  {
  }

  lemma RoundAccounted(p: Text, d: Text, l: Text, b: Text)
    ensures var (p1, d1, l1) := Round(p, d, l, b);
            multiset(p1) + multiset(d1) + multiset(l1) == multiset(p) + multiset(d) + multiset(l) + multiset(b)
  {
    var all := l + b;
    TailFits(all);
    hide TailLen, Completed;
    var safe, rest := all[..|all| - TailLen(all)], all[|all| - TailLen(all)..];
    assert all == safe + rest;
    var (p1, d1, l1) := Round(p, d, l, b);
    assert l1 == rest && (p1, d1) == (if Completed(safe).0 > -1 then (p + safe, d) else (p, d + safe));
    calc {
      multiset(p1) + multiset(d1) + multiset(l1);
      multiset(p) + multiset(d) + multiset(safe) + multiset(rest);
      { assert multiset(safe + rest) == multiset(safe) + multiset(rest); }
      multiset(p) + multiset(d) + multiset(all);
    }
  }

  /** After any reads of any bytes what waits would not pass the test at the end either, so that it
      goes out there once, and as it is. */
  lemma HeldNeverPasses(chunks: seq<Text>)
    ensures Completed(Rounds(chunks).2).0 == -1
  {
    hide *;
    RoundsBegin();
    if chunks == [] {
      EmptyFails();
    } else {
      var (p, d, l) := Rounds(chunks[..|chunks| - 1]);
      HeldFails(l + chunks[|chunks| - 1]);
      RoundsNext(chunks);
      RoundHolds(p, d, l, chunks[|chunks| - 1]);
    }
  }

  lemma RoundsBegin()
    ensures Rounds([]) == ([], [], [])
  {
  }

  lemma RoundHolds(p: Text, d: Text, l: Text, b: Text)
    ensures TailLen(l + b) <= |l + b| && Round(p, d, l, b).2 == (l + b)[|l + b| - TailLen(l + b)..]
  {
    TailFits(l + b);
    hide TailLen, Completed;
  }

  /** At the end of a text, whole or cut, every byte has gone out once and in order. */
  lemma AllHasGoneOut(chunks: seq<Text>)
    requires Begins(Concat(chunks))
    ensures var (p, d, l) := Rounds(chunks); Ended(p, l) == Concat(chunks) && d == []
    ensures ValidText(Concat(chunks)) <==> Rounds(chunks).2 == []
  {
    hide Completed, TailLen, Round;
    LoopKeepsText(chunks);
    var all := Concat(chunks);
    if ValidText(all) {
      WholeOfValid(all);
    } else {
      assert all[..|all|] == all;
    }
  }

  lemma WholeOfValid(s: Text)
    requires ValidText(s)
    ensures Whole(s) == |s|
  {
    assert s + [] == s;
    WholeAfter(s, []);
  }

  lemma RoundKeepsText(p: Text, l: Text, b: Text)
    requires ValidText(p) && Begins(p + (l + b))
    ensures var all := p + (l + b); Round(p, [], l, b) == (all[..Whole(all)], [], all[Whole(all)..])
    ensures var all := p + (l + b); |all| - Whole(all) <= 3 && ValidText(all[..Whole(all)])
  {
    hide Completed, TailLen, Whole, ValidText;
    var all := p + (l + b);
    HoldsTheCutOnly(all);
    ValidPrefix(p, l + b);
    HoldsTheCutOnly(l + b);
    WholeAfter(p, l + b);
    EmptyFails();
    var n := Whole(l + b);
    assert all[..|p| + n] == p + (l + b)[..n];
    assert all[|p| + n..] == (l + b)[n..];
    assert p + [] == p;
    assert l + b == [] ==> n == 0;
    assert (l + b)[..|l + b| - TailLen(l + b)] == (l + b)[..n];
    if n == 0 {
      assert (l + b)[..n] == [];
      assert [] + (l + b)[..n] == [];
    }
  }

  lemma NothingWhole()
    ensures Whole([]) == 0 && ValidText([])
  {
  }

  lemma EmptyFails()
    ensures Completed([]).0 == -1
  {
  }

  lemma ShorterBegins(a: Text, b: Text)
    requires Begins(a + b)
    ensures Begins(a)
  {
    var t :| ValidText(a + b + t);
    assert a + b + t == a + (b + t);
  }
}
