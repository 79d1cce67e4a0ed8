/** Parsing is local: what a value or a member list reads depends on its own bytes only, apart
    from the byte behind a number. These lemmas move a parse from one text to another. */
module JsonLocality {
  import opened Bytes
  import opened JsonSpec

  /** `s2` repeats the bytes `lo..hi` of `s1`, moved by `d`. */
  ghost predicate Same(s1: Text, s2: Text, lo: int, hi: int, d: int) {
    && 0 <= lo <= hi <= |s1|
    && 0 <= lo + d && hi + d <= |s2|
    && forall q {:trigger s1[q]} :: lo <= q < hi ==> s2[q + d] == s1[q]
  }

  /** A number token ending just before `i` would not run on. */
  predicate Stops(s: Text, i: nat) { i < |s| ==> !IsNumByte(s[i]) }

  lemma {:induction false} WsLocal(s1: Text, s2: Text, i: nat, hi: nat, d: int)
    requires Same(s1, s2, i, hi, d)
    requires SkipWs(s1, i) < hi
    ensures SkipWs(s2, i + d) == SkipWs(s1, i) + d
    decreases hi - i
  {
    assert s2[i + d] == s1[i];
    if IsWs(s1[i]) {
      WsLocal(s1, s2, i + 1, hi, d);
    }
  }

  lemma {:induction false} NumLocal(s1: Text, s2: Text, i: nat, d: int)
    requires i <= |s1| && Same(s1, s2, i, NumEnd(s1, i), d) && Stops(s2, NumEnd(s1, i) + d)
    ensures NumEnd(s2, i + d) == NumEnd(s1, i) + d
    decreases |s1| - i
  {
    if i < |s1| && IsNumByte(s1[i]) {
      assert s2[i + d] == s1[i];
      NumLocal(s1, s2, i + 1, d);
    }
  }

  lemma {:induction false} CloseQuoteLocal(s1: Text, s2: Text, i: nat, start1: nat, start2: nat, d: int)
    requires CloseQuote(s1, i, start1).Ok?
    requires Same(s1, s2, i, CloseQuote(s1, i, start1).next, d)
    ensures CloseQuote(s2, i + d, start2) == Ok(Unit, CloseQuote(s1, i, start1).next + d)
    decreases |s1| - i
  {
    assert s2[i + d] == s1[i];
    if s1[i] == QUOTE {
    } else if s1[i] == BACKSLASH {
      CloseQuoteLocal(s1, s2, i + 2, start1, start2, d);
    } else {
      CloseQuoteLocal(s1, s2, i + 1, start1, start2, d);
    }
  }

  lemma StrLocal(lib: Lib, s1: Text, s2: Text, i: nat, d: int)
    requires i < |s1| && Str(lib, s1, i).Ok?
    requires Same(s1, s2, i, Str(lib, s1, i).next, d)
    ensures Str(lib, s2, i + d) == Ok(Str(lib, s1, i).val, Str(lib, s1, i).next + d)
  {
    var e := Str(lib, s1, i).next;
    CloseQuoteLocal(s1, s2, i + 1, i, i + d, d);
    assert s2[i + d..e + d] == s1[i..e];
  }

  lemma WordLocal(s1: Text, s2: Text, i: nat, hi: nat, d: int, w: Text)
    requires Same(s1, s2, i, hi, d) && i + |w| <= hi
    ensures WordAt(s2, i + d, w) <==> WordAt(s1, i, w)
  {
    assert s2[i + d..i + d + |w|] == s1[i..i + |w|];
  }

  /** The comma or bracket behind an item, and so the byte the item stops at. */
  lemma AfterItemLocal(s1: Text, s2: Text, i: nat, close: byte, d: int)
    requires i <= |s1| && AfterItem(s1, i, close).Ok?
    requires close == RBRACE || close == RBRACKET
    requires Same(s1, s2, i, AfterItem(s1, i, close).next, d)
    requires AfterItem(s1, i, close).val ==> ByteAt(s2, AfterItem(s1, i, close).next + d, QUOTE)
    ensures AfterItem(s2, i + d, close) == Ok(AfterItem(s1, i, close).val, AfterItem(s1, i, close).next + d)
    ensures Stops(s2, i + d)
  {
    var r := AfterItem(s1, i, close);
    var t := SkipWs(s1, i);
    WsLocal(s1, s2, i, r.next, d);
    assert s2[t + d] == s1[t];
    assert s2[i + d] == s1[i];
    if r.val {
      WsUpTo(s1, s2, t + 1, r.next, d);
    }
  }

  /** White space moved up to a byte that is none. */
  lemma {:induction false} WsUpTo(s1: Text, s2: Text, i: nat, hi: nat, d: int)
    requires i <= |s1| && SkipWs(s1, i) == hi && Same(s1, s2, i, hi, d)
    requires ByteAt(s2, hi + d, QUOTE)
    ensures SkipWs(s2, i + d) == hi + d
    decreases hi - i
  {
    if i < hi {
      assert s2[i + d] == s1[i];
      WsUpTo(s1, s2, i + 1, hi, d);
    }
  }

  lemma WordsLocal(s1: Text, s2: Text, i: nat, hi: nat, d: int)
    requires Same(s1, s2, i, hi, d) && i < hi
    requires WordAt(s1, i, TRUE) || WordAt(s1, i, FALSE) || WordAt(s1, i, NULL)
    requires WordAt(s1, i, TRUE) ==> hi == i + 4
    requires WordAt(s1, i, FALSE) ==> hi == i + 5
    requires WordAt(s1, i, NULL) ==> hi == i + 4
    ensures WordAt(s2, i + d, TRUE) <==> WordAt(s1, i, TRUE)
    ensures WordAt(s2, i + d, FALSE) <==> WordAt(s1, i, FALSE)
    ensures WordAt(s2, i + d, NULL) <==> WordAt(s1, i, NULL)
  {
    assert s2[i + d] == s1[i];
    forall s: Text, k: nat ensures WordAt(s, k, TRUE) ==> s[k] == TRUE[0]
                           ensures WordAt(s, k, FALSE) ==> s[k] == FALSE[0]
                           ensures WordAt(s, k, NULL) ==> s[k] == NULL[0]
    {
      if WordAt(s, k, TRUE) { assert s[k] == s[k..k + 4][0]; }
      if WordAt(s, k, FALSE) { assert s[k] == s[k..k + 5][0]; }
      if WordAt(s, k, NULL) { assert s[k] == s[k..k + 4][0]; }
    }
    if WordAt(s1, i, TRUE) {
      WordLocal(s1, s2, i, hi, d, TRUE);
    } else if WordAt(s1, i, FALSE) {
      WordLocal(s1, s2, i, hi, d, FALSE);
    } else {
      WordLocal(s1, s2, i, hi, d, NULL);
    }
  }

  lemma ScalarLocal(lib: Lib, s1: Text, s2: Text, at: nat, d: int)
    requires at < |s1| && Scalar(lib, s1, at).Ok?
    requires Same(s1, s2, at, Scalar(lib, s1, at).next, d) && Stops(s2, Scalar(lib, s1, at).next + d)
    ensures var r1, r2 := Scalar(lib, s1, at), Scalar(lib, s2, at + d);
            r2.Ok? && r2.next == r1.next + d && Plain(r2.val) == Plain(r1.val)
  {
    var r := Scalar(lib, s1, at);
    assert s2[at + d] == s1[at];
    if s1[at] == QUOTE {
      StrLocal(lib, s1, s2, at, d);
    } else if s1[at] == TRUE[0] || s1[at] == FALSE[0] || s1[at] == NULL[0] {
      WordsLocal(s1, s2, at, r.next, d);
    } else {
      NumLocal(s1, s2, at, d);
      assert s2[at + d..r.next + d] == s1[at..r.next];
    }
  }

  /** The second text parses where the first does, `d` further on and to the same document. */
  ghost predicate Moves(r1: Parsed<Node>, r2: Parsed<Node>, d: int) {
    r1.Ok? && r2.Ok? && r2.next == r1.next + d && r2.val.at == r1.val.at + d && Plain(r2.val) == Plain(r1.val)
  }

  /** The same member, `d` further on. */
  ghost predicate MovedMember(kv1: KeyVal, kv2: KeyVal, d: int) {
    && kv2.key == kv1.key && kv2.at == kv1.at + d
    && kv2.val.at == kv1.val.at + d && kv2.val.end == kv1.val.end + d
    && Plain(kv2.val) == Plain(kv1.val)
  }

  lemma {:induction false} ValueLocal(lib: Lib, s1: Text, s2: Text, i: nat, d: int, depth: nat)
    requires i <= |s1| && Value(lib, s1, i, depth).Ok?
    requires Same(s1, s2, i, Value(lib, s1, i, depth).next, d) && Stops(s2, Value(lib, s1, i, depth).next + d)
    ensures Moves(Value(lib, s1, i, depth), Value(lib, s2, i + d, depth), d)
    decreases |s1| - i, 1
  {
    hide Members, Items, Entry, Scalar, AfterItem, WordAt, IsNumByte, IsWs, SkipWs, Stops, CloseQuote, IsDigit,
         NumEnd, PlainItems, PlainKeys, Str;
    var r := Value(lib, s1, i, depth);
    var at := SkipWs(s1, i);
    WsLocal(s1, s2, i, r.next, d);
    assert s2[at + d] == s1[at];
    if s1[at] == LBRACE || s1[at] == LBRACKET {
      var j := SkipWs(s1, at + 1);
      WsLocal(s1, s2, at + 1, r.next, d);
      assert s2[j + d] == s1[j];
      if s1[at] == LBRACE && s1[j] != RBRACE {
        MembersLocal(lib, s1, s2, j, d, depth, [], []);
      } else if s1[at] == LBRACKET && s1[j] != RBRACKET {
        ItemsLocal(lib, s1, s2, j, d, depth, [], []);
      }
    } else {
      ScalarLocal(lib, s1, s2, at, d);
    }
  }

  lemma {:induction false} EntryLocal(lib: Lib, s1: Text, s2: Text, i: nat, d: int, depth: nat)
    requires i <= |s1| && Entry(lib, s1, i, depth).Ok?
    requires Same(s1, s2, i, Entry(lib, s1, i, depth).next, d) && Stops(s2, Entry(lib, s1, i, depth).next + d)
    ensures var r1, r2 := Entry(lib, s1, i, depth), Entry(lib, s2, i + d, depth);
            r2.Ok? && r2.next == r1.next + d && MovedMember(r1.val, r2.val, d)
    decreases |s1| - i, 2
  {
    hide Value, Members, Items, CloseQuote, Plain, WordAt, Scalar, SkipWs, Stops, Str, IsDigit, IsNumByte, NumEnd,
         PlainItems, AfterItem, HasKey, IsWs, PlainKeys;
    var r := Entry(lib, s1, i, depth);
    var kat := SkipWs(s1, i);
    WsLocal(s1, s2, i, r.next, d);
    assert s2[kat + d] == s1[kat];
    StrLocal(lib, s1, s2, kat, d);
    var e := Str(lib, s1, kat).next;
    var c := SkipWs(s1, e);
    WsLocal(s1, s2, e, r.next, d);
    assert s2[c + d] == s1[c];
    ValueLocal(lib, s1, s2, c + 1, d, depth + 1);
  }

  lemma NoKeyAppended(acc: seq<KeyVal>, kv: KeyVal, k: Text)
    requires !HasKey(acc, k) && kv.key != k
    ensures !HasKey(acc + [kv], k)
  {
    forall m | 0 <= m < |acc + [kv]| ensures (acc + [kv])[m].key != k {
      assert m < |acc| ==> (acc + [kv])[m] == acc[m];
    }
  }

  /** Members read again elsewhere behind `acc2`, as long as no key of theirs is in `acc2`. */
  lemma {:induction false} MembersLocal(lib: Lib, s1: Text, s2: Text, i: nat, d: int, depth: nat, acc1: seq<KeyVal>,
                                        acc2: seq<KeyVal>)
    requires i <= |s1| && Members(lib, s1, i, depth, acc1).Ok?
    requires Same(s1, s2, i, Members(lib, s1, i, depth, acc1).next, d)
    requires forall m ::
               |acc1| <= m < |Members(lib, s1, i, depth, acc1).val| ==>
                 !HasKey(acc2, Members(lib, s1, i, depth, acc1).val[m].key)
    ensures var r1, r2 := Members(lib, s1, i, depth, acc1), Members(lib, s2, i + d, depth, acc2);
            && r2.Ok? && r2.next == r1.next + d
            && |r2.val| == |acc2| + |r1.val| - |acc1|
            && forall m {:trigger r1.val[m]} ::
                 |acc1| <= m < |r1.val| ==> MovedMember(r1.val[m], r2.val[m - |acc1| + |acc2|], d)
    decreases |s1| - i, 3
  {
    hide Entry, Value, AfterItem, HasKey, Plain, ByteAt, CloseQuote, IsDigit, IsNumByte, Scalar, SkipWs, Str, WordAt,
         IsWs, Items, NumEnd, PlainItems, PlainKeys;
    var r := Members(lib, s1, i, depth, acc1);
    var kv1, e := Entry(lib, s1, i, depth).val, Entry(lib, s1, i, depth).next;
    var more, u := AfterItem(s1, e, RBRACE).val, AfterItem(s1, e, RBRACE).next;
    assert r.val[|acc1|] == kv1;
    if more {
      NextIsQuote(lib, s1, s2, u, r.next, d, depth, acc1 + [kv1]);
    }
    AfterItemLocal(s1, s2, e, RBRACE, d);
    EntryLocal(lib, s1, s2, i, d, depth);
    var kv2 := Entry(lib, s2, i + d, depth).val;
    if more {
      forall m | |acc1| + 1 <= m < |r.val| ensures !HasKey(acc2 + [kv2], r.val[m].key) {
        NoKeyAppended(acc2, kv2, r.val[m].key);
      }
      MembersLocal(lib, s1, s2, u, d, depth, acc1 + [kv1], acc2 + [kv2]);
      assert Members(lib, s2, u + d, depth, acc2 + [kv2]).val[|acc2|] == kv2;
    }
  }

  lemma NextIsQuote(lib: Lib, s1: Text, s2: Text, u: nat, hi: nat, d: int, depth: nat, acc: seq<KeyVal>)
    requires u <= |s1| && Members(lib, s1, u, depth, acc).Ok? && SkipWs(s1, u) == u
    requires Same(s1, s2, u, hi, d) && Members(lib, s1, u, depth, acc).next <= hi
    ensures ByteAt(s2, u + d, QUOTE)
  {
    assert s2[u + d] == s1[u];
  }

  lemma {:induction false} ItemsLocal(lib: Lib, s1: Text, s2: Text, i: nat, d: int, depth: nat, acc1: seq<Node>,
                                      acc2: seq<Node>)
    requires i <= |s1| && Items(lib, s1, i, depth, acc1).Ok?
    requires Same(s1, s2, i, Items(lib, s1, i, depth, acc1).next, d)
    ensures var r1, r2 := Items(lib, s1, i, depth, acc1), Items(lib, s2, i + d, depth, acc2);
            && r2.Ok? && r2.next == r1.next + d
            && PlainItems(r2.val) == PlainItems(acc2) + PlainItems(r1.val[|acc1|..])
    decreases |s1| - i, 2
  {
    hide Value, AfterItem, Plain, PlainKeys, SkipWs, ByteAt, CloseQuote, Entry, HasKey, IsDigit, IsNumByte, IsWs,
         WordAt, Str, Members, NumEnd, PlainItems, Scalar, Items, Same;
    ItemsBegin(lib, s1, i, depth, acc1);
    var r := Items(lib, s1, i, depth, acc1);
    var v1, e := Value(lib, s1, i, depth + 1).val, Value(lib, s1, i, depth + 1).next;
    var more, u := AfterItem(s1, e, RBRACKET).val, AfterItem(s1, e, RBRACKET).next;
    SamePart(s1, s2, i, r.next, d, e, u);
    AfterElementLocal(lib, s1, s2, e, r.next, d, depth);
    ValueLocal(lib, s1, s2, i, d, depth + 1);
    var v2 := Value(lib, s2, i + d, depth + 1).val;
    ItemsTurn(lib, s2, i + d, depth, acc2);
    PlainOfMore(acc2, v1, v2);
    if more {
      ItemsLocal(lib, s1, s2, u, d, depth, acc1 + [v1], acc2 + [v2]);
      PlainOfRest(r.val, |acc1|);
    } else {
      assert r.val[|acc1|..] == [v1];
    }
  }

  /** One turn of the element loop, and what is known of it when the whole loop succeeds. */
  lemma ItemsTurn(lib: Lib, s: Text, i: nat, depth: nat, acc: seq<Node>)
    requires i <= |s| && Value(lib, s, i, depth + 1).Ok?
    requires AfterItem(s, Value(lib, s, i, depth + 1).next, RBRACKET).Ok?
    ensures var v, a := Value(lib, s, i, depth + 1), AfterItem(s, Value(lib, s, i, depth + 1).next, RBRACKET);
            Items(lib, s, i, depth, acc) ==
              if a.val then Items(lib, s, a.next, depth, acc + [v.val]) else Ok(acc + [v.val], a.next)
  {
    hide Value, AfterItem;
  }

  lemma ItemsBegin(lib: Lib, s: Text, i: nat, depth: nat, acc: seq<Node>)
    requires i <= |s| && Items(lib, s, i, depth, acc).Ok?
    ensures Value(lib, s, i, depth + 1).Ok? && AfterItem(s, Value(lib, s, i, depth + 1).next, RBRACKET).Ok?
    ensures var v, a := Value(lib, s, i, depth + 1), AfterItem(s, Value(lib, s, i, depth + 1).next, RBRACKET);
            && i < v.next < a.next <= Items(lib, s, i, depth, acc).next
            && acc + [v.val] <= Items(lib, s, i, depth, acc).val
            && Items(lib, s, i, depth, acc) ==
              (if a.val then Items(lib, s, a.next, depth, acc + [v.val]) else Ok(acc + [v.val], a.next))
            && (a.val ==> Value(lib, s, a.next, depth + 1).Ok? && a.next < Items(lib, s, i, depth, acc).next)
  {
    hide Value, AfterItem;
  }

  lemma SamePart(s1: Text, s2: Text, lo: nat, hi: nat, d: int, a: nat, b: nat)
    requires Same(s1, s2, lo, hi, d) && lo <= a <= b <= hi
    ensures Same(s1, s2, lo, a, d) && Same(s1, s2, a, hi, d) && Same(s1, s2, b, hi, d)
  {
  }

  lemma PlainOfMore(acc: seq<Node>, v1: Node, v2: Node)
    requires Plain(v1) == Plain(v2)
    ensures PlainItems(acc + [v2]) == PlainItems(acc) + PlainItems([v1])
  {
    hide Plain;
  }

  lemma PlainOfRest(xs: seq<Node>, k: nat)
    requires k < |xs|
    ensures PlainItems(xs[k..]) == PlainItems([xs[k]]) + PlainItems(xs[k + 1..])
  {
    hide Plain;
  }

  /** As AfterItemLocal for arrays, where the next element may start with any byte. */
  lemma AfterElementLocal(lib: Lib, s1: Text, s2: Text, i: nat, hi: nat, d: int, depth: nat)
    requires i <= |s1| && AfterItem(s1, i, RBRACKET).Ok?
    requires var r := AfterItem(s1, i, RBRACKET);
             Same(s1, s2, i, hi, d) && r.next <= hi && (r.val ==> Value(lib, s1, r.next, depth + 1).Ok? && r.next < hi)
    ensures AfterItem(s2, i + d, RBRACKET) == Ok(AfterItem(s1, i, RBRACKET).val, AfterItem(s1, i, RBRACKET).next + d)
    ensures Stops(s2, i + d)
  {
    var r := AfterItem(s1, i, RBRACKET);
    var t := SkipWs(s1, i);
    WsLocal(s1, s2, i, hi, d);
    assert s2[t + d] == s1[t];
    assert s2[i + d] == s1[i];
    if r.val {
      WsLocal(s1, s2, t + 1, hi, d);
      assert s2[r.next + d] == s1[r.next];
    }
  }
}
