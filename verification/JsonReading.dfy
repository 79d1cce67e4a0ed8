/** Whatever the parser takes is a document that is spelled right, and it is read as what it means. */
module JsonReading {
  import opened Sequences
  import opened Bytes
  import opened JsonSpec
  import opened JsonLocality
  import opened JsonGrammar
  import opened JsonTokens
  import opened JsonSpelling

  /** The document `d` is spelled from the first byte behind the white space at `i` up to where `r` ends. */
  ghost predicate Reads(lib: Lib, s: Text, i: nat, d: Doc, depth: nat, r: Parsed<Node>)
    requires i <= |s|
  {
    && r.Ok? && SkipWs(s, i) <= r.next <= |s| && DocOk(lib, d, depth)
    && s[SkipWs(s, i)..r.next] == Spell(d) && Plain(r.val) == Meaning(lib, d)
  }

  function Indented(l: ItemList, w: Text): ItemList { l.(before := w + l.before) }

  lemma IndentedSpells(lib: Lib, l: ItemList, w: Text, depth: nat)
    requires ItemsOk(lib, l, depth) && AllWs(w)
    ensures SpellItems(Indented(l, w)) == w + SpellItems(l) && ItemsOk(lib, Indented(l, w), depth)
    ensures ItemsMean(lib, Indented(l, w)) == ItemsMean(lib, l)
  {
    ItemSpells(l);
    ItemSpells(Indented(l, w));
    hide Spell, DocOk, Meaning, SpellItems;
    assert Tail(Indented(l, w)) == Tail(l);
    hide Tail;
    assert (w + l.before) + (Spell(l.val) + Tail(l)) == w + (l.before + (Spell(l.val) + Tail(l)));
  }

  /** The comma or bracket that was read, with the white space around it. */
  lemma AfterRead(s: Text, e: nat, close: byte)
    requires e <= |s| && AfterItem(s, e, close).Ok?
    ensures var a, t := AfterItem(s, e, close), SkipWs(s, e);
            && t < |s| && AllWs(s[e..t]) && s[t] == (if a.val then COMMA else close)
            && t + 1 <= a.next && AllWs(s[t + 1..a.next]) && (!a.val ==> a.next == t + 1)
  {
    WsRead(s, e);
    if AfterItem(s, e, close).val {
      WsRead(s, SkipWs(s, e) + 1);
    }
    hide SkipWs, AllWs;
  }

  lemma {:induction false} ValueReads(lib: Lib, s: Text, i: nat, depth: nat) returns (d: Doc)
    requires i <= |s| && Value(lib, s, i, depth).Ok?
    ensures Reads(lib, s, i, d, depth, Value(lib, s, i, depth))
    decreases |s| - i, 2
  {
    hide Items, Members, Scalar, SkipWs, Plain, Spell, DocOk, Meaning, SpellItems, SpellMembers;
    var at := SkipWs(s, i);
    if s[at] == LBRACE {
      d := ObjectReads(lib, s, i, depth);
    } else if s[at] == LBRACKET {
      d := ArrayReads(lib, s, i, depth);
    } else {
      d := ScalarRead(lib, s, at);
      AnyDepth(lib, d, depth);
    }
  }

  lemma AnyDepth(lib: Lib, d: Doc, depth: nat)
    requires DocOk(lib, d, 0) && !d.Array? && !d.Object? && depth <= 64
    ensures DocOk(lib, d, depth)
  {
  }

  lemma {:induction false} ArrayReads(lib: Lib, s: Text, i: nat, depth: nat) returns (d: Doc)
    requires i <= |s| && Value(lib, s, i, depth).Ok? && ByteAt(s, SkipWs(s, i), LBRACKET)
    ensures Reads(lib, s, i, d, depth, Value(lib, s, i, depth))
    decreases |s| - i, 1
  {
    var at, e := SkipWs(s, i), Value(lib, s, i, depth).next;
    var j := SkipWs(s, at + 1);
    WsRead(s, at + 1);
    if ByteAt(s, j, RBRACKET) {
      d := NoItems(s[at + 1..j]);
      EmptyReads(lib, s, i, depth, false);
    } else {
      hide Members, Items, Scalar;
      var l := ItemsRead(lib, s, j, depth, []);
      hide *;
      d := ArrayIsRead(lib, s, i, depth, l);
    }
  }

  lemma EmptyReads(lib: Lib, s: Text, i: nat, depth: nat, obj: bool)
    requires i <= |s| && Value(lib, s, i, depth).Ok? && ByteAt(s, SkipWs(s, i), if obj then LBRACE else LBRACKET)
    requires ByteAt(s, SkipWs(s, SkipWs(s, i) + 1), if obj then RBRACE else RBRACKET)
    ensures var ws := s[SkipWs(s, i) + 1..SkipWs(s, SkipWs(s, i) + 1)];
            Reads(lib, s, i, if obj then NoMembers(ws) else NoItems(ws), depth, Value(lib, s, i, depth))
  {
    var at := SkipWs(s, i);
    var j := SkipWs(s, at + 1);
    WsRead(s, at + 1);
    LastJoined(s, at, j);
    FirstJoined(s, at, j);
    Ones();
    hide SkipWs, Members, Items, Scalar, AllWs, Ascii;
  }

  /** What an array that was read is made of. */
  lemma ArrayParts(lib: Lib, s: Text, i: nat, depth: nat)
    requires i <= |s| && Value(lib, s, i, depth).Ok? && ByteAt(s, SkipWs(s, i), LBRACKET)
    requires !ByteAt(s, SkipWs(s, SkipWs(s, i) + 1), RBRACKET)
    ensures var j, v := SkipWs(s, SkipWs(s, i) + 1), Value(lib, s, i, depth); var r := Items(lib, s, j, depth, []);
            r.Ok? && v.next == r.next && Plain(v.val) == JArr(PlainItems(r.val)) && depth <= 64
  {
    hide SkipWs, Items, Members, Scalar, PlainItems;
  }

  lemma ArrayIsRead(lib: Lib, s: Text, i: nat, depth: nat, l: ItemList) returns (d: Doc)
    requires i <= |s| && Value(lib, s, i, depth).Ok? && ByteAt(s, SkipWs(s, i), LBRACKET)
    requires !ByteAt(s, SkipWs(s, SkipWs(s, i) + 1), RBRACKET)
    requires var r := Items(lib, s, SkipWs(s, SkipWs(s, i) + 1), depth, []);
             && r.Ok? && ItemsOk(lib, l, depth + 1)
             && s[SkipWs(s, SkipWs(s, i) + 1)..r.next] == SpellItems(l)
             && PlainItems(r.val) == PlainItems([]) + ItemsMean(lib, l)
    ensures Reads(lib, s, i, d, depth, Value(lib, s, i, depth))
  {
    hide *;
    var at := SkipWs(s, i);
    var j, e := SkipWs(s, at + 1), Value(lib, s, i, depth).next;
    BytesAt(s, at, LBRACKET);
    ArrayParts(lib, s, i, depth);
    WsRead(s, at + 1);
    IndentedSpells(lib, l, s[at + 1..j], depth + 1);
    var l1 := Indented(l, s[at + 1..j]);
    ArrayText(s, at, j, e, l, l1);
    ArrayOk(lib, l1, depth);
    NothingPlain();
    NoneBefore(ItemsMean(lib, l));
    d := Array(l1);
    ReadsWhen(lib, s, i, d, depth);
  }

  lemma ArrayText(s: Text, at: nat, j: nat, e: nat, l: ItemList, l1: ItemList)
    requires at < j <= e <= |s| && s[at] == LBRACKET && s[j..e] == SpellItems(l)
    requires SpellItems(l1) == s[at + 1..j] + SpellItems(l)
    ensures s[at..e] == Spell(Array(l1))
  {
    hide *;
    Ones();
    ArraySpells(l1);
    Joined(s, at + 1, j, e);
    FirstJoined(s, at, e);
  }

  lemma ObjectText(s: Text, at: nat, j: nat, e: nat, l: MemberList, l1: MemberList)
    requires at < j <= e <= |s| && s[at] == LBRACE && s[j..e] == SpellMembers(l)
    requires SpellMembers(l1) == s[at + 1..j] + SpellMembers(l)
    ensures s[at..e] == Spell(Object(l1))
  {
    hide *;
    Ones();
    ObjectSpells(l1);
    Joined(s, at + 1, j, e);
    FirstJoined(s, at, e);
  }

  lemma ReadsWhen(lib: Lib, s: Text, i: nat, d: Doc, depth: nat)
    requires i <= |s| && Value(lib, s, i, depth).Ok? && DocOk(lib, d, depth)
    requires s[SkipWs(s, i)..Value(lib, s, i, depth).next] == Spell(d)
    requires Plain(Value(lib, s, i, depth).val) == Meaning(lib, d)
    ensures Reads(lib, s, i, d, depth, Value(lib, s, i, depth))
  {
  }

  lemma NoneBefore<T>(xs: seq<T>)
    ensures [] + xs == xs
  {
  }

  lemma BytesAt(s: Text, p: nat, b: byte)
    requires ByteAt(s, p, b)
    ensures p < |s| && s[p] == b
  {
  }

  lemma ArrayOk(lib: Lib, l: ItemList, depth: nat)
    requires ItemsOk(lib, l, depth + 1) && depth <= 64
    ensures DocOk(lib, Array(l), depth) && Meaning(lib, Array(l)) == JArr(ItemsMean(lib, l))
  {
    hide ItemsOk;
  }

  lemma ObjectOk(lib: Lib, l: MemberList, depth: nat)
    requires MembersOk(lib, l, depth + 1) && NoDup(Keys(lib, l)) && depth <= 64
    ensures DocOk(lib, Object(l), depth) && Meaning(lib, Object(l)) == JObj(MembersMean(lib, l))
  {
    hide MembersOk, NoDup;
  }

  lemma LastIsRead(lib: Lib, s: Text, i: nat, v: nat, e: nat, t: nat, d: Doc, depth: nat) returns (l: ItemList)
    requires i <= v <= e <= t < |s| && AllWs(s[i..v]) && AllWs(s[e..t]) && s[t] == RBRACKET
    requires s[v..e] == Spell(d) && DocOk(lib, d, depth)
    ensures ItemsOk(lib, l, depth) && s[i..t + 1] == SpellItems(l) && ItemsMean(lib, l) == [Meaning(lib, d)]
  {
    l := LastItem(s[i..v], d, s[e..t]);
    Ones();
    hide Spell, DocOk, Meaning, AllWs, Ascii;
    FourPieces(s, i, v, e, t);
    assert [Meaning(lib, d)] + [] == [Meaning(lib, d)];
  }

  lemma FourPieces(s: Text, i: nat, v: nat, e: nat, t: nat)
    requires i <= v <= e <= t < |s|
    ensures s[i..t + 1] == s[i..v] + s[v..e] + s[e..t] + [s[t]]
  {
  }

  lemma MoreIsRead(lib: Lib, s: Text, i: nat, v: nat, e: nat, t: nat, u: nat, n: nat, d: Doc, rest: ItemList,
                   depth: nat)
    returns (l: ItemList)
    requires i <= v <= e <= t < u <= n <= |s| && AllWs(s[i..v]) && AllWs(s[e..t]) && s[t] == COMMA
    requires s[v..e] == Spell(d) && DocOk(lib, d, depth) && AllWs(s[t + 1..u])
    requires ItemsOk(lib, rest, depth) && s[u..n] == SpellItems(rest)
    ensures ItemsOk(lib, l, depth) && s[i..n] == SpellItems(l)
    ensures ItemsMean(lib, l) == [Meaning(lib, d)] + ItemsMean(lib, rest)
  {
    var rest1 := Indented(rest, s[t + 1..u]);
    IndentedSpells(lib, rest, s[t + 1..u], depth);
    l := MoreItems(s[i..v], d, s[e..t], rest1);
    MoreOk(lib, l, depth);
    MoreSpells(l);
    hide *;
    FourPieces(s, i, v, e, t);
    Joined(s, t + 1, u, n);
    Joined(s, i, t + 1, n);
  }

  lemma MoreOk(lib: Lib, l: ItemList, depth: nat)
    requires l.MoreItems? && AllWs(l.before) && AllWs(l.behind)
    requires DocOk(lib, l.val, depth) && ItemsOk(lib, l.rest, depth)
    ensures ItemsOk(lib, l, depth) && ItemsMean(lib, l) == [Meaning(lib, l.val)] + ItemsMean(lib, l.rest)
  {
    hide DocOk, Meaning;
  }

  lemma MoreSpells(l: ItemList)
    requires l.MoreItems?
    ensures SpellItems(l) == l.before + Spell(l.val) + l.behind + [COMMA] + SpellItems(l.rest)
  {
    Ones();
  }

  lemma {:induction false} ItemsRead(lib: Lib, s: Text, i: nat, depth: nat, acc: seq<Node>) returns (l: ItemList)
    requires i <= |s| && Items(lib, s, i, depth, acc).Ok?
    ensures var r := Items(lib, s, i, depth, acc);
            && ItemsOk(lib, l, depth + 1) && s[i..r.next] == SpellItems(l)
            && PlainItems(r.val) == PlainItems(acc) + ItemsMean(lib, l)
    decreases |s| - i, 3
  {
    hide Value, Items, AfterItem, Plain, PlainItems, Spell, SpellItems, DocOk, ItemsOk, Meaning, ItemsMean, AllWs,
         SkipWs;
    ItemsBegin(lib, s, i, depth, acc);
    var v, n := Value(lib, s, i, depth + 1), Items(lib, s, i, depth, acc).next;
    var a, at, t := AfterItem(s, v.next, RBRACKET), SkipWs(s, i), SkipWs(s, v.next);
    var d := ValueReads(lib, s, i, depth + 1);
    AfterRead(s, v.next, RBRACKET);
    WsRead(s, i);
    PlainAppended(acc, v.val);
    if a.val {
      var rest := ItemsRead(lib, s, a.next, depth, acc + [v.val]);
      l := MoreIsRead(lib, s, i, at, v.next, t, a.next, n, d, rest, depth + 1);
    } else {
      l := LastIsRead(lib, s, i, at, v.next, t, d, depth + 1);
    }
  }

  // ---- objects ----

  /** A key with its value, as far as the value. */
  lemma {:induction false} PairReads(lib: Lib, s: Text, i: nat, depth: nat) returns (p: Pair)
    requires i <= |s| && Entry(lib, s, i, depth).Ok?
    ensures var r := Entry(lib, s, i, depth);
            && PairOk(lib, p, depth + 1) && p.behind == [] && s[i..r.next] == SpellPair(p)
            && r.val.key == Unquoted(lib, p.key) && Plain(r.val.val) == Meaning(lib, p.val)
    decreases |s| - i, 3
  {
    hide Value, Plain, Spell, SpellPair, DocOk, Meaning, AllWs, SkipWs, Str, Readable, Unquoted, PairOk;
    var k := SkipWs(s, i);
    var e := Str(lib, s, k).next;
    var c := SkipWs(s, e);
    var v, n := SkipWs(s, c + 1), Entry(lib, s, i, depth).next;
    WsRead(s, i);
    StrRead(lib, s, k);
    WsRead(s, e);
    WsRead(s, c + 1);
    var d := ValueReads(lib, s, c + 1, depth + 1);
    p := PairIsRead(lib, s, i, k, e, c, v, n, d, depth + 1);
  }

  lemma PairIsRead(lib: Lib, s: Text, i: nat, k: nat, e: nat, c: nat, v: nat, n: nat, d: Doc, depth: nat)
    returns (p: Pair)
    requires i <= k <= e <= c < v <= n <= |s| && AllWs(s[i..k]) && AllWs(s[e..c]) && AllWs(s[c + 1..v])
    requires Readable(lib, s[k..e]) && s[c] == COLON && s[v..n] == Spell(d) && DocOk(lib, d, depth)
    ensures p == Pair(s[i..k], s[k..e], s[e..c], s[c + 1..v], d, [])
    ensures PairOk(lib, p, depth) && s[i..n] == SpellPair(p)
  {
    p := Pair(s[i..k], s[k..e], s[e..c], s[c + 1..v], d, []);
    PairSpelledOut(p);
    PairIsOk(lib, p, depth);
    hide *;
    SixPieces(s, i, k, e, c, v, n);
  }

  lemma SixPieces(s: Text, i: nat, k: nat, e: nat, c: nat, v: nat, n: nat)
    requires i <= k <= e <= c < v <= n <= |s|
    ensures s[i..n] == s[i..k] + s[k..e] + s[e..c] + [s[c]] + s[c + 1..v] + s[v..n]
  {
    FourPieces(s, i, k, e, c);
    Joined(s, i, c + 1, v);
    Joined(s, i, v, n);
  }

  lemma PairSpelledOut(p: Pair)
    requires p.behind == []
    ensures SpellPair(p) == p.before + p.key + p.middle + [COLON] + p.gap + Spell(p.val)
  {
    Ones();
    hide Spell, Ascii;
    assert SpellPair(p) == p.before + p.key + p.middle + [COLON] + p.gap + Spell(p.val) + [];
  }

  lemma PairIsOk(lib: Lib, p: Pair, depth: nat)
    requires AllWs(p.before) && AllWs(p.middle) && AllWs(p.gap) && Readable(lib, p.key) && DocOk(lib, p.val, depth)
    requires p.behind == []
    ensures PairOk(lib, p, depth)
  {
    hide DocOk, Readable, Ascii;
  }

  lemma BehindPair(lib: Lib, p: Pair, w: Text, depth: nat)
    requires PairOk(lib, p, depth) && p.behind == [] && AllWs(w)
    ensures PairOk(lib, p.(behind := w), depth) && SpellPair(p.(behind := w)) == SpellPair(p) + w
  {
    hide Spell, DocOk, Readable, Ascii;
  }

  function IndentedMembers(l: MemberList, w: Text): MemberList { l.(pair := l.pair.(before := w + l.pair.before)) }

  lemma IndentedPair(lib: Lib, p: Pair, w: Text, depth: nat)
    requires PairOk(lib, p, depth) && AllWs(w)
    ensures PairOk(lib, p.(before := w + p.before), depth) && SpellPair(p.(before := w + p.before)) == w + SpellPair(p)
  {
    hide Spell, DocOk, Readable, Ascii;
    var a, b := p.before, p.key;
    var q := p.(before := w + p.before);
    assert w + a + b + p.middle + Ascii(":") + p.gap + Spell(p.val) + p.behind
        == w + (a + b + p.middle + Ascii(":") + p.gap + Spell(p.val) + p.behind);
  }

  lemma IndentedMembersSpell(lib: Lib, l: MemberList, w: Text, depth: nat)
    requires MembersOk(lib, l, depth) && AllWs(w)
    ensures SpellMembers(IndentedMembers(l, w)) == w + SpellMembers(l) && MembersOk(lib, IndentedMembers(l, w), depth)
    ensures MembersMean(lib, IndentedMembers(l, w)) == MembersMean(lib, l)
    ensures Keys(lib, IndentedMembers(l, w)) == Keys(lib, l)
  {
    IndentedPair(lib, l.pair, w, depth);
    hide SpellPair, PairOk, Meaning, Ascii, Unquoted;
    var q := l.pair.(before := w + l.pair.before);
    if l.MoreMembers? {
      assert w + SpellPair(l.pair) + Ascii(",") + SpellMembers(l.rest)
          == w + (SpellPair(l.pair) + Ascii(",") + SpellMembers(l.rest));
    }
  }

  lemma LastPairIsRead(lib: Lib, s: Text, i: nat, e: nat, t: nat, p: Pair, depth: nat) returns (l: MemberList)
    requires i <= e <= t < |s| && s[i..e] == SpellPair(p) && PairOk(lib, p, depth) && p.behind == []
    requires AllWs(s[e..t]) && s[t] == RBRACE
    ensures MembersOk(lib, l, depth) && s[i..t + 1] == SpellMembers(l) && Keys(lib, l) == [Unquoted(lib, p.key)]
    ensures MembersMean(lib, l) == [Member(Unquoted(lib, p.key), Meaning(lib, p.val))]
  {
    BehindPair(lib, p, s[e..t], depth);
    l := LastMember(p.(behind := s[e..t]));
    Ones();
    hide SpellPair, PairOk, Meaning, Ascii, Unquoted, AllWs;
    Joined(s, i, e, t);
    LastJoined(s, i, t);
  }

  lemma MorePairsAreRead(lib: Lib, s: Text, i: nat, e: nat, t: nat, u: nat, n: nat, p: Pair, rest: MemberList,
                         depth: nat)
    returns (l: MemberList)
    requires i <= e <= t < u <= n <= |s| && s[i..e] == SpellPair(p) && PairOk(lib, p, depth) && p.behind == []
    requires AllWs(s[e..t]) && s[t] == COMMA && AllWs(s[t + 1..u])
    requires MembersOk(lib, rest, depth) && s[u..n] == SpellMembers(rest)
    ensures MembersOk(lib, l, depth) && s[i..n] == SpellMembers(l)
    ensures Keys(lib, l) == [Unquoted(lib, p.key)] + Keys(lib, rest)
    ensures MembersMean(lib, l) == [Member(Unquoted(lib, p.key), Meaning(lib, p.val))] + MembersMean(lib, rest)
  {
    BehindPair(lib, p, s[e..t], depth);
    var rest1 := IndentedMembers(rest, s[t + 1..u]);
    IndentedMembersSpell(lib, rest, s[t + 1..u], depth);
    l := MoreMembers(p.(behind := s[e..t]), rest1);
    MorePairsSpell(l);
    MorePairsAre(lib, l, depth);
    hide *;
    JoinedAround(s, i, e, t, u, n);
  }

  lemma MorePairsAre(lib: Lib, l: MemberList, depth: nat)
    requires l.MoreMembers? && PairOk(lib, l.pair, depth) && MembersOk(lib, l.rest, depth)
    ensures MembersOk(lib, l, depth) && Keys(lib, l) == [Unquoted(lib, l.pair.key)] + Keys(lib, l.rest)
    ensures MembersMean(lib, l) == [Member(Unquoted(lib, l.pair.key), Meaning(lib, l.pair.val))]
                                   + MembersMean(lib, l.rest)
  {
    hide PairOk, Meaning, Unquoted;
  }

  lemma MorePairsSpell(l: MemberList)
    requires l.MoreMembers?
    ensures SpellMembers(l) == SpellPair(l.pair) + [COMMA] + SpellMembers(l.rest)
  {
    Ones();
  }

  lemma MembersBegin(lib: Lib, s: Text, i: nat, depth: nat, acc: seq<KeyVal>)
    requires i <= |s| && Members(lib, s, i, depth, acc).Ok?
    ensures Entry(lib, s, i, depth).Ok? && AfterItem(s, Entry(lib, s, i, depth).next, RBRACE).Ok?
    ensures var v, a, r := Entry(lib, s, i, depth), AfterItem(s, Entry(lib, s, i, depth).next, RBRACE),
                           Members(lib, s, i, depth, acc);
            && i < v.next < a.next <= r.next && acc + [v.val] <= r.val
            && r == (if a.val then Members(lib, s, a.next, depth, acc + [v.val]) else Ok(acc + [v.val], a.next))
  {
    hide Entry, AfterItem, HasKey;
  }

  /** The keys behind `acc` are those of `l`. */
  ghost predicate KeysAre(lib: Lib, acc: seq<KeyVal>, ks: seq<KeyVal>, l: MemberList) {
    |ks| == |acc| + |Keys(lib, l)| && forall k {:trigger Keys(lib, l)[k]} :: 0 <= k < |Keys(lib, l)| ==>
                                        ks[|acc| + k].key == Keys(lib, l)[k]
  }

  lemma KeysGrow(lib: Lib, acc: seq<KeyVal>, kv: KeyVal, ks: seq<KeyVal>, rest: MemberList, l: MemberList)
    requires KeysAre(lib, acc + [kv], ks, rest) && Keys(lib, l) == [kv.key] + Keys(lib, rest) && acc + [kv] <= ks
    ensures KeysAre(lib, acc, ks, l)
  {
    hide Keys;
    assert ks[|acc|] == (acc + [kv])[|acc|];
    forall k {:trigger Keys(lib, l)[k]} | 0 <= k < |Keys(lib, l)| ensures ks[|acc| + k].key == Keys(lib, l)[k] {
      if k > 0 {
        assert Keys(lib, l)[k] == Keys(lib, rest)[k - 1];
      }
    }
  }

  lemma {:induction false} MembersRead(lib: Lib, s: Text, i: nat, depth: nat, acc: seq<KeyVal>) returns (l: MemberList)
    requires i <= |s| && Members(lib, s, i, depth, acc).Ok?
    ensures var r := Members(lib, s, i, depth, acc);
            && MembersOk(lib, l, depth + 1) && s[i..r.next] == SpellMembers(l)
            && PlainKeys(r.val) == PlainKeys(acc) + MembersMean(lib, l) && KeysAre(lib, acc, r.val, l)
    decreases |s| - i, 4
  {
    hide Value, Members, Entry, AfterItem, Plain, PlainKeys, Spell, SpellPair, SpellMembers, DocOk, MembersOk, Meaning,
         MembersMean, AllWs, SkipWs, PairOk, Keys, Unquoted;
    MembersBegin(lib, s, i, depth, acc);
    var kv, n := Entry(lib, s, i, depth), Members(lib, s, i, depth, acc).next;
    var a, t := AfterItem(s, kv.next, RBRACE), SkipWs(s, kv.next);
    var p := PairReads(lib, s, i, depth);
    AfterRead(s, kv.next, RBRACE);
    PlainKeysAppended(acc, kv.val);
    if a.val {
      var rest := MembersRead(lib, s, a.next, depth, acc + [kv.val]);
      l := MorePairsAreRead(lib, s, i, kv.next, t, a.next, n, p, rest, depth + 1);
      hide KeysAre;
      KeysGrow(lib, acc, kv.val, Members(lib, s, i, depth, acc).val, rest, l);
    } else {
      l := LastPairIsRead(lib, s, i, kv.next, t, p, depth + 1);
    }
  }

  lemma {:induction false} ObjectReads(lib: Lib, s: Text, i: nat, depth: nat) returns (d: Doc)
    requires i <= |s| && Value(lib, s, i, depth).Ok? && ByteAt(s, SkipWs(s, i), LBRACE)
    ensures Reads(lib, s, i, d, depth, Value(lib, s, i, depth))
    decreases |s| - i, 1
  {
    var at, e := SkipWs(s, i), Value(lib, s, i, depth).next;
    var j := SkipWs(s, at + 1);
    WsRead(s, at + 1);
    if ByteAt(s, j, RBRACE) {
      d := NoMembers(s[at + 1..j]);
      EmptyReads(lib, s, i, depth, true);
    } else {
      hide Members, Items, Scalar;
      var l := MembersRead(lib, s, j, depth, []);
      hide *;
      d := ObjectIsRead(lib, s, i, depth, l);
    }
  }

  /** What an object that was read is made of. */
  lemma ObjectParts(lib: Lib, s: Text, i: nat, depth: nat)
    requires i <= |s| && Value(lib, s, i, depth).Ok? && ByteAt(s, SkipWs(s, i), LBRACE)
    requires !ByteAt(s, SkipWs(s, SkipWs(s, i) + 1), RBRACE)
    ensures var j, v := SkipWs(s, SkipWs(s, i) + 1), Value(lib, s, i, depth); var r := Members(lib, s, j, depth, []);
            r.Ok? && v.next == r.next && Plain(v.val) == JObj(PlainKeys(r.val)) && depth <= 64
  {
    hide SkipWs, Items, Members, Scalar, PlainKeys;
  }

  lemma ObjectIsRead(lib: Lib, s: Text, i: nat, depth: nat, l: MemberList) returns (d: Doc)
    requires i <= |s| && Value(lib, s, i, depth).Ok? && ByteAt(s, SkipWs(s, i), LBRACE)
    requires !ByteAt(s, SkipWs(s, SkipWs(s, i) + 1), RBRACE)
    requires var r := Members(lib, s, SkipWs(s, SkipWs(s, i) + 1), depth, []);
             && r.Ok? && MembersOk(lib, l, depth + 1)
             && s[SkipWs(s, SkipWs(s, i) + 1)..r.next] == SpellMembers(l)
             && PlainKeys(r.val) == PlainKeys([]) + MembersMean(lib, l) && KeysAre(lib, [], r.val, l)
    ensures Reads(lib, s, i, d, depth, Value(lib, s, i, depth))
  {
    hide *;
    var at := SkipWs(s, i);
    var j, e := SkipWs(s, at + 1), Value(lib, s, i, depth).next;
    BytesAt(s, at, LBRACE);
    ObjectParts(lib, s, i, depth);
    WsRead(s, at + 1);
    IndentedMembersSpell(lib, l, s[at + 1..j], depth + 1);
    var l1 := IndentedMembers(l, s[at + 1..j]);
    ObjectText(s, at, j, e, l, l1);
    KeysOnce(lib, Members(lib, s, j, depth, []).val, l);
    ObjectOk(lib, l1, depth);
    NothingPlain();
    NoneBefore(MembersMean(lib, l));
    d := Object(l1);
    ReadsWhen(lib, s, i, d, depth);
  }

  lemma KeysOnce(lib: Lib, ks: seq<KeyVal>, l: MemberList)
    requires KeysAre(lib, [], ks, l) && forall m, k :: 0 <= k < m < |ks| ==> ks[k].key != ks[m].key
    ensures NoDup(Keys(lib, l))
  {
    hide Keys;
    forall k, m | 0 <= k < m < |Keys(lib, l)| ensures Keys(lib, l)[k] != Keys(lib, l)[m] {
      assert ks[0 + k].key == Keys(lib, l)[k] && ks[0 + m].key == Keys(lib, l)[m];
    }
  }

  // ---- files ----

  /** Whatever parses is a file that is spelled right, and is read as what it means. */
  lemma ReadIsSpelled(lib: Lib, s: Text) returns (f: File)
    requires Parse(lib, s).Ok?
    ensures FileOk(lib, f) && s == SpellFile(f) && Plain(Parse(lib, s).val) == Meaning(lib, f.doc)
  {
    var b := Start(s);
    var v := Value(lib, s, b, 0);
    var d := ValueReads(lib, s, b, 0);
    WsRead(s, b);
    WsRead(s, v.next);
    var p := SkipWs(s, b);
    f := File(BOM <= s, s[b..p], d, s[v.next..]);
    ParseParts(lib, s);
    FileSpells(f);
    hide *;
    assert s[v.next..] == s[v.next..|s|];
    FilePieces(s, b, p, v.next);
  }

  lemma ParseParts(lib: Lib, s: Text)
    requires Parse(lib, s).Ok?
    ensures var v := Value(lib, s, Start(s), 0);
            v.Ok? && SkipWs(s, v.next) == |s| && Parse(lib, s).val == v.val
    ensures s[..Start(s)] == if BOM <= s then [0xEF, 0xBB, 0xBF] else []
  {
    hide Value, SkipWs;
  }

  lemma FileSpells(f: File)
    ensures SpellFile(f) == (if f.bom then [0xEF, 0xBB, 0xBF] else []) + f.before + Spell(f.doc) + f.behind
    ensures forall lib :: AllWs(f.before) && AllWs(f.behind) && DocOk(lib, f.doc, 0) ==> FileOk(lib, f)
  {
    hide Spell, DocOk, AllWs;
  }

  lemma FilePieces(s: Text, b: nat, p: nat, e: nat)
    requires b <= p <= e <= |s|
    ensures s == s[..b] + s[b..p] + s[p..e] + s[e..]
  {
  }

  /** The parser takes exactly the texts that are spelled right, and reads each as what it means. */
  lemma ParsesExactly(lib: Lib, s: Text)
    ensures Parse(lib, s).Ok? <==> exists f: File :: FileOk(lib, f) && s == SpellFile(f)
    ensures forall f: File :: FileOk(lib, f) && s == SpellFile(f) ==>
              Parse(lib, s).Ok? && Plain(Parse(lib, s).val) == Meaning(lib, f.doc)
  {
    hide Parse, FileOk, SpellFile, Plain, Meaning;
    if Parse(lib, s).Ok? {
      var f := ReadIsSpelled(lib, s);
    }
    forall f: File | FileOk(lib, f) && s == SpellFile(f)
      ensures Parse(lib, s).Ok? && Plain(Parse(lib, s).val) == Meaning(lib, f.doc)
    {
      SpelledIsRead(lib, f);
    }
  }
}
