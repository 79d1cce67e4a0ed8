/** Every document that is spelled right is read back as what it means, wherever it stands. */
module JsonSpelling {
  import opened Sequences
  import opened Bytes
  import opened JsonSpec
  import opened JsonLocality
  import opened JsonGrammar
  import opened JsonTokens

  /** A byte that begins a value. */
  predicate Opens(b: byte) {
    !IsWs(b) && b != RBRACKET && b != RBRACE && b != 0xEF
  }

  lemma SpellOpens(lib: Lib, d: Doc, depth: nat)
    requires DocOk(lib, d, depth)
    ensures Spell(d) != [] && Opens(Spell(d)[0])
  {
    Ones();
    Words();
    if d.Number? {
      hide Ascii;
      NumBytesAre(d.text[0]);
    }
  }

  /** A byte that ends what stands before it: white space, or a comma or bracket. */
  lemma Ends(s: Text, e: nat, w: Text, c: byte)
    requires Stands(s, e, w + [c]) && AllWs(w) && (c == COMMA || c == RBRACKET || c == RBRACE || c == COLON)
    ensures Stops(s, e) && SkipWs(s, e) == e + |w| && s[e + |w|] == c
  {
    StandsBoth(s, e, w, [c]);
    assert s[e + |w| + 0] == [c][0];
    WsPassed(s, e, w);
    if w != [] {
      assert w[0] in w && s[e + 0] == w[0];
      WsBytesAre(w[0]);
    }
  }

  /** White space up to where a value begins. */
  lemma Begins(lib: Lib, s: Text, i: nat, w: Text, d: Doc, depth: nat)
    requires Stands(s, i, w) && AllWs(w) && DocOk(lib, d, depth) && Stands(s, i + |w|, Spell(d))
    ensures SkipWs(s, i) == i + |w| < |s| && Opens(s[i + |w|])
  {
    SpellOpens(lib, d, depth);
    assert s[i + |w| + 0] == Spell(d)[0];
    WsPassed(s, i, w);
  }

  // ---- values ----

  lemma ValueIsScalar(lib: Lib, s: Text, i: nat, p: nat, depth: nat)
    requires i <= |s| && SkipWs(s, i) == p < |s| && s[p] != LBRACE && s[p] != LBRACKET && depth <= 64
    ensures Value(lib, s, i, depth) == Scalar(lib, s, p)
  {
    hide Scalar, Members, Items;
  }

  lemma ScalarSpelled(lib: Lib, s: Text, p: nat, d: Doc, depth: nat)
    requires p < |s| && DocOk(lib, d, depth) && (d.Word? || d.Number? || d.String?)
    requires Stands(s, p, Spell(d)) && Stops(s, p + |Spell(d)|)
    ensures var r := Scalar(lib, s, p); r.Ok? && r.next == p + |Spell(d)| && Plain(r.val) == Meaning(lib, d)
    ensures s[p] != LBRACE && s[p] != LBRACKET
  {
    SpellOpens(lib, d, depth);
    assert s[p + 0] == Spell(d)[0];
    match d
    case Word(w) =>
      Words();
      WordPassed(lib, s, p, w);
    case Number(t) =>
      NumBytesAre(t[0]);
      NumberPassed(lib, s, p, t);
    case String(t) =>
      hide CloseQuote;
      TokenPassed(lib, s, p, t);
  }

  /** `[]` or `{}` with white space in it. */
  lemma EmptySpelled(lib: Lib, s: Text, i: nat, p: nat, ws: Text, obj: bool, depth: nat)
    requires i <= |s| && SkipWs(s, i) == p && depth <= 64 && AllWs(ws)
    requires Stands(s, p, [if obj then LBRACE else LBRACKET] + (ws + [if obj then RBRACE else RBRACKET]))
    ensures var r := Value(lib, s, i, depth);
            r.Ok? && r.next == p + |ws| + 2 && Plain(r.val) == if obj then JObj([]) else JArr([])
  {
    var a, b := if obj then LBRACE else LBRACKET, if obj then RBRACE else RBRACKET;
    hide *;
    StandsBoth(s, p, [a], ws + [b]);
    FirstStands(s, p, a);
    Ends(s, p + 1, ws, b) by { assert b == RBRACE || b == RBRACKET; }
    StandsSize(s, p + 1, ws + [b]);
    EmptyValue(lib, s, i, p, obj, depth) by { assert ByteAt(s, p + 1 + |ws|, b) by { IsByteAt(s, p + 1 + |ws|, b); } }
  }

  lemma FirstStands(s: Text, p: nat, a: byte)
    requires Stands(s, p, [a])
    ensures p < |s| && s[p] == a
  {
    assert s[p + 0] == [a][0];
  }

  lemma IsByteAt(s: Text, p: nat, b: byte)
    requires p < |s| && s[p] == b
    ensures ByteAt(s, p, b)
  {
  }

  lemma EmptyValue(lib: Lib, s: Text, i: nat, p: nat, obj: bool, depth: nat)
    requires i <= |s| && SkipWs(s, i) == p < |s| && depth <= 64
    requires s[p] == if obj then LBRACE else LBRACKET
    requires ByteAt(s, SkipWs(s, p + 1), if obj then RBRACE else RBRACKET)
    ensures var r := Value(lib, s, i, depth);
            r.Ok? && r.next == SkipWs(s, p + 1) + 1 && Plain(r.val) == if obj then JObj([]) else JArr([])
  {
    hide SkipWs, Members, Items, Scalar;
  }

  /** What stands behind the first item, its comma or bracket included. */
  function Tail(l: ItemList): Text {
    l.behind + [if l.MoreItems? then COMMA else RBRACKET] + if l.MoreItems? then SpellItems(l.rest) else []
  }

  lemma ItemSpells(l: ItemList)
    ensures SpellItems(l) == l.before + (Spell(l.val) + Tail(l))
  {
    Ones();
    hide Spell, Ascii;
    if l.MoreItems? {
      FourParts(l.before, Spell(l.val), l.behind, [COMMA], SpellItems(l.rest));
    } else {
      FourParts(l.before, Spell(l.val), l.behind, [RBRACKET], []);
      assert l.before + Spell(l.val) + l.behind + [RBRACKET] + [] == l.before + Spell(l.val) + l.behind + [RBRACKET];
    }
  }

  lemma TailParts(s: Text, e: nat, l: ItemList)
    requires Stands(s, e, Tail(l))
    ensures Stands(s, e, l.behind + [if l.MoreItems? then COMMA else RBRACKET])
    ensures l.MoreItems? ==> Stands(s, e + |l.behind| + 1, SpellItems(l.rest))
    ensures |Tail(l)| == |l.behind| + 1 + if l.MoreItems? then |SpellItems(l.rest)| else 0
  {
    hide Stands, SpellItems;
    StandsBoth(s, e, l.behind + [if l.MoreItems? then COMMA else RBRACKET],
               if l.MoreItems? then SpellItems(l.rest) else []);
  }

  lemma StandsThree(s: Text, b: nat, x: Text, y: Text, z: Text)
    requires Stands(s, b, x + (y + z))
    ensures Stands(s, b, x) && Stands(s, b + |x|, y) && Stands(s, b + |x| + |y|, z)
    ensures |x + (y + z)| == |x| + |y| + |z|
  {
    hide Stands;
    StandsBoth(s, b, x, y + z);
    StandsBoth(s, b + |x|, y, z);
  }

  /** Where the parts of a list stand. */
  lemma ItemParts(s: Text, b: nat, l: ItemList)
    requires Stands(s, b, SpellItems(l))
    ensures Stands(s, b, l.before) && Stands(s, b + |l.before|, Spell(l.val))
    ensures var e := b + |l.before| + |Spell(l.val)|;
            && Stands(s, e, l.behind + [if l.MoreItems? then COMMA else RBRACKET])
            && (l.MoreItems? ==> Stands(s, e + |l.behind| + 1, SpellItems(l.rest)))
    ensures |SpellItems(l)| == |l.before| + |Spell(l.val)| + |l.behind| + 1
                               + if l.MoreItems? then |SpellItems(l.rest)| else 0
  {
    hide *;
    ItemSpells(l);
    StandsThree(s, b, l.before, Spell(l.val), Tail(l));
    TailParts(s, b + |l.before| + |Spell(l.val)|, l);
  }

  lemma FourParts(a: Text, b: Text, c: Text, d: Text, e: Text)
    ensures a + b + c + d + e == a + (b + (c + d + e))
  {
  }

  /** What follows an item: another one, or the end of the container. */
  lemma Follows(s: Text, e: nat, w: Text, close: byte, more: bool)
    requires Stands(s, e, w + [if more then COMMA else close]) && AllWs(w) && (close == RBRACKET || close == RBRACE)
    requires more ==> e + |w| + 1 <= |s| && SkipWs(s, e + |w| + 1) < |s| && Opens(s[SkipWs(s, e + |w| + 1)])
    ensures Stops(s, e)
    ensures AfterItem(s, e, close) == if more then Ok(true, SkipWs(s, e + |w| + 1)) else Ok(false, e + |w| + 1)
  {
    Ends(s, e, w, if more then COMMA else close);
    hide AllWs, Stands, Stops, SkipWs, IsWs;
    StandsSize(s, e, w + [if more then COMMA else close]);
    NextIs(s, e, e + |w|, close, more);
  }

  lemma StandsSize(s: Text, e: nat, t: Text)
    requires Stands(s, e, t)
    ensures e + |t| <= |s|
  {
  }

  lemma NextIs(s: Text, e: nat, t: nat, close: byte, more: bool)
    requires e <= |s| && SkipWs(s, e) == t < |s| && s[t] == (if more then COMMA else close) && close != COMMA
    requires more ==> SkipWs(s, t + 1) < |s| && s[SkipWs(s, t + 1)] != close
    ensures AfterItem(s, e, close) == if more then Ok(true, SkipWs(s, t + 1)) else Ok(false, t + 1)
  {
    hide SkipWs;
  }

  lemma WsAgain(s: Text, i: nat)
    requires i <= |s|
    ensures SkipWs(s, SkipWs(s, i)) == SkipWs(s, i)
  {
  }

  lemma PlainAppended(acc: seq<Node>, n: Node)
    ensures PlainItems(acc + [n]) == PlainItems(acc) + [Plain(n)]
  {
    hide Plain;
  }

  lemma ItemBegins(lib: Lib, s: Text, b: nat, l: ItemList, depth: nat)
    requires ItemsOk(lib, l, depth) && Stands(s, b, SpellItems(l))
    ensures SkipWs(s, b) == b + |l.before| < |s| && Opens(s[b + |l.before|])
  {
    hide SpellItems, DocOk, Spell, Opens;
    ItemParts(s, b, l);
    Begins(lib, s, b, l.before, l.val, depth);
  }

  lemma {:induction false} ItemsSpelled(lib: Lib, s: Text, i: nat, b: nat, l: ItemList, depth: nat, acc: seq<Node>)
    requires i <= |s| && SkipWs(s, i) == b + |l.before| && ItemsOk(lib, l, depth + 1) && Stands(s, b, SpellItems(l))
    ensures var r := Items(lib, s, i, depth, acc);
            && r.Ok? && r.next == b + |SpellItems(l)|
            && PlainItems(r.val) == PlainItems(acc) + ItemsMean(lib, l)
    decreases l, 0
  {
    hide Value, SkipWs, Plain, PlainItems, Spell, SpellItems, DocOk, Stands, Meaning, Items, Opens, AfterItem;
    var v, e := b + |l.before|, b + |l.before| + |Spell(l.val)|;
    var t := e + |l.behind|;
    ItemParts(s, b, l);
    if l.MoreItems? {
      ItemBegins(lib, s, t + 1, l.rest, depth + 1);
    }
    Follows(s, e, l.behind, RBRACKET, l.MoreItems?);
    ValueSpelled(lib, s, i, v, l.val, depth + 1);
    var n := Value(lib, s, i, depth + 1).val;
    ItemsTurn(lib, s, i, depth, acc);
    PlainAppended(acc, n);
    if l.MoreItems? {
      WsAgain(s, t + 1);
      ItemsSpelled(lib, s, SkipWs(s, t + 1), t + 1, l.rest, depth, acc + [n]);
    }
  }

  // ---- objects ----

  lemma PairParts(s: Text, b: nat, p: Pair, c: byte)
    requires Stands(s, b, SpellPair(p) + [c])
    ensures Stands(s, b, p.before) && Stands(s, b + |p.before|, p.key)
    ensures var k := b + |p.before| + |p.key|;
            Stands(s, k, p.middle + [COLON]) && Stands(s, k + |p.middle| + 1, p.gap)
    ensures var v := b + |p.before| + |p.key| + |p.middle| + 1 + |p.gap|;
            Stands(s, v, Spell(p.val)) && Stands(s, v + |Spell(p.val)|, p.behind + [c])
    ensures |SpellPair(p)| == |p.before| + |p.key| + |p.middle| + 1 + |p.gap| + |Spell(p.val)| + |p.behind|
  {
    PairSpells(p, c);
    hide *;
    var k := b + |p.before| + |p.key|;
    StandsThree(s, b, p.before, p.key, p.middle + [COLON] + (p.gap + (Spell(p.val) + (p.behind + [c]))));
    StandsBoth(s, k, p.middle + [COLON], p.gap + (Spell(p.val) + (p.behind + [c])));
    StandsThree(s, k + |p.middle| + 1, p.gap, Spell(p.val), p.behind + [c]);
  }

  lemma PairSpells(p: Pair, c: byte)
    ensures SpellPair(p) + [c] ==
            p.before + (p.key + (p.middle + [COLON] + (p.gap + (Spell(p.val) + (p.behind + [c])))))
    ensures |SpellPair(p)| == |p.before| + |p.key| + |p.middle| + 1 + |p.gap| + |Spell(p.val)| + |p.behind|
  {
    Ones();
    hide Spell;
  }

  lemma MemberParts(s: Text, b: nat, l: MemberList)
    requires Stands(s, b, SpellMembers(l))
    ensures Stands(s, b, SpellPair(l.pair) + [if l.MoreMembers? then COMMA else RBRACE])
    ensures l.MoreMembers? ==> Stands(s, b + |SpellPair(l.pair)| + 1, SpellMembers(l.rest))
    ensures |SpellMembers(l)| == |SpellPair(l.pair)| + 1 + if l.MoreMembers? then |SpellMembers(l.rest)| else 0
  {
    Ones();
    var head := SpellPair(l.pair) + [if l.MoreMembers? then COMMA else RBRACE];
    var rest := if l.MoreMembers? then SpellMembers(l.rest) else [];
    assert SpellMembers(l) == head + rest;
    hide SpellPair, SpellMembers;
    StandsBoth(s, b, head, rest);
  }

  lemma KeyBegins(lib: Lib, s: Text, b: nat, l: MemberList, depth: nat)
    requires MembersOk(lib, l, depth) && Stands(s, b, SpellMembers(l))
    ensures SkipWs(s, b) == b + |l.pair.before| < |s| && s[b + |l.pair.before|] == QUOTE
  {
    hide SpellMembers, DocOk, Spell, SpellPair, Stands;
    var p := l.pair;
    MemberParts(s, b, l);
    PairParts(s, b, p, if l.MoreMembers? then COMMA else RBRACE);
    QuoteStands(s, b + |p.before|, p.key);
    WsPassed(s, b, p.before);
  }

  lemma QuoteStands(s: Text, p: nat, t: Text)
    requires IsToken(t) && Stands(s, p, t)
    ensures p < |s| && s[p] == QUOTE
  {
    assert s[p + 0] == t[0];
  }

  lemma PairSpelled(lib: Lib, s: Text, i: nat, b: nat, p: Pair, c: byte, depth: nat)
    requires i <= |s| && SkipWs(s, i) == b + |p.before| && PairOk(lib, p, depth + 1)
    requires Stands(s, b, SpellPair(p) + [c])
    requires var e := b + |SpellPair(p)| - |p.behind|; e <= |s| && Stops(s, e)
    ensures var r := Entry(lib, s, i, depth);
            && r.Ok? && r.next == b + |SpellPair(p)| - |p.behind|
            && r.val.key == Unquoted(lib, p.key) && Plain(r.val.val) == Meaning(lib, p.val)
    decreases p, 0
  {
    hide Value, SkipWs, Plain, Spell, SpellPair, DocOk, Stands, Meaning, Stops, Str, IsToken;
    var k := b + |p.before| + |p.key|;
    var g := k + |p.middle| + 1;
    PairParts(s, b, p, c);
    TokenPassed(lib, s, b + |p.before|, p.key);
    Ends(s, k, p.middle, COLON);
    Begins(lib, s, g, p.gap, p.val, depth + 1);
    ValueSpelled(lib, s, g, g + |p.gap|, p.val, depth + 1);
  }

  lemma PlainKeysAppended(acc: seq<KeyVal>, kv: KeyVal)
    ensures PlainKeys(acc + [kv]) == PlainKeys(acc) + [Member(kv.key, Plain(kv.val))]
  {
    hide Plain;
  }

  lemma MeansMore(lib: Lib, acc: seq<KeyVal>, kv: KeyVal, l: MemberList)
    requires kv.key == Unquoted(lib, l.pair.key) && Plain(kv.val) == Meaning(lib, l.pair.val)
    ensures PlainKeys(acc) + MembersMean(lib, l) ==
              PlainKeys(acc + [kv]) + if l.MoreMembers? then MembersMean(lib, l.rest) else []
  {
    PlainKeysAppended(acc, kv);
    hide PlainKeys, Plain, Meaning;
  }

  lemma MembersTurn(lib: Lib, s: Text, i: nat, depth: nat, acc: seq<KeyVal>)
    requires i <= |s| && Entry(lib, s, i, depth).Ok? && !HasKey(acc, Entry(lib, s, i, depth).val.key)
    requires AfterItem(s, Entry(lib, s, i, depth).next, RBRACE).Ok?
    ensures var e, a := Entry(lib, s, i, depth), AfterItem(s, Entry(lib, s, i, depth).next, RBRACE);
            Members(lib, s, i, depth, acc) ==
              if a.val then Members(lib, s, a.next, depth, acc + [e.val]) else Ok(acc + [e.val], a.next)
  {
    hide Entry, Value, AfterItem;
  }

  /** No key of `l` is among `acc`. */
  ghost predicate Apart(lib: Lib, acc: seq<KeyVal>, l: MemberList) {
    forall k :: k in Keys(lib, l) ==> !HasKey(acc, k)
  }

  lemma ApartNext(lib: Lib, acc: seq<KeyVal>, kv: KeyVal, l: MemberList)
    requires Apart(lib, acc, l) && NoDup(Keys(lib, l)) && l.MoreMembers? && kv.key == Unquoted(lib, l.pair.key)
    ensures Apart(lib, acc + [kv], l.rest) && NoDup(Keys(lib, l.rest))
  {
    var ks := Keys(lib, l);
    assert ks == [kv.key] + Keys(lib, l.rest);
    forall k | k in Keys(lib, l.rest) ensures !HasKey(acc + [kv], k) {
      var m :| 0 <= m < |Keys(lib, l.rest)| && Keys(lib, l.rest)[m] == k;
      assert ks[m + 1] == k && ks[0] == kv.key;
      assert k in ks;
      NoKeyAppended(acc, kv, k);
    }
    assert forall a :: 0 <= a < |Keys(lib, l.rest)| ==> Keys(lib, l.rest)[a] == ks[a + 1];
  }

  lemma {:induction false} MembersSpelled(lib: Lib, s: Text, i: nat, b: nat, l: MemberList, depth: nat,
                                          acc: seq<KeyVal>)
    requires i <= |s| && SkipWs(s, i) == b + |l.pair.before| && MembersOk(lib, l, depth + 1)
    requires Stands(s, b, SpellMembers(l)) && NoDup(Keys(lib, l)) && Apart(lib, acc, l)
    ensures var r := Members(lib, s, i, depth, acc);
            && r.Ok? && r.next == b + |SpellMembers(l)|
            && PlainKeys(r.val) == PlainKeys(acc) + MembersMean(lib, l)
    decreases l, 0
  {
    hide Value, SkipWs, Plain, PlainKeys, Spell, SpellPair, SpellMembers, DocOk, Stands, Meaning, Members, Opens,
         AfterItem, Apart, NoDup, Entry, HasKey, PairOk, Stops, MembersMean, Keys;
    var p, c := l.pair, if l.MoreMembers? then COMMA else RBRACE;
    var e := b + |SpellPair(p)| - |p.behind|;
    MemberParts(s, b, l);
    PairParts(s, b, p, c);
    if l.MoreMembers? {
      KeyBegins(lib, s, e + |p.behind| + 1, l.rest, depth + 1);
      QuoteOpens();
    }
    WsOfPair(lib, p, depth + 1);
    Follows(s, e, p.behind, RBRACE, l.MoreMembers?);
    PairSpelled(lib, s, i, b, p, c, depth);
    var kv := Entry(lib, s, i, depth).val;
    FirstApart(lib, acc, l);
    MembersTurn(lib, s, i, depth, acc);
    MeansMore(lib, acc, kv, l);
    if l.MoreMembers? {
      ApartNext(lib, acc, kv, l);
      WsAgain(s, e + |p.behind| + 1);
      MembersSpelled(lib, s, SkipWs(s, e + |p.behind| + 1), e + |p.behind| + 1, l.rest, depth, acc + [kv]);
    }
  }

  lemma QuoteOpens()
    ensures Opens(QUOTE)
  {
  }

  lemma WsOfPair(lib: Lib, p: Pair, depth: nat)
    requires PairOk(lib, p, depth)
    ensures AllWs(p.behind)
  {
  }

  lemma FirstApart(lib: Lib, acc: seq<KeyVal>, l: MemberList)
    requires Apart(lib, acc, l)
    ensures !HasKey(acc, Unquoted(lib, l.pair.key))
  {
    assert Keys(lib, l)[0] in Keys(lib, l);
  }

  // ---- containers ----

  lemma ArrayIs(lib: Lib, s: Text, i: nat, p: nat, l: ItemList, depth: nat)
    requires i <= |s| && SkipWs(s, i) == p && depth <= 64 && ItemsOk(lib, l, depth + 1)
    requires Stands(s, p, Spell(Array(l)))
    ensures Stands(s, p + 1, SpellItems(l)) && p + 1 + |l.before| <= |s|
            && SkipWs(s, p + 1 + |l.before|) == p + 1 + |l.before|
    ensures var r := Items(lib, s, p + 1 + |l.before|, depth, []);
            r.Ok? ==> var v := Value(lib, s, i, depth);
                      v.Ok? && v.next == r.next && Plain(v.val) == JArr(PlainItems(r.val))
  {
    hide Scalar, SpellItems, Items, Members, PlainItems, DocOk, Spell;
    assert Spell(Array(l)) == [LBRACKET] + SpellItems(l) by { Ones(); ArraySpells(l); }
    StandsBoth(s, p, [LBRACKET], SpellItems(l));
    assert s[p + 0] == [LBRACKET][0];
    ItemBegins(lib, s, p + 1, l, depth + 1);
    WsAgain(s, p + 1);
  }

  lemma ArraySpells(l: ItemList)
    ensures Spell(Array(l)) == Ascii("[") + SpellItems(l)
  {
  }

  lemma ObjectIs(lib: Lib, s: Text, i: nat, p: nat, l: MemberList, depth: nat)
    requires i <= |s| && SkipWs(s, i) == p && depth <= 64 && MembersOk(lib, l, depth + 1)
    requires Stands(s, p, Spell(Object(l)))
    ensures Stands(s, p + 1, SpellMembers(l)) && p + 1 + |l.pair.before| <= |s|
            && SkipWs(s, p + 1 + |l.pair.before|) == p + 1 + |l.pair.before|
    ensures var r := Members(lib, s, p + 1 + |l.pair.before|, depth, []);
            r.Ok? ==> var v := Value(lib, s, i, depth);
                      v.Ok? && v.next == r.next && Plain(v.val) == JObj(PlainKeys(r.val))
  {
    hide Scalar, SpellMembers, Items, Members, PlainKeys, DocOk, Spell, PairOk;
    assert Spell(Object(l)) == [LBRACE] + SpellMembers(l) by { Ones(); ObjectSpells(l); }
    StandsBoth(s, p, [LBRACE], SpellMembers(l));
    assert s[p + 0] == [LBRACE][0];
    KeyBegins(lib, s, p + 1, l, depth + 1);
    WsAgain(s, p + 1);
  }

  lemma ObjectSpells(l: MemberList)
    ensures Spell(Object(l)) == Ascii("{") + SpellMembers(l)
  {
  }

  /** The value at `p`, read from `i`, where the white space before it begins or goes on. */
  lemma {:induction false} ValueSpelled(lib: Lib, s: Text, i: nat, p: nat, d: Doc, depth: nat)
    requires i <= |s| && SkipWs(s, i) == p && DocOk(lib, d, depth) && Stands(s, p, Spell(d))
    requires Stops(s, p + |Spell(d)|)
    ensures var r := Value(lib, s, i, depth);
            r.Ok? && r.next == p + |Spell(d)| && Plain(r.val) == Meaning(lib, d)
    decreases d, 1
  {
    hide Value, Scalar, Items, Members, SkipWs, Plain, PlainItems, PlainKeys, SpellItems, SpellMembers, Stops, NoDup;
    match d
    case Word(w) => ScalarAt(lib, s, i, p, d, depth);
    case Number(t) => ScalarAt(lib, s, i, p, d, depth);
    case String(t) => ScalarAt(lib, s, i, p, d, depth);
    case NoItems(ws) =>
      Ones();
      assert [LBRACKET] + ws + [RBRACKET] == [LBRACKET] + (ws + [RBRACKET]);
      EmptySpelled(lib, s, i, p, ws, false, depth);
    case NoMembers(ws) =>
      Ones();
      assert [LBRACE] + ws + [RBRACE] == [LBRACE] + (ws + [RBRACE]);
      EmptySpelled(lib, s, i, p, ws, true, depth);
    case Array(l) => ArraySpelled(lib, s, i, p, l, depth);
    case Object(l) => ObjectSpelled(lib, s, i, p, l, depth);
  }

  lemma {:induction false} ArraySpelled(lib: Lib, s: Text, i: nat, p: nat, l: ItemList, depth: nat)
    requires i <= |s| && SkipWs(s, i) == p && depth <= 64 && ItemsOk(lib, l, depth + 1)
    requires Stands(s, p, Spell(Array(l)))
    ensures var r := Value(lib, s, i, depth);
            r.Ok? && r.next == p + |Spell(Array(l))| && Plain(r.val) == JArr(ItemsMean(lib, l))
    decreases l, 1
  {
    ArraySpells(l);
    hide *;
    ArrayIs(lib, s, i, p, l, depth);
    ItemsSpelled(lib, s, p + 1 + |l.before|, p + 1, l, depth, []);
    NothingPlain();
  }

  lemma {:induction false} ObjectSpelled(lib: Lib, s: Text, i: nat, p: nat, l: MemberList, depth: nat)
    requires i <= |s| && SkipWs(s, i) == p && depth <= 64 && MembersOk(lib, l, depth + 1) && NoDup(Keys(lib, l))
    requires Stands(s, p, Spell(Object(l)))
    ensures var r := Value(lib, s, i, depth);
            r.Ok? && r.next == p + |Spell(Object(l))| && Plain(r.val) == JObj(MembersMean(lib, l))
    decreases l, 1
  {
    ObjectSpells(l);
    hide *;
    ObjectIs(lib, s, i, p, l, depth);
    NoneApart(lib, l);
    MembersSpelled(lib, s, p + 1 + |l.pair.before|, p + 1, l, depth, []);
    NothingPlain();
  }

  lemma NothingPlain()
    ensures PlainItems([]) == [] && PlainKeys([]) == []
  {
  }

  lemma NoneApart(lib: Lib, l: MemberList)
    ensures Apart(lib, [], l)
  {
  }

  lemma ScalarAt(lib: Lib, s: Text, i: nat, p: nat, d: Doc, depth: nat)
    requires i <= |s| && SkipWs(s, i) == p && DocOk(lib, d, depth) && (d.Word? || d.Number? || d.String?)
    requires Stands(s, p, Spell(d)) && Stops(s, p + |Spell(d)|)
    ensures var r := Value(lib, s, i, depth); r.Ok? && r.next == p + |Spell(d)| && Plain(r.val) == Meaning(lib, d)
  {
    SpellOpens(lib, d, depth);
    hide Value, Scalar, Spell, SkipWs, Plain, Meaning;
    ScalarSpelled(lib, s, p, d, depth);
    ValueIsScalar(lib, s, i, p, depth);
  }

  // ---- files ----

  /** Every file that is spelled right is read back as what it means. */
  lemma SpelledIsRead(lib: Lib, f: File)
    requires FileOk(lib, f)
    ensures var r := Parse(lib, SpellFile(f)); r.Ok? && Plain(r.val) == Meaning(lib, f.doc)
  {
    var s, bom := SpellFile(f), if f.bom then [0xEF, 0xBB, 0xBF] else [];
    var b := |bom|;
    var p := b + |f.before|;
    var e := p + |Spell(f.doc)|;
    FileParts(f);
    hide Value, SkipWs, Plain, Meaning, Spell, SpellFile, Stands, DocOk;
    Begins(lib, s, b, f.before, f.doc, 0);
    WsPassed(s, e, f.behind);
    StopsBehind(s, e, f.behind);
    BomSkipped(lib, f);
    ValueSpelled(lib, s, b, p, f.doc, 0);
  }

  lemma FileParts(f: File)
    ensures var s, b := SpellFile(f), if f.bom then 3 else 0;
            var p := b + |f.before|; var e := p + |Spell(f.doc)|;
            && Stands(s, b, f.before) && Stands(s, p, Spell(f.doc)) && Stands(s, e, f.behind)
            && |s| == e + |f.behind| && (f.bom ==> s[..3] == [0xEF, 0xBB, 0xBF])
  {
    var s, bom := SpellFile(f), if f.bom then [0xEF, 0xBB, 0xBF] else [];
    assert s == bom + (f.before + (Spell(f.doc) + f.behind));
    hide Spell, SpellFile;
    assert Stands(s, 0, s);
    StandsBoth(s, 0, bom, f.before + (Spell(f.doc) + f.behind));
    StandsBoth(s, |bom|, f.before, Spell(f.doc) + f.behind);
    StandsBoth(s, |bom| + |f.before|, Spell(f.doc), f.behind);
  }

  lemma StopsBehind(s: Text, e: nat, w: Text)
    requires Stands(s, e, w) && AllWs(w) && |s| == e + |w|
    ensures Stops(s, e)
  {
    if w != [] {
      assert w[0] in w && s[e + 0] == w[0];
      WsBytesAre(w[0]);
    }
  }

  lemma BomSkipped(lib: Lib, f: File)
    requires FileOk(lib, f)
    ensures Start(SpellFile(f)) == if f.bom then 3 else 0
  {
    var s := SpellFile(f);
    FileParts(f);
    if f.bom {
      hide Spell;
      assert s[..3] == [0xEF, 0xBB, 0xBF];
    } else {
      Begins(lib, s, 0, f.before, f.doc, 0);
      hide Spell, SpellFile, DocOk;
      if f.before != [] {
        assert f.before[0] in f.before && s[0 + 0] == f.before[0];
        WsBytesAre(f.before[0]);
      }
      assert s[0] != BOM[0];
    }
  }
}
