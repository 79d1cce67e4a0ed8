/** What the text written by `SetReplace` means when it is parsed again. */
module SetReplaceReparse {
  import opened Bytes
  import opened Wrappers
  import opened JsonSpec
  import opened JsonLocality
  import JsonGrammar
  import JsonTokens
  import opened SetReplace

  /** What `json.Marshal` and `json.Unmarshal` owe the editor: a marshalled string is one
      token that can be read, and the key `"replace"` reads as itself. */
  ghost predicate LibOk(lib: Lib) {
    && (forall d :: JsonGrammar.IsToken(lib.quote(d)) && lib.unquote(lib.quote(d)).Some?)
    && lib.unquote(REPLACE_TOKEN) == Some(REPLACE)
  }

  /** A folder as it is read back. */
  function ReadBack(lib: Lib, d: Text): Text {
    match lib.unquote(lib.quote(d)) case Some(t) => t case None => []
  }

  function ListJson(lib: Lib, dirs: seq<Text>): Json {
    JArr(seq(|dirs|, k requires 0 <= k < |dirs| => JStr(ReadBack(lib, dirs[k]))))
  }

  function Position(ms: seq<Member>, k: Text): (m: int)
    ensures -1 <= m < |ms|
    ensures m >= 0 ==> ms[m].key == k
  {
    if ms == [] then -1
    else if ms[|ms| - 1].key == k then |ms| - 1
    else Position(ms[..|ms| - 1], k)
  }

  /** The members a reader should find: "replace" changed where it stands, or taken out for an
      empty list, or put in behind "uses", or in front when there is no "uses". */
  function Expected(lib: Lib, ms: seq<Member>, dirs: seq<Text>): seq<Member> {
    var r, u := Position(ms, REPLACE), Position(ms, USES);
    if r >= 0 then
      if dirs != [] then ms[r := Member(REPLACE, ListJson(lib, dirs))] else ms[..r] + ms[r + 1..]
    else if dirs == [] then ms
    else ms[..u + 1] + [Member(REPLACE, ListJson(lib, dirs))] + ms[u + 1..]
  }

  // ---- moving about in one text ----

  lemma SpliceSame(s: Text, a: nat, b: nat, mid: Text)
    requires a <= b <= |s|
    ensures var s2 := Splice(s, a, b, mid);
            && |s2| == |s| - (b - a) + |mid|
            && Same(s, s2, 0, a, 0) && Same(mid, s2, 0, |mid|, a) && Same(s, s2, b, |s|, a + |mid| - b)
  {
  }

  lemma {:induction false} WsRun(s: Text, i: nat, j: nat)
    requires i <= j <= |s| && forall q {:trigger s[q]} :: i <= q < j ==> IsWs(s[q])
    requires j < |s| ==> !IsWs(s[j])
    ensures SkipWs(s, i) == j
    decreases j - i
  {
    if i < j {
      WsRun(s, i + 1, j);
    }
  }

  lemma {:induction false} WsBytes(s: Text, i: nat)
    requires i <= |s|
    ensures forall q {:trigger s[q]} :: i <= q < SkipWs(s, i) ==> IsWs(s[q])
    decreases |s| - i
  {
    if i < |s| && IsWs(s[i]) {
      WsBytes(s, i + 1);
    }
  }

  /** White space up to the end of the text, moved together with the end. */
  lemma WsToEnd(s: Text, s2: Text, i: nat, d: int)
    requires i <= |s| && SkipWs(s, i) == |s|
    requires Same(s, s2, i, |s|, d) && |s2| == |s| + d
    ensures SkipWs(s2, i + d) == |s2|
  {
    WsBytes(s, i);
    forall q {:trigger s2[q]} | i + d <= q < |s2| ensures IsWs(s2[q]) {
      assert s2[(q - d) + d] == s[q - d];
    }
    WsRun(s2, i + d, |s2|);
  }

  /** One turn of the member loop. */
  lemma Turn(lib: Lib, s: Text, i: nat, depth: nat, acc: seq<KeyVal>)
    requires i <= |s| && Entry(lib, s, i, depth).Ok? && !HasKey(acc, Entry(lib, s, i, depth).val.key)
    requires AfterItem(s, Entry(lib, s, i, depth).next, RBRACE).Ok?
    ensures var e, a := Entry(lib, s, i, depth), AfterItem(s, Entry(lib, s, i, depth).next, RBRACE);
            Members(lib, s, i, depth, acc) ==
              if a.val then Members(lib, s, a.next, depth, acc + [e.val]) else Ok(acc + [e.val], a.next)
  {
    hide Entry, Value, AfterItem;
  }

  /** The white space in front of a member does not matter. */
  lemma EntryAtKey(lib: Lib, s: Text, i: nat, depth: nat)
    requires i <= |s| && Entry(lib, s, i, depth).Ok?
    ensures SkipWs(s, i) < |s| && Entry(lib, s, SkipWs(s, i), depth) == Entry(lib, s, i, depth)
  {
    hide Value, Str;
  }

  lemma MembersAtKey(lib: Lib, s: Text, i: nat, depth: nat, acc: seq<KeyVal>)
    requires i <= |s| && Members(lib, s, i, depth, acc).Ok?
    ensures SkipWs(s, i) < |s| && Members(lib, s, SkipWs(s, i), depth, acc) == Members(lib, s, i, depth, acc)
  {
    hide Value, Entry, AfterItem, HasKey;
    EntryAtKey(lib, s, i, depth);
  }

  /** The loop passes through every member: it stands at the k-th with the first k read. */
  lemma {:induction false} Passes(lib: Lib, s: Text, i: nat, depth: nat, acc: seq<KeyVal>, k: nat)
    requires i <= |s| && Members(lib, s, i, depth, acc).Ok?
    requires |acc| <= k < |Members(lib, s, i, depth, acc).val|
    ensures var r := Members(lib, s, i, depth, acc);
            && r.val[k].at <= |s|
            && Members(lib, s, r.val[k].at, depth, r.val[..k]) == r
            && Entry(lib, s, r.val[k].at, depth) == Ok(r.val[k], r.val[k].val.end)
            && !HasKey(r.val[..k], r.val[k].key)
    ensures var r := Members(lib, s, i, depth, acc);
            var end := r.val[k].val.end;
            end <= |s|
            && AfterItem(s, end, RBRACE) == if k + 1 < |r.val| then Ok(true, r.val[k + 1].at) else Ok(false, r.next)
    ensures k == |acc| ==> SkipWs(s, i) == Members(lib, s, i, depth, acc).val[k].at
    decreases |s| - i
  {
    hide Value, AfterItem, Str, HasKey, ByteAt, Entry;
    EntryAtKey(lib, s, i, depth);
    MembersAtKey(lib, s, i, depth, acc);
    var r := Members(lib, s, i, depth, acc);
    var kv, e := Entry(lib, s, i, depth).val, Entry(lib, s, i, depth).next;
    var a := AfterItem(s, e, RBRACE);
    assert r.val[|acc|] == kv && r.val[..|acc|] == acc;
    if a.val {
      Passes(lib, s, a.next, depth, acc + [kv], if k == |acc| then k + 1 else k);
    }
  }

  ghost predicate SameMembers(ks1: seq<KeyVal>, ks2: seq<KeyVal>, d: int) {
    |ks1| == |ks2| && forall m {:trigger ks1[m]} {:trigger ks2[m]} :: 0 <= m < |ks1| ==> MovedMember(ks1[m], ks2[m], d)
  }

  lemma SameKeys(ks1: seq<KeyVal>, ks2: seq<KeyVal>, d: int, k: Text)
    requires SameMembers(ks1, ks2, d)
    ensures HasKey(ks1, k) <==> HasKey(ks2, k)
  {
    if HasKey(ks1, k) {
      var m :| 0 <= m < |ks1| && ks1[m].key == k;
      assert ks2[m].key == k;
    }
  }

  /** A text that agrees up to the k-th member's key is read up to there as before. */
  lemma {:induction false} Reach(lib: Lib, s: Text, s2: Text, i: nat, acc: seq<KeyVal>, acc2: seq<KeyVal>, k: nat)
      returns (read: seq<KeyVal>)
    requires i <= |s| && Members(lib, s, i, 0, acc).Ok? && SkipWs(s, i) == i
    requires |acc| <= k < |Members(lib, s, i, 0, acc).val|
    requires SameMembers(acc, acc2, 0)
    requires var at := Members(lib, s, i, 0, acc).val[k].at; Same(s, s2, i, at, 0) && ByteAt(s2, at, QUOTE)
    ensures var r := Members(lib, s, i, 0, acc).val;
            && SameMembers(r[..k], read, 0)
            && Members(lib, s2, i, 0, acc2) == Members(lib, s2, r[k].at, 0, read)
    decreases |s| - i
  {
    hide Entry, Value, AfterItem, HasKey, MovedMember, Members;
    var r := Members(lib, s, i, 0, acc);
    Passes(lib, s, i, 0, acc, |acc|);
    assert r.val[..|acc|] == acc;
    if k == |acc| {
      return acc2;
    }
    var kv := r.val[|acc|];
    var u := r.val[|acc| + 1].at;
    Passes(lib, s, i, 0, acc, |acc| + 1);
    QuoteAt(lib, s, s2, i, acc, |acc| + 1, k);
    AfterItemLocal(s, s2, kv.val.end, RBRACE, 0);
    EntryLocal(lib, s, s2, i, 0, 0);
    var kv2 := Entry(lib, s2, i, 0).val;
    KeysAgree(kv, kv2, acc, acc2);
    Turn(lib, s2, i, 0, acc2);
    assert r.val[..|acc| + 1] == acc + [kv];
    assert SameMembers(acc + [kv], acc2 + [kv2], 0);
    read := Reach(lib, s, s2, u, acc + [kv], acc2 + [kv2], k);
  }

  lemma KeysAgree(kv: KeyVal, kv2: KeyVal, acc: seq<KeyVal>, acc2: seq<KeyVal>)
    requires MovedMember(kv, kv2, 0) && SameMembers(acc, acc2, 0) && !HasKey(acc, kv.key)
    ensures !HasKey(acc2, kv2.key)
  {
    SameKeys(acc, acc2, 0, kv.key);
  }

  /** Each member up to the k-th starts with its quote in the second text too. */
  lemma QuoteAt(lib: Lib, s: Text, s2: Text, i: nat, acc: seq<KeyVal>, m: nat, k: nat)
    requires i <= |s| && Members(lib, s, i, 0, acc).Ok? && SkipWs(s, i) == i
    requires |acc| <= m <= k < |Members(lib, s, i, 0, acc).val|
    requires var at := Members(lib, s, i, 0, acc).val[k].at; Same(s, s2, i, at, 0) && ByteAt(s2, at, QUOTE)
    ensures var at := Members(lib, s, i, 0, acc).val[m].at;
            i <= at <= Members(lib, s, i, 0, acc).val[k].at && ByteAt(s2, at, QUOTE) && SkipWs(s, at) == at
            && ByteAt(s, at, QUOTE)
  {
    hide Value, AfterItem, Str, Members;
    var r := Members(lib, s, i, 0, acc).val;
    MembersInOrder(lib, s, i, 0, acc);
    Passes(lib, s, i, 0, acc, m);
    var at := r[m].at;
    assert ByteAt(s, SkipWs(s, at), QUOTE);
    if m < k {
      assert s2[at + 0] == s[at];
    }
  }

  // ---- the text that is put in ----

  lemma TokenEnds(t: Text)
    requires JsonGrammar.IsToken(t)
    ensures |t| >= 2 && t[0] == QUOTE && CloseQuote(t, 1, 0) == Ok(Unit, |t|)
  {
    JsonTokens.BareFirst(t);
    JsonTokens.TokenCloses(t, 0, t, 1, 0);
  }

  lemma TokenValue(lib: Lib, s: Text, p: nat, d: Text, depth: nat)
    requires LibOk(lib) && depth <= MAX_DEPTH && Same(lib.quote(d), s, 0, |lib.quote(d)|, p)
    ensures Value(lib, s, p, depth).Ok? && Value(lib, s, p, depth).next == p + |lib.quote(d)|
    ensures Plain(Value(lib, s, p, depth).val) == JStr(ReadBack(lib, d))
  {
    var t := lib.quote(d);
    TokenEnds(t);
    hide JsonGrammar.IsToken;
    assert s[0 + p] == t[0];
    CloseQuoteLocal(t, s, 1, 0, p, p);
    assert s[p..p + |t|] == t;
    WsRun(s, p, p);
  }

  lemma AfterComma(s: Text, e: nat, t: nat, u: nat, close: byte)
    requires e <= t < u <= |s| && s[t] == COMMA && u < |s| && !IsWs(s[u]) && s[u] != close
    requires forall q {:trigger s[q]} :: e <= q < t || t < q < u ==> IsWs(s[q])
    ensures AfterItem(s, e, close) == Ok(true, u)
  {
    WsRun(s, e, t);
    WsRun(s, t + 1, u);
  }

  /** Where the parts of a list text lie. */
  lemma TailParts(lib: Lib, s: Text, p: nat, dirs: seq<Text>)
    requires LibOk(lib) && dirs != [] && Same(ListTail(lib, dirs), s, 0, |ListTail(lib, dirs)|, p)
    ensures var t := lib.quote(dirs[0]); var e := p + |t|;
            && Same(t, s, 0, |t|, p) && e < |s|
            && (if |dirs| == 1 then s[e] == RBRACKET && |ListTail(lib, dirs)| == |t| + 1
                else && s[e] == COMMA && e + 2 < |s| && s[e + 1] == SPACE && s[e + 2] == QUOTE
                     && |ListTail(lib, dirs)| == |t| + 2 + |ListTail(lib, dirs[1..])|
                     && Same(ListTail(lib, dirs[1..]), s, 0, |ListTail(lib, dirs[1..])|, e + 2))
  {
    var t, tail := lib.quote(dirs[0]), ListTail(lib, dirs);
    forall q {:trigger t[q]} | 0 <= q < |t| ensures s[q + p] == t[q] { assert tail[q] == t[q]; }
    assert s[|t| + p] == tail[|t|];
    if |dirs| > 1 {
      var rest := ListTail(lib, dirs[1..]);
      assert s[(|t| + 1) + p] == tail[|t| + 1];
      forall q {:trigger rest[q]} | 0 <= q < |rest| ensures s[q + (p + |t| + 2)] == rest[q] {
        assert tail[q + |t| + 2] == rest[q];
        assert s[(q + |t| + 2) + p] == tail[q + |t| + 2];
      }
      assert JsonGrammar.IsToken(lib.quote(dirs[1]));
      assert s[0 + (p + |t| + 2)] == rest[0];
    }
  }

  lemma {:induction false} TailItems(lib: Lib, s: Text, p: nat, dirs: seq<Text>, acc: seq<Node>)
    requires LibOk(lib) && dirs != [] && Same(ListTail(lib, dirs), s, 0, |ListTail(lib, dirs)|, p)
    ensures Items(lib, s, p, 1, acc).Ok? && Items(lib, s, p, 1, acc).next == p + |ListTail(lib, dirs)|
    ensures PlainItems(Items(lib, s, p, 1, acc).val) == PlainItems(acc) + ListJson(lib, dirs).items
    decreases |dirs|
  {
    hide Value, Plain, Same, LibOk, ReadBack, ListTail;
    TailParts(lib, s, p, dirs);
    TokenValue(lib, s, p, dirs[0], 2);
    var v := Value(lib, s, p, 2).val;
    var e := p + |lib.quote(dirs[0])|;
    assert PlainItems(acc + [v]) == PlainItems(acc) + [JStr(ReadBack(lib, dirs[0]))];
    if |dirs| == 1 {
      WsRun(s, e, e);
    } else {
      AfterComma(s, e, e, e + 2, RBRACKET);
      TailItems(lib, s, e + 2, dirs[1..], acc + [v]);
      assert ListJson(lib, dirs).items == [JStr(ReadBack(lib, dirs[0]))] + ListJson(lib, dirs[1..]).items;
    }
  }

  lemma ListValue(lib: Lib, s: Text, p: nat, dirs: seq<Text>)
    requires LibOk(lib) && dirs != [] && Same(ListText(lib, dirs), s, 0, |ListText(lib, dirs)|, p)
    ensures Value(lib, s, p, 1).Ok? && Value(lib, s, p, 1).next == p + |ListText(lib, dirs)|
            && Value(lib, s, p, 1).val.at == p
    ensures Plain(Value(lib, s, p, 1).val) == ListJson(lib, dirs)
  {
    hide Members, Entry, Scalar, ReadBack, Plain, PlainItems, PlainKeys, Str, CloseQuote, AfterItem;
    var l, tail := ListText(lib, dirs), ListTail(lib, dirs);
    assert Same(tail, s, 0, |tail|, p + 1) by {
      forall q {:trigger tail[q]} | 0 <= q < |tail| ensures s[q + (p + 1)] == tail[q] { assert l[q + 1] == tail[q]; }
    }
    assert s[0 + p] == l[0];
    assert s[0 + (p + 1)] == tail[0];
    assert tail[0] == QUOTE by { assert JsonGrammar.IsToken(lib.quote(dirs[0])); }
    WsRun(s, p, p);
    WsRun(s, p + 1, p + 1);
    TailItems(lib, s, p + 1, dirs, []);
    ArrayPlain(Value(lib, s, p, 1).val);
  }

  lemma ArrayPlain(n: Node)
    requires n.kind == KArr
    ensures Plain(n) == JArr(PlainItems(n.items))
  {
  }

  /** The value of a member depends on where its white space ends only. */
  lemma ValueFromWs(lib: Lib, s: Text, i: nat, depth: nat)
    requires i <= |s| && depth <= MAX_DEPTH
    ensures Value(lib, s, i, depth) == Value(lib, s, SkipWs(s, i), depth)
  {
    hide Members, Items, Entry, Scalar;
    WsRun(s, SkipWs(s, i), SkipWs(s, i));
  }

  /** The same key with another value behind it. */
  lemma EntryNewValue(lib: Lib, s: Text, s2: Text, i: nat)
    requires i <= |s| && Entry(lib, s, i, 0).Ok? && SkipWs(s, i) == i
    requires var at := Entry(lib, s, i, 0).val.val.at;
             Same(s, s2, i, at, 0) && at < |s2| && !IsWs(s2[at]) && Value(lib, s2, at, 1).Ok?
    ensures var kv := Entry(lib, s, i, 0).val; var v := Value(lib, s2, kv.val.at, 1);
            Entry(lib, s2, i, 0) == Ok(KeyVal(kv.key, kv.at, v.val), v.next)
  {
    hide Value, Members, Items, CloseQuote, Plain, WordAt, HasKey, IsDigit, IsNumByte, IsWs, NumEnd, PlainItems,
         SkipWs, Str, AfterItem, PlainKeys, Scalar;
    var kv := Entry(lib, s, i, 0).val;
    var e := Str(lib, s, i).next;
    var c := SkipWs(s, e);
    var at := kv.val.at;
    assert s2[i + 0] == s[i];
    WsRun(s2, i, i);
    StrLocal(lib, s, s2, i, 0);
    WsLocal(s, s2, e, at, 0);
    assert s2[c + 0] == s[c];
    WsBytes(s, c + 1);
    forall q {:trigger s2[q]} | c + 1 <= q < at ensures IsWs(s2[q]) { assert s2[q + 0] == s[q]; }
    WsRun(s2, c + 1, at);
    ValueFromWs(lib, s2, c + 1, 1);
  }

  lemma NewEntry(lib: Lib, s: Text, p: nat, dirs: seq<Text>)
    requires LibOk(lib) && dirs != [] && Same(EntryText(lib, dirs), s, 0, |EntryText(lib, dirs)|, p)
    ensures var r := Entry(lib, s, p, 0);
            && r.Ok? && r.next == p + |EntryText(lib, dirs)|
            && r.val.key == REPLACE && r.val.at == p
            && Plain(r.val.val) == ListJson(lib, dirs)
  {
    hide Value, Plain, WordAt, IsDigit, IsNumByte, JsonGrammar.IsToken, Members, NumEnd, PlainItems, AfterItem,
         CloseQuote, HasKey, Items, ListJson, ListTail, PlainKeys, ReadBack, Scalar, SkipWs;
    var t, l := EntryText(lib, dirs), ListText(lib, dirs);
    assert Same(REPLACE_TOKEN, s, 0, 9, p) by {
      forall q {:trigger REPLACE_TOKEN[q]} | 0 <= q < 9
        ensures s[q + p] == REPLACE_TOKEN[q] { assert t[q] == REPLACE_TOKEN[q]; }
    }
    assert s[p] == QUOTE by { assert s[0 + p] == REPLACE_TOKEN[0]; }
    ReplaceTokenCloses();
    CloseQuoteLocal(REPLACE_TOKEN, s, 1, 0, p, p);
    assert s[p..p + 9] == REPLACE_TOKEN;
    assert s[9 + p] == t[9] == COLON && s[10 + p] == t[10] == SPACE;
    assert Same(l, s, 0, |l|, p + 11) by {
      forall q {:trigger l[q]} | 0 <= q < |l|
        ensures s[q + (p + 11)] == l[q] { assert t[q + 11] == l[q]; assert s[(q + 11) + p] == t[q + 11]; }
    }
    assert s[0 + (p + 11)] == l[0] == LBRACKET;
    ListValue(lib, s, p + 11, dirs);
    WsRun(s, p, p);
    WsRun(s, p + 9, p + 9);
    WsRun(s, p + 10, p + 11);
    ValueFromWs(lib, s, p + 10, 1);
  }

  lemma ReplaceTokenCloses()
    ensures CloseQuote(REPLACE_TOKEN, 1, 0) == Ok(Unit, 9)
  {
    var t := REPLACE_TOKEN;
    assert |t| == 9;
    assert CloseQuote(t, 8, 0) == Ok(Unit, 9);
    assert CloseQuote(t, 7, 0) == CloseQuote(t, 8, 0);
    assert CloseQuote(t, 6, 0) == CloseQuote(t, 7, 0);
    assert CloseQuote(t, 5, 0) == CloseQuote(t, 6, 0);
    assert CloseQuote(t, 4, 0) == CloseQuote(t, 5, 0);
    assert CloseQuote(t, 3, 0) == CloseQuote(t, 4, 0);
    assert CloseQuote(t, 2, 0) == CloseQuote(t, 3, 0);
  }
}
