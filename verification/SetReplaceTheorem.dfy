/** The text written by `SetReplace` parses again, to the document one expects; and clearing a
    list that was not there before gives the original bytes back. */
module SetReplaceTheorem {
  import opened JsonSpec
  import opened JsonLocality
  import opened SetReplace
  import opened SetReplaceReparse

  /** An object's members start at `j`, are `ks`, close before `e`, and only white space follows. */
  ghost predicate Reads(lib: Lib, s: Text, j: nat, ks: seq<KeyVal>, e: nat) {
    j <= |s| && Members(lib, s, j, 0, []) == Ok(ks, e) && SkipWs(s, j) == j && e <= |s| && SkipWs(s, e) == |s|
  }

  /** `ks2` is `acc` followed by the members of `ks` from the k-th on, `d` further on. */
  ghost predicate Appended(ks2: seq<KeyVal>, acc: seq<KeyVal>, ks: seq<KeyVal>, k: nat, d: int) {
    && k <= |ks| && acc <= ks2 && |ks2| == |acc| + |ks| - k
    && forall m {:trigger ks[m]} :: k <= m < |ks| ==> MovedMember(ks[m], ks2[m - k + |acc|], d)
  }

  /** The documents of `read`, then of `news`, then of the members from the k2-th on. */
  lemma PlainSpliced(ks: seq<KeyVal>, k: nat, read: seq<KeyVal>, news: seq<KeyVal>, k2: nat, ks2: seq<KeyVal>, d: int)
    requires k <= |ks| && SameMembers(ks[..k], read, 0) && Appended(ks2, read + news, ks, k2, d)
    ensures |ks2| == k + |news| + |ks| - k2
    ensures PlainKeys(ks2) == PlainKeys(ks)[..k] + PlainKeys(news) + PlainKeys(ks)[k2..]
  {
    hide Plain, MovedMember, SameMembers, Appended;
    SplicedLengths(ks, k, read, news, k2, ks2, d);
    var l, r := PlainKeys(ks2), PlainKeys(ks)[..k] + PlainKeys(news) + PlainKeys(ks)[k2..];
    forall m | 0 <= m < |l| ensures l[m] == r[m] {
      SplicedAt(ks, k, read, news, k2, ks2, d, m);
      ThreeAt(PlainKeys(ks)[..k], PlainKeys(news), PlainKeys(ks)[k2..], m);
    }
  }

  lemma ThreeAt(a: seq<Member>, b: seq<Member>, c: seq<Member>, m: nat)
    requires m < |a| + |b| + |c|
    ensures (a + b + c)[m] == if m < |a| then a[m] else if m < |a| + |b| then b[m - |a|] else c[m - |a| - |b|]
  {
  }

  lemma SplicedLengths(ks: seq<KeyVal>, k: nat, read: seq<KeyVal>, news: seq<KeyVal>, k2: nat, ks2: seq<KeyVal>, d: int)
    requires k <= |ks| && SameMembers(ks[..k], read, 0) && Appended(ks2, read + news, ks, k2, d)
    ensures |ks2| == k + |news| + |ks| - k2 && |read| == k && k2 <= |ks|
  {
    hide Plain, MovedMember;
  }

  /** Where the m-th member of a spliced object comes from. */
  lemma SplicedAt(ks: seq<KeyVal>, k: nat, read: seq<KeyVal>, news: seq<KeyVal>, k2: nat, ks2: seq<KeyVal>, d: int,
                  m: nat)
    requires k <= |ks| && SameMembers(ks[..k], read, 0) && Appended(ks2, read + news, ks, k2, d) && m < |ks2|
    ensures |ks2| == k + |news| + |ks| - k2 && k2 <= |ks|
    ensures var from := if m < k then ks[m] else if m < k + |news| then news[m - k] else ks[m - k - |news| + k2];
            ks2[m].key == from.key && Plain(ks2[m].val) == Plain(from.val)
  {
    hide Plain;
    SplicedLengths(ks, k, read, news, k2, ks2, d);
    if m < k {
      assert MovedMember(ks[..k][m], read[m], 0);
      assert ks2[m] == (read + news)[m];
    } else if m < k + |news| {
      assert ks2[m] == (read + news)[m];
    } else {
      assert MovedMember(ks[m - k - |news| + k2], ks2[m], d);
    }
  }

  lemma PlainOne(kv: KeyVal)
    ensures PlainKeys([kv]) == [Member(kv.key, Plain(kv.val))]
  {
  }

  /** No later key is among the keys read before it. */
  lemma LaterKeysNew(lib: Lib, s: Text, j: nat, ks: seq<KeyVal>, e: nat, k: nat, read: seq<KeyVal>)
    requires Reads(lib, s, j, ks, e) && k <= |ks| && SameMembers(ks[..k], read, 0)
    ensures forall m :: k <= m < |ks| ==> !HasKey(read, ks[m].key)
  {
    hide Members, MovedMember;
    forall m | k <= m < |ks| ensures !HasKey(read, ks[m].key) {
      SameKeys(ks[..k], read, 0, ks[m].key);
    }
  }

  /** From the loop head at the k-th member on, read in the second text. */
  lemma Rest(lib: Lib, s: Text, s2: Text, j: nat, ks: seq<KeyVal>, e: nat, k: nat, d: int, acc: seq<KeyVal>)
      returns (ks2: seq<KeyVal>)
    requires Reads(lib, s, j, ks, e) && k < |ks|
    requires ks[k].at <= |s| && Same(s, s2, ks[k].at, |s|, d) && |s2| == |s| + d
    requires forall m :: k <= m < |ks| ==> !HasKey(acc, ks[m].key)
    ensures var r := Members(lib, s2, ks[k].at + d, 0, acc); r.Ok? && r.val == ks2 && r.next == e + d
    ensures Appended(ks2, acc, ks, k, d)
    ensures SkipWs(s2, e + d) == |s2|
  {
    hide Members, MovedMember, HasKey, Entry, AfterItem;
    Passes(lib, s, j, 0, [], k);
    MembersLocal(lib, s, s2, ks[k].at, d, 0, ks[..k], acc);
    WsToEnd(s, s2, e, d);
    ks2 := Members(lib, s2, ks[k].at + d, 0, acc).val;
  }

  /** A member of the second text whose end stands for the end of the k-th: what follows the
      k-th in the first text follows it in the second. */
  lemma RestAfter(lib: Lib, s: Text, s2: Text, j: nat, ks: seq<KeyVal>, e: nat, k: nat, d: int, acc: seq<KeyVal>,
                  i2: nat)
      returns (ks2: seq<KeyVal>)
    requires Reads(lib, s, j, ks, e) && k < |ks|
    requires ks[k].val.end <= |s| && Same(s, s2, ks[k].val.end, |s|, d) && |s2| == |s| + d
    requires i2 <= |s2| && Entry(lib, s2, i2, 0).Ok? && Entry(lib, s2, i2, 0).next == ks[k].val.end + d
    requires !HasKey(acc, Entry(lib, s2, i2, 0).val.key)
    requires forall m :: k < m < |ks| ==> !HasKey(acc, ks[m].key) && Entry(lib, s2, i2, 0).val.key != ks[m].key
    ensures var r := Members(lib, s2, i2, 0, acc); r.Ok? && r.val == ks2 && r.next == e + d
    ensures Appended(ks2, acc + [Entry(lib, s2, i2, 0).val], ks, k + 1, d)
    ensures SkipWs(s2, e + d) == |s2|
  {
    hide *;
    if k + 1 < |ks| {
      ks2 := RestBehind(lib, s, s2, j, ks, e, k, d, acc, i2);
    } else {
      ks2 := NothingBehind(lib, s, s2, j, ks, e, k, d, acc, i2);
    }
  }

  lemma RestBehind(lib: Lib, s: Text, s2: Text, j: nat, ks: seq<KeyVal>, e: nat, k: nat, d: int, acc: seq<KeyVal>,
                   i2: nat)
      returns (ks2: seq<KeyVal>)
    requires Reads(lib, s, j, ks, e) && k + 1 < |ks|
    requires ks[k].val.end <= |s| && Same(s, s2, ks[k].val.end, |s|, d) && |s2| == |s| + d
    requires i2 <= |s2| && Entry(lib, s2, i2, 0).Ok? && Entry(lib, s2, i2, 0).next == ks[k].val.end + d
    requires !HasKey(acc, Entry(lib, s2, i2, 0).val.key)
    requires forall m :: k < m < |ks| ==> !HasKey(acc, ks[m].key) && Entry(lib, s2, i2, 0).val.key != ks[m].key
    ensures var r := Members(lib, s2, i2, 0, acc); r.Ok? && r.val == ks2 && r.next == e + d
    ensures Appended(ks2, acc + [Entry(lib, s2, i2, 0).val], ks, k + 1, d)
    ensures SkipWs(s2, e + d) == |s2|
  {
    hide Members, MovedMember, HasKey, Entry, AfterItem, SkipWs, Appended;
    var kv2 := Entry(lib, s2, i2, 0).val;
    Passes(lib, s, j, 0, [], k);
    Passes(lib, s, j, 0, [], k + 1);
    KeyQuote(lib, s, ks[k + 1].at);
    assert s2[ks[k + 1].at + d] == s[ks[k + 1].at];
    AfterItemLocal(s, s2, ks[k].val.end, RBRACE, d);
    Turn(lib, s2, i2, 0, acc);
    forall m | k + 1 <= m < |ks| ensures !HasKey(acc + [kv2], ks[m].key) {
      NoKeyAppended(acc, kv2, ks[m].key);
    }
    ks2 := Rest(lib, s, s2, j, ks, e, k + 1, d, acc + [kv2]);
  }

  lemma NothingBehind(lib: Lib, s: Text, s2: Text, j: nat, ks: seq<KeyVal>, e: nat, k: nat, d: int, acc: seq<KeyVal>,
                      i2: nat)
      returns (ks2: seq<KeyVal>)
    requires Reads(lib, s, j, ks, e) && k + 1 == |ks|
    requires ks[k].val.end <= |s| && Same(s, s2, ks[k].val.end, |s|, d) && |s2| == |s| + d
    requires i2 <= |s2| && Entry(lib, s2, i2, 0).Ok? && Entry(lib, s2, i2, 0).next == ks[k].val.end + d
    requires !HasKey(acc, Entry(lib, s2, i2, 0).val.key)
    ensures var r := Members(lib, s2, i2, 0, acc); r.Ok? && r.val == ks2 && r.next == e + d
    ensures Appended(ks2, acc + [Entry(lib, s2, i2, 0).val], ks, k + 1, d)
    ensures SkipWs(s2, e + d) == |s2|
  {
    hide Members, MovedMember, HasKey, Entry, AfterItem;
    Passes(lib, s, j, 0, [], k);
    AfterItemLocal(s, s2, ks[k].val.end, RBRACE, d);
    Turn(lib, s2, i2, 0, acc);
    WsToEnd(s, s2, e, d);
    ks2 := acc + [Entry(lib, s2, i2, 0).val];
  }

  /** A member starts with a quote, and behind it something that is no part of a number. */
  lemma KeyQuote(lib: Lib, s: Text, i: nat)
    requires i <= |s| && Entry(lib, s, i, 0).Ok? && Entry(lib, s, i, 0).val.at == i
    ensures ByteAt(s, i, QUOTE) && SkipWs(s, i) == i
  {
    hide Value, Str;
  }

  /** Reach from the very start of the members. */
  lemma ReachFromStart(lib: Lib, s: Text, s2: Text, j: nat, ks: seq<KeyVal>, e: nat, k: nat) returns (read: seq<KeyVal>)
    requires Reads(lib, s, j, ks, e) && k < |ks| && ks[k].at <= |s|
    requires Same(s, s2, 0, ks[k].at, 0) && ByteAt(s2, ks[k].at, QUOTE)
    ensures j <= ks[0].at <= ks[k].at && SameMembers(ks[..k], read, 0)
    ensures Members(lib, s2, j, 0, []) == Members(lib, s2, ks[k].at, 0, read)
    ensures forall m :: k <= m < |ks| ==> !HasKey(read, ks[m].key)
    ensures SkipWs(s2, j) == j && ByteAt(s2, j, QUOTE) && ByteAt(s, j, QUOTE)
    ensures SkipWs(s, ks[k].at) == ks[k].at && ByteAt(s, ks[k].at, QUOTE)
  {
    hide Members, MovedMember, HasKey;
    MembersInOrder(lib, s, j, 0, []);
    QuoteAt(lib, s, s2, j, [], k, k);
    QuoteAt(lib, s, s2, j, [], 0, k);
    Passes(lib, s, j, 0, [], 0);
    WsRun(s2, j, j);
    read := Reach(lib, s, s2, j, [], [], k);
    LaterKeysNew(lib, s, j, ks, e, k, read);
  }

  // ---- the cases of the editor ----

  /** "replace" is the k-th key and gets a new list. */
  lemma InPlace(lib: Lib, s: Text, j: nat, ks: seq<KeyVal>, e: nat, k: nat, dirs: seq<Text>)
    returns (ks2: seq<KeyVal>, e2: nat)
    requires LibOk(lib) && Reads(lib, s, j, ks, e) && k < |ks| && dirs != []
    requires ks[k].at < ks[k].val.at < ks[k].val.end <= |s|
    ensures var s2 := Splice(s, ks[k].val.at, ks[k].val.end, ListText(lib, dirs));
            Reads(lib, s2, j, ks2, e2) && |ks2| == |ks|
            && PlainKeys(ks2) == PlainKeys(ks)[..k] + [Member(ks[k].key, ListJson(lib, dirs))] + PlainKeys(ks)[k + 1..]
  {
    hide Members, MovedMember, HasKey, Value, Plain, PlainKeys, ListText, ListJson, Entry, Splice, AfterItem,
         SameMembers;
    var l := ListText(lib, dirs);
    var s2 := Splice(s, ks[k].val.at, ks[k].val.end, l);
    var d := |l| - (ks[k].val.end - ks[k].val.at);
    SpliceSame(s, ks[k].val.at, ks[k].val.end, l);
    Passes(lib, s, j, 0, [], k);
    KeyQuote(lib, s, ks[k].at);
    assert s2[ks[k].at + 0] == s[ks[k].at];
    var read := ReachFromStart(lib, s, s2, j, ks, e, k);
    ListValue(lib, s2, ks[k].val.at, dirs);
    ListStart(lib, s2, ks[k].val.at, dirs);
    EntryNewValue(lib, s, s2, ks[k].at);
    DistinctKeys(lib, s, j, ks, e);
    ks2 := RestAfter(lib, s, s2, j, ks, e, k, d, read, ks[k].at);
    e2 := e + d;
    var kv2 := Entry(lib, s2, ks[k].at, 0).val;
    PlainSpliced(ks, k, read, [kv2], k + 1, ks2, d);
    PlainOne(kv2);
  }

  lemma ListStart(lib: Lib, s2: Text, at: nat, dirs: seq<Text>)
    requires dirs != [] && Same(ListText(lib, dirs), s2, 0, |ListText(lib, dirs)|, at)
    ensures at < |s2| && !IsWs(s2[at])
  {
    assert s2[0 + at] == ListText(lib, dirs)[0];
  }

  lemma DistinctKeys(lib: Lib, s: Text, j: nat, ks: seq<KeyVal>, e: nat)
    requires Reads(lib, s, j, ks, e)
    ensures forall m, l :: 0 <= m < |ks| && 0 <= l < m ==> ks[l].key != ks[m].key
  {
    hide Members;
  }

  /** The k-th key is taken out, and another key follows. */
  lemma RemoveMiddle(lib: Lib, s: Text, j: nat, ks: seq<KeyVal>, e: nat, k: nat) returns (ks2: seq<KeyVal>, e2: nat)
    requires Reads(lib, s, j, ks, e) && k + 1 < |ks| && ks[k].at <= ks[k + 1].at <= |s|
    ensures Reads(lib, Splice(s, ks[k].at, ks[k + 1].at, []), j, ks2, e2)
    ensures |ks2| == |ks| - 1 && PlainKeys(ks2) == PlainKeys(ks)[..k] + PlainKeys(ks)[k + 1..]
  {
    hide *;
    var read;
    ks2, e2, read := ReadWithout(lib, s, j, ks, e, k);
    NothingSpliced(ks, k, read, ks2, ks[k].at - ks[k + 1].at);
  }

  lemma NothingSpliced(ks: seq<KeyVal>, k: nat, read: seq<KeyVal>, ks2: seq<KeyVal>, d: int)
    requires k < |ks| && SameMembers(ks[..k], read, 0) && Appended(ks2, read, ks, k + 1, d)
    ensures |ks2| == |ks| - 1 && PlainKeys(ks2) == PlainKeys(ks)[..k] + PlainKeys(ks)[k + 1..]
  {
    assert read + [] == read && PlainKeys([]) == [];
    hide *;
    PlainSpliced(ks, k, read, [], k + 1, ks2, d);
    assert PlainKeys(ks)[..k] + [] == PlainKeys(ks)[..k];
  }

  /** The text without it is read: the keys before it, then those behind it. */
  lemma ReadWithout(lib: Lib, s: Text, j: nat, ks: seq<KeyVal>, e: nat, k: nat)
    returns (ks2: seq<KeyVal>, e2: nat, read: seq<KeyVal>)
    requires Reads(lib, s, j, ks, e) && k + 1 < |ks| && ks[k].at <= ks[k + 1].at <= |s|
    ensures Reads(lib, Splice(s, ks[k].at, ks[k + 1].at, []), j, ks2, e2)
    ensures SameMembers(ks[..k], read, 0) && Appended(ks2, read, ks, k + 1, ks[k].at - ks[k + 1].at)
  {
    hide Members, MovedMember, HasKey, Entry, Splice, AfterItem, SameMembers, Appended, SkipWs;
    var s2 := Splice(s, ks[k].at, ks[k + 1].at, []);
    var d := ks[k].at - ks[k + 1].at;
    SpliceSame(s, ks[k].at, ks[k + 1].at, []);
    Passes(lib, s, j, 0, [], k + 1);
    KeyQuote(lib, s, ks[k + 1].at);
    assert s2[ks[k + 1].at + d] == s[ks[k + 1].at];
    read := ReachFromStart(lib, s, s2, j, ks, e, k);
    ks2 := Rest(lib, s, s2, j, ks, e, k + 1, d, read);
    e2 := e + d;
  }

  /** The last key is taken out together with the comma before it. */
  lemma RemoveLast(lib: Lib, s: Text, j: nat, ks: seq<KeyVal>, e: nat) returns (ks2: seq<KeyVal>, e2: nat)
    requires Reads(lib, s, j, ks, e) && |ks| >= 2
    requires var k := |ks| - 1; ks[k - 1].at < ks[k - 1].val.end < ks[k].val.end <= |s|
    ensures var k := |ks| - 1;
            && Reads(lib, Splice(s, ks[k - 1].val.end, ks[k].val.end, []), j, ks2, e2)
            && |ks2| == k && PlainKeys(ks2) == PlainKeys(ks)[..k]
  {
    hide *;
    var read, kv2;
    ks2, e2, read, kv2 := ReadToLast(lib, s, j, ks, e);
    LastSpliced(ks, read, kv2, ks2, ks[|ks| - 2].val.end - ks[|ks| - 1].val.end);
  }

  lemma LastSpliced(ks: seq<KeyVal>, read: seq<KeyVal>, kv2: KeyVal, ks2: seq<KeyVal>, d: int)
    requires |ks| >= 2 && SameMembers(ks[..|ks| - 2], read, 0) && Appended(ks2, read + [kv2], ks, |ks|, d)
    requires MovedMember(ks[|ks| - 2], kv2, 0)
    ensures |ks2| == |ks| - 1 && PlainKeys(ks2) == PlainKeys(ks)[..|ks| - 1]
  {
    hide Plain, PlainKeys, SameMembers, Appended, MovedMember;
    var k := |ks| - 2;
    PlainSpliced(ks, k, read, [kv2], k + 2, ks2, d);
    MovedKey(ks[k], kv2);
    PlainOne(kv2);
    PlainAt(ks, k);
    assert PlainKeys(ks)[k + 2..] == [];
  }

  /** The text without the last member is read: the keys up to the one before it. */
  lemma ReadToLast(lib: Lib, s: Text, j: nat, ks: seq<KeyVal>, e: nat)
    returns (ks2: seq<KeyVal>, e2: nat, read: seq<KeyVal>, kv2: KeyVal)
    requires Reads(lib, s, j, ks, e) && |ks| >= 2
    requires var k := |ks| - 1; ks[k - 1].at < ks[k - 1].val.end < ks[k].val.end <= |s|
    ensures var k := |ks| - 1;
            && Reads(lib, Splice(s, ks[k - 1].val.end, ks[k].val.end, []), j, ks2, e2)
            && SameMembers(ks[..k - 1], read, 0) && MovedMember(ks[k - 1], kv2, 0)
            && Appended(ks2, read + [kv2], ks, k + 1, ks[k - 1].val.end - ks[k].val.end)
  {
    hide Members, MovedMember, HasKey, Plain, PlainKeys, Entry, AfterItem, Splice, SameMembers, Value, Str, SkipWs,
         Appended;
    var k := |ks| - 1;
    var s2 := Splice(s, ks[k - 1].val.end, ks[k].val.end, []);
    var d := ks[k - 1].val.end - ks[k].val.end;
    SpliceSame(s, ks[k - 1].val.end, ks[k].val.end, []);
    Passes(lib, s, j, 0, [], k);
    Passes(lib, s, j, 0, [], k - 1);
    KeyQuote(lib, s, ks[k - 1].at);
    assert s2[ks[k - 1].at + 0] == s[ks[k - 1].at];
    read := ReachFromStart(lib, s, s2, j, ks, e, k - 1);
    AfterItemLocal(s, s2, ks[k].val.end, RBRACE, d);
    EntryLocal(lib, s, s2, ks[k - 1].at, 0, 0);
    kv2 := Entry(lib, s2, ks[k - 1].at, 0).val;
    MovedKey(ks[k - 1], kv2);
    ks2 := RestAfter(lib, s, s2, j, ks, e, k, d, read, ks[k - 1].at);
    e2 := e + d;
  }

  lemma MovedKey(kv: KeyVal, kv2: KeyVal)
    requires MovedMember(kv, kv2, 0)
    ensures kv2.key == kv.key && Plain(kv2.val) == Plain(kv.val)
  {
  }

  lemma PlainAt(ks: seq<KeyVal>, k: nat)
    requires k < |ks|
    ensures PlainKeys(ks)[k] == Member(ks[k].key, Plain(ks[k].val))
  {
  }

  /** How the new member, its comma and its separator lie in front of an old member. */
  lemma FrontLayout(lib: Lib, s: Text, s2: Text, at: nat, dirs: seq<Text>)
    requires at <= |s|
    requires var mid := EntryText(lib, dirs) + [COMMA] + Separator(s, at);
             Same(mid, s2, 0, |mid|, at) && ByteAt(s2, at + |mid|, QUOTE)
    ensures var entry := EntryText(lib, dirs);
            && ByteAt(s2, at, QUOTE) && Same(entry, s2, 0, |entry|, at)
            && AfterItem(s2, at + |entry|, RBRACE) == Ok(true, at + |entry| + 1 + |Separator(s, at)|)
  {
    hide EntryText, Separator;
    var entry, sep := EntryText(lib, dirs), Separator(s, at);
    var mid := entry + [COMMA] + sep;
    MidSame(mid, s2, at, 0, entry);
    EntryStart(lib, s2, at, dirs);
    assert s2[|entry| + at] == mid[|entry|];
    SeparatorWs(s, at);
    forall q {:trigger s2[q]} | at + |entry| < q < at + |mid| ensures IsWs(s2[q]) {
      assert s2[(q - at) + at] == mid[q - at] == sep[q - at - |entry| - 1];
    }
    AfterComma(s2, at + |entry|, at + |entry|, at + |mid|, RBRACE);
  }

  /** The new member is put in front of the k-th. */
  lemma InsertBefore(lib: Lib, s: Text, j: nat, ks: seq<KeyVal>, e: nat, k: nat, dirs: seq<Text>)
    returns (ks2: seq<KeyVal>, e2: nat)
    requires LibOk(lib) && Reads(lib, s, j, ks, e) && k < |ks| && dirs != [] && !HasKey(ks, REPLACE) && ks[k].at <= |s|
    ensures Reads(lib, Splice(s, ks[k].at, ks[k].at, EntryText(lib, dirs) + [COMMA] + Separator(s, ks[k].at)), j, ks2,
                  e2)
    ensures |ks2| == |ks| + 1
            && PlainKeys(ks2) == PlainKeys(ks)[..k] + [Member(REPLACE, ListJson(lib, dirs))] + PlainKeys(ks)[k..]
    ensures ks2[k].at == ks[k].at && ks2[k + 1].at == ks[k].at + |EntryText(lib, dirs)| + 1 + |Separator(s, ks[k].at)|
  {
    hide Members, MovedMember, HasKey, Plain, PlainKeys, Entry, AfterItem, EntryText, Separator, ListJson, Splice,
         SameMembers;
    var at, entry, sep := ks[k].at, EntryText(lib, dirs), Separator(s, ks[k].at);
    var mid := entry + [COMMA] + sep;
    var s2 := Splice(s, at, at, mid);
    SpliceSame(s, at, at, mid);
    Passes(lib, s, j, 0, [], k);
    KeyQuote(lib, s, at);
    assert s2[at + |mid|] == s[at];
    FrontLayout(lib, s, s2, at, dirs);
    var read := ReachFromStart(lib, s, s2, j, ks, e, k);
    NewEntry(lib, s2, at, dirs);
    var kv2 := Entry(lib, s2, at, 0).val;
    NotRead(ks, k, read, REPLACE);
    Turn(lib, s2, at, 0, read);
    forall m | k <= m < |ks| ensures !HasKey(read + [kv2], ks[m].key) {
      KeyNotReplace(ks, m);
      NoKeyAppended(read, kv2, ks[m].key);
    }
    ks2 := Rest(lib, s, s2, j, ks, e, k, |mid|, read + [kv2]);
    e2 := e + |mid|;
    PlainSpliced(ks, k, read, [kv2], k, ks2, |mid|);
    PlainOne(kv2);
    SameLength(ks[..k], read);
    assert ks2[k] == (read + [kv2])[k];
    assert MovedMember(ks[k], ks2[k + 1], |mid|);
    MovedAt(ks[k], ks2[k + 1], |mid|);
  }

  lemma SameLength(ks: seq<KeyVal>, read: seq<KeyVal>)
    requires SameMembers(ks, read, 0)
    ensures |ks| == |read|
  {
  }

  lemma MovedAt(kv: KeyVal, kv2: KeyVal, d: int)
    requires MovedMember(kv, kv2, d)
    ensures kv2.at == kv.at + d && kv2.val.end == kv.val.end + d
  {
  }

  lemma MidSame(mid: Text, s2: Text, at: nat, off: nat, part: Text)
    requires Same(mid, s2, 0, |mid|, at) && off + |part| <= |mid| && mid[off..off + |part|] == part
    ensures Same(part, s2, 0, |part|, at + off)
  {
    forall q {:trigger part[q]} | 0 <= q < |part| ensures s2[q + (at + off)] == part[q] {
      assert mid[q + off] == mid[off..off + |part|][q];
      assert s2[(q + off) + at] == mid[q + off];
    }
  }

  lemma EntryStart(lib: Lib, s2: Text, at: nat, dirs: seq<Text>)
    requires Same(EntryText(lib, dirs), s2, 0, |EntryText(lib, dirs)|, at)
    ensures ByteAt(s2, at, QUOTE)
  {
    assert s2[0 + at] == EntryText(lib, dirs)[0];
  }

  lemma SeparatorWs(s: Text, at: nat)
    requires at <= |s|
    ensures forall q {:trigger Separator(s, at)[q]} :: 0 <= q < |Separator(s, at)| ==> IsWs(Separator(s, at)[q])
  {
    BlanksAreWs(s, at);
  }

  lemma {:induction false} BlanksAreWs(s: Text, at: nat)
    requires at <= |s|
    ensures forall q {:trigger s[q]} :: BlankStart(s, at) <= q < at ==> IsWs(s[q])
  {
    if at > 0 && (s[at - 1] == SPACE || s[at - 1] == TAB) {
      BlanksAreWs(s, at - 1);
    }
  }

  lemma NotRead(ks: seq<KeyVal>, k: nat, read: seq<KeyVal>, key: Text)
    requires k <= |ks| && SameMembers(ks[..k], read, 0) && !HasKey(ks, key)
    ensures !HasKey(read, key)
  {
    SameKeys(ks[..k], read, 0, key);
  }

  lemma KeyNotReplace(ks: seq<KeyVal>, m: nat)
    requires m < |ks| && !HasKey(ks, REPLACE)
    ensures ks[m].key != REPLACE
  {
  }

  /** The new member is put behind the last. */
  lemma InsertLast(lib: Lib, s: Text, j: nat, ks: seq<KeyVal>, e: nat, dirs: seq<Text>)
    returns (ks2: seq<KeyVal>, e2: nat)
    requires LibOk(lib) && Reads(lib, s, j, ks, e) && ks != [] && dirs != [] && !HasKey(ks, REPLACE)
    requires var k := |ks| - 1; ks[k].at < ks[k].val.end <= |s|
    ensures var k := |ks| - 1;
            && Reads(lib,
                     Splice(s, ks[k].val.end, ks[k].val.end,
                            [COMMA] + Separator(s, ks[k].at) + EntryText(lib, dirs)), j, ks2, e2)
            && |ks2| == |ks| + 1 && PlainKeys(ks2) == PlainKeys(ks) + [Member(REPLACE, ListJson(lib, dirs))]
            && ks2[k].val.end == ks[k].val.end
            && ks2[k + 1].val.end == ks[k].val.end + 1 + |Separator(s, ks[k].at)| + |EntryText(lib, dirs)|
  {
    hide *;
    var read, kv, kv2;
    ks2, e2, read, kv, kv2 := ReadInserted(lib, s, j, ks, e, dirs);
    PairSpliced(lib, ks, read, kv, kv2, ks2, |EntryText(lib, dirs)| + 1 + |Separator(s, ks[|ks| - 1].at)|, dirs);
  }

  lemma PairSpliced(lib: Lib, ks: seq<KeyVal>, read: seq<KeyVal>, kv: KeyVal, kv2: KeyVal, ks2: seq<KeyVal>, d: int,
                    dirs: seq<Text>)
    requires ks != [] && SameMembers(ks[..|ks| - 1], read, 0) && Appended(ks2, read + [kv, kv2], ks, |ks|, d)
    requires MovedMember(ks[|ks| - 1], kv, 0) && kv2.key == REPLACE && Plain(kv2.val) == ListJson(lib, dirs)
    ensures |ks2| == |ks| + 1 && PlainKeys(ks2) == PlainKeys(ks) + [Member(REPLACE, ListJson(lib, dirs))]
    ensures ks2[|ks| - 1] == kv && ks2[|ks|] == kv2
  {
    hide Plain, PlainKeys, SameMembers, MovedMember, ListJson;
    var k := |ks| - 1;
    SameLength(ks[..k], read);
    assert ks2[k] == (read + [kv, kv2])[k] && ks2[k + 1] == (read + [kv, kv2])[k + 1];
    hide Appended;
    PlainSpliced(ks, k, read, [kv, kv2], k + 1, ks2, d);
    PlainTwo(kv, kv2);
    MovedKey(ks[k], kv);
    PlainAt(ks, k);
    assert PlainKeys(ks)[k + 1..] == [];
  }

  /** The text with the new member behind the last one is read. */
  lemma ReadInserted(lib: Lib, s: Text, j: nat, ks: seq<KeyVal>, e: nat, dirs: seq<Text>)
    returns (ks2: seq<KeyVal>, e2: nat, read: seq<KeyVal>, kv: KeyVal, kv2: KeyVal)
    requires LibOk(lib) && Reads(lib, s, j, ks, e) && ks != [] && dirs != [] && !HasKey(ks, REPLACE)
    requires var k := |ks| - 1; ks[k].at < ks[k].val.end <= |s|
    ensures var k := |ks| - 1;
            var entry, sep := EntryText(lib, dirs), Separator(s, ks[k].at);
            && Reads(lib, Splice(s, ks[k].val.end, ks[k].val.end, [COMMA] + sep + entry), j, ks2, e2)
            && SameMembers(ks[..k], read, 0) && Appended(ks2, read + [kv, kv2], ks, k + 1, |entry| + 1 + |sep|)
            && MovedMember(ks[k], kv, 0) && kv.val.end == ks[k].val.end
            && kv2.key == REPLACE && Plain(kv2.val) == ListJson(lib, dirs)
               && kv2.val.end == ks[k].val.end + 1 + |sep| + |entry|
  {
    hide *;
    var k := |ks| - 1;
    var at, entry, sep := ks[k].val.end, EntryText(lib, dirs), Separator(s, ks[k].at);
    var mid := [COMMA] + sep + entry;
    var s2 := Splice(s, at, at, mid);
    var start := at + 1 + |sep|;
    SplicedIn(s, at, sep, entry);
    read, kv := LastMoved(lib, s, s2, j, ks, e, mid);
    CommaBetween(lib, s, s2, ks[k].at, at, dirs);
    Turn(lib, s2, ks[k].at, 0, read);
    NewEntry(lib, s2, start, dirs);
    kv2 := Entry(lib, s2, start, 0).val;
    EntryEnds(lib, s2, start);
    NotRead(ks, k, read, REPLACE);
    KeyNotReplace(ks, k);
    NoKeyAppended(read, kv, REPLACE);
    ks2 := RestAfter(lib, s, s2, j, ks, e, k, |mid|, read + [kv], start);
    e2 := e + |mid|;
    assert read + [kv] + [kv2] == read + [kv, kv2];
    ReadsFrom(lib, s2, j, ks[k].at, start, read, kv, ks2, e2);
  }

  lemma SplicedIn(s: Text, at: nat, sep: Text, entry: Text)
    requires at <= |s|
    ensures var mid := [COMMA] + sep + entry; var s2 := Splice(s, at, at, mid);
            && |s2| == |s| + |mid| && Same(entry, s2, 0, |entry|, at + 1 + |sep|) && Same(s, s2, at, |s|, |mid|)
  {
    hide Splice, Same;
    var mid := [COMMA] + sep + entry;
    SpliceSame(s, at, at, mid);
    assert mid[1 + |sep|..1 + |sep| + |entry|] == entry;
    MidSame(mid, Splice(s, at, at, mid), at, 1 + |sep|, entry);
  }

  lemma ReadsFrom(lib: Lib, s2: Text, j: nat, i: nat, start: nat, read: seq<KeyVal>, kv: KeyVal, ks2: seq<KeyVal>,
                  e2: nat)
    requires j <= |s2| && i <= |s2| && start <= |s2| && e2 <= |s2|
    requires Members(lib, s2, j, 0, []) == Members(lib, s2, i, 0, read) == Members(lib, s2, start, 0, read + [kv])
    requires Members(lib, s2, start, 0, read + [kv]) == Ok(ks2, e2) && SkipWs(s2, j) == j && SkipWs(s2, e2) == |s2|
    ensures Reads(lib, s2, j, ks2, e2)
  {
    hide Members, SkipWs;
  }

  /** Up to the end of the last member nothing changes. */
  lemma LastMoved(lib: Lib, s: Text, s2: Text, j: nat, ks: seq<KeyVal>, e: nat, mid: Text)
    returns (read: seq<KeyVal>, kv: KeyVal)
    requires Reads(lib, s, j, ks, e) && ks != [] && mid != [] && mid[0] == COMMA
    requires var k := |ks| - 1; ks[k].at < ks[k].val.end <= |s| && s2 == Splice(s, ks[k].val.end, ks[k].val.end, mid)
    ensures var k := |ks| - 1; var at := ks[k].val.end;
            && ks[k].at <= |s2| && j <= |s2|
            && SameMembers(ks[..k], read, 0) && MovedMember(ks[k], kv, 0) && kv.val.end == at && kv.key == ks[k].key
            && Entry(lib, s2, ks[k].at, 0) == Ok(kv, at) && !HasKey(read, kv.key)
            && Members(lib, s2, j, 0, []) == Members(lib, s2, ks[k].at, 0, read) && SkipWs(s2, j) == j
  {
    hide Members, MovedMember, HasKey, Plain, Entry, AfterItem, Splice, SameMembers, Str, Value;
    var k := |ks| - 1;
    var at := ks[k].val.end;
    SpliceSame(s, at, at, mid);
    Passes(lib, s, j, 0, [], k);
    KeyQuote(lib, s, ks[k].at);
    assert s2[ks[k].at + 0] == s[ks[k].at];
    read := ReachFromStart(lib, s, s2, j, ks, e, k);
    assert s2[0 + at] == mid[0];
    EntryLocal(lib, s, s2, ks[k].at, 0, 0);
    kv := Entry(lib, s2, ks[k].at, 0).val;
    MovedKey(ks[k], kv);
    MovedAt(ks[k], kv, 0);
  }

  lemma EntryEnds(lib: Lib, s: Text, i: nat)
    requires i <= |s| && Entry(lib, s, i, 0).Ok?
    ensures Entry(lib, s, i, 0).val.val.end == Entry(lib, s, i, 0).next
  {
    hide Str, SkipWs;
  }

  lemma QuoteNoWs()
    ensures !IsWs(QUOTE)
  {
  }

  /** Between the last member and the new one there are a comma and white space. */
  lemma CommaBetween(lib: Lib, s: Text, s2: Text, key: nat, at: nat, dirs: seq<Text>)
    requires LibOk(lib) && dirs != [] && key <= |s| && at <= |s|
    requires var sep, entry := Separator(s, key), EntryText(lib, dirs);
             s2 == Splice(s, at, at, [COMMA] + sep + entry) && Same(entry, s2, 0, |entry|, at + 1 + |sep|)
    ensures AfterItem(s2, at, RBRACE) == Ok(true, at + 1 + |Separator(s, key)|)
  {
    hide AfterItem, EntryText, Separator, Splice, IsWs, LibOk;
    var sep, entry := Separator(s, key), EntryText(lib, dirs);
    var mid, start := [COMMA] + sep + entry, at + 1 + |sep|;
    SpliceSame(s, at, at, mid);
    assert s2[0 + at] == mid[0];
    EntryStart(lib, s2, start, dirs);
    SeparatorWs(s, key);
    QuoteNoWs();
    forall q {:trigger s2[q]} | at < q < start ensures IsWs(s2[q]) {
      assert s2[(q - at) + at] == mid[q - at] == sep[q - at - 1];
    }
    AfterComma(s2, at, at, start, RBRACE);
  }

  lemma PlainTwo(kv: KeyVal, kv2: KeyVal)
    ensures PlainKeys([kv, kv2]) == [Member(kv.key, Plain(kv.val)), Member(kv2.key, Plain(kv2.val))]
  {
  }

  // ---- the whole document ----

  lemma ObjectValue(lib: Lib, s: Text, i: nat)
    requires i <= |s| && Value(lib, s, i, 0).Ok? && Value(lib, s, i, 0).val.kind == KObj
    ensures var n := Value(lib, s, i, 0).val;
            && n.at == SkipWs(s, i) && n.at < |s| && s[n.at] == LBRACE && n.end <= |s|
            && (n.keys == [] ==> ByteAt(s, SkipWs(s, n.at + 1), RBRACE) && n.end == SkipWs(s, n.at + 1) + 1)
            && (n.keys != [] ==> Members(lib, s, SkipWs(s, n.at + 1), 0, []) == Ok(n.keys, n.end))
  {
    hide Members, Items, Entry, Scalar, AfterItem;
  }

  /** The parts of a document that is an object. */
  lemma ObjectParts(lib: Lib, s: Text)
    requires Parse(lib, s).Ok? && Parse(lib, s).val.kind == KObj
    ensures var root := Parse(lib, s).val;
            && root.at < |s| && s[root.at] == LBRACE && root.at == SkipWs(s, Start(s))
            && (root.keys == [] ==>
                  ByteAt(s, SkipWs(s, root.at + 1), RBRACE) && SkipWs(s, SkipWs(s, root.at + 1) + 1) == |s|)
            && (root.keys != [] ==> Reads(lib, s, SkipWs(s, root.at + 1), root.keys, root.end))
  {
    hide Members, Value;
    ObjectValue(lib, s, Start(s));
    var j := SkipWs(s, Parse(lib, s).val.at + 1);
    assert SkipWs(s, j) == j;
  }

  /** A second text with the same beginning up to the brace is an object again. */
  lemma Rebuild(lib: Lib, s: Text, s2: Text, j2: nat, ks2: seq<KeyVal>, e2: nat) returns (root2: Node)
    requires Parse(lib, s).Ok? && Parse(lib, s).val.kind == KObj
    requires Same(s, s2, 0, Parse(lib, s).val.at + 1, 0) && j2 == SkipWs(s2, Parse(lib, s).val.at + 1)
    requires if ks2 == [] then ByteAt(s2, j2, RBRACE) && SkipWs(s2, j2 + 1) == |s2| else Reads(lib, s2, j2, ks2, e2)
    ensures Parse(lib, s2) == Ok(root2, |s2|) && root2.kind == KObj && root2.keys == ks2
            && root2.at == Parse(lib, s).val.at
  {
    hide Members, Items, Entry, WordAt, IsDigit, IsNumByte, IsWs, NumEnd, CloseQuote, HasKey, SkipWs, Start,
         AfterItem, Scalar, Str;
    var root := Parse(lib, s).val;
    ObjectParts(lib, s);
    StartSame(s, s2, root.at);
    WsLocal(s, s2, Start(s), root.at + 1, 0);
    assert s2[root.at + 0] == s[root.at];
    if ks2 != [] {
      FirstQuote(lib, s2, j2);
    }
    root2 := Parse(lib, s2).val;
  }

  lemma FirstQuote(lib: Lib, s: Text, j: nat)
    requires j <= |s| && Members(lib, s, j, 0, []).Ok? && SkipWs(s, j) == j
    ensures ByteAt(s, j, QUOTE)
  {
    hide Value, Str, AfterItem;
  }

  lemma StartSame(s: Text, s2: Text, at: nat)
    requires Same(s, s2, 0, at + 1, 0) && Start(s) <= at < |s| && s[at] == LBRACE && SkipWs(s, Start(s)) == at
    ensures Start(s2) == Start(s)
  {
    WsBytes(s, Start(s));
    assert s2[0 + 0] == s[0];
    if BOM <= s {
      assert s2[1 + 0] == s[1] && s2[2 + 0] == s[2];
    }
  }

  /** Where the members start does not move when the text changes further on. */
  lemma SameStart(s: Text, s2: Text, at: nat, hi: nat)
    requires at < hi <= |s| && Same(s, s2, 0, hi, 0) && SkipWs(s, at + 1) <= hi
    requires SkipWs(s, at + 1) < hi || (hi < |s2| && !IsWs(s2[hi]))
    ensures SkipWs(s2, at + 1) == SkipWs(s, at + 1)
  {
    var j := SkipWs(s, at + 1);
    WsBytes(s, at + 1);
    forall q {:trigger s2[q]} | at + 1 <= q < j ensures IsWs(s2[q]) { assert s2[q + 0] == s[q]; }
    if j < hi {
      assert s2[j + 0] == s[j];
    }
    WsRun(s2, at + 1, j);
  }

  // ---- the main results ----

  lemma {:induction false} PositionIndex(ks: seq<KeyVal>, k: Text)
    ensures Position(PlainKeys(ks), k) == IndexOf(ks, k)
  {
    hide Plain;
    if ks != [] {
      PositionIndex(ks[..|ks| - 1], k);
      assert PlainKeys(ks)[..|ks| - 1] == PlainKeys(ks[..|ks| - 1]);
    }
  }

  lemma HasKeyMeansFound(ks: seq<KeyVal>, k: Text)
    ensures HasKey(ks, k) <==> IndexOf(ks, k) >= 0
  {
  }

  /** A change behind a place `hi` inside or behind the first member, read back. */
  lemma ReadBackAs(lib: Lib, s: Text, s2: Text, hi: nat, ks2: seq<KeyVal>, e2: nat) returns (root2: Node)
    requires Parse(lib, s).Ok? && Parse(lib, s).val.kind == KObj && Parse(lib, s).val.keys != [] && ks2 != []
    requires Parse(lib, s).val.keys[0].at <= hi <= |s| && Same(s, s2, 0, hi, 0)
    requires hi < |s2| && (Parse(lib, s).val.keys[0].at == hi ==> !IsWs(s2[hi]))
    requires Reads(lib, s2, Parse(lib, s).val.keys[0].at, ks2, e2)
    ensures Parse(lib, s2) == Ok(root2, |s2|) && root2.kind == KObj && root2.keys == ks2
  {
    hide Parse, Reads;
    ObjectParts(lib, s);
    var root := Parse(lib, s).val;
    var j := SkipWs(s, root.at + 1);
    FirstInside(lib, s, j, root.keys, root.end);
    SameStart(s, s2, root.at, hi);
    root2 := Rebuild(lib, s, s2, j, ks2, e2);
  }

  lemma ChangedInPlace(lib: Lib, s: Text, root: Node, r: nat, dirs: seq<Text>) returns (root2: Node)
    requires LibOk(lib) && Parse(lib, s) == Ok(root, |s|) && root.kind == KObj && r < |root.keys| && dirs != []
             && InOrder(s, root)
    ensures var s2 := Splice(s, root.keys[r].val.at, root.keys[r].val.end, ListText(lib, dirs));
            Parse(lib, s2) == Ok(root2, |s2|) && root2.kind == KObj
    ensures PlainKeys(root2.keys) ==
              PlainKeys(root.keys)[..r] + [Member(root.keys[r].key, ListJson(lib, dirs))] +
                PlainKeys(root.keys)[r + 1..]
  {
    hide Parse, Reads, ListText, ListJson, Plain, PlainKeys, Splice;
    ObjectParts(lib, s);
    var ks, j := root.keys, SkipWs(s, root.at + 1);
    FirstInside(lib, s, j, ks, root.end);
    SpliceSame(s, ks[r].val.at, ks[r].val.end, ListText(lib, dirs));
    var ks2, e2 := InPlace(lib, s, j, ks, root.end, r, dirs);
    ListNotEmpty(lib, dirs);
    root2 := ReadBackAs(lib, s, Splice(s, ks[r].val.at, ks[r].val.end, ListText(lib, dirs)), ks[r].val.at, ks2, e2);
  }

  lemma ListNotEmpty(lib: Lib, dirs: seq<Text>)
    ensures |ListText(lib, dirs)| > 0
  {
  }

  lemma ChangedMiddle(lib: Lib, s: Text, root: Node, r: nat) returns (root2: Node)
    requires Parse(lib, s) == Ok(root, |s|) && root.kind == KObj && r + 1 < |root.keys| && InOrder(s, root)
    ensures var s2 := Splice(s, root.keys[r].at, root.keys[r + 1].at, []);
            Parse(lib, s2) == Ok(root2, |s2|) && root2.kind == KObj
    ensures PlainKeys(root2.keys) == PlainKeys(root.keys)[..r] + PlainKeys(root.keys)[r + 1..]
  {
    hide Parse, Reads, Plain, PlainKeys, Splice;
    ObjectParts(lib, s);
    var ks, j := root.keys, SkipWs(s, root.at + 1);
    var s2 := Splice(s, ks[r].at, ks[r + 1].at, []);
    FirstInside(lib, s, j, ks, root.end);
    SpliceSame(s, ks[r].at, ks[r + 1].at, []);
    var ks2, e2 := RemoveMiddle(lib, s, j, ks, root.end, r);
    QuotesOf(lib, s, j, ks, root.end, r + 1);
    assert s2[ks[r + 1].at + (ks[r].at - ks[r + 1].at)] == s[ks[r + 1].at];
    root2 := ReadBackAs(lib, s, s2, ks[r].at, ks2, e2);
  }

  lemma ChangedLast(lib: Lib, s: Text, root: Node) returns (root2: Node)
    requires Parse(lib, s) == Ok(root, |s|) && root.kind == KObj && |root.keys| >= 2 && InOrder(s, root)
    ensures var r := |root.keys| - 1; var s2 := Splice(s, root.keys[r - 1].val.end, root.keys[r].val.end, []);
            Parse(lib, s2) == Ok(root2, |s2|) && root2.kind == KObj
    ensures PlainKeys(root2.keys) == PlainKeys(root.keys)[..|root.keys| - 1]
  {
    hide Parse, Plain, PlainKeys, Splice, Items, Members, NumEnd, PlainItems, Scalar, SkipWs, Start, Str, Value,
         WordAt, AfterItem, ByteAt, CloseQuote, Entry, IsWs, IsDigit, IsNumByte, HasKey;
    ObjectParts(lib, s);
    var ks, j, r := root.keys, SkipWs(s, root.at + 1), |root.keys| - 1;
    FirstInside(lib, s, j, ks, root.end);
    SpliceSame(s, ks[r - 1].val.end, ks[r].val.end, []);
    var ks2, e2 := RemoveLast(lib, s, j, ks, root.end);
    BehindLast(lib, s, j, ks, root.end);
    root2 := ReadBackAs(lib, s, Splice(s, ks[r - 1].val.end, ks[r].val.end, []), ks[r - 1].val.end, ks2, e2);
  }

  lemma BehindLast(lib: Lib, s: Text, j: nat, ks: seq<KeyVal>, e: nat)
    requires Reads(lib, s, j, ks, e) && ks != []
    ensures ks[|ks| - 1].val.end < |s|
  {
    hide Members, AfterItem;
    Passes(lib, s, j, 0, [], |ks| - 1);
  }

  /** What the editor's four ways of changing an object with "replace" come to. */
  lemma ReparsesChanged(lib: Lib, s: Text, dirs: seq<Text>) returns (root2: Node)
    requires LibOk(lib) && Parse(lib, s).Ok? && Parse(lib, s).val.kind == KObj
             && IndexOf(Parse(lib, s).val.keys, REPLACE) >= 0
    ensures InOrder(s, Parse(lib, s).val)
    ensures var s2 := NewText(lib, s, Parse(lib, s).val, dirs);
            Parse(lib, s2) == Ok(root2, |s2|) && root2.kind == KObj
    ensures PlainKeys(root2.keys) == Expected(lib, PlainKeys(Parse(lib, s).val.keys), dirs)
  {
    hide Parse, Plain, ListText, ListJson, IndexOf, Position, Splice, InOrder, PlainKeys;
    KeysInside(lib, s);
    var root := Parse(lib, s).val;
    PositionIndex(root.keys, REPLACE);
    var r := IndexOf(root.keys, REPLACE);
    if dirs != [] {
      root2 := ChangedInPlace(lib, s, root, r, dirs);
    } else if r + 1 < |root.keys| {
      root2 := ChangedMiddle(lib, s, root, r);
    } else if r > 0 {
      root2 := ChangedLast(lib, s, root);
    } else {
      root2 := RemoveOnly(lib, s);
      assert PlainKeys(root2.keys) == [];
    }
  }

  /** The members lie behind the brace. */
  lemma FirstInside(lib: Lib, s: Text, j: nat, ks: seq<KeyVal>, e: nat)
    requires Reads(lib, s, j, ks, e) && ks != []
    ensures j == ks[0].at && forall k {:trigger ks[k]} :: 0 <= k < |ks| ==> j <= ks[k].at
  {
    hide Members;
    Passes(lib, s, j, 0, [], 0);
    MembersInOrder(lib, s, j, 0, []);
  }

  lemma QuotesOf(lib: Lib, s: Text, j: nat, ks: seq<KeyVal>, e: nat, k: nat)
    requires Reads(lib, s, j, ks, e) && k < |ks|
    ensures ByteAt(s, ks[k].at, QUOTE)
  {
    hide Members;
    Passes(lib, s, j, 0, [], k);
    KeyQuote(lib, s, ks[k].at);
  }

  /** Between the brace and what closes it only white space is left. */
  lemma BlankLeft(s: Text, s2: Text, i: nat, a: nat, b: nat)
    requires i <= a < b <= |s| && SkipWs(s, i) == a && Same(s, s2, 0, a, 0) && Same(s, s2, b, |s|, a - b)
    requires SkipWs(s, b) < |s|
    ensures SkipWs(s2, i) == SkipWs(s, b) + a - b && s2[SkipWs(s, b) + a - b] == s[SkipWs(s, b)]
  {
    var t, d := SkipWs(s, b), a - b;
    WsBytes(s, i);
    WsBytes(s, b);
    forall q {:trigger s2[q]} | i <= q < t + d ensures IsWs(s2[q]) {
      if q < a { assert s2[q + 0] == s[q]; } else { assert s2[(q - d) + d] == s[q - d]; }
    }
    assert s2[t + d] == s[t];
    WsRun(s2, i, t + d);
  }

  /** The only key is taken out. */
  lemma RemoveOnly(lib: Lib, s: Text) returns (root2: Node)
    requires Parse(lib, s).Ok? && Parse(lib, s).val.kind == KObj && |Parse(lib, s).val.keys| == 1
    requires InOrder(s, Parse(lib, s).val)
    ensures var ks := Parse(lib, s).val.keys; var s2 := Splice(s, ks[0].at, ks[0].val.end, []);
            Parse(lib, s2) == Ok(root2, |s2|) && root2.kind == KObj && root2.keys == []
  {
    hide Parse, Members, Plain, Splice, Entry, NumEnd, PlainItems, PlainKeys, Scalar, SkipWs, Start, Str, Value,
         WordAt, Items, CloseQuote, HasKey, IsNumByte, IsWs, IsDigit;
    ObjectParts(lib, s);
    var root := Parse(lib, s).val;
    var ks, j := root.keys, SkipWs(s, root.at + 1);
    var s2 := Splice(s, ks[0].at, ks[0].val.end, []);
    var d := ks[0].at - ks[0].val.end;
    SpliceSame(s, ks[0].at, ks[0].val.end, []);
    FirstInside(lib, s, j, ks, root.end);
    Passes(lib, s, j, 0, [], 0);
    BlankLeft(s, s2, root.at + 1, ks[0].at, ks[0].val.end);
    WsToEnd(s, s2, root.end, d);
    root2 := Rebuild(lib, s, s2, SkipWs(s, ks[0].val.end) + d, [], 0);
  }

  /** Putting the member in where there was none: it becomes member u + 1, and the text between
      its neighbours is exactly what was put in. */
  lemma ReparsesInserted(lib: Lib, s: Text, dirs: seq<Text>) returns (root2: Node)
    requires LibOk(lib) && Parse(lib, s).Ok? && Parse(lib, s).val.kind == KObj
             && !HasKey(Parse(lib, s).val.keys, REPLACE) && dirs != []
    ensures InOrder(s, Parse(lib, s).val)
    ensures var s2 := NewText(lib, s, Parse(lib, s).val, dirs);
            Parse(lib, s2) == Ok(root2, |s2|) && root2.kind == KObj
    ensures PlainKeys(root2.keys) == Expected(lib, PlainKeys(Parse(lib, s).val.keys), dirs)
    ensures var k := IndexOf(Parse(lib, s).val.keys, USES) + 1;
            && |root2.keys| == |Parse(lib, s).val.keys| + 1
            && InOrder(NewText(lib, s, Parse(lib, s).val, dirs), root2)
            && CutOut(NewText(lib, s, Parse(lib, s).val, dirs), root2, k) == s
  {
    hide Parse, HasKey, Plain, EntryText, ListJson, IndexOf, Position, Separator, PlainKeys, Splice, InOrder,
         ReadBack, BlankStart, ListText, LibOk;
    KeysInside(lib, s);
    HasKeyMeansFound(Parse(lib, s).val.keys, REPLACE);
    var root := Parse(lib, s).val;
    var ks := root.keys;
    PositionIndex(ks, REPLACE);
    PositionIndex(ks, USES);
    var k := IndexOf(ks, USES) + 1;
    if ks == [] {
      assert PlainKeys(ks) == [];
      root2 := InsertOnly(lib, s, dirs);
    } else if k < |ks| {
      root2 := InsertedBefore(lib, s, root, k, dirs);
    } else {
      root2 := InsertedLast(lib, s, root, dirs);
    }
  }

  lemma InsertedBefore(lib: Lib, s: Text, root: Node, k: nat, dirs: seq<Text>) returns (root2: Node)
    requires LibOk(lib) && Parse(lib, s) == Ok(root, |s|) && root.kind == KObj && k < |root.keys| && dirs != []
             && InOrder(s, root)
    requires !HasKey(root.keys, REPLACE)
    ensures var s2 := Splice(s, root.keys[k].at, root.keys[k].at,
                             EntryText(lib, dirs) + [COMMA] + Separator(s, root.keys[k].at));
            Parse(lib, s2) == Ok(root2, |s2|) && root2.kind == KObj && |root2.keys| == |root.keys| + 1
            && InOrder(s2, root2) && CutOut(s2, root2, k) == s
    ensures PlainKeys(root2.keys) ==
              PlainKeys(root.keys)[..k] + [Member(REPLACE, ListJson(lib, dirs))] + PlainKeys(root.keys)[k..]
  {
    hide Parse, Reads, EntryText, Separator, ListJson, Plain, PlainKeys, Splice, HasKey;
    ObjectParts(lib, s);
    var ks, j := root.keys, SkipWs(s, root.at + 1);
    FirstInside(lib, s, j, ks, root.end);
    var mid := EntryText(lib, dirs) + [COMMA] + Separator(s, ks[k].at);
    var s2 := Splice(s, ks[k].at, ks[k].at, mid);
    SpliceSame(s, ks[k].at, ks[k].at, mid);
    EntryBegins(lib, dirs);
    assert s2[0 + ks[k].at] == mid[0] == QUOTE;
    var ks2, e2 := InsertBefore(lib, s, j, ks, root.end, k, dirs);
    root2 := ReadBackAs(lib, s, s2, ks[k].at, ks2, e2);
    KeysInside(lib, s2);
    CutBack(s, ks[k].at, mid);
  }

  lemma InsertedLast(lib: Lib, s: Text, root: Node, dirs: seq<Text>) returns (root2: Node)
    requires LibOk(lib) && Parse(lib, s) == Ok(root, |s|) && root.kind == KObj && root.keys != [] && dirs != []
             && InOrder(s, root)
    requires !HasKey(root.keys, REPLACE)
    ensures var k := |root.keys|; var at := root.keys[k - 1].val.end;
            var s2 := Splice(s, at, at, [COMMA] + Separator(s, root.keys[k - 1].at) + EntryText(lib, dirs));
            Parse(lib, s2) == Ok(root2, |s2|) && root2.kind == KObj && |root2.keys| == k + 1
            && InOrder(s2, root2) && CutOut(s2, root2, k) == s
    ensures PlainKeys(root2.keys) == PlainKeys(root.keys) + [Member(REPLACE, ListJson(lib, dirs))]
  {
    hide Parse, Reads, EntryText, Separator, ListJson, Plain, PlainKeys, Splice, HasKey;
    ObjectParts(lib, s);
    var ks, j, k := root.keys, SkipWs(s, root.at + 1), |root.keys|;
    FirstInside(lib, s, j, ks, root.end);
    var at := ks[k - 1].val.end;
    var mid := [COMMA] + Separator(s, ks[k - 1].at) + EntryText(lib, dirs);
    var s2 := Splice(s, at, at, mid);
    SpliceSame(s, at, at, mid);
    var ks2, e2 := InsertLast(lib, s, j, ks, root.end, dirs);
    root2 := ReadBackAs(lib, s, s2, at, ks2, e2);
    KeysInside(lib, s2);
    CutBack(s, at, mid);
  }

  /** The text without its k-th member, as the editor removes one. */
  function CutOut(s: Text, n: Node, k: nat): Text
    requires InOrder(s, n) && k < |n.keys|
  {
    if k + 1 < |n.keys| then Splice(s, n.keys[k].at, n.keys[k + 1].at, [])
    else if k > 0 then Splice(s, n.keys[k - 1].val.end, n.keys[k].val.end, [])
    else Splice(s, n.keys[0].at, n.keys[0].val.end, [])
  }

  lemma CutBack(s: Text, at: nat, mid: Text)
    requires at <= |s|
    ensures at + |mid| <= |Splice(s, at, at, mid)| && Splice(Splice(s, at, at, mid), at, at + |mid|, []) == s
  {
  }

  lemma EntryBegins(lib: Lib, dirs: seq<Text>)
    ensures |EntryText(lib, dirs)| > 0 && EntryText(lib, dirs)[0] == QUOTE
  {
  }

  /** Into an object without members. */
  lemma InsertOnly(lib: Lib, s: Text, dirs: seq<Text>) returns (root2: Node)
    requires LibOk(lib) && Parse(lib, s).Ok? && Parse(lib, s).val.kind == KObj && Parse(lib, s).val.keys == []
             && dirs != []
    ensures var at := Parse(lib, s).val.at + 1; var s2 := Splice(s, at, at, EntryText(lib, dirs));
            && Parse(lib, s2) == Ok(root2, |s2|) && root2.kind == KObj
            && PlainKeys(root2.keys) == [Member(REPLACE, ListJson(lib, dirs))]
            && InOrder(s2, root2)
            && CutOut(s2, root2, 0) == s
  {
    hide Parse, Plain, EntryText, ListJson, Splice, Entry, Members, Value, LibOk, ListTail, ListText, NumEnd,
         PlainItems, PlainKeys, ReadBack, Scalar, SkipWs, Start, Str, WordAt, InOrder, IsDigit, IsNumByte,
         JsonGrammar.IsToken, IsWs, Items, CloseQuote;
    ObjectParts(lib, s);
    var root := Parse(lib, s).val;
    var at, entry := root.at + 1, EntryText(lib, dirs);
    var s2 := Splice(s, at, at, entry);
    SpliceSame(s, at, at, entry);
    EntryBegins(lib, dirs);
    assert s2[0 + at] == entry[0];
    NewEntry(lib, s2, at, dirs);
    var kv := Entry(lib, s2, at, 0).val;
    var t := SkipWs(s, at);
    WsLocal(s, s2, at, |s|, |entry|);
    assert s2[t + |entry|] == s[t];
    Turn(lib, s2, at, 0, []);
    assert [] + [kv] == [kv];
    WsToEnd(s, s2, t + 1, |entry|);
    WsRun(s2, at, at);
    root2 := Rebuild(lib, s, s2, at, [kv], t + 1 + |entry|);
    PlainOne(kv);
    KeysInside(lib, s2);
    CutBack(s, at, entry);
    EntryEnd(lib, s2, at);
  }

  lemma EntryEnd(lib: Lib, s: Text, i: nat)
    requires i <= |s| && Entry(lib, s, i, 0).Ok?
    ensures Entry(lib, s, i, 0).val.val.end == Entry(lib, s, i, 0).next
  {
  }

  /** For every text that parses to an object and every list of folders, the edited text parses
      again: "replace" is the list, or gone when the list is empty, and every other member is
      where it was with the value it had. Any other text is refused with its own error. */
  lemma SetReplaceReparses(lib: Lib, s: Text, dirs: seq<Text>)
    requires LibOk(lib)
    ensures match Parse(lib, s)
            case Bad(at, why) => Result(lib, s, dirs) == NotParsed(at, why)
            case Ok(root, _) =>
              if root.kind != KObj then Result(lib, s, dirs) == NotObject
              else
                && Result(lib, s, dirs).Edited?
                && var r := Parse(lib, Result(lib, s, dirs).text);
                   && r.Ok? && r.val.kind == KObj
                   && PlainKeys(r.val.keys) == Expected(lib, PlainKeys(root.keys), dirs)
  {
    hide Parse, Plain, ListJson, Expected, NewText, InOrder;
    if Parse(lib, s).Ok? && Parse(lib, s).val.kind == KObj {
      var ks := Parse(lib, s).val.keys;
      HasKeyMeansFound(ks, REPLACE);
      if HasKey(ks, REPLACE) {
        var root2 := ReparsesChanged(lib, s, dirs);
      } else if dirs != [] {
        var root2 := ReparsesInserted(lib, s, dirs);
      } else {
        Unchanged(lib, s);
      }
    }
  }

  lemma Unchanged(lib: Lib, s: Text)
    requires Parse(lib, s).Ok? && Parse(lib, s).val.kind == KObj && IndexOf(Parse(lib, s).val.keys, REPLACE) < 0
    ensures Result(lib, s, []) == Edited(s)
    ensures Expected(lib, PlainKeys(Parse(lib, s).val.keys), []) == PlainKeys(Parse(lib, s).val.keys)
  {
    hide Parse, Plain;
    KeysInside(lib, s);
    PositionIndex(Parse(lib, s).val.keys, REPLACE);
  }

  lemma ResultIs(lib: Lib, s: Text, root: Node, e: nat, dirs: seq<Text>)
    requires Parse(lib, s) == Ok(root, e) && root.kind == KObj
    ensures InOrder(s, root) && Result(lib, s, dirs) == Edited(NewText(lib, s, root, dirs))
  {
    hide Parse, NewText, InOrder;
    KeysInside(lib, s);
  }

  lemma ClearIsCut(lib: Lib, s: Text, root: Node, k: nat)
    requires InOrder(s, root) && IndexOf(root.keys, REPLACE) == k && k < |root.keys|
    ensures NewText(lib, s, root, []) == CutOut(s, root, k)
  {
    hide InOrder, IndexOf;
  }

  /** Setting a list where there was none and clearing it again gives back the same bytes. */
  lemma SetThenClear(lib: Lib, s: Text, dirs: seq<Text>)
    requires LibOk(lib) && Parse(lib, s).Ok? && Parse(lib, s).val.kind == KObj
             && !HasKey(Parse(lib, s).val.keys, REPLACE)
    ensures Result(lib, s, dirs).Edited? && Result(lib, Result(lib, s, dirs).text, []) == Edited(s)
  {
    hide *;
    var root := Parse(lib, s).val;
    var ks := root.keys;
    HasKeyMeansFound(ks, REPLACE);
    if dirs == [] {
      Unchanged(lib, s);
    } else {
      var root2 := ReparsesInserted(lib, s, dirs);
      var s2 := NewText(lib, s, root, dirs);
      ResultIs(lib, s, root, Parse(lib, s).next, dirs);
      ResultIs(lib, s2, root2, |s2|, []);
      var k := IndexOf(ks, USES) + 1;
      FoundAgain(lib, ks, root2.keys, dirs);
      ClearIsCut(lib, s2, root2, k);
    }
  }

  /** The new key is found where it was put in. */
  lemma FoundAgain(lib: Lib, ks: seq<KeyVal>, ks2: seq<KeyVal>, dirs: seq<Text>)
    requires IndexOf(ks, REPLACE) < 0 && dirs != [] && PlainKeys(ks2) == Expected(lib, PlainKeys(ks), dirs)
    ensures IndexOf(ks2, REPLACE) == IndexOf(ks, USES) + 1
  {
    PositionIndex(ks, REPLACE);
    PositionIndex(ks, USES);
    PositionIndex(ks2, REPLACE);
    hide PlainKeys, Position, IndexOf, ListJson;
    InsertedPosition(PlainKeys(ks), IndexOf(ks, USES) + 1, ListJson(lib, dirs));
  }

  lemma {:induction false} InsertedPosition(ms: seq<Member>, k: nat, v: Json)
    requires k <= |ms| && Position(ms, REPLACE) < 0
    ensures Position(ms[..k] + [Member(REPLACE, v)] + ms[k..], REPLACE) == k
  {
    var n := ms[..k] + [Member(REPLACE, v)] + ms[k..];
    if k < |ms| {
      InsertedPosition(ms[..|ms| - 1], k, v);
      assert n[..|n| - 1] == ms[..|ms| - 1][..k] + [Member(REPLACE, v)] + ms[..|ms| - 1][k..];
    }
  }
}
