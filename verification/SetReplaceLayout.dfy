/** How the editor's result is laid out, byte for byte: where the list is put in, and on what line. */
module SetReplaceLayout {
  import opened Bytes
  import opened JsonSpec
  import opened SetReplace

  /** A line begins at `b`, and up to `at` there are blanks and tabs only. */
  predicate BeginsLine(s: Text, b: nat, at: nat) {
    && b <= at <= |s| && (b == 0 || s[b - 1] == 0x0A)
    && forall q :: b <= q < at ==> s[q] == 0x20 || s[q] == 0x09
  }

  /** Text that begins a member like the one at `at`: on a line of its own with the same indent, and
      with the line end of the line before; or, if that one does not begin its line, behind a blank. */
  ghost predicate LaidOut(s: Text, at: nat, sep: Text) {
    && (forall b: nat {:trigger BeginsLine(s, b, at)} :: BeginsLine(s, b, at) ==>
          sep == (if b >= 2 && s[b - 2] == 0x0D then Ascii("\r\n") else Ascii("\n")) + s[b..at])
    && ((forall b: nat :: !BeginsLine(s, b, at)) ==> sep == Ascii(" "))
  }

  lemma {:induction false} BlanksBefore(s: Text, at: nat)
    requires at <= |s|
    ensures var i := BlankStart(s, at);
            && (forall q :: i <= q < at ==> s[q] == 0x20 || s[q] == 0x09)
            && (i > 0 ==> s[i - 1] != 0x20 && s[i - 1] != 0x09)
  {
    if at > 0 && (s[at - 1] == SPACE || s[at - 1] == TAB) {
      BlanksBefore(s, at - 1);
    }
  }

  lemma Marks()
    ensures Ascii("\r\n") == [CR, LF] && Ascii("\n") == [LF] && Ascii(" ") == [SPACE]
    ensures Ascii(",") == [COMMA] && Ascii(", ") == [COMMA, SPACE] && Ascii("[") == [LBRACKET]
    ensures Ascii("]") == [RBRACKET]
  {
  }

  lemma SeparatorIsLaidOut(s: Text, at: nat)
    requires at <= |s|
    ensures LaidOut(s, at, Separator(s, at))
  {
    Marks();
    BlanksBefore(s, at);
    var i := BlankStart(s, at);
    hide BlankStart, Ascii;
    if i == 0 || s[i - 1] == LF {
      assert BeginsLine(s, i, at);
    }
    forall b: nat {:trigger BeginsLine(s, b, at)} | BeginsLine(s, b, at) ensures b == i && (i == 0 || s[i - 1] == LF) {
      OneBegin(s, at, i, b);
    }
  }

  lemma OneBegin(s: Text, at: nat, i: nat, b: nat)
    requires BeginsLine(s, b, at) && i <= at && (forall q :: i <= q < at ==> s[q] == 0x20 || s[q] == 0x09)
    requires i > 0 ==> s[i - 1] != 0x20 && s[i - 1] != 0x09
    ensures b == i
  {
    if b < i {
      NotBefore(s, at, i, b);
    } else if i < b {
      NotBehind(s, at, i, b);
    }
  }

  lemma NotBefore(s: Text, at: nat, i: nat, b: nat)
    requires b < i <= at <= |s| && s[i - 1] != 0x20 && s[i - 1] != 0x09
    ensures !BeginsLine(s, b, at)
  {
  }

  lemma NotBehind(s: Text, at: nat, i: nat, b: nat)
    requires i < b <= at <= |s| && forall q :: i <= q < at ==> s[q] == 0x20 || s[q] == 0x09
    ensures !BeginsLine(s, b, at)
  {
    assert s[b - 1] == 0x20 || s[b - 1] == 0x09;
  }

  // ---- the list ----

  function Commas(parts: seq<Text>): Text {
    if parts == [] then [] else if |parts| == 1 then parts[0]
    else Commas(parts[..|parts| - 1]) + Ascii(", ") + parts[|parts| - 1]
  }

  function Quoted(lib: Lib, dirs: seq<Text>): (r: seq<Text>)
    ensures |r| == |dirs| && forall k :: 0 <= k < |dirs| ==> r[k] == lib.quote(dirs[k])
  {
    seq(|dirs|, k requires 0 <= k < |dirs| => lib.quote(dirs[k]))
  }

  lemma {:induction false} CommasFront(a: Text, rest: seq<Text>)
    requires rest != []
    ensures Commas([a] + rest) == a + Ascii(", ") + Commas(rest)
    decreases |rest|
  {
    hide Ascii;
    var all := [a] + rest;
    if |rest| == 1 {
      assert all[..1] == [a];
    } else {
      assert all[..|all| - 1] == [a] + rest[..|rest| - 1];
      CommasFront(a, rest[..|rest| - 1]);
      Regroup(a, Ascii(", "), Commas(rest[..|rest| - 1]), rest[|rest| - 1]);
    }
  }

  lemma Regroup(a: Text, c: Text, x: Text, y: Text)
    ensures a + c + x + c + y == a + c + (x + c + y)
  {
  }

  lemma {:induction false} TailIs(lib: Lib, dirs: seq<Text>)
    ensures ListTail(lib, dirs) == Commas(Quoted(lib, dirs)) + Ascii("]")
  {
    Marks();
    hide Ascii;
    var q := Quoted(lib, dirs);
    if |dirs| <= 1 {
      assert dirs == [] ==> q == [] && [] + [RBRACKET] == [RBRACKET];
    } else {
      var rest := Quoted(lib, dirs[1..]);
      TailIs(lib, dirs[1..]);
      assert q == [q[0]] + rest;
      CommasFront(q[0], rest);
      hide Commas;
      TwoParts(q[0], [COMMA, SPACE], Commas(rest), [RBRACKET]);
    }
  }

  lemma TwoParts(a: Text, b: Text, c: Text, d: Text)
    ensures a + b + (c + d) == a + b + c + d
  {
  }

  /** The list, and the member, as they are written. */
  function Listed(lib: Lib, dirs: seq<Text>): Text { Ascii("[") + Commas(Quoted(lib, dirs)) + Ascii("]") }

  lemma TextsAre(lib: Lib, dirs: seq<Text>)
    ensures ListText(lib, dirs) == Listed(lib, dirs)
    ensures EntryText(lib, dirs) == Ascii("\"replace\": ") + Listed(lib, dirs)
  {
    Marks();
    TailIs(lib, dirs);
    assert Ascii("\"replace\": ") == REPLACE_TOKEN + [COLON, SPACE];
    hide Ascii, ListTail, Commas;
    assert [LBRACKET] + (Commas(Quoted(lib, dirs)) + [RBRACKET]) == [LBRACKET] + Commas(Quoted(lib, dirs)) + [RBRACKET];
  }

  /** A list is put in the place of the old one. Where there was none, its member comes right behind
      "uses", or first if there is no "uses", with a comma, laid out like the member behind it, or
      like "uses" if that is the last one. All other bytes stay. */
  ghost predicate PutWhere(lib: Lib, s: Text, root: Node, dirs: seq<Text>, r: int, u: int, t: Text)
    requires InOrder(s, root) && -1 <= r < |root.keys| && -1 <= u < |root.keys|
  {
    var ks, list, entry := root.keys, Listed(lib, dirs), Ascii("\"replace\": ") + Listed(lib, dirs);
    if r >= 0 then t == s[..ks[r].val.at] + list + s[ks[r].val.end..]
    else if ks == [] then t == s[..root.at + 1] + entry + s[root.at + 1..]
    else if u + 1 < |ks| then
      exists sep {:trigger LaidOut(s, ks[u + 1].at, sep)} :: LaidOut(s, ks[u + 1].at, sep)
        && t == s[..ks[u + 1].at] + (entry + Ascii(",") + sep) + s[ks[u + 1].at..]
    else
      exists sep {:trigger LaidOut(s, ks[u].at, sep)} :: LaidOut(s, ks[u].at, sep)
        && t == s[..ks[u].val.end] + (Ascii(",") + sep + entry) + s[ks[u].val.end..]
  }

  /** Member `k` is the one of that name, or there is none for -1. */
  ghost predicate OnlyKey(ks: seq<KeyVal>, name: Text, k: int) {
    -1 <= k < |ks| && forall m {:trigger ks[m]} :: 0 <= m < |ks| ==> (ks[m].key == name <==> m == k)
  }

  lemma PutInWhere(lib: Lib, s: Text, root: Node, e: nat, dirs: seq<Text>, r: int, u: int)
    requires Parse(lib, s) == Ok(root, e) && root.kind == KObj && dirs != []
    requires OnlyKey(root.keys, Ascii("replace"), r) && OnlyKey(root.keys, Ascii("uses"), u)
    ensures InOrder(s, root) && Result(lib, s, dirs).Edited?
    ensures PutWhere(lib, s, root, dirs, r, u, Result(lib, s, dirs).text)
  {
    KeyIndex(root.keys, REPLACE, r) by { assert Ascii("replace") == REPLACE; }
    KeyIndex(root.keys, USES, u) by { assert Ascii("uses") == USES; }
    hide *;
    ResultText(lib, s, root, e, dirs);
    NewTextIs(lib, s, root, dirs);
    PutIn(lib, s, root, dirs, NewText(lib, s, root, dirs));
  }

  lemma PutIn(lib: Lib, s: Text, root: Node, dirs: seq<Text>, t: Text)
    requires InOrder(s, root) && dirs != []
    requires var ks, r, u := root.keys, IndexOf(root.keys, REPLACE), IndexOf(root.keys, USES);
             t ==
             if r >= 0 then s[..ks[r].val.at] + ListText(lib, dirs) + s[ks[r].val.end..]
             else if ks == [] then s[..root.at + 1] + EntryText(lib, dirs) + s[root.at + 1..]
             else if u + 1 < |ks| then
               s[..ks[u + 1].at] + (EntryText(lib, dirs) + [COMMA] + Separator(s, ks[u + 1].at)) + s[ks[u + 1].at..]
             else s[..ks[u].val.end] + ([COMMA] + Separator(s, ks[u].at) + EntryText(lib, dirs)) + s[ks[u].val.end..]
    ensures PutWhere(lib, s, root, dirs, IndexOf(root.keys, REPLACE), IndexOf(root.keys, USES), t)
  {
    var ks, u := root.keys, IndexOf(root.keys, USES);
    Marks();
    TextsAre(lib, dirs);
    hide IndexOf, Ascii, Listed, EntryText, ListText, Separator, LaidOut;
    if ks != [] {
      SeparatorIsLaidOut(s, if u + 1 < |ks| then ks[u + 1].at else ks[u].at);
    }
  }

  lemma ResultText(lib: Lib, s: Text, root: Node, e: nat, dirs: seq<Text>)
    requires Parse(lib, s) == Ok(root, e) && root.kind == KObj
    ensures InOrder(s, root) && Result(lib, s, dirs) == Edited(NewText(lib, s, root, dirs))
  {
    hide Parse, NewText;
    KeysInside(lib, s);
  }

  lemma NewTextIs(lib: Lib, s: Text, root: Node, dirs: seq<Text>)
    requires InOrder(s, root) && dirs != []
    ensures var ks, r, u := root.keys, IndexOf(root.keys, REPLACE), IndexOf(root.keys, USES);
            NewText(lib, s, root, dirs) ==
            if r >= 0 then s[..ks[r].val.at] + ListText(lib, dirs) + s[ks[r].val.end..]
            else if ks == [] then s[..root.at + 1] + EntryText(lib, dirs) + s[root.at + 1..]
            else if u + 1 < |ks| then
              s[..ks[u + 1].at] + (EntryText(lib, dirs) + [COMMA] + Separator(s, ks[u + 1].at)) + s[ks[u + 1].at..]
            else s[..ks[u].val.end] + ([COMMA] + Separator(s, ks[u].at) + EntryText(lib, dirs)) + s[ks[u].val.end..]
  {
    hide IndexOf, Ascii, EntryText, ListText, Separator;
  }

  lemma {:induction false} KeyIndex(ks: seq<KeyVal>, name: Text, k: int)
    requires OnlyKey(ks, name, k)
    ensures IndexOf(ks, name) == k
  {
    if ks != [] {
      var front := ks[..|ks| - 1];
      if k < |front| {
        assert forall m {:trigger front[m]} :: 0 <= m < |front| ==> front[m] == ks[m];
        KeyIndex(front, name, k);
      }
    }
  }
}
