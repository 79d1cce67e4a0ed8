/** `SetReplace`: the splice editor over the original bytes, and what it writes. */
module SetReplace {
  import opened JsonSpec
  import opened JsonParser

  const REPLACE: Text := [0x72, 0x65, 0x70, 0x6C, 0x61, 0x63, 0x65]
  const USES: Text := [0x75, 0x73, 0x65, 0x73]
  const REPLACE_TOKEN: Text := [QUOTE] + REPLACE + [QUOTE]

  datatype Edit = Edited(text: Text) | NotParsed(at: nat, why: Fault) | NotObject

  function Splice(s: Text, a: nat, b: nat, mid: Text): Text
    requires a <= b <= |s|
  {
    s[..a] + mid + s[b..]
  }

  /** The quoted folders from the first one to the closing bracket. */
  function ListTail(lib: Lib, dirs: seq<Text>): Text {
    if dirs == [] then [RBRACKET]
    else if |dirs| == 1 then lib.quote(dirs[0]) + [RBRACKET]
    else lib.quote(dirs[0]) + [COMMA, SPACE] + ListTail(lib, dirs[1..])
  }

  function ListText(lib: Lib, dirs: seq<Text>): Text { [LBRACKET] + ListTail(lib, dirs) }

  function EntryText(lib: Lib, dirs: seq<Text>): Text { REPLACE_TOKEN + [COLON, SPACE] + ListText(lib, dirs) }

  /** Where the blanks just before `at` begin. */
  function BlankStart(s: Text, at: nat): (i: nat)
    requires at <= |s|
    ensures i <= at
  {
    if at > 0 && (s[at - 1] == SPACE || s[at - 1] == TAB) then BlankStart(s, at - 1) else at
  }

  /** What separates two members so that the new one is laid out as the one at `at`. */
  function Separator(s: Text, at: nat): Text
    requires at <= |s|
  {
    var i := BlankStart(s, at);
    if i == 0 || s[i - 1] == LF then
      (if i >= 2 && s[i - 2] == CR then [CR, LF] else [LF]) + s[i..at]
    else [SPACE]
  }

  function IndexOf(keys: seq<KeyVal>, k: Text): (m: int)
    ensures -1 <= m < |keys|
    ensures m >= 0 ==> keys[m].key == k
    ensures m < 0 ==> !HasKey(keys, k)
  {
    if keys == [] then -1
    else if keys[|keys| - 1].key == k then |keys| - 1
    else
      var m := IndexOf(keys[..|keys| - 1], k);
      assert m < 0 ==> forall l :: 0 <= l < |keys| - 1 ==> keys[l] == keys[..|keys| - 1][l];
      m
  }

  class Editor {
    const lib: Lib

    constructor (lib: Lib)
      ensures this.lib == lib
    {
      this.lib := lib;
    }

    method ReplaceText(dirs: seq<Text>) returns (t: Text)
      ensures t == ListText(lib, dirs)
    {
      var q: seq<Text> := [];
      for k := 0 to |dirs|
        invariant |q| == k
        invariant forall m :: 0 <= m < k ==> q[m] == lib.quote(dirs[m])
      {
        q := q + [lib.quote(dirs[k])];
      }
      t := [RBRACKET];
      var k := |q|;
      while k > 0
        invariant 0 <= k <= |q|
        invariant t == ListTail(lib, dirs[k..])
      {
        k := k - 1;
        assert dirs[k..][1..] == dirs[k + 1..];
        t := q[k] + (if k + 1 < |q| then [COMMA, SPACE] + t else t);
      }
      t := [LBRACKET] + t;
    }

    method LineSep(src: Text, at: nat) returns (t: Text)
      requires at <= |src|
      ensures t == Separator(src, at)
    {
      var i := at;
      while i > 0 && (src[i - 1] == SPACE || src[i - 1] == TAB)
        invariant 0 <= i <= at
        invariant BlankStart(src, i) == BlankStart(src, at)
      {
        i := i - 1;
      }
      if i == 0 || src[i - 1] == LF {
        var nl := [LF];
        if i >= 2 && src[i - 2] == CR {
          nl := [CR, LF];
        }
        return nl + src[i..at];
      }
      return [SPACE];
    }

    method FindKeys(keys: seq<KeyVal>) returns (ri: int, ui: int)
      ensures ri == IndexOf(keys, REPLACE) && ui == IndexOf(keys, USES)
    {
      ri, ui := -1, -1;
      for k := 0 to |keys|
        invariant ri == IndexOf(keys[..k], REPLACE)
        invariant ui == IndexOf(keys[..k], USES)
      {
        assert keys[..k + 1][..k] == keys[..k];
        if keys[k].key == REPLACE {
          ri := k;
        } else if keys[k].key == USES {
          ui := k;
        }
      }
      assert keys[..|keys|] == keys;
    }

    method SetReplace(src: Text, dirs: seq<Text>) returns (e: Edit)
      ensures e == Result(lib, src, dirs)
    {
      hide JsonSpec.Parse, Separator, ListText, IndexOf, WordAt, Scalar, SkipWs, Splice, Start, Str, Value, AfterItem,
           BlankStart, ByteAt, IsNumByte, IsWs, Items, CloseQuote, Entry, HasKey, IsDigit, ListTail, Members, NumEnd,
           Parse;
      var p := new Parser(lib, src);
      var o := p.Parse();
      if o.Err? {
        return NotParsed(o.at, o.why);
      }
      var root := o.val;
      if root.kind != KObj {
        return NotObject;
      }
      KeysInside(lib, src);
      var val := ReplaceText(dirs);
      var keys := root.keys;
      var ri, ui := FindKeys(keys);
      if ri >= 0 && dirs != [] {
        return Edited(Splice(src, keys[ri].val.at, keys[ri].val.end, val));
      } else if ri >= 0 && ri + 1 < |keys| {
        return Edited(Splice(src, keys[ri].at, keys[ri + 1].at, []));
      } else if ri > 0 {
        return Edited(Splice(src, keys[ri - 1].val.end, keys[ri].val.end, []));
      } else if ri == 0 {
        return Edited(Splice(src, keys[0].at, keys[0].val.end, []));
      } else if dirs == [] {
        return Edited(src);
      }
      var entry := REPLACE_TOKEN + [COLON, SPACE] + val;
      if ui >= 0 && ui + 1 < |keys| {
        var at := keys[ui + 1].at;
        var sep := LineSep(src, at);
        return Edited(Splice(src, at, at, entry + [COMMA] + sep));
      } else if ui >= 0 {
        var at := keys[ui].val.end;
        var sep := LineSep(src, keys[ui].at);
        return Edited(Splice(src, at, at, [COMMA] + sep + entry));
      } else if |keys| > 0 {
        var sep := LineSep(src, keys[0].at);
        return Edited(Splice(src, keys[0].at, keys[0].at, entry + [COMMA] + sep));
      }
      return Edited(Splice(src, root.at + 1, root.at + 1, entry));
    }
  }

  /** The positions of an object's members lie in order inside the text. */
  ghost predicate InOrder(s: Text, n: Node) {
    && n.at + 1 <= |s|
    && (forall k {:trigger n.keys[k]} :: 0 <= k < |n.keys| ==>
          n.at < n.keys[k].at < n.keys[k].val.at < n.keys[k].val.end <= |s|)
    && (forall k, l {:trigger n.keys[k], n.keys[l]} :: 0 <= k < l < |n.keys| ==> n.keys[k].val.end < n.keys[l].at)
  }

  lemma {:induction false} MembersInOrder(lib: Lib, s: Text, i: nat, depth: nat, acc: seq<KeyVal>)
    requires i <= |s| && Members(lib, s, i, depth, acc).Ok?
    ensures var ks := Members(lib, s, i, depth, acc).val;
            && (forall k {:trigger ks[k]} :: |acc| <= k < |ks| ==> i <= ks[k].at < ks[k].val.at < ks[k].val.end <= |s|)
            && (forall k, l {:trigger ks[k], ks[l]} :: |acc| <= k < l < |ks| ==> ks[k].val.end < ks[l].at)
    decreases |s| - i
  {
    hide Entry, Value, AfterItem, HasKey;
    var kv, e := Entry(lib, s, i, depth).val, Entry(lib, s, i, depth).next;
    var r := AfterItem(s, e, RBRACE);
    assert Members(lib, s, i, depth, acc).val[|acc|] == kv;
    if r.val {
      MembersInOrder(lib, s, r.next, depth, acc + [kv]);
    }
  }

  lemma KeysInside(lib: Lib, s: Text)
    requires Parse(lib, s).Ok? && Parse(lib, s).val.kind == KObj
    ensures InOrder(s, Parse(lib, s).val)
  {
    hide Entry, Members, Items, AfterItem;
    var n := Parse(lib, s).val;
    var j := SkipWs(s, n.at + 1);
    if n.keys != [] {
      MembersInOrder(lib, s, j, 0, []);
    }
  }

  /** The text `SetReplace` returns, or why it returns none. */
  function Result(lib: Lib, s: Text, dirs: seq<Text>): Edit {
    match Parse(lib, s)
    case Bad(at, why) => NotParsed(at, why)
    case Ok(root, _) =>
      if root.kind != KObj then NotObject
      else
        KeysInside(lib, s);
        Edited(NewText(lib, s, root, dirs))
  }

  function NewText(lib: Lib, s: Text, root: Node, dirs: seq<Text>): Text
    requires InOrder(s, root)
  {
    var keys := root.keys;
    var ri, ui := IndexOf(keys, REPLACE), IndexOf(keys, USES);
    if ri >= 0 && dirs != [] then Splice(s, keys[ri].val.at, keys[ri].val.end, ListText(lib, dirs))
    else if ri >= 0 && ri + 1 < |keys| then Splice(s, keys[ri].at, keys[ri + 1].at, [])
    else if ri > 0 then Splice(s, keys[ri - 1].val.end, keys[ri].val.end, [])
    else if ri == 0 then Splice(s, keys[0].at, keys[0].val.end, [])
    else if dirs == [] then s
    else if ui >= 0 && ui + 1 < |keys| then
      Splice(s, keys[ui + 1].at, keys[ui + 1].at, EntryText(lib, dirs) + [COMMA] + Separator(s, keys[ui + 1].at))
    else if ui >= 0 then
      Splice(s, keys[ui].val.end, keys[ui].val.end, [COMMA] + Separator(s, keys[ui].at) + EntryText(lib, dirs))
    else if keys != [] then
      Splice(s, keys[0].at, keys[0].at, EntryText(lib, dirs) + [COMMA] + Separator(s, keys[0].at))
    else Splice(s, root.at + 1, root.at + 1, EntryText(lib, dirs))
  }
}
