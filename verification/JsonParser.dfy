/** `jparser`: the parser object, one moving position over fixed bytes. Each method is proved
    to do what JsonSpec says, errors and positions included. */
module JsonParser {
  import opened Bytes
  import opened JsonSpec

  datatype Outcome<+T> = Val(val: T) | Err(at: nat, why: Fault)

  class Parser {
    const src: Text
    const lib: Lib
    var i: nat

    constructor (lib: Lib, src: Text)
      ensures this.src == src && this.lib == lib && i == 0
    {
      this.src, this.lib, i := src, lib, 0;
    }

    /** The outcome and the new position are those of `r`. After an error the position is of no use. */
    ghost predicate Gives<T(!new)>(o: Outcome<T>, r: Parsed<T>)
      reads this
    {
      match r
      case Ok(v, e) => o == Val(v) && i == e
      case Bad(at, why) => o == Err(at, why)
    }

    method Ws()
      requires i <= |src|
      modifies this`i
      ensures i == SkipWs(src, old(i))
    {
      while i < |src|
        invariant i <= |src|
        invariant SkipWs(src, i) == SkipWs(src, old(i))
      {
        if IsWs(src[i]) {
          i := i + 1;
        } else {
          return;
        }
      }
    }

    method Str() returns (o: Outcome<Text>)
      requires i < |src|
      modifies this`i
      ensures Gives(o, JsonSpec.Str(lib, src, old(i)))
    {
      var start := i;
      i := i + 1;
      while i < |src|
        invariant start < i
        invariant CloseQuote(src, i, start) == CloseQuote(src, start + 1, start)
      {
        var c := src[i];
        if c == QUOTE {
          i := i + 1;
          match lib.unquote(src[start..i])
          case None => return Err(start, BadEscape);
          case Some(t) => return Val(t);
        } else if c == BACKSLASH {
          i := i + 2;
        } else if c == LF {
          return Err(i, NewlineInString);
        } else if c < 0x20 {
          return Err(i, ControlInString);
        } else {
          i := i + 1;
        }
      }
      return Err(start, OpenString);
    }

    method Parse() returns (o: Outcome<Node>)
      requires i == 0
      modifies this`i
      ensures match JsonSpec.Parse(lib, src)
              case Ok(n, _) => o == Val(n)
              case Bad(at, why) => o == Err(at, why)
    {
      if |src| >= 3 && src[..3] == BOM {
        i := 3;
      }
      assert i == Start(src);
      o := Value(0);
      if o.Err? {
        return;
      }
      Ws();
      if i < |src| {
        o := Err(i, TrailingText);
      }
    }

    method Value(depth: nat) returns (o: Outcome<Node>)
      requires i <= |src|
      modifies this`i
      ensures Gives(o, JsonSpec.Value(lib, src, old(i), depth))
      decreases |src| - i, 2
    {
      o := Value0(depth);
      if o.Val? {
        o := Val(o.val.(end := i));
      }
    }

    /** The value without its end, which `Value` fills in. */
    method Value0(depth: nat) returns (o: Outcome<Node>)
      requires i <= |src|
      modifies this`i
      ensures match JsonSpec.Value(lib, src, old(i), depth)
              case Ok(n, e) => o == Val(n.(end := 0)) && i == e
              case Bad(at, why) => o == Err(at, why)
      decreases |src| - i, 1
    {
      if depth > MAX_DEPTH {
        return Err(i, TooDeep);
      }
      Ws();
      if i >= |src| {
        return Err(i, NoValue);
      }
      var at := i;
      var c := src[i];
      if c == LBRACE {
        i := i + 1;
        Ws();
        if i < |src| && src[i] == RBRACE {
          i := i + 1;
          return Val(Node(KObj, at, 0, [], [], []));
        }
        var ks := Object(depth);
        match ks
        case Err(p, why) => return Err(p, why);
        case Val(keys) => return Val(Node(KObj, at, 0, [], [], keys));
      } else if c == LBRACKET {
        i := i + 1;
        Ws();
        if i < |src| && src[i] == RBRACKET {
          i := i + 1;
          return Val(Node(KArr, at, 0, [], [], []));
        }
        var xs := Array(depth);
        match xs
        case Err(p, why) => return Err(p, why);
        case Val(items) => return Val(Node(KArr, at, 0, [], items, []));
      }
      o := Scalar();
    }

    /** Its other branches: strings, words and numbers. */
    method Scalar() returns (o: Outcome<Node>)
      requires i < |src|
      modifies this`i
      ensures match JsonSpec.Scalar(lib, src, old(i))
              case Ok(n, e) => o == Val(n.(end := 0)) && i == e
              case Bad(at, why) => o == Err(at, why)
    {
      var at := i;
      var c := src[i];
      if c == QUOTE {
        var t := Str();
        match t
        case Err(p, why) => return Err(p, why);
        case Val(str) => return Val(Node(KStr, at, 0, str, [], []));
      } else if c == TRUE[0] || c == FALSE[0] || c == NULL[0] {
        var words := [TRUE, FALSE, NULL];
        var window := src[i..if i + 5 <= |src| then i + 5 else |src|];
        for w := 0 to |words|
          invariant i == at
          invariant forall v :: 0 <= v < w ==> !WordAt(src, at, words[v])
        {
          assert words[w] <= window <==> WordAt(src, at, words[w]) by { PrefixIsWordAt(src, at, window, words[w]); }
          if words[w] <= window {
            i := i + |words[w]|;
            return Val(if words[w] == NULL then Node(KNull, at, 0, [], [], [])
                       else Node(KBool, at, 0, words[w], [], []));
          }
        }
        assert words[0] == TRUE && words[1] == FALSE && words[2] == NULL;
        return Err(i, BadWord);
      } else if c == 0x2D || IsDigit(c) {
        var j := i;
        while j < |src| && IsNumByte(src[j])
          invariant at <= j <= |src|
          invariant NumEnd(src, j) == NumEnd(src, at)
        {
          j := j + 1;
        }
        if !lib.float(src[i..j]) {
          return Err(i, BadNumber);
        }
        i := j;
        return Val(Node(KNum, at, 0, src[at..j], [], []));
      }
      return Err(i, NotAValue);
    }

    /** The member loop of the object branch. */
    method Object(depth: nat) returns (o: Outcome<seq<KeyVal>>)
      requires i <= |src|
      modifies this`i
      ensures Gives(o, Members(lib, src, old(i), depth, []))
      decreases |src| - i, 4
    {
      var keys: seq<KeyVal> := [];
      while true
        invariant old(i) <= i <= |src|
        invariant Members(lib, src, i, depth, keys) == Members(lib, src, old(i), depth, [])
        decreases |src| - i
      {
        var kv := KeyAndValue(depth);
        if kv.Err? {
          return Err(kv.at, kv.why);
        }
        for m := 0 to |keys|
          invariant forall l :: 0 <= l < m ==> keys[l].key != kv.val.key
        {
          if keys[m].key == kv.val.key {
            return Err(kv.val.at, DuplicateKey);
          }
        }
        keys := keys + [kv.val];
        var more := Next(RBRACE);
        match more
        case Err(p, why) => return Err(p, why);
        case Val(again) => if !again { return Val(keys); }
      }
    }

    /** The key, the colon and the value of one turn of the member loop. */
    method KeyAndValue(depth: nat) returns (o: Outcome<KeyVal>)
      requires i <= |src|
      modifies this`i
      ensures Gives(o, Entry(lib, src, old(i), depth))
      decreases |src| - i, 3
    {
      Ws();
      var kat := i;
      if i >= |src| || src[i] != QUOTE {
        return Err(i, KeyNotString);
      }
      var k := Str();
      if k.Err? {
        return Err(k.at, k.why);
      }
      Ws();
      if i >= |src| || src[i] != COLON {
        return Err(i, NoColon);
      }
      i := i + 1;
      var v := Value(depth + 1);
      match v
      case Err(p, why) => return Err(p, why);
      case Val(n) => return Val(KeyVal(k.val, kat, n));
    }

    /** The comma or the closing bracket at the end of a turn of either loop. */
    method Next(close: byte) returns (o: Outcome<bool>)
      requires i <= |src|
      modifies this`i
      ensures Gives(o, AfterItem(src, old(i), close))
    {
      Ws();
      if i < |src| && src[i] == COMMA {
        i := i + 1;
        Ws();
        if i < |src| && src[i] == close {
          return Err(i, TrailingComma);
        }
        return Val(true);
      }
      if i < |src| && src[i] == close {
        i := i + 1;
        return Val(false);
      }
      return Err(i, NoClose);
    }

    /** The element loop of the array branch. */
    method Array(depth: nat) returns (o: Outcome<seq<Node>>)
      requires i <= |src|
      modifies this`i
      ensures Gives(o, Items(lib, src, old(i), depth, []))
      decreases |src| - i, 3
    {
      var items: seq<Node> := [];
      while true
        invariant old(i) <= i <= |src|
        invariant Items(lib, src, i, depth, items) == Items(lib, src, old(i), depth, [])
        decreases |src| - i
      {
        var v := Value(depth + 1);
        if v.Err? {
          return Err(v.at, v.why);
        }
        items := items + [v.val];
        var more := Next(RBRACKET);
        match more
        case Err(p, why) => return Err(p, why);
        case Val(again) => if !again { return Val(items); }
      }
    }
  }

  lemma PrefixIsWordAt(s: Text, i: nat, window: Text, w: Text)
    requires i <= |s| && |w| <= 5
    requires window == s[i..if i + 5 <= |s| then i + 5 else |s|]
    ensures w <= window <==> WordAt(s, i, w)
  {
    if w <= window {
      assert s[i..i + |w|] == window[..|w|];
    }
    if WordAt(s, i, w) {
      assert window[..|w|] == s[i..i + |w|];
    }
  }
}
