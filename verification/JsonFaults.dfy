/** Where the parser says a text is wrong: the byte it points at is the one at fault. */
module JsonFaults {
  import opened Wrappers
  import opened Bytes
  import opened JsonSpec
  import opened JsonGrammar
  import opened JsonTokens
  import opened JsonReading

  predicate StandsWord(s: Text, p: nat, w: Text) { p + |w| <= |s| && s[p..p + |w|] == w }

  /** What stands at `p`, for each reason a text is refused there. */
  ghost predicate AtFault(lib: Lib, s: Text, p: nat, why: Fault) {
    && p <= |s|
    && match why
       case NoValue => p == |s|
       case NotAValue => p < |s| && s[p] !in Ascii(" \t\r\n{[\"tfn-0123456789")
       case BadWord => p < |s| && s[p] in Ascii("tfn")
                       && !StandsWord(s, p, Ascii("true")) && !StandsWord(s, p, Ascii("false"))
                       && !StandsWord(s, p, Ascii("null"))
       case BadNumber => exists e {:trigger s[p..e]} ::
                           p < e <= |s| && IsNumber(s[p..e]) && !lib.float(s[p..e])
                           && (e < |s| ==> s[e] !in Ascii("+-0123456789.eE"))
       case KeyNotString => p == |s| || s[p] !in Ascii("\" \t\r\n")
       case NoColon => p == |s| || s[p] !in Ascii(": \t\r\n")
       case DuplicateKey => p < |s| && s[p] in Ascii("\"")
       case TrailingComma => p < |s| && s[p] in Ascii("]}")
                             && exists c {:trigger s[c]} :: 0 <= c < p && s[c] in Ascii(",") && AllWs(s[c + 1..p])
       case NoClose => p == |s| || s[p] !in Ascii(", \t\r\n")
       case OpenString => p < |s| && s[p] in Ascii("\"")
       case NewlineInString => p < |s| && s[p] in Ascii("\n")
       case ControlInString => p < |s| && s[p] < 0x20
       case BadEscape => exists e {:trigger s[p..e]} :: p < e <= |s| && IsToken(s[p..e]) && lib.unquote(s[p..e]) == None
       case TooDeep => true
       case TrailingText => p < |s| && s[p] !in Ascii(" \t\r\n")
                            && exists f: File :: FileOk(lib, f) && SpellFile(f) == s[..p]
  }

  lemma MarksAre(b: byte)
    ensures b in Ascii(" \t\r\n{[\"tfn-0123456789") <==>
              IsWs(b) || b == LBRACE || b == LBRACKET || b == QUOTE || b == TRUE[0] || b == FALSE[0] || b == NULL[0]
              || b == 0x2D || IsDigit(b)
    ensures b in Ascii("tfn") <==> b == TRUE[0] || b == FALSE[0] || b == NULL[0]
    ensures b in Ascii("\" \t\r\n") <==> b == QUOTE || IsWs(b)
    ensures b in Ascii(": \t\r\n") <==> b == COLON || IsWs(b)
    ensures b in Ascii(", \t\r\n") <==> b == COMMA || IsWs(b)
    ensures b in Ascii(" \t\r\n") <==> IsWs(b)
    ensures b in Ascii("\"") <==> b == QUOTE
    ensures b in Ascii(",") <==> b == COMMA
    ensures b in Ascii("\n") <==> b == LF
    ensures b in Ascii("]}") <==> b == RBRACKET || b == RBRACE
  {
    hide *;
    OpenersAre(b);
    FewAre(b);
    BlanksAre(b);
  }

  lemma OpenersAre(b: byte)
    ensures b in Ascii(" \t\r\n{[\"tfn-0123456789") <==>
              IsWs(b) || b == LBRACE || b == LBRACKET || b == QUOTE || b == TRUE[0] || b == FALSE[0] || b == NULL[0]
              || b == 0x2D || IsDigit(b)
  {
    assert Ascii(" \t\r\n{[\"tfn-0123456789") == [0x20, 0x09, 0x0D, 0x0A, 0x7B, 0x5B, 0x22, 0x74, 0x66, 0x6E, 0x2D,
                                                0x30, 0x31, 0x32, 0x33, 0x34, 0x35, 0x36, 0x37, 0x38, 0x39];
    hide Ascii;
  }

  lemma FewAre(b: byte)
    ensures b in Ascii("tfn") <==> b == TRUE[0] || b == FALSE[0] || b == NULL[0]
    ensures b in Ascii("\"") <==> b == QUOTE
    ensures b in Ascii(",") <==> b == COMMA
    ensures b in Ascii("\n") <==> b == LF
    ensures b in Ascii("]}") <==> b == RBRACKET || b == RBRACE
  {
    assert Ascii("tfn") == [0x74, 0x66, 0x6E];
    assert Ascii("\"") == [0x22] && Ascii(",") == [0x2C] && Ascii("\n") == [0x0A] && Ascii("]}") == [0x5D, 0x7D];
    hide Ascii;
  }

  lemma BlanksAre(b: byte)
    ensures b in Ascii("\" \t\r\n") <==> b == QUOTE || IsWs(b)
    ensures b in Ascii(": \t\r\n") <==> b == COLON || IsWs(b)
    ensures b in Ascii(", \t\r\n") <==> b == COMMA || IsWs(b)
    ensures b in Ascii(" \t\r\n") <==> IsWs(b)
  {
    assert Ascii("\" \t\r\n") == [0x22, 0x20, 0x09, 0x0D, 0x0A];
    assert Ascii(": \t\r\n") == [0x3A, 0x20, 0x09, 0x0D, 0x0A];
    assert Ascii(", \t\r\n") == [0x2C, 0x20, 0x09, 0x0D, 0x0A];
    assert Ascii(" \t\r\n") == [0x20, 0x09, 0x0D, 0x0A];
    hide Ascii;
  }

  // ---- strings, words and numbers ----

  lemma {:induction false} ScanFault(lib: Lib, s: Text, i: nat, start: nat)
    requires CloseQuote(s, i, start).Bad? && ByteAt(s, start, QUOTE)
    ensures AtFault(lib, s, CloseQuote(s, i, start).at, CloseQuote(s, i, start).why)
    decreases |s| - i
  {
    MarksAre(s[start]);
    if i < |s| {
      MarksAre(s[i]);
      hide Ascii;
      if s[i] == BACKSLASH {
        ScanFault(lib, s, i + 2, start);
      } else if s[i] != LF && s[i] >= 0x20 {
        ScanFault(lib, s, i + 1, start);
      }
    }
  }

  lemma StrFault(lib: Lib, s: Text, p: nat)
    requires ByteAt(s, p, QUOTE) && Str(lib, s, p).Bad?
    ensures AtFault(lib, s, Str(lib, s, p).at, Str(lib, s, p).why)
  {
    hide Ascii, IsToken;
    if CloseQuote(s, p + 1, p).Bad? {
      hide AtFault;
      ScanFault(lib, s, p + 1, p);
    } else {
      TokenRead(s, p);
    }
  }

  lemma ScalarFault(lib: Lib, s: Text, p: nat)
    requires p < |s| && Scalar(lib, s, p).Bad? && !IsWs(s[p]) && s[p] != LBRACE && s[p] != LBRACKET
    ensures AtFault(lib, s, Scalar(lib, s, p).at, Scalar(lib, s, p).why)
  {
    MarksAre(s[p]);
    Words();
    hide Ascii, IsWs;
    if s[p] == QUOTE {
      hide AtFault, Str;
      StrFault(lib, s, p);
    } else if s[p] == 0x2D || IsDigit(s[p]) {
      NumberFault(lib, s, p);
    }
  }

  lemma NumberFault(lib: Lib, s: Text, p: nat)
    requires p < |s| && (s[p] == 0x2D || IsDigit(s[p])) && !lib.float(s[p..NumEnd(s, p)])
    ensures AtFault(lib, s, p, BadNumber)
  {
    RunIsNumber(s, p);
    var e := NumEnd(s, p);
    if e < |s| {
      NumBytesAre(s[e]);
    }
    hide Ascii, IsNumber, NumEnd, IsNumByte;
    assert IsNumber(s[p..e]) && !lib.float(s[p..e]);
  }

  lemma RunIsNumber(s: Text, p: nat)
    requires p < |s| && (s[p] == 0x2D || IsDigit(s[p]))
    ensures p < NumEnd(s, p) && IsNumber(s[p..NumEnd(s, p)])
  {
    NumRead(s, p);
    var t := s[p..NumEnd(s, p)];
    hide Ascii;
    forall b | b in t ensures b in Ascii("+-0123456789.eE") {
      NumBytesAre(b);
    }
    NumBytesAre(t[0]);
  }

  // ---- values ----

  lemma AfterFault(lib: Lib, s: Text, i: nat, close: byte)
    requires i <= |s| && AfterItem(s, i, close).Bad? && (close == RBRACKET || close == RBRACE)
    ensures AtFault(lib, s, AfterItem(s, i, close).at, AfterItem(s, i, close).why)
  {
    var t := SkipWs(s, i);
    if t < |s| {
      MarksAre(s[t]);
      if s[t] == COMMA {
        var u := SkipWs(s, t + 1);
        WsRead(s, t + 1);
        if u < |s| {
          MarksAre(s[u]);
        }
      }
    }
    hide Ascii, IsWs, SkipWs, AllWs;
  }

  lemma {:induction false} ValueFault(lib: Lib, s: Text, i: nat, depth: nat)
    requires i <= |s| && Value(lib, s, i, depth).Bad?
    ensures AtFault(lib, s, Value(lib, s, i, depth).at, Value(lib, s, i, depth).why)
    decreases |s| - i, 1
  {
    hide Members, Items, Scalar, SkipWs, Ascii;
    var at := SkipWs(s, i);
    if depth <= MAX_DEPTH && at < |s| {
      if s[at] == LBRACE {
        hide AtFault;
        MembersFault(lib, s, SkipWs(s, at + 1), depth, []);
      } else if s[at] == LBRACKET {
        hide AtFault;
        ItemsFault(lib, s, SkipWs(s, at + 1), depth, []);
      } else {
        hide AtFault;
        ScalarFault(lib, s, at);
      }
    }
  }

  lemma {:induction false} EntryFault(lib: Lib, s: Text, i: nat, depth: nat)
    requires i <= |s| && Entry(lib, s, i, depth).Bad?
    ensures AtFault(lib, s, Entry(lib, s, i, depth).at, Entry(lib, s, i, depth).why)
    decreases |s| - i, 2
  {
    var k := SkipWs(s, i);
    if k < |s| {
      MarksAre(s[k]);
    }
    hide Ascii, SkipWs, Value, Str, IsWs;
    if ByteAt(s, k, QUOTE) {
      if Str(lib, s, k).Bad? {
        hide AtFault;
        StrFault(lib, s, k);
      } else {
        var c := SkipWs(s, Str(lib, s, k).next);
        if !ByteAt(s, c, COLON) {
          ColonFault(lib, s, Str(lib, s, k).next);
        } else {
          hide AtFault;
          ValueFault(lib, s, c + 1, depth + 1);
        }
      }
    }
  }

  lemma ColonFault(lib: Lib, s: Text, e: nat)
    requires e <= |s| && !ByteAt(s, SkipWs(s, e), COLON)
    ensures AtFault(lib, s, SkipWs(s, e), NoColon)
  {
    var c := SkipWs(s, e);
    if c < |s| {
      MarksAre(s[c]);
    }
    hide Ascii;
  }

  lemma KeyAt(lib: Lib, s: Text, i: nat, depth: nat)
    requires i <= |s| && Entry(lib, s, i, depth).Ok?
    ensures AtFault(lib, s, Entry(lib, s, i, depth).val.at, DuplicateKey)
  {
    hide Value, Str;
    MarksAre(s[SkipWs(s, i)]);
    hide Ascii;
  }

  lemma {:induction false} MembersFault(lib: Lib, s: Text, i: nat, depth: nat, acc: seq<KeyVal>)
    requires i <= |s| && Members(lib, s, i, depth, acc).Bad?
    ensures AtFault(lib, s, Members(lib, s, i, depth, acc).at, Members(lib, s, i, depth, acc).why)
    decreases |s| - i, 3
  {
    hide Entry, Value, AfterItem, HasKey, AtFault;
    var kv := Entry(lib, s, i, depth);
    if kv.Bad? {
      EntryFault(lib, s, i, depth);
    } else {
      KeyAt(lib, s, i, depth);
      var a := AfterItem(s, kv.next, RBRACE);
      if a.Bad? {
        AfterFault(lib, s, kv.next, RBRACE);
      } else if a.val && !HasKey(acc, kv.val.key) {
        MembersFault(lib, s, a.next, depth, acc + [kv.val]);
      }
    }
  }

  lemma {:induction false} ItemsFault(lib: Lib, s: Text, i: nat, depth: nat, acc: seq<Node>)
    requires i <= |s| && Items(lib, s, i, depth, acc).Bad?
    ensures AtFault(lib, s, Items(lib, s, i, depth, acc).at, Items(lib, s, i, depth, acc).why)
    decreases |s| - i, 2
  {
    hide Value, AfterItem, AtFault;
    var v := Value(lib, s, i, depth + 1);
    if v.Bad? {
      ValueFault(lib, s, i, depth + 1);
    } else {
      var a := AfterItem(s, v.next, RBRACKET);
      if a.Bad? {
        AfterFault(lib, s, v.next, RBRACKET);
      } else if a.val {
        ItemsFault(lib, s, a.next, depth, acc + [v.val]);
      }
    }
  }

  /** A text that does not parse is wrong at the byte the refusal names; behind a whole document that
      is the first byte that is no white space. */
  lemma FaultIsThere(lib: Lib, s: Text)
    requires Parse(lib, s).Bad?
    ensures AtFault(lib, s, Parse(lib, s).at, Parse(lib, s).why)
  {
    var b := Start(s);
    var v := Value(lib, s, b, 0);
    hide Value, AtFault, SkipWs;
    if v.Bad? {
      ValueFault(lib, s, b, 0);
    } else {
      TrailingFault(lib, s);
    }
  }

  lemma TrailingFault(lib: Lib, s: Text)
    requires var v := Value(lib, s, Start(s), 0); v.Ok? && SkipWs(s, v.next) < |s|
    ensures AtFault(lib, s, SkipWs(s, Value(lib, s, Start(s), 0).next), TrailingText)
  {
    var b := Start(s);
    var v := Value(lib, s, b, 0);
    var at, e := SkipWs(s, b), SkipWs(s, v.next);
    var d := ValueReads(lib, s, b, 0);
    WsRead(s, b);
    WsRead(s, v.next);
    var f := File(BOM <= s, s[b..at], d, s[v.next..e]);
    FileSpells(f);
    BeforeStart(s);
    FirstPart(s, b, at, v.next, e);
    hide *;
    assert FileOk(lib, f) && SpellFile(f) == s[..e];
    IsTrailing(lib, s, e, f);
  }

  lemma IsTrailing(lib: Lib, s: Text, e: nat, f: File)
    requires e < |s| && !IsWs(s[e]) && FileOk(lib, f) && SpellFile(f) == s[..e]
    ensures AtFault(lib, s, e, TrailingText)
  {
    MarksAre(s[e]);
    hide Ascii, FileOk, SpellFile;
  }

  lemma BeforeStart(s: Text)
    ensures s[..Start(s)] == if BOM <= s then [0xEF, 0xBB, 0xBF] else []
  {
  }

  lemma FirstPart(s: Text, b: nat, p: nat, e: nat, n: nat)
    requires b <= p <= e <= n <= |s|
    ensures s[..n] == s[..b] + s[b..p] + s[p..e] + s[e..n]
  {
  }
}
