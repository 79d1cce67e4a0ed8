/** Tokens: where the parser ends white space, words, numbers and strings, compared with how they
    are spelled. */
module JsonTokens {
  import opened Bytes
  import opened JsonSpec
  import opened JsonLocality
  import opened JsonGrammar

  /** `t` stands in `s` at `p`. */
  predicate Stands(s: Text, p: nat, t: Text) {
    p + |t| <= |s| && forall q {:trigger t[q]} :: 0 <= q < |t| ==> s[p + q] == t[q]
  }

  lemma StandsBoth(s: Text, p: nat, a: Text, b: Text)
    requires Stands(s, p, a + b)
    ensures Stands(s, p, a) && Stands(s, p + |a|, b)
  {
    forall q {:trigger a[q]} | 0 <= q < |a| ensures s[p + q] == a[q] {
      assert (a + b)[q] == a[q];
    }
    forall q {:trigger b[q]} | 0 <= q < |b| ensures s[p + |a| + q] == b[q] {
      assert (a + b)[|a| + q] == b[q];
    }
  }

  lemma StandsHere(s: Text, p: nat, t: Text)
    requires Stands(s, p, t)
    ensures s[p..p + |t|] == t
  {
  }

  lemma Ones()
    ensures Ascii("[") == [LBRACKET] && Ascii("]") == [RBRACKET] && Ascii("{") == [LBRACE] && Ascii("}") == [RBRACE]
    ensures Ascii(",") == [COMMA] && Ascii(":") == [COLON]
  {
  }

  lemma Words()
    ensures Ascii("true") == TRUE && Ascii("false") == FALSE && Ascii("null") == NULL
  {
  }

  lemma WsBytesAre(b: byte)
    ensures b in Ascii(" \t\n\r") <==> IsWs(b)
  {
    assert Ascii(" \t\n\r") == [SPACE, TAB, LF, CR];
  }

  lemma NumBytesAre(b: byte)
    ensures b in Ascii("+-0123456789.eE") <==> IsNumByte(b)
    ensures b in Ascii("-0123456789") <==> b == 0x2D || IsDigit(b)
  {
    assert Ascii("+-0123456789.eE") ==
           [0x2B, 0x2D, 0x30, 0x31, 0x32, 0x33, 0x34, 0x35, 0x36, 0x37, 0x38, 0x39, 0x2E, 0x65, 0x45];
    assert Ascii("-0123456789") == [0x2D, 0x30, 0x31, 0x32, 0x33, 0x34, 0x35, 0x36, 0x37, 0x38, 0x39];
  }

  // ---- white space and numbers ----

  lemma {:induction false} WsPassed(s: Text, i: nat, w: Text)
    requires Stands(s, i, w) && AllWs(w) && (i + |w| < |s| ==> !IsWs(s[i + |w|]))
    ensures SkipWs(s, i) == i + |w|
    decreases |w|
  {
    if w != [] {
      assert w[0] in w && s[i + 0] == w[0];
      WsBytesAre(w[0]);
      assert w == [w[0]] + w[1..];
      StandsBoth(s, i, [w[0]], w[1..]);
      assert forall b :: b in w[1..] ==> b in w;
      WsPassed(s, i + 1, w[1..]);
    }
  }

  lemma {:induction false} WsRead(s: Text, i: nat)
    requires i <= |s|
    ensures AllWs(s[i..SkipWs(s, i)])
    decreases |s| - i
  {
    if i < |s| && IsWs(s[i]) {
      WsRead(s, i + 1);
      WsBytesAre(s[i]);
      assert s[i..SkipWs(s, i)] == [s[i]] + s[i + 1..SkipWs(s, i)];
    }
  }

  lemma {:induction false} NumPassed(s: Text, i: nat, t: Text)
    requires Stands(s, i, t) && (forall b :: b in t ==> IsNumByte(b)) && Stops(s, i + |t|)
    ensures NumEnd(s, i) == i + |t|
    decreases |t|
  {
    if t != [] {
      assert t[0] in t && s[i + 0] == t[0];
      assert t == [t[0]] + t[1..];
      StandsBoth(s, i, [t[0]], t[1..]);
      assert forall b :: b in t[1..] ==> b in t;
      NumPassed(s, i + 1, t[1..]);
    }
  }

  lemma {:induction false} NumRead(s: Text, i: nat)
    requires i <= |s|
    ensures forall b :: b in s[i..NumEnd(s, i)] ==> IsNumByte(b)
    decreases |s| - i
  {
    if i < |s| && IsNumByte(s[i]) {
      NumRead(s, i + 1);
      assert s[i..NumEnd(s, i)] == [s[i]] + s[i + 1..NumEnd(s, i)];
    }
  }

  // ---- strings ----

  /** Behind a byte that is not escaped. */
  lemma BareNext(t: Text, i: nat)
    requires i < |t| && Bare(t, i)
    ensures t[i] != BACKSLASH ==> Bare(t, i + 1)
    ensures t[i] == BACKSLASH ==> !Bare(t, i + 1) && (i + 1 < |t| ==> Bare(t, i + 2))
  {
  }

  /** The scan finds the end of a token. */
  lemma {:induction false} TokenCloses(s: Text, p: nat, t: Text, i: nat, start: nat)
    requires IsToken(t) && Stands(s, p, t) && 1 <= i < |t| && Bare(t, i)
    ensures CloseQuote(s, p + i, start) == Ok(Unit, p + |t|)
    decreases |t| - i
  {
    hide Slashes;
    assert s[p + i] == t[i];
    BareNext(t, i);
    if i < |t| - 1 {
      if t[i] == BACKSLASH {
        TokenCloses(s, p, t, i + 2, start);
      } else {
        TokenCloses(s, p, t, i + 1, start);
      }
    }
  }

  /** What the scan ends is a token, as far as it is seen from `i` on. */
  lemma {:induction false} ScanIsToken(s: Text, p: nat, i: nat, start: nat)
    requires p < i <= |s| && CloseQuote(s, i, start).Ok?
    requires Bare(s[p..CloseQuote(s, i, start).next], i - p)
    ensures var t := s[p..CloseQuote(s, i, start).next];
            && t[|t| - 1] == QUOTE && Bare(t, |t| - 1)
            && forall k {:trigger t[k]} :: i - p <= k < |t| - 1 && Bare(t, k) ==> t[k] != QUOTE && t[k] >= 0x20
    decreases |s| - i
  {
    hide Slashes;
    var t := s[p..CloseQuote(s, i, start).next];
    assert t[i - p] == s[i];
    BareNext(t, i - p);
    if s[i] == QUOTE {
    } else if s[i] == BACKSLASH {
      ScanIsToken(s, p, i + 2, start);
    } else {
      ScanIsToken(s, p, i + 1, start);
    }
  }

  lemma BareFirst(t: Text)
    requires t != [] && t[0] != BACKSLASH
    ensures Bare(t, 1)
  {
  }

  /** The token at `p`, both ways. */
  lemma TokenRead(s: Text, p: nat)
    requires ByteAt(s, p, QUOTE) && CloseQuote(s, p + 1, p).Ok?
    ensures IsToken(s[p..CloseQuote(s, p + 1, p).next])
  {
    var t := s[p..CloseQuote(s, p + 1, p).next];
    BareFirst(t);
    ScanIsToken(s, p, p + 1, p);
  }

  lemma TokenPassed(lib: Lib, s: Text, p: nat, t: Text)
    requires Readable(lib, t) && Stands(s, p, t)
    ensures ByteAt(s, p, QUOTE) && Str(lib, s, p) == Ok(Unquoted(lib, t), p + |t|)
  {
    assert s[p + 0] == t[0];
    BareFirst(t);
    TokenCloses(s, p, t, 1, p);
    StandsHere(s, p, t);
  }

  lemma StrRead(lib: Lib, s: Text, p: nat)
    requires ByteAt(s, p, QUOTE) && Str(lib, s, p).Ok?
    ensures var e := Str(lib, s, p).next; Readable(lib, s[p..e]) && Str(lib, s, p).val == Unquoted(lib, s[p..e])
  {
    TokenRead(s, p);
  }

  // ---- scalars ----

  lemma WordPassed(lib: Lib, s: Text, p: nat, w: Text)
    requires IsWord(w) && Stands(s, p, w)
    ensures var r := Scalar(lib, s, p); r.Ok? && r.next == p + |w| && Plain(r.val) == Meaning(lib, Word(w))
  {
    Words();
    StandsHere(s, p, w);
    assert s[p + 0] == w[0];
    forall v: Text | v != [] && WordAt(s, p, v) ensures s[p] == v[0] {
      WordBegins(s, p, v);
    }
  }

  lemma WordBegins(s: Text, p: nat, v: Text)
    requires v != [] && WordAt(s, p, v)
    ensures s[p] == v[0]
  {
    assert s[p..p + |v|][0] == s[p];
  }

  lemma NumberPassed(lib: Lib, s: Text, p: nat, t: Text)
    requires IsNumber(t) && lib.float(t) && Stands(s, p, t) && Stops(s, p + |t|)
    ensures var r := Scalar(lib, s, p); r.Ok? && r.next == p + |t| && Plain(r.val) == JNum(t)
  {
    hide Ascii;
    forall b | b in t ensures IsNumByte(b) {
      NumBytesAre(b);
    }
    NumBytesAre(t[0]);
    NumPassed(s, p, t);
    StandsHere(s, p, t);
    assert s[p + 0] == t[0];
  }

  /** What is read as a word, a number or a string is spelled as one. */
  lemma ScalarRead(lib: Lib, s: Text, p: nat) returns (d: Doc)
    requires p < |s| && Scalar(lib, s, p).Ok?
    ensures var r := Scalar(lib, s, p);
            DocOk(lib, d, 0) && s[p..r.next] == Spell(d) && Plain(r.val) == Meaning(lib, d)
    ensures !d.Array? && !d.Object?
  {
    var t := s[p..Scalar(lib, s, p).next];
    if s[p] == QUOTE {
      StrRead(lib, s, p);
      d := String(t);
    } else if s[p] == TRUE[0] || s[p] == FALSE[0] || s[p] == NULL[0] {
      Words();
      d := Word(t);
    } else {
      NumRead(s, p);
      hide Ascii;
      forall b | b in t ensures b in Ascii("+-0123456789.eE") {
        NumBytesAre(b);
      }
      NumBytesAre(s[p]);
      d := Number(t);
    }
  }
}
