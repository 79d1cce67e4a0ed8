/** `new-files.txt`: the list of files a deployment added, one a line, written by `backup` and
    read by `restore`. */
module NewsFile {
  predicate IsSpace(c: char) {
    || '\t' <= c <= '\r' || c == ' ' || c == '\U{0085}' || c == '\U{00A0}' || c == '\U{1680}'
    || '\U{2000}' <= c <= '\U{200A}' || c == '\U{2028}' || c == '\U{2029}' || c == '\U{202F}'
    || c == '\U{205F}' || c == '\U{3000}'
  }

  /** `strings.TrimSpace`. */
  function Trim(s: string): string { TrimEnd(TrimStart(s)) }

  function TrimStart(s: string): string { if s != [] && IsSpace(s[0]) then TrimStart(s[1..]) else s }

  function TrimEnd(s: string): string { if s != [] && IsSpace(s[|s| - 1]) then TrimEnd(s[..|s| - 1]) else s }

  /** `strings.Join(news, "\n") + "\n"`. */
  function Written(news: seq<string>): string {
    if news == [] then "\n"
    else if |news| == 1 then news[0] + "\n"
    else news[0] + "\n" + Written(news[1..])
  }

  /** The lines a `bufio.Scanner` gives: cut at each line feed, a last piece only if not empty. */
  function Lines(text: string): seq<string> { LinesFrom(text, 0) }

  /** The lines of `text` when its first `n` characters are known to hold no line feed. */
  function LinesFrom(text: string, n: nat): seq<string>
    requires n <= |text|
    decreases |text|, |text| - n
  {
    if n == |text| then (if n == 0 then [] else [text])
    else if text[n] == '\n' then [text[..n]] + LinesFrom(text[n + 1..], 0)
    else LinesFrom(text, n + 1)
  }

  function DropCR(s: string): string { if s != [] && s[|s| - 1] == '\r' then s[..|s| - 1] else s }

  /** The names `restore` gets to see. */
  function Scanned(text: string): (r: seq<string>)
    ensures |r| == |Lines(text)|
  {
    var ls := Lines(text);
    seq(|ls|, k requires 0 <= k < |ls| => Trim(DropCR(ls[k])))
  }

  /** A name that survives the list: one line, no blanks around it. */
  predicate Clean(name: string) { name != "" && '\n' !in name && Trim(name) == name }

  lemma {:induction false} TrimStartIdle(s: string)
    ensures TrimStart(s) == [] || !IsSpace(TrimStart(s)[0])
    ensures '\n' !in s ==> '\n' !in TrimStart(s)
  {
    if s != [] && IsSpace(s[0]) {
      TrimStartIdle(s[1..]);
    }
  }

  lemma {:induction false} TrimEndKeepsStart(s: string)
    requires s == [] || !IsSpace(s[0])
    ensures TrimEnd(s) == [] || (!IsSpace(TrimEnd(s)[0]) && !IsSpace(TrimEnd(s)[|TrimEnd(s)| - 1]))
    ensures '\n' !in s ==> '\n' !in TrimEnd(s)
  {
    if s != [] && IsSpace(s[|s| - 1]) {
      TrimEndKeepsStart(s[..|s| - 1]);
    }
  }

  lemma TrimTwice(s: string)
    ensures Trim(Trim(s)) == Trim(s)
    ensures '\n' !in s ==> '\n' !in Trim(s)
  {
    TrimStartIdle(s);
    TrimEndKeepsStart(TrimStart(s));
  }

  lemma {:induction false} LineFirst(a: string, rest: string, n: nat)
    requires '\n' !in a && n <= |a|
    ensures LinesFrom(a + "\n" + rest, n) == [a] + Lines(rest)
    decreases |a| - n
  {
    var t := a + "\n" + rest;
    if n == |a| {
      assert t[..n] == a && t[n + 1..] == rest;
    } else {
      assert t[n] == a[n] && a[n] in a;
      LineFirst(a, rest, n + 1);
    }
  }

  lemma {:induction false} LinesHoldNoFeed(text: string, n: nat)
    requires n <= |text| && '\n' !in text[..n]
    ensures forall l :: l in LinesFrom(text, n) ==> '\n' !in l
    decreases |text|, |text| - n
  {
    if n == |text| {
      assert text[..n] == text;
    } else if text[n] == '\n' {
      LinesHoldNoFeed(text[n + 1..], 0);
    } else {
      assert text[..n + 1] == text[..n] + [text[n]];
      LinesHoldNoFeed(text, n + 1);
    }
  }

  /** Nothing unclean is ever read from the list, whatever was written. */
  lemma ScannedIsClean(text: string, name: string)
    requires name in Scanned(text) && name != ""
    ensures Clean(name)
  {
    LinesHoldNoFeed(text, 0);
    var k :| 0 <= k < |Lines(text)| && name == Trim(DropCR(Lines(text)[k]));
    assert Lines(text)[k] in Lines(text);
    TrimTwice(DropCR(Lines(text)[k]));
  }

  lemma CleanEndsPlain(name: string)
    requires Clean(name)
    ensures DropCR(name) == name
  {
    TrimStartIdle(name);
    TrimEndKeepsStart(TrimStart(name));
  }

  lemma {:induction false} LinesOfWritten(news: seq<string>)
    requires forall n :: n in news ==> '\n' !in n
    ensures Lines(Written(news)) == if news == [] then [""] else news
  {
    if news == [] {
      LineFirst("", "", 0);
      assert "" + "\n" + "" == "\n";
    } else if |news| == 1 {
      LineFirst(news[0], "", 0);
      assert news[0] + "\n" + "" == Written(news);
      assert [news[0]] + [] == news;
    } else {
      LineFirst(news[0], Written(news[1..]), 0);
      LinesOfWritten(news[1..]);
    }
  }

  /** A list of clean names is read back as the same names. */
  lemma RoundTrip(news: seq<string>)
    requires forall n :: n in news ==> Clean(n)
    ensures Scanned(Written(news)) == if news == [] then [""] else news
  {
    LinesOfWritten(news);
    forall k | 0 <= k < |news| ensures Trim(DropCR(news[k])) == news[k] {
      assert news[k] in news;
      CleanEndsPlain(news[k]);
    }
    assert Trim(DropCR("")) == "";
  }
}
