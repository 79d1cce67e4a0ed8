/** The paths the store lets in: `CleanRel`, and which of them survive the line-based list of
    new files. */
module RelPaths {
  import opened Wrappers
  import opened NewsFile
  import opened Install

  /** `strings.Split(s, "/")`, and joining again. */
  function Segs(s: string): (r: seq<string>)
    ensures r != []
  {
    if s == "" then [""]
    else if s[0] == '/' then [""] + Segs(s[1..])
    else var r := Segs(s[1..]); [[s[0]] + r[0]] + r[1..]
  }

  function Glue(segs: seq<string>): string
    requires segs != []
  {
    if |segs| == 1 then segs[0] else segs[0] + "/" + Glue(segs[1..])
  }

  /** `path.Clean` of a relative path, name by name. */
  function Reduce(segs: seq<string>, acc: seq<string>): seq<string> {
    if segs == [] then acc
    else if segs[0] == "" || segs[0] == "." then Reduce(segs[1..], acc)
    else if segs[0] != ".." then Reduce(segs[1..], acc + [segs[0]])
    else if acc != [] && acc[|acc| - 1] != ".." then Reduce(segs[1..], acc[..|acc| - 1])
    else Reduce(segs[1..], acc + [".."])
  }

  function PathClean(p: string): string {
    var r := Reduce(Segs(p), []);
    if r == [] then "." else Glue(r)
  }

  function Slashes(s: string): (r: string)
    ensures |r| == |s| && '\\' !in r
  {
    if s == "" then "" else [if s[0] == '\\' then '/' else s[0]] + Slashes(s[1..])
  }

  /** The length in UTF-8. */
  function ByteLen(s: string): nat {
    if s == "" then 0
    else CharLen(s[0]) + ByteLen(s[1..])
  }

  function CharLen(c: char): nat {
    if c < '\U{0080}' then 1 else if c < '\U{0800}' then 2 else if c < '\U{10000}' then 3 else 4
  }

  predicate BadEnd(seg: string) { seg != "" && (seg[|seg| - 1] == ' ' || seg[|seg| - 1] == '.') }

  function CleanRel(p: string): Option<string> {
    var q := Slashes(Trim(p));
    if q == "" || q[0] == '/' || '\0' in q then None
    else
      var c := PathClean(q);
      if c == "." || c == ".." || "../" <= c then None
      else if ByteLen(c) > 512 then None
      else if exists seg :: seg in Segs(c) && BadEnd(seg) then None
      else if "@" <= c then None
      else Some(c)
  }

  // ---- names ----

  /** A name that is neither empty nor one of the dots. */
  predicate Proper(seg: string) { seg != "" && seg != "." && seg != ".." && '/' !in seg }

  predicate AllProper(segs: seq<string>) { forall k :: 0 <= k < |segs| ==> Proper(segs[k]) }

  /** Steps out of the folder first, then names. */
  predicate Canonical(segs: seq<string>) {
    && (forall k :: 0 <= k < |segs| ==> Proper(segs[k]) || segs[k] == "..")
    && (forall k, m :: 0 <= k < m < |segs| && segs[m] == ".." ==> segs[k] == "..")
  }

  lemma {:induction false} SegsHoldNoSlash(s: string)
    ensures forall k :: 0 <= k < |Segs(s)| ==> '/' !in Segs(s)[k]
    ensures Glue(Segs(s)) == s
  {
    if s != "" {
      SegsHoldNoSlash(s[1..]);
    }
  }

  lemma {:induction false} SegsOfGlue(segs: seq<string>)
    requires segs != [] && forall k :: 0 <= k < |segs| ==> '/' !in segs[k]
    ensures Segs(Glue(segs)) == segs
    decreases |segs|
  {
    if |segs| == 1 {
      OneSeg(segs[0], "");
      assert segs[0] + "" == segs[0];
    } else {
      SegsOfGlue(segs[1..]);
      OneSeg(segs[0], "/" + Glue(segs[1..]));
      assert segs[0] + ("/" + Glue(segs[1..])) == Glue(segs);
      assert ("/" + Glue(segs[1..]))[1..] == Glue(segs[1..]);
    }
  }

  lemma {:induction false} OneSeg(a: string, rest: string)
    requires '/' !in a && (rest == "" || rest[0] == '/')
    ensures Segs(a + rest) == [a] + Segs(rest)[1..]
  {
    if a == "" {
      assert a + rest == rest;
    } else {
      OneSeg(a[1..], rest);
      assert (a + rest)[1..] == a[1..] + rest && a == [a[0]] + a[1..];
    }
  }

  lemma {:induction false} ReduceIsCanonical(segs: seq<string>, acc: seq<string>)
    requires Canonical(acc) && forall k :: 0 <= k < |segs| ==> '/' !in segs[k]
    ensures Canonical(Reduce(segs, acc))
    decreases |segs|
  {
    if segs != [] {
      var next := if segs[0] == "" || segs[0] == "." then acc
                  else if segs[0] != ".." then acc + [segs[0]]
                  else if acc != [] && acc[|acc| - 1] != ".." then acc[..|acc| - 1]
                  else acc + [".."];
      ReduceIsCanonical(segs[1..], next);
    }
  }

  lemma {:induction false} ReduceIdle(segs: seq<string>, acc: seq<string>)
    requires AllProper(segs)
    ensures Reduce(segs, acc) == acc + segs
    decreases |segs|
  {
    if segs != [] {
      ReduceIdle(segs[1..], acc + [segs[0]]);
    }
  }

  /** The characters of a list of names, one more for each. */
  function Weight(segs: seq<string>): nat {
    if segs == [] then 0 else Weight(segs[..|segs| - 1]) + |segs[|segs| - 1]| + 1
  }

  lemma {:induction false} WeightOfGlue(segs: seq<string>)
    requires segs != []
    ensures |Glue(segs)| + 1 == Weight(segs)
    decreases |segs|
  {
    if |segs| > 1 {
      WeightOfGlue(segs[1..]);
      WeightOfFirst(segs);
    }
  }

  lemma {:induction false} WeightOfFirst(segs: seq<string>)
    requires segs != []
    ensures Weight(segs) == |segs[0]| + 1 + Weight(segs[1..])
  {
    if |segs| > 1 {
      WeightOfFirst(segs[..|segs| - 1]);
      assert segs[..|segs| - 1][1..] == segs[1..][..|segs| - 2];
    }
  }

  lemma {:induction false} ReduceIsLighter(segs: seq<string>, acc: seq<string>)
    ensures Weight(Reduce(segs, acc)) <= Weight(acc) + Weight(segs)
    decreases |segs|
  {
    if segs != [] {
      WeightOfFirst(segs);
      assert (acc + [segs[0]])[..|acc|] == acc;
      var next := if segs[0] == "" || segs[0] == "." then acc
                  else if segs[0] != ".." then acc + [segs[0]]
                  else if acc != [] && acc[|acc| - 1] != ".." then acc[..|acc| - 1]
                  else acc + [".."];
      ReduceIsLighter(segs[1..], next);
    }
  }

  // ---- what is let in ----

  lemma CleanedSegs(q: string)
    ensures PathClean(q) != "." ==> Segs(PathClean(q)) == Reduce(Segs(q), []) && Canonical(Segs(PathClean(q)))
    ensures |PathClean(q)| <= if q == "" then 1 else |q|
  {
    var r := Reduce(Segs(q), []);
    SegsHoldNoSlash(q);
    ReduceIsCanonical(Segs(q), []);
    ReduceIsLighter(Segs(q), []);
    WeightOfGlue(Segs(q));
    if r != [] {
      WeightOfGlue(r);
      SegsOfGlue(r);
    }
  }

  lemma {:induction false} SlashesIdle(s: string)
    requires '\\' !in s
    ensures Slashes(s) == s
  {
    if s != "" {
      assert s == [s[0]] + s[1..];
      SlashesIdle(s[1..]);
    }
  }

  lemma {:induction false} SegsFree(s: string, c: char)
    requires c !in s
    ensures forall k :: 0 <= k < |Segs(s)| ==> c !in Segs(s)[k]
  {
    if s != "" {
      SegsFree(s[1..], c);
    }
  }

  lemma {:induction false} GlueFree(segs: seq<string>, c: char)
    requires segs != [] && c != '/' && forall k :: 0 <= k < |segs| ==> c !in segs[k]
    ensures c !in Glue(segs)
    decreases |segs|
  {
    if |segs| > 1 {
      GlueFree(segs[1..], c);
    }
  }

  lemma {:induction false} ReduceFree(segs: seq<string>, acc: seq<string>, c: char)
    requires c != '.' && (forall k :: 0 <= k < |segs| ==> c !in segs[k]) && forall k :: 0 <= k < |acc| ==> c !in acc[k]
    ensures forall k :: 0 <= k < |Reduce(segs, acc)| ==> c !in Reduce(segs, acc)[k]
    decreases |segs|
  {
    if segs != [] {
      var next := if segs[0] == "" || segs[0] == "." then acc
                  else if segs[0] != ".." then acc + [segs[0]]
                  else if acc != [] && acc[|acc| - 1] != ".." then acc[..|acc| - 1]
                  else acc + [".."];
      ReduceFree(segs[1..], next, c);
    }
  }

  lemma GlueStarts(segs: seq<string>)
    requires segs != []
    ensures if |segs| == 1 then Glue(segs) == segs[0] else segs[0] + "/" <= Glue(segs)
  {
  }

  /** A path that is let in has proper names only, so it stays inside its folder. */
  lemma CleanRelIsLocal(p: string)
    requires CleanRel(p).Some?
    ensures var c := CleanRel(p).value; IsLocal(c) && AllProper(Segs(c)) && '\\' !in c && '\0' !in c
  {
    var q := Slashes(Trim(p));
    var c := PathClean(q);
    var r := Reduce(Segs(q), []);
    CleanedSegs(q);
    SegsFree(q, '\\');
    SegsFree(q, '\0');
    ReduceFree(Segs(q), [], '\\');
    ReduceFree(Segs(q), [], '\0');
    GlueFree(r, '\\');
    GlueFree(r, '\0');
    SegsHoldNoSlash(c);
    GlueStarts(r);
  }

  /** Letting a path in a second time gives it back, unless its first name begins or its last one
      ends with a blank. */
  lemma CleanRelAgain(p: string)
    requires CleanRel(p).Some?
    ensures var c := CleanRel(p).value; CleanRel(c) == Some(c) <==> Trim(c) == c
  {
    var c := CleanRel(p).value;
    CleanRelIsLocal(p);
    TrimNotLonger(c);
    if Trim(c) == c {
      SlashesIdle(c);
      ReduceIdle(Segs(c), []);
      SegsHoldNoSlash(c);
      assert [] + Segs(c) == Segs(c);
    } else {
      CleanedSegs(Slashes(Trim(c)));
    }
  }

  lemma {:induction false} TrimStartShorter(s: string)
    ensures TrimStart(s) == s || |TrimStart(s)| < |s|
  {
    if s != "" && IsSpace(s[0]) {
      TrimStartShorter(s[1..]);
    }
  }

  lemma {:induction false} TrimEndShorter(s: string)
    ensures TrimEnd(s) == s || |TrimEnd(s)| < |s|
  {
    if s != "" && IsSpace(s[|s| - 1]) {
      TrimEndShorter(s[..|s| - 1]);
    }
  }

  lemma TrimNotLonger(s: string)
    ensures Trim(s) == s || |Trim(s)| < |s|
  {
    TrimStartShorter(s);
    TrimEndShorter(TrimStart(s));
  }

  /** A path that is let in survives the list of new files exactly if it holds no line end and
      would be let in as it is again. */
  lemma LetInAndListed(p: string)
    requires CleanRel(p).Some?
    ensures var c := CleanRel(p).value; Clean(c) <==> '\n' !in c && CleanRel(c) == Some(c)
  {
    CleanRelIsLocal(p);
    CleanRelAgain(p);
  }

  lemma CleanRelKeepsNewline()
    ensures CleanRel("x\ny") == Some("x\ny")
  {
    var s := "x\ny";
    assert TrimStart(s) == s && TrimEnd(s) == s;
    SlashesIdle(s);
    OneSeg(s, "");
    assert s + "" == s && Segs("") == [""];
    assert Segs(s) == [s];
    ReduceIdle([s], []);
    assert [] + [s] == [s];
    assert s[1..] == "\ny" && s[1..][1..] == "y" && s[1..][1..][1..] == "";
    assert ByteLen(s) == 3;
  }
}
