/** Which paths `CleanRel` lets in, told from where they lead. */
module LetIn {
  import opened Wrappers
  import opened NewsFile
  import opened Install
  import opened RelPaths

  /** Where one gets from the folder `at`, name by name; above the top there is nothing. */
  function Walk(at: seq<string>, segs: seq<string>): Option<seq<string>>
    decreases |segs|
  {
    if segs == [] then Some(at)
    else if segs[0] == "" || segs[0] == "." then Walk(at, segs[1..])
    else if segs[0] == ".." then (if at == [] then None else Walk(at[..|at| - 1], segs[1..]))
    else Walk(at + [segs[0]], segs[1..])
  }

  /** From every folder deep enough the path leads to `names` in it. */
  ghost predicate LeadsTo(q: string, names: seq<string>) {
    forall b: seq<string> {:trigger Walk(b, Segs(q))} :: |b| >= |Segs(q)| ==> Walk(b, Segs(q)) == Some(b + names)
  }

  /** How many steps out a reduced path begins with. */
  function Ups(acc: seq<string>): nat { if acc != [] && acc[0] == ".." then 1 + Ups(acc[1..]) else 0 }

  lemma {:induction false} UpsAre(acc: seq<string>)
    requires Canonical(acc)
    ensures Ups(acc) <= |acc|
    ensures forall k :: 0 <= k < |acc| ==> (acc[k] == ".." <==> k < Ups(acc))
  {
    if acc != [] {
      assert Canonical(acc[1..]);
      UpsAre(acc[1..]);
      assert forall k :: 0 < k < |acc| ==> acc[k] == acc[1..][k - 1];
    }
  }

  lemma UpsOf(acc: seq<string>, n: nat)
    requires Canonical(acc) && n <= |acc| && forall k :: 0 <= k < |acc| ==> (acc[k] == ".." <==> k < n)
    ensures Ups(acc) == n
  {
    UpsAre(acc);
    assert n < |acc| ==> (acc[n] == ".." <==> n < Ups(acc));
    assert Ups(acc) < |acc| ==> (acc[Ups(acc)] == ".." <==> Ups(acc) < n);
  }

  /** Where a reduced path leads from `b`. */
  function Place(b: seq<string>, acc: seq<string>): seq<string> {
    if Ups(acc) <= |b| && Ups(acc) <= |acc| then b[..|b| - Ups(acc)] + acc[Ups(acc)..] else []
  }

  function Step(acc: seq<string>, s: string): seq<string> {
    if s == "" || s == "." then acc
    else if s != ".." then acc + [s]
    else if acc != [] && acc[|acc| - 1] != ".." then acc[..|acc| - 1]
    else acc + [".."]
  }

  lemma NameUps(acc: seq<string>, s: string)
    requires Canonical(acc) && Proper(s)
    ensures Canonical(acc + [s]) && Ups(acc + [s]) == Ups(acc) <= |acc|
  {
    UpsAre(acc);
    hide Ups, Proper;
    UpsOf(acc + [s], Ups(acc));
  }

  lemma BackUps(acc: seq<string>)
    requires Canonical(acc) && acc != [] && acc[|acc| - 1] != ".."
    ensures Canonical(acc[..|acc| - 1]) && Ups(acc[..|acc| - 1]) == Ups(acc) < |acc|
  {
    UpsAre(acc);
    hide Ups, Proper;
    UpsOf(acc[..|acc| - 1], Ups(acc));
  }

  lemma OutUps(acc: seq<string>)
    requires Canonical(acc) && (acc == [] || acc[|acc| - 1] == "..")
    ensures Canonical(acc + [".."]) && Ups(acc) == |acc| && Ups(acc + [".."]) == Ups(acc) + 1
  {
    UpsAre(acc);
    hide Ups, Proper;
    UpsOf(acc + [".."], |acc| + 1);
  }

  lemma WalkOne(at: seq<string>, s: string)
    ensures Walk(at, [s]) == if s == "" || s == "." then Some(at)
                             else if s != ".." then Some(at + [s])
                             else if at == [] then None else Some(at[..|at| - 1])
  {
    assert [s][1..] == [];
  }

  lemma NamePlace(b: seq<string>, acc: seq<string>, s: string)
    requires Ups(acc) <= |acc| && Ups(acc) <= |b| && Ups(acc + [s]) == Ups(acc)
    ensures Place(b, acc + [s]) == Place(b, acc) + [s]
  {
    hide Ups;
    assert (acc + [s])[Ups(acc)..] == acc[Ups(acc)..] + [s];
  }

  lemma BackPlace(b: seq<string>, acc: seq<string>)
    requires Ups(acc) < |acc| && Ups(acc) <= |b| && Ups(acc[..|acc| - 1]) == Ups(acc)
    ensures Place(b, acc) != [] && Place(b, acc[..|acc| - 1]) == Place(b, acc)[..|Place(b, acc)| - 1]
  {
    hide Ups;
    assert acc[..|acc| - 1][Ups(acc)..] == acc[Ups(acc)..][..|acc| - 1 - Ups(acc)];
  }

  lemma OutPlace(b: seq<string>, acc: seq<string>)
    requires Ups(acc) == |acc| < |b| && Ups(acc + [".."]) == |acc| + 1
    ensures Place(b, acc) != [] && Place(b, acc + [".."]) == Place(b, acc)[..|Place(b, acc)| - 1]
  {
    hide Ups;
    assert acc[|acc|..] == [] && (acc + [".."])[|acc| + 1..] == [];
  }

  lemma StepPlace(b: seq<string>, acc: seq<string>, s: string)
    requires Canonical(acc) && '/' !in s && Ups(acc) < |b|
    ensures Canonical(Step(acc, s)) && Ups(Step(acc, s)) <= Ups(acc) + 1
    ensures Walk(Place(b, acc), [s]) == Some(Place(b, Step(acc, s)))
  {
    WalkOne(Place(b, acc), s);
    hide Ups, Walk, Canonical, Place;
    if s != "" && s != "." {
      if s != ".." {
        NameUps(acc, s);
        NamePlace(b, acc, s);
      } else if acc != [] && acc[|acc| - 1] != ".." {
        BackUps(acc);
        BackPlace(b, acc);
      } else {
        OutUps(acc);
        OutPlace(b, acc);
      }
    }
  }

  lemma {:induction false} WalkOn(at: seq<string>, s: string, rest: seq<string>)
    ensures Walk(at, [s] + rest) == match Walk(at, [s]) case None => None case Some(x) => Walk(x, rest)
  {
    assert ([s] + rest)[1..] == rest && [s][1..] == [];
  }

  /** Reducing the names does not change where they lead. */
  lemma {:induction false} ReduceWalks(b: seq<string>, segs: seq<string>, acc: seq<string>)
    requires Canonical(acc) && Ups(acc) + |segs| <= |b| && forall k :: 0 <= k < |segs| ==> '/' !in segs[k]
    ensures Walk(Place(b, acc), segs) == Some(Place(b, Reduce(segs, acc)))
    decreases |segs|
  {
    if segs != [] {
      hide Place, Ups, Canonical;
      StepPlace(b, acc, segs[0]);
      assert segs == [segs[0]] + segs[1..];
      WalkOn(Place(b, acc), segs[0], segs[1..]);
      ReduceWalks(b, segs[1..], Step(acc, segs[0]));
    }
  }

  lemma Reduced(q: string)
    ensures Canonical(Reduce(Segs(q), []))
    ensures forall b: seq<string> :: |b| >= |Segs(q)| ==> Walk(b, Segs(q)) == Some(Place(b, Reduce(Segs(q), [])))
  {
    SegsHoldNoSlash(q);
    ReduceIsCanonical(Segs(q), []);
    hide Reduce, Segs, Canonical;
    forall b: seq<string> | |b| >= |Segs(q)| ensures Walk(b, Segs(q)) == Some(Place(b, Reduce(Segs(q), []))) {
      NothingCanonical();
      ReduceWalks(b, Segs(q), []);
      assert Place(b, []) == b;
    }
  }

  lemma NothingCanonical()
    ensures Canonical([])
  {
  }

  /** A path leads to names exactly if reducing leaves just these, and no step out. */
  lemma LeadsExactly(q: string, names: seq<string>)
    ensures LeadsTo(q, names) <==> Reduce(Segs(q), []) == names && Ups(names) == 0
  {
    var r := Reduce(Segs(q), []);
    Reduced(q);
    UpsAre(r);
    hide Reduce, Segs, Walk, Ups;
    if r == names && Ups(names) == 0 {
      forall b: seq<string> {:trigger Walk(b, Segs(q))} | |b| >= |Segs(q)| ensures Walk(b, Segs(q)) == Some(b + names) {
        assert Place(b, r) == b + names;
      }
    }
    if LeadsTo(q, names) {
      var b: seq<string> := seq(|Segs(q)| + |r|, i => "");
      assert Walk(b, Segs(q)) == Some(Place(b, r)) == Some(b + names);
      FromTop(b, r, names);
    }
  }

  lemma FromTop(b: seq<string>, r: seq<string>, names: seq<string>)
    requires Canonical(r) && |b| >= |r| && (forall i :: 0 <= i < |b| ==> b[i] == "") && Place(b, r) == b + names
    ensures r == names && Ups(names) == 0
  {
    UpsAre(r);
    hide Ups;
    if Ups(r) > 0 {
      OutIsSeen(b, r, names);
    } else {
      assert Place(b, r) == b + r;
      assert (b + r)[|b|..] == r && (b + names)[|b|..] == names;
    }
  }

  /** A step out of a folder of nameless folders shows. */
  lemma OutIsSeen(b: seq<string>, r: seq<string>, names: seq<string>)
    requires Canonical(r) && |b| >= |r| && (forall i :: 0 <= i < |b| ==> b[i] == "") && Ups(r) > 0
    ensures Place(b, r) != b + names
  {
    UpsAre(r);
    hide Ups;
    var k := Ups(r);
    if |Place(b, r)| == |b + names| {
      assert Place(b, r)[|b| - k] == r[k];
      assert (b + names)[|b| - k] == b[|b| - k];
    }
  }

  /** No name of the path ends with a blank or a dot. */
  predicate EndsWell(names: seq<string>) {
    forall k :: 0 <= k < |names| && names[k] != "" ==>
                  var last := names[k][|names[k]| - 1]; last != ' ' && last != '.'
  }

  /** A path is let in exactly if, with the blanks around it gone and every backslash a slash, it is
      neither empty nor absolute, holds no NUL, and leads to some names in whatever folder one is: not
      out of it and not to itself. No name may end with a blank or a dot, the first not begin with `@`,
      and together with the slashes between they have 512 bytes at most. These names are the path that
      is stored. */
  lemma LetInExactly(p: string, c: string)
    ensures var q := Slashes(Trim(p));
            CleanRel(p) == Some(c) <==>
              && q != "" && q[0] != '/' && '\0' !in q
              && exists names: seq<string> ::
                   && LeadsTo(q, names) && names != [] && c == Glue(names)
                   && EndsWell(names) && !("@" <= names[0]) && ByteLen(c) <= 512
  {
    var q := Slashes(Trim(p));
    var r := Reduce(Segs(q), []);
    Reduced(q);
    UpsAre(r);
    CleanedSegs(q);
    forall names: seq<string> ensures LeadsTo(q, names) <==> r == names && Ups(names) == 0 {
      LeadsExactly(q, names);
    }
    hide Reduce, LeadsTo, Walk, Slashes, Trim, ByteLen;
    if r != [] {
      FirstOfGlue(r);
      ProperSegs(r);
    }
  }

  /** What the checks of the cleaned path say of its names. */
  lemma FirstOfGlue(r: seq<string>)
    requires r != [] && Canonical(r)
    ensures Ups(r) > 0 <==> Glue(r) == ".." || "../" <= Glue(r)
    ensures Ups(r) == 0 ==> ("@" <= Glue(r) <==> "@" <= r[0])
    ensures Glue(r) != "."
  {
    GlueStarts(r);
    UpsAre(r);
    assert Ups(r) > 0 <==> r[0] == "..";
    assert r[0] != "" && r[0] != "." && '/' !in r[0];
    hide Ups, Canonical, Glue;
    if |r| > 1 {
      LongGlue(Glue(r), r[0]);
    } else if "../" <= r[0] {
      FirstIn("../", r[0], 2);
    }
  }

  /** A reduced path is local for the updater exactly if it does not lead out. */
  lemma LocalStaysInside(r: seq<string>)
    requires r != [] && Canonical(r)
    ensures IsLocal(Glue(r)) <==> Ups(r) == 0
  {
    GlueStarts(r);
    FirstOfGlue(r);
    assert r[0] != "" && '/' !in r[0];
    hide Ups, Canonical, Glue;
    if |r| > 1 {
      assert Glue(r)[..|r[0]|] == r[0];
    }
    assert Glue(r)[0] == r[0][0];
  }

  lemma FirstIn(a: string, f: string, k: nat)
    requires k < |a| && a <= f
    ensures a[k] in f && a[k] == f[k]
  {
  }

  lemma LongGlue(g: string, f: string)
    requires f + "/" <= g && f != "" && '/' !in f
    ensures g != "." && g != ".." && ("../" <= g <==> f == "..") && ("@" <= g <==> "@" <= f)
  {
    assert g[..|f|] == f && g[|f|] == '/' && g[0] == f[0];
    if "../" <= g {
      SlashFirst(g, f);
    }
  }

  lemma SlashFirst(g: string, f: string)
    requires "../" <= g && f + "/" <= g && '/' !in f && f != ""
    ensures f == ".."
  {
    assert g[..|f|] == f && g[|f|] == '/';
    assert g[0] == '.' && g[1] == '.' && g[2] == '/';
    if |f| > 2 {
      SlashIn(g, f);
    }
  }

  lemma SlashIn(g: string, f: string)
    requires f <= g && |f| > 2 && g[2] == '/'
    ensures '/' in f
  {
    assert f[2] == '/';
  }

  lemma ProperSegs(r: seq<string>)
    requires r != [] && Canonical(r)
    ensures Segs(Glue(r)) == r && ((exists seg :: seg in r && BadEnd(seg)) <==> !EndsWell(r))
  {
    SegsOfGlue(r);
    hide Segs, Glue, Canonical;
    if !EndsWell(r) {
      var k :| 0 <= k < |r| && r[k] != "" && (r[k][|r[k]| - 1] == ' ' || r[k][|r[k]| - 1] == '.');
      assert r[k] in r && BadEnd(r[k]);
    }
    if seg :| seg in r && BadEnd(seg) {
      var k :| 0 <= k < |r| && r[k] == seg;
    }
  }

  // ---- the two replacements ----

  lemma {:induction false} SlashesAre(s: string)
    ensures |Slashes(s)| == |s| && forall i :: 0 <= i < |s| ==> Slashes(s)[i] == if s[i] == '\\' then '/' else s[i]
  {
    if s != "" {
      SlashesAre(s[1..]);
    }
  }

  predicate Blank(s: string) { forall c :: c in s ==> IsSpace(c) }

  /** Only blanks go, and all that stand at an end. */
  lemma TrimIs(s: string) returns (a: string, b: string)
    ensures s == a + Trim(s) + b && Blank(a) && Blank(b)
    ensures Trim(s) != "" ==> !IsSpace(Trim(s)[0]) && !IsSpace(Trim(s)[|Trim(s)| - 1])
  {
    a := StartIs(s);
    b := EndIs(TrimStart(s));
    TrimStartIdle(s);
    TrimEndKeepsStart(TrimStart(s));
  }

  lemma {:induction false} StartIs(s: string) returns (a: string)
    ensures s == a + TrimStart(s) && Blank(a)
  {
    hide IsSpace;
    if s != "" && IsSpace(s[0]) {
      a := StartIs(s[1..]);
      assert s == [s[0]] + s[1..];
      a := [s[0]] + a;
    } else {
      a := "";
    }
  }

  lemma {:induction false} EndIs(s: string) returns (b: string)
    ensures s == TrimEnd(s) + b && Blank(b)
  {
    hide IsSpace;
    if s != "" && IsSpace(s[|s| - 1]) {
      b := EndIs(s[..|s| - 1]);
      assert s == s[..|s| - 1] + [s[|s| - 1]];
      b := b + [s[|s| - 1]];
    } else {
      b := "";
    }
  }
}
