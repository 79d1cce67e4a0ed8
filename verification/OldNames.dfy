/** Which names `isOldName` takes for those of files that were moved away. */
module OldNames {
  import opened Install

  predicate Occurs(s: string, i: nat, t: string) { i + |t| <= |s| && s[i..i + |t|] == t }

  /** The last name of the path ends in `.old-` and fifteen characters more, among which it does not
      begin again. */
  ghost predicate MovedAway(p: Path) {
    && |p| >= 20 && Occurs(p, |p| - 20, ".old-") && '/' !in p[|p| - 20..]
    && forall k: nat :: k > |p| - 20 ==> !Occurs(p, k, ".old-")
  }

  lemma {:induction false} BaseIs(p: Path) returns (dir: string)
    ensures p == dir + Base(p) && '/' !in Base(p) && (dir == "" || dir[|dir| - 1] == '/')
  {
    if p == "" {
      dir := "";
    } else if p[|p| - 1] == '/' {
      dir := p;
      assert p + "" == p;
    } else {
      dir := BaseIs(p[..|p| - 1]);
      assert p == p[..|p| - 1] + [p[|p| - 1]];
    }
  }

  lemma OccursInFront(s: string, i: nat, t: string)
    requires s != "" && i + |t| < |s|
    ensures Occurs(s[..|s| - 1], i, t) <==> Occurs(s, i, t)
  {
    assert s[..|s| - 1][i..i + |t|] == s[i..i + |t|];
  }

  lemma OccursBehind(dir: string, b: string, i: nat, t: string)
    ensures Occurs(dir + b, |dir| + i, t) <==> Occurs(b, i, t)
  {
    if i + |t| <= |b| {
      assert (dir + b)[|dir| + i..|dir| + i + |t|] == b[i..i + |t|];
    }
  }

  lemma {:induction false} LastIndexIs(s: string, t: string)
    requires t != ""
    ensures var i := LastIndex(s, t); (i >= 0 ==> Occurs(s, i, t)) && forall k: nat :: k > i ==> !Occurs(s, k, t)
    decreases |s|
  {
    if |t| <= |s| {
      assert s[|s| - |t|..] == s[|s| - |t|..|s| - |t| + |t|];
      if s[|s| - |t|..] != t {
        var f := s[..|s| - 1];
        LastIndexIs(f, t);
        hide Occurs;
        forall k: nat | k > LastIndex(f, t) ensures !Occurs(s, k, t) {
          OccursAtLast(s, k, t);
        }
        FrontIndex(s, t);
      }
    }
  }

  lemma FrontIndex(s: string, t: string)
    requires t != "" && s != ""
    ensures var i := LastIndex(s[..|s| - 1], t); i >= 0 && Occurs(s[..|s| - 1], i, t) ==> Occurs(s, i, t)
  {
    var i := LastIndex(s[..|s| - 1], t);
    if i >= 0 && Occurs(s[..|s| - 1], i, t) {
      OccursInFront(s, i, t);
    }
  }

  /** What does not occur in front, nor at the end, does not occur. */
  lemma OccursAtLast(s: string, k: nat, t: string)
    requires t != "" && |t| <= |s| && s[|s| - |t|..] != t && !Occurs(s[..|s| - 1], k, t)
    ensures !Occurs(s, k, t)
  {
    if k + |t| < |s| {
      OccursInFront(s, k, t);
    } else if k + |t| == |s| {
      assert s[k..k + |t|] == s[|s| - |t|..];
    }
  }

  /** The code looks for the last `.old-` of the last name and counts what stands behind it. */
  lemma OldNameIs(p: Path)
    ensures IsOldName(Base(p)) <==> MovedAway(p)
  {
    var dir := BaseIs(p);
    var b := Base(p);
    LastIndexIs(b, ".old-");
    assert IsOldName(b) <==> |b| >= 20 && LastIndex(b, ".old-") == |b| - 20;
    hide *;
    if IsOldName(b) {
      OldTail(p, dir, b);
    }
    if MovedAway(p) {
      MovedTail(p, dir, b);
    }
  }

  lemma MovedTail(p: Path, dir: string, b: string)
    requires p == dir + b && (dir == "" || dir[|dir| - 1] == '/') && MovedAway(p)
    requires var i := LastIndex(b, ".old-");
             (i >= 0 ==> Occurs(b, i, ".old-")) && forall k: nat :: k > i ==> !Occurs(b, k, ".old-")
    ensures |b| >= 20 && LastIndex(b, ".old-") == |b| - 20
  {
    hide LastIndex, Occurs;
    LongName(p, dir, b);
    OccursBehind(dir, b, |b| - 20, ".old-");
    forall k: nat | k > |b| - 20 ensures !Occurs(b, k, ".old-") {
      OccursBehind(dir, b, k, ".old-");
    }
  }

  lemma OldTail(p: Path, dir: string, b: string)
    requires p == dir + b && '/' !in b && |b| >= 20 && Occurs(b, |b| - 20, ".old-")
    requires forall k: nat :: k > |b| - 20 ==> !Occurs(b, k, ".old-")
    ensures MovedAway(p)
  {
    hide Occurs;
    OccursBehind(dir, b, |b| - 20, ".old-");
    forall k: nat | k > |p| - 20 ensures !Occurs(p, k, ".old-") {
      OccursBehind(dir, b, k - |dir|, ".old-");
    }
    assert p[|p| - 20..] == b[|b| - 20..];
  }

  /** A slash is not among the last twenty characters, so the last name is that long. */
  lemma LongName(p: Path, dir: string, b: string)
    requires p == dir + b && (dir == "" || dir[|dir| - 1] == '/') && |p| >= 20 && '/' !in p[|p| - 20..]
    ensures |b| >= 20
  {
    if |b| < 20 {
      ShortName(p, dir, b);
    }
  }

  lemma ShortName(p: Path, dir: string, b: string)
    requires p == dir + b && dir != "" && dir[|dir| - 1] == '/' && |b| < 20 <= |p|
    ensures '/' in p[|p| - 20..]
  {
    assert p[|p| - 20..][19 - |b|] == '/';
  }
}
