/** Which of the listed folders a deployment really replaces. */
module EffectiveReplace {
  import opened Install

  predicate HoldsMain(mains: seq<string>, dir: string) { exists k :: 0 <= k < |mains| && Under(mains[k], dir) }

  predicate IsChild(live: seq<string>, dir: string) { exists k :: 0 <= k < |live| && Under(dir, live[k]) }

  function Live(rs: seq<string>, mains: seq<string>): seq<string> {
    if rs == [] then []
    else Live(rs[..|rs| - 1], mains) + if HoldsMain(mains, rs[|rs| - 1]) then [rs[|rs| - 1]] else []
  }

  function Outermost(ds: seq<string>, live: seq<string>): seq<string> {
    if ds == [] then []
    else Outermost(ds[..|ds| - 1], live) + if IsChild(live, ds[|ds| - 1]) then [] else [ds[|ds| - 1]]
  }

  method DirHas(mains: seq<string>, dir: string) returns (has: bool)
    ensures has == HoldsMain(mains, dir)
  {
    for k := 0 to |mains|
      invariant forall m :: 0 <= m < k ==> !Under(mains[m], dir)
    {
      if Under(mains[k], dir) {
        return true;
      }
    }
    return false;
  }

  method EffectiveReplace(rs: seq<string>, mains: seq<string>) returns (out: seq<string>)
    ensures out == Outermost(Live(rs, mains), Live(rs, mains))
  {
    var live: seq<string> := [];
    for k := 0 to |rs|
      invariant live == Live(rs[..k], mains)
    {
      assert rs[..k + 1][..k] == rs[..k];
      var has := DirHas(mains, rs[k]);
      if has {
        live := live + [rs[k]];
      }
    }
    assert rs[..|rs|] == rs;
    out := [];
    for k := 0 to |live|
      invariant out == Outermost(live[..k], live)
    {
      assert live[..k + 1][..k] == live[..k];
      var child := false;
      for m := 0 to |live|
        invariant !child && forall n :: 0 <= n < m ==> !Under(live[k], live[n])
      {
        if Under(live[k], live[m]) {
          child := true;
          break;
        }
      }
      if !child {
        out := out + [live[k]];
      }
    }
    assert live[..|live|] == live;
  }

  lemma {:induction false} LiveAre(rs: seq<string>, mains: seq<string>, d: string)
    ensures d in Live(rs, mains) <==> d in rs && HoldsMain(mains, d)
  {
    if rs != [] {
      LiveAre(rs[..|rs| - 1], mains, d);
      assert rs == rs[..|rs| - 1] + [rs[|rs| - 1]];
    }
  }

  lemma {:induction false} OutermostAre(ds: seq<string>, live: seq<string>, d: string)
    ensures d in Outermost(ds, live) <==> d in ds && !IsChild(live, d)
  {
    if ds != [] {
      OutermostAre(ds[..|ds| - 1], live, d);
      assert ds == ds[..|ds| - 1] + [ds[|ds| - 1]];
    }
  }

  lemma UnderTrans(a: string, b: string, c: string)
    requires Under(a, b) && Under(b, c)
    ensures Under(a, c)
  {
    assert a[..|b| + 1] == b + "/" && b[..|c| + 1] == c + "/";
    assert a[..|c| + 1] == a[..|b| + 1][..|c| + 1];
  }

  /** Every folder of the list lies in one that is kept, or is one. */
  lemma {:induction false} Covered(live: seq<string>, d: string) returns (c: string)
    requires d in live
    ensures c in Outermost(live, live) && (c == d || Under(d, c))
    decreases |d|
  {
    OutermostAre(live, live, d);
    if !IsChild(live, d) {
      c := d;
    } else {
      var k :| 0 <= k < |live| && Under(d, live[k]);
      c := Covered(live, live[k]);
      if c != live[k] {
        UnderTrans(d, live[k], c);
      }
    }
  }

  /** What is kept are listed folders with main files, none inside another, each once per listing;
      a listed folder left out holds no main file or lies inside a kept one. */
  lemma EffectiveIsCover(rs: seq<string>, mains: seq<string>)
    ensures var out := Outermost(Live(rs, mains), Live(rs, mains));
            && (forall c :: c in out ==> c in rs && exists m :: m in mains && c + "/" <= m)
            && (forall a, b :: a in out && b in out ==> !(b + "/" <= a))
            && (forall d, m :: d in rs && m in mains && d + "/" <= m ==>
                  d in out || exists c {:trigger c in out} :: c in out && c + "/" <= d)
  {
    var live := Live(rs, mains);
    var out := Outermost(live, live);
    hide Live, Outermost, IsChild;
    forall c | c in out ensures c in rs && exists m :: m in mains && c + "/" <= m {
      KeptIsListed(rs, mains, c);
    }
    forall d, m | d in rs && m in mains && d + "/" <= m
      ensures d in out || exists c {:trigger c in out} :: c in out && c + "/" <= d
    {
      ListedIsLive(rs, mains, d, m);
      var c := Covered(live, d);
    }
    forall a, b | a in out && b in out ensures !(b + "/" <= a) {
      KeptApart(live, a, b);
    }
  }

  lemma KeptIsListed(rs: seq<string>, mains: seq<string>, c: string)
    requires c in Outermost(Live(rs, mains), Live(rs, mains))
    ensures c in rs && c in Live(rs, mains) && exists m :: m in mains && c + "/" <= m
  {
    var live := Live(rs, mains);
    OutermostAre(live, live, c);
    LiveAre(rs, mains, c);
    var k :| 0 <= k < |mains| && Under(mains[k], c);
    assert mains[k] in mains;
  }

  lemma ListedIsLive(rs: seq<string>, mains: seq<string>, d: string, m: string)
    requires d in rs && m in mains && d + "/" <= m
    ensures d in Live(rs, mains)
  {
    LiveAre(rs, mains, d);
    var k :| 0 <= k < |mains| && mains[k] == m;
    assert Under(mains[k], d);
  }

  lemma KeptApart(live: seq<string>, a: string, b: string)
    requires a in Outermost(live, live) && b in Outermost(live, live)
    ensures !(b + "/" <= a)
  {
    OutermostAre(live, live, a);
    OutermostAre(live, live, b);
    hide IsChild;
    if b + "/" <= a {
      UnderIsChild(live, a, b);
    }
  }

  lemma UnderIsChild(live: seq<string>, a: string, b: string)
    requires b in live && b + "/" <= a
    ensures IsChild(live, a)
  {
    var k :| 0 <= k < |live| && live[k] == b;
    assert Under(a, live[k]);
  }

  /** A file of the build lies in a replaced folder exactly when it lies in a listed one. */
  lemma EffectiveFiles(rs: seq<string>, mains: seq<string>, p: string)
    requires p in mains
    ensures (exists c {:trigger c in Outermost(Live(rs, mains), Live(rs, mains))} ::
               c in Outermost(Live(rs, mains), Live(rs, mains)) && c + "/" <= p) <==>
              (exists d {:trigger d in rs} :: d in rs && d + "/" <= p)
  {
    EffectiveIsCover(rs, mains);
    if d :| d in rs && Under(p, d) {
      var k :| 0 <= k < |mains| && mains[k] == p;
      assert HoldsMain(mains, d);
      LiveAre(rs, mains, d);
      var c := Covered(Live(rs, mains), d);
      if c != d {
        UnderTrans(p, d, c);
      }
    }
  }

  lemma UnderJoined(target: Path, d: string, c: string)
    requires Under(d, c)
    ensures Under(Join(target, d), Join(target, c))
  {
    assert d[..|c| + 1] == c + "/";
  }

  /** On the machine, sending the kept folders only empties the same places as sending every
      listed folder with main files. */
  lemma EffectiveSameReach(rs: seq<string>, mains: seq<string>, target: Path, job: Job, p: Path)
    ensures InReplaced(target, job.(replace := Outermost(Live(rs, mains), Live(rs, mains))), p) <==>
              InReplaced(target, job.(replace := Live(rs, mains)), p)
  {
    var live := Live(rs, mains);
    var out := Outermost(live, live);
    if r :| r in live && Under(p, Join(target, r)) {
      var c := Covered(live, r);
      if c != r {
        UnderJoined(target, r, c);
        UnderTrans(p, Join(target, r), Join(target, c));
      }
      assert c in out && Under(p, Join(target, c));
    }
    if c :| c in out && Under(p, Join(target, c)) {
      OutermostAre(live, live, c);
      assert c in live;
    }
  }

  // ---- the order ----

  /** `r` is what stands in `s` at the places `at`, which rise; no other place holds one of them. */
  ghost predicate TakenAt(s: seq<string>, r: seq<string>, at: seq<nat>) {
    && |at| == |r|
    && (forall k {:trigger at[k]} {:trigger r[k]} :: 0 <= k < |at| ==> at[k] < |s| && s[at[k]] == r[k])
    && (forall k, l :: 0 <= k < l < |at| ==> at[k] < at[l])
    && forall i: nat {:trigger s[i]} :: i < |s| && s[i] in r ==> i in at
  }

  lemma TakenNext(s: seq<string>, r: seq<string>, at: seq<nat>, last: string, keep: bool)
    requires TakenAt(s, r, at) && if keep then last in s ==> last in r else last !in r
    ensures TakenAt(s + [last], r + if keep then [last] else [], at + if keep then [|s|] else [])
  {
    var s1, r1, at1 := s + [last], r + if keep then [last] else [], at + if keep then [|s|] else [];
    forall i: nat {:trigger s1[i]} | i < |s1| && s1[i] in r1 ensures i in at1 {
      if i < |s| {
        assert s1[i] == s[i] && s[i] in r;
      } else {
        assert keep && at1[|at|] == i;
      }
    }
  }

  lemma TakenTwice(s: seq<string>, r: seq<string>, q: seq<string>, at: seq<nat>, of: seq<nat>) returns (all: seq<nat>)
    requires TakenAt(s, r, at) && TakenAt(r, q, of) && forall x :: x in q ==> x in r
    ensures TakenAt(s, q, all)
  {
    all := seq(|of|, k requires 0 <= k < |of| => at[of[k]]);
    forall i: nat {:trigger s[i]} | i < |s| && s[i] in q ensures i in all {
      FoundTwice(s, r, q, at, of, all, i);
    }
  }

  lemma FoundTwice(s: seq<string>, r: seq<string>, q: seq<string>, at: seq<nat>, of: seq<nat>, all: seq<nat>, i: nat)
    requires TakenAt(s, r, at) && TakenAt(r, q, of) && i < |s| && s[i] in q && s[i] in r
    requires |all| == |of| && forall k {:trigger all[k]} :: 0 <= k < |of| ==> of[k] < |at| && all[k] == at[of[k]]
    ensures i in all
  {
    assert i in at;
    var m :| 0 <= m < |at| && at[m] == i;
    assert r[m] in q;
    var k :| 0 <= k < |of| && of[k] == m;
    assert all[k] == i;
  }

  lemma {:induction false} LiveTaken(rs: seq<string>, mains: seq<string>) returns (at: seq<nat>)
    ensures TakenAt(rs, Live(rs, mains), at)
  {
    at := [];
    if rs != [] {
      var s, last := rs[..|rs| - 1], rs[|rs| - 1];
      at := LiveTaken(s, mains);
      LiveAre(s, mains, last);
      assert rs == s + [last];
      TakenNext(s, Live(s, mains), at, last, HoldsMain(mains, last));
      at := at + if HoldsMain(mains, last) then [|s|] else [];
    }
  }

  lemma {:induction false} OutermostTaken(ds: seq<string>, live: seq<string>) returns (at: seq<nat>)
    ensures TakenAt(ds, Outermost(ds, live), at)
  {
    at := [];
    if ds != [] {
      var s, last := ds[..|ds| - 1], ds[|ds| - 1];
      at := OutermostTaken(s, live);
      OutermostAre(s, live, last);
      assert ds == s + [last];
      TakenNext(s, Outermost(s, live), at, last, !IsChild(live, last));
      at := at + if IsChild(live, last) then [] else [|s|];
    }
  }

  /** The kept folders come in the order in which they are listed, one as often as it is. */
  lemma EffectiveInOrder(rs: seq<string>, mains: seq<string>) returns (at: seq<nat>)
    ensures TakenAt(rs, Outermost(Live(rs, mains), Live(rs, mains)), at)
  {
    var live := Live(rs, mains);
    var first := LiveTaken(rs, mains);
    var second := OutermostTaken(live, live);
    forall x | x in Outermost(live, live) ensures x in live {
      OutermostAre(live, live, x);
    }
    hide Live, Outermost;
    at := TakenTwice(rs, live, Outermost(live, live), first, second);
  }
}
