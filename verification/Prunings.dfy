/** Which backups `pruneBackups` may leave, whatever order sorting by age gives equally old ones. */
module Prunings {
  import opened Sequences
  import opened Install
  import opened UpdaterJob

  /** None of `rest` is older than `m`. */
  ghost predicate IsOldest(bs: map<string, Bundle>, rest: set<string>, m: string) {
    rest <= AllFinished(bs) && m in rest && forall x :: x in rest ==> TimeOf(bs, m) <= TimeOf(bs, x)
  }

  lemma {:induction false} Oldest(bs: map<string, Bundle>, rest: set<string>) returns (m: string)
    requires rest != {} && rest <= AllFinished(bs)
    ensures IsOldest(bs, rest, m)
    decreases |rest|
  {
    m :| m in rest;
    if rest != {m} {
      var n := Oldest(bs, rest - {m});
      if TimeOf(bs, n) < TimeOf(bs, m) {
        m := n;
      }
    }
  }

  lemma {:induction false} RankingExists(bs: map<string, Bundle>) returns (all: seq<string>)
    ensures Ranked(bs, all)
    decreases |bs|, 1
  {
    if AllFinished(bs) == {} {
      all := [];
    } else {
      var m := Oldest(bs, AllFinished(bs));
      all := RankingBefore(bs, m);
      all := all + [m];
    }
  }

  /** An oldest one can come last. */
  lemma {:induction false} RankingBefore(bs: map<string, Bundle>, m: string) returns (front: seq<string>)
    requires IsOldest(bs, AllFinished(bs), m)
    ensures Ranked(bs, front + [m])
    decreases |bs|, 0
  {
    var rest := bs - {m};
    assert |rest| < |bs| by { assert bs.Keys == rest.Keys + {m}; }
    front := RankingExists(rest);
    hide Ranked, IsOldest;
    RankingGrows(bs, m, front);
  }

  lemma RankingGrows(bs: map<string, Bundle>, m: string, front: seq<string>)
    requires IsOldest(bs, AllFinished(bs), m) && Ranked(bs - {m}, front)
    ensures Ranked(bs, front + [m])
  {
    var all := front + [m];
    assert AllFinished(bs) == AllFinished(bs - {m}) + {m};
    assert SetOf(all) == SetOf(front) + {m};
    forall a, b | 0 <= a < b < |all| ensures TimeOf(bs, all[a]) >= TimeOf(bs, all[b]) && all[a] != all[b] {
      assert front[a] in SetOf(front);
      assert b < |front| ==> front[b] in SetOf(front);
    }
  }

  lemma RankedSize(bs: map<string, Bundle>, all: seq<string>)
    requires Ranked(bs, all)
    ensures |all| == |AllFinished(bs)|
  {
    NoDupSize(all);
  }

  /** Up to three all stay. */
  lemma FewStay(bs: map<string, Bundle>, also: string)
    requires |AllFinished(bs)| <= KEEP_BACKUPS
    ensures Pruned(bs, bs, also) && forall after :: Pruned(bs, after, also) ==> after == bs
  {
    var all := RankingExists(bs);
    assert bs - {} == bs;
    forall ts | Ranked(bs, ts) ensures Dropped(ts, also) == {} {
      RankedSize(bs, ts);
    }
  }

  predicate IsStrictlyOldest(bs: map<string, Bundle>, a: string) {
    a in AllFinished(bs) && forall x :: x in AllFinished(bs) && x != a ==> TimeOf(bs, a) < TimeOf(bs, x)
  }

  lemma LaterIsOlder(bs: map<string, Bundle>, all: seq<string>, k: nat, m: nat)
    requires Ranked(bs, all) && k < m < |all|
    ensures all[k] in AllFinished(bs) && all[m] in AllFinished(bs) && all[k] != all[m]
    ensures TimeOf(bs, all[k]) >= TimeOf(bs, all[m])
  {
    assert all[k] in SetOf(all) && all[m] in SetOf(all);
  }

  /** Of four, one that is strictly the oldest goes, in every order. */
  lemma OldestGoes(bs: map<string, Bundle>, all: seq<string>, also: string, a: string)
    requires Ranked(bs, all) && |all| == KEEP_BACKUPS + 1 && IsStrictlyOldest(bs, a) && a != also
    ensures Dropped(all, also) == {a}
  {
    forall k | 0 <= k < KEEP_BACKUPS ensures all[k] != a {
      LaterIsOlder(bs, all, k, KEEP_BACKUPS);
    }
    assert a in SetOf(all);
    assert all[KEEP_BACKUPS..] == [all[KEEP_BACKUPS]];
  }

  /** Of four, another one that is no younger can go instead, or none. */
  lemma OldestCanStay(bs: map<string, Bundle>, also: string, a: string) returns (after: map<string, Bundle>)
    requires |AllFinished(bs)| == KEEP_BACKUPS + 1 && a in AllFinished(bs) && !IsStrictlyOldest(bs, a)
    ensures Pruned(bs, after, also) && a in AllFinished(after)
  {
    var x :| x in AllFinished(bs) && x != a && TimeOf(bs, x) <= TimeOf(bs, a);
    assert x in AllFinished(bs) - {a};
    var m := Oldest(bs, AllFinished(bs) - {a});
    assert IsOldest(bs, AllFinished(bs), m);
    hide IsOldest, IsStrictlyOldest;
    var front := RankingBefore(bs, m);
    hide Ranked;
    RankedSize(bs, front + [m]);
    assert (front + [m])[KEEP_BACKUPS..] == [m];
    after := bs - Dropped(front + [m], also);
  }

  /** Of four backups pruning takes just `a` away, in every order that sorting may give, if and
      only if `a` is strictly older than each of the other three. */
  lemma PruneExact(bs: map<string, Bundle>, also: string, a: string)
    requires |AllFinished(bs)| == KEEP_BACKUPS + 1 && a in AllFinished(bs) && a != also
    ensures (forall after :: Pruned(bs, after, also) ==> after == bs - {a}) <==> IsStrictlyOldest(bs, a)
    ensures exists after :: Pruned(bs, after, also)
  {
    hide Ranked;
    if IsStrictlyOldest(bs, a) {
      forall all | Ranked(bs, all) ensures Dropped(all, also) == {a} {
        RankedSize(bs, all);
        OldestGoes(bs, all, also, a);
      }
    } else {
      var after := OldestCanStay(bs, also, a);
      assert a !in bs - {a};
    }
    var all := RankingExists(bs);
    assert Pruned(bs, bs - Dropped(all, also), also);
  }

  /** The backup just made, and all unfinished ones, always stay. */
  lemma PruneStays(bs: map<string, Bundle>, after: map<string, Bundle>, also: string)
    requires Pruned(bs, after, also)
    ensures after.Keys <= bs.Keys && forall x {:trigger after[x]} :: x in after ==> after[x] == bs[x]
    ensures forall x :: x in bs && (x == also || !Finished(bs[x])) ==> x in after
  {
    var all :| Ranked(bs, all) && after == bs - Dropped(all, also);
    assert forall x :: x in Dropped(all, also) ==> x in SetOf(all);
  }
}
