/** The updater's own files: no job writes, removes or empties them, however it ends. */
module OwnFiles {
  import opened NewsFile
  import opened Install

  /** The updater's own files, and whatever lies under one of its own folders, are as they were. */
  ghost predicate OwnKept(own: set<Path>, d: Disk, d1: Disk) {
    forall p: Path, x: Path {:trigger p in own, x in d} {:trigger p in own, x in d1} ::
      p in own && (x == p || p + "/" <= x) ==> (x in d <==> x in d1) && (x in d ==> d1[x] == d[x])
  }

  /** The build would write to one of them, or under one. */
  ghost predicate WritesOwn(own: set<Path>, target: Path, job: Job) {
    exists p, f {:trigger p in own, f in job.files} ::
      p in own && f in job.files && (Join(target, f.path) == p || p + "/" <= Join(target, f.path))
  }

  /** A folder to be emptied is one of them, lies under one, or holds one. */
  ghost predicate EmptiesOwn(own: set<Path>, target: Path, job: Job) {
    exists p, r {:trigger p in own, r in job.replace} ::
      && p in own && r in job.replace
      && (Join(target, r) == p || p + "/" <= Join(target, r) || Join(target, r) + "/" <= p)
  }

  /** A folder to be emptied is no path inside the target. */
  ghost predicate EmptiesOutside(job: Job) {
    exists r {:trigger r in job.replace} :: r in job.replace && (r == "" || r == ".." || "/" <= r || "../" <= r)
  }

  lemma OutsideIsRefused(own: set<Path>, target: Path, job: Job)
    ensures EmptiesOutside(job) ==> !ReplaceAllowed(own, target, job)
  {
    hide Join, Guarded;
  }

  lemma NothingTouchedOwn(own: set<Path>, d: Disk)
    ensures OwnKept(own, d, d)
  {
  }

  lemma OwnKeptOn(own: set<Path>, d: Disk, mid: Disk, d1: Disk)
    requires OwnKept(own, d, mid) && OwnKept(own, mid, d1)
    ensures OwnKept(own, d, d1)
  {
  }

  lemma WritingOwnIsGuarded(own: set<Path>, target: Path, job: Job)
    ensures WritesOwn(own, target, job) ==> !LocalAndFree(own, target, job)
    ensures EmptiesOwn(own, target, job) ==> !ReplaceAllowed(own, target, job)
  {
    hide Join, IsLocal;
    if WritesOwn(own, target, job) {
      var p, f :| p in own && f in job.files && (Join(target, f.path) == p || p + "/" <= Join(target, f.path));
      assert Guarded(own, Join(target, f.path));
    }
    if EmptiesOwn(own, target, job) {
      var p, r :| p in own && r in job.replace
                  && (Join(target, r) == p || p + "/" <= Join(target, r) || Join(target, r) + "/" <= p);
      assert p + "/" <= Join(target, r) ==> Guarded(own, Join(target, r));
    }
  }

  /** Of two folders over one file one lies over the other, if they are not the same. */
  lemma OverOneFile(a: Path, b: Path, x: Path)
    requires a + "/" <= x && b + "/" <= x
    ensures a == b || a + "/" <= b || b + "/" <= a
  {
    assert x[..|a|] == a && x[..|b|] == b && x[|a|] == '/' && x[|b|] == '/';
    if |a| < |b| {
      assert b[..|a| + 1] == x[..|a| + 1] == a + "/";
    } else if |b| < |a| {
      assert a[..|b| + 1] == x[..|b| + 1] == b + "/";
    }
  }

  lemma VictimIsNotOwn(own: set<Path>, target: Path, job: Job, p: Path, x: Path)
    requires ReplaceAllowed(own, target, job) && InReplaced(target, job, x) && p in own
    ensures x != p && !(p + "/" <= x)
  {
    hide Join, IsLocal;
    var r :| r in job.replace && Under(x, Join(target, r));
    if p + "/" <= x {
      OverOneFile(p, Join(target, r), x);
    }
  }

  /** A copy stopped anywhere. */
  lemma CopyKeepsOwn(own: set<Path>, d: Disk, d1: Disk, target: Path, job: Job, gone: set<Path>, j: nat)
    requires CopyCut(d, d1, target, job, gone, j) && LocalAndFree(own, target, job) && ReplaceAllowed(own, target, job)
    ensures OwnKept(own, d, d1)
  {
    hide IsLocal, ReplaceAllowed;
    forall p: Path, x: Path {:trigger p in own, x in d} {:trigger p in own, x in d1}
      | p in own && (x == p || p + "/" <= x)
      ensures (x in d <==> x in d1) && (x in d ==> d1[x] == d[x])
    {
      if x in gone {
        VictimIsNotOwn(own, target, job, p, x);
      }
      NotWritten(own, target, job, p, x, j);
      WriteAllAt(d - gone, target, job.files[..j], x);
    }
  }

  lemma NotWritten(own: set<Path>, target: Path, job: Job, p: Path, x: Path, j: nat)
    requires LocalAndFree(own, target, job) && p in own && (x == p || p + "/" <= x) && j <= |job.files|
    ensures forall k :: 0 <= k < |job.files[..j]| ==> Join(target, job.files[..j][k].path) != x
  {
    hide Join, IsLocal;
    forall k | 0 <= k < j ensures Join(target, job.files[k].path) != x {
      assert job.files[k] in job.files;
    }
  }

  /** A restore stopped anywhere, as far as it has put back nothing there. */
  lemma RestoreKeepsOwn(own: set<Path>, b: Bundle, d: Disk, d1: Disk, target: Path, done: set<string>, gone: set<Path>)
    requires RestoreCut(own, b, d, d1, target, done, gone)
    requires forall rel :: rel in done ==> !Guarded(own, Join(target, rel))
    ensures OwnKept(own, d, d1)
  {
    hide Join, Rel, IsLocal, Scanned;
    forall p: Path, x: Path {:trigger p in own, x in d} {:trigger p in own, x in d1}
      | p in own && (x == p || p + "/" <= x)
      ensures (x in d <==> x in d1) && (x in d ==> d1[x] == d[x])
    {
      assert Guarded(own, x);
    }
  }
}
