/** What a finished copy leaves, and when a restore gives the disk before it back. */
module InstallTheorems {
  import opened Wrappers
  import opened NewsFile
  import opened Install
  import opened OldNames
  import opened RelPaths

  /** After a finished copy a replaced folder holds the build's files and the moved-away old
      ones, and nothing else; outside the build and the replaced folders nothing has changed. */
  lemma CopyFillsReplaced(d: Disk, d1: Disk, target: Path, job: Job, p: Path)
    requires CopyDone(d, d1, target, job)
    ensures var brought := exists f :: f in job.files && p == Join(target, f.path);
            var emptied := exists r {:trigger r in job.replace} :: r in job.replace && Join(target, r) + "/" <= p;
            && (brought ==> p in d1)
            && (emptied ==> (p in d1 <==> brought || (p in d && MovedAway(p))))
            && (!brought && p in d1 ==> p in d && d1[p] == d[p])
            && (!brought && !emptied ==> (p in d1 <==> p in d))
  {
    OldNameIs(p);
    hide MovedAway, Base, IsOldName, Join;
    WriteAllAt(d - Victims(d, target, job), target, job.files, p);
    if p in Dests(target, job) {
      var k := DestIsFile(target, job, p);
    } else {
      forall k | 0 <= k < |job.files| ensures Join(target, job.files[k].path) != p {
        DestsOf(target, job, k);
      }
    }
  }

  /** The last file of the build for a path is what stands there after the copy. */
  lemma {:induction false} CopyWrites(d: Disk, target: Path, files: seq<StageFile>, k: nat)
    requires k < |files| && forall l :: k < l < |files| ==> files[l].path != files[k].path
    ensures var p := Join(target, files[k].path);
            p in WriteAll(d, target, files) && WriteAll(d, target, files)[p] == File(files[k].bytes, files[k].mode)
  {
    var front := files[..|files| - 1];
    if k < |front| {
      CopyWrites(d, target, front, k);
      RelOfJoin(target, files[k].path);
      RelOfJoin(target, files[|files| - 1].path);
    }
  }

  /** Backup, a finished copy, a finished restore: the old disk is back if and only if the list
      of new names survives being written a line each and read back trimmed. */
  lemma RestoreExact(own: set<Path>, b: Bundle, d0: Disk, d: Disk, d1: Disk, target: Path, job: Job, installed: string)
    requires IsBackupOf(b, d0, target, job, installed) && LocalAndFree(own, target, job)
    requires CopyDone(d0, d, target, job) && RestoreDone(own, b, d, d1, target)
    ensures d1 == d0 <==> CleanNews(d0, target, job)
  {
    hide LocalAndFree, RestoreDone, CopyDone, Saved, Written, News, Touched;
    if CleanNews(d0, target, job) {
      CopyDoneAgrees(d0, d, target, job);
      CleanIsRight(own, b, d0, d, target, job, Touched(d0, target, job));
      RestoreUndoes(own, b, d0, d, d1, target, job, installed, Touched(d0, target, job));
    } else {
      var n :| n in News(d0, target, job.files) && !Clean(n);
      UncleanStays(own, b, d0, d, d1, target, job, n);
    }
  }

  lemma CopyDoneAgrees(d0: Disk, d: Disk, target: Path, job: Job)
    requires CopyDone(d0, d, target, job)
    ensures Agree(d0, d, Touched(d0, target, job))
  {
    assert job.files[..|job.files|] == job.files;
    CopyAgrees(d0, d0, d, target, job, Victims(d0, target, job), |job.files|);
  }

  lemma UncleanStays(own: set<Path>, b: Bundle, d0: Disk, d: Disk, d1: Disk, target: Path, job: Job, n: string)
    requires CopyDone(d0, d, target, job) && RestoreDone(own, b, d, d1, target)
    requires n in News(d0, target, job.files) && !Clean(n)
    ensures Join(target, n) in d1 && Join(target, n) !in d0
  {
    hide Removals;
    var k :| 0 <= k < |job.files| && job.files[k].path == n && Join(target, n) !in d0;
    WriteAllAt(d0 - Victims(d0, target, job), target, job.files, Join(target, n));
    StaysBehind(own, b, target, n);
  }

  lemma StaysBehind(own: set<Path>, b: Bundle, target: Path, n: string)
    requires !Clean(n)
    ensures Join(target, n) !in Removals(own, b, target)
  {
    if l :| l in Scanned(b.news) && IsLocal(l) && Join(target, n) == Join(target, l) {
      RelOfJoin(target, n);
      RelOfJoin(target, l);
      ScannedIsClean(b.news, l);
    }
  }

  /** A name that `CleanRel` lets through and the list does not bring back: the restore ends and
      leaves the new file where it is. */
  lemma NewlineNameStays() returns (job: Job, b: Bundle, d: Disk)
    ensures |job.files| == 1 && job.replace == [] && CleanRel(job.files[0].path) == Some(job.files[0].path)
    ensures LocalAndFree({}, "/opt", job) && IsBackupOf(b, map[], "/opt", job, "v1")
    ensures CopyDone(map[], d, "/opt", job) && RestoreDone({}, b, d, d, "/opt") && d != map[]
  {
    var f := StageFile("x\ny", [1], 420);
    job := Job([f], [], "v2");
    b := Bundle(map[], Written(News(map[], "/opt", job.files)), Some(Manifest("/opt", 0, "v1")));
    d := WriteAll(map[], "/opt", job.files);
    hide *;
    CleanRelKeepsNewline();
    UtterlyNew(b, d, "/opt", job, "v1");
    OneWritten(f);
    OneStays(f, b, d);
  }

  lemma OneWritten(f: StageFile)
    ensures WriteAll(map[], "/opt", [f]) == map[Join("/opt", f.path) := File(f.bytes, f.mode)]
  {
    assert [f][..0] == [];
  }

  lemma OneStays(f: StageFile, b: Bundle, d: Disk)
    requires f.path == "x\ny" && b.files == map[] && d == map[Join("/opt", f.path) := File(f.bytes, f.mode)]
    ensures RestoreDone({}, b, d, d, "/opt") && LocalAndFree({}, "/opt", Job([f], [], "v2"))
  {
    NewlineName(f.path);
    hide *;
    StaysBehind({}, b, "/opt", f.path);
    NotTakenAway({}, b, d, "/opt", Join("/opt", f.path));
    FreeOfNone("/opt", f);
  }

  lemma NotTakenAway(own: set<Path>, b: Bundle, d: Disk, target: Path, p: Path)
    requires b.files == map[] && d.Keys == {p} && p !in Removals(own, b, target)
    ensures RestoreDone(own, b, d, d, target)
  {
    hide Removals, PutBack;
    PutBackNothing(d, b, target);
    assert d - Removals(own, b, target) == d;
  }

  lemma FreeOfNone(target: Path, f: StageFile)
    requires IsLocal(f.path)
    ensures LocalAndFree({}, target, Job([f], [], "v2"))
  {
    hide IsLocal;
  }

  lemma NewlineName(n: string)
    requires n == "x\ny"
    ensures !Clean(n) && IsLocal(n)
  {
    assert n[1] == '\n';
  }

  lemma PutBackNothing(d: Disk, b: Bundle, target: Path)
    requires b.files == map[]
    ensures b.files.Keys == {} && PutBack(d, b, target, {}) == d
  {
  }

  /** A copy onto an empty disk, and its backup. */
  lemma UtterlyNew(b: Bundle, d: Disk, target: Path, job: Job, installed: string)
    requires b.files == map[] && b.news == Written(News(map[], target, job.files)) && b.manifest.Some?
    requires b.manifest.value.targetDir == target && b.manifest.value.prevInstalled == installed
    requires d == WriteAll(map[], target, job.files)
    ensures IsBackupOf(b, map[], target, job, installed) && CopyDone(map[], d, target, job)
  {
    assert Saved(map[], target, job) == map[];
    assert Victims(map[], target, job) == {};
    var none: Disk := map[];
    assert none - {} == none;
  }

  /** Restoring a second time changes nothing, whatever the backup holds. */
  lemma RestoreTwice(own: set<Path>, b: Bundle, d: Disk, d1: Disk, d2: Disk, target: Path)
    requires RestoreDone(own, b, d, d1, target) && RestoreDone(own, b, d1, d2, target)
    ensures d2 == d1
  {
    hide Removals, Join, Rel;
    var puts := set r | r in b.files.Keys :: Join(target, r);
    forall p ensures p in d2 <==> p in d1
             ensures p in d2 && p in d1 ==> d2[p] == d1[p]
    {
      if p in puts {
        var r :| r in b.files.Keys && p == Join(target, r);
        RelOfJoin(target, r);
      }
    }
  }

  datatype Try = Copy(gone: set<Path>, j: nat) | Restore(done: set<string>, gone: set<Path>)

  /** One attempt at copying or restoring, stopped anywhere. */
  ghost predicate Attempt(own: set<Path>, b: Bundle, d: Disk, d1: Disk, target: Path, job: Job, t: Try) {
    match t
    case Copy(gone, j) => CopyCut(d, d1, target, job, gone, j)
    case Restore(done, gone) => RestoreCut(own, b, d, d1, target, done, gone)
  }

  ghost predicate Attempts(own: set<Path>, b: Bundle, disks: seq<Disk>, target: Path, job: Job, tries: seq<Try>) {
    |disks| == |tries| + 1
    && forall k {:trigger tries[k]} ::
         0 <= k < |tries| ==> Attempt(own, b, disks[k], disks[k + 1], target, job, tries[k])
  }

  lemma AgreeSelf(d: Disk, t: set<Path>)
    ensures Agree(d, d, t)
  {
  }

  lemma {:induction false} AttemptsAgree(own: set<Path>, b: Bundle, disks: seq<Disk>, target: Path, job: Job,
                                          tries: seq<Try>, installed: string, n: nat)
    requires Attempts(own, b, disks, target, job, tries) && n <= |tries|
    requires IsBackupOf(b, disks[0], target, job, installed) && NoOldListed(own, b, disks[0], target)
    ensures Agree(disks[0], disks[n], Touched(disks[0], target, job))
  {
    hide *;
    AttemptCount(own, b, disks, target, job, tries);
    if n == 0 {
      AgreeSelf(disks[0], Touched(disks[0], target, job));
    } else {
      OneAttempt(own, b, disks, target, job, tries, n - 1);
      AttemptsAgree(own, b, disks, target, job, tries, installed, n - 1);
      AttemptAgrees(own, b, disks[0], disks[n - 1], disks[n], target, job, installed, tries[n - 1]);
    }
  }

  lemma AttemptCount(own: set<Path>, b: Bundle, disks: seq<Disk>, target: Path, job: Job, tries: seq<Try>)
    requires Attempts(own, b, disks, target, job, tries)
    ensures |disks| == |tries| + 1
  {
  }

  lemma OneAttempt(own: set<Path>, b: Bundle, disks: seq<Disk>, target: Path, job: Job, tries: seq<Try>, k: nat)
    requires Attempts(own, b, disks, target, job, tries) && k < |tries|
    ensures |disks| == |tries| + 1 && Attempt(own, b, disks[k], disks[k + 1], target, job, tries[k])
  {
    hide Attempt;
  }

  lemma AttemptAgrees(own: set<Path>, b: Bundle, d0: Disk, d: Disk, d1: Disk, target: Path, job: Job,
                      installed: string, t: Try)
    requires IsBackupOf(b, d0, target, job, installed) && NoOldListed(own, b, d0, target)
    requires Agree(d0, d, Touched(d0, target, job)) && Attempt(own, b, d, d1, target, job, t)
    ensures Agree(d0, d1, Touched(d0, target, job))
  {
    hide Agree, IsBackupOf, CopyCut, Removals, PutBack, Touched;
    match t
    case Copy(gone, j) => CopyAgrees(d0, d, d1, target, job, gone, j);
    case Restore(done, gone) =>
      RestoreAgrees(own, b, d0, d, d1, target, job, installed, done, gone, Touched(d0, target, job));
  }

  /** However often the copy and the restore were tried and stopped after the backup, a restore
      that runs to its end gives back exactly the disk the backup was made of, if and only if the
      list as it is read back names no old file and all new files that are there. */
  lemma RestoreAfterAttempts(own: set<Path>, b: Bundle, disks: seq<Disk>, target: Path, job: Job, tries: seq<Try>,
                             installed: string, d1: Disk)
    requires Attempts(own, b, disks, target, job, tries) && IsBackupOf(b, disks[0], target, job, installed)
    requires RestoreDone(own, b, disks[|tries|], d1, target)
    ensures d1 == disks[0] <==> ListedRight(own, b, disks[0], disks[|tries|], target, job)
    ensures CleanNews(disks[0], target, job) && LocalAndFree(own, target, job) ==> d1 == disks[0]
  {
    hide IsBackupOf, CleanNews, LocalAndFree, NoOldListed, Touched, Attempt, RestoreDone;
    var d0, t := disks[0], Touched(disks[0], target, job);
    if NoOldListed(own, b, d0, target) {
      AttemptsAgree(own, b, disks, target, job, tries, installed, |tries|);
      RestoreUndoes(own, b, d0, disks[|tries|], d1, target, job, installed, t);
    } else {
      OldOneGone(own, b, d0, disks[|tries|], d1, target);
    }
    if CleanNews(d0, target, job) && LocalAndFree(own, target, job) {
      BackupListsNews(b, d0, target, job, installed);
      CleanRemovals(own, b, d0, target, job);
      CleanIsRight(own, b, d0, disks[|tries|], target, job, t);
    }
  }

  lemma OldOneGone(own: set<Path>, b: Bundle, d0: Disk, d: Disk, d1: Disk, target: Path)
    requires RestoreDone(own, b, d, d1, target) && !NoOldListed(own, b, d0, target)
    ensures d1 != d0
  {
  }

  lemma BackupListsNews(b: Bundle, d0: Disk, target: Path, job: Job, installed: string)
    requires IsBackupOf(b, d0, target, job, installed)
    ensures b.news == Written(News(d0, target, job.files))
  {
  }

  lemma CleanRemovals(own: set<Path>, b: Bundle, d0: Disk, target: Path, job: Job)
    requires b.news == Written(News(d0, target, job.files)) && CleanNews(d0, target, job)
    ensures NoOldListed(own, b, d0, target)
  {
    hide Written, CleanNews, Removals;
    forall p | p in Removals(own, b, target) ensures p !in d0 {
      RemovalsAreNew(own, b, d0, target, job, p);
    }
  }
}
