/** What a copy leaves at each of its stops, and what a finished deployment has installed. */
module Installs {
  import opened Install
  import opened OldNames
  import opened InstallTheorems
  import opened Deployments

  /** The build's files stand under the target, for each path the last one; of the other files in a
      replaced folder only moved-away old ones are left. */
  ghost predicate BuildStands(d: Disk, target: Path, job: Job) {
    && (forall k {:trigger job.files[k]} ::
          0 <= k < |job.files| && (forall l :: k < l < |job.files| ==> job.files[l].path != job.files[k].path) ==>
            && Join(target, job.files[k].path) in d
            && d[Join(target, job.files[k].path)] == File(job.files[k].bytes, job.files[k].mode))
    && forall p, r {:trigger p in d, r in job.replace} ::
         p in d && r in job.replace && Join(target, r) + "/" <= p ==>
           (exists f :: f in job.files && p == Join(target, f.path)) || MovedAway(p)
  }

  lemma CopyInstalls(d: Disk, d1: Disk, target: Path, job: Job)
    requires CopyDone(d, d1, target, job)
    ensures BuildStands(d1, target, job)
  {
    hide CopyDone, MovedAway, Join;
    forall k {:trigger job.files[k]}
      | 0 <= k < |job.files| && (forall l :: k < l < |job.files| ==> job.files[l].path != job.files[k].path)
      ensures Join(target, job.files[k].path) in d1
      ensures d1[Join(target, job.files[k].path)] == File(job.files[k].bytes, job.files[k].mode)
    {
      LastStands(d, d1, target, job, k);
    }
    forall p, r {:trigger p in d1, r in job.replace} | p in d1 && r in job.replace && Join(target, r) + "/" <= p
      ensures (exists f :: f in job.files && p == Join(target, f.path)) || MovedAway(p)
    {
      CopyFillsReplaced(d, d1, target, job, p);
    }
  }

  lemma LastStands(d: Disk, d1: Disk, target: Path, job: Job, k: nat)
    requires CopyDone(d, d1, target, job)
    requires k < |job.files| && forall l :: k < l < |job.files| ==> job.files[l].path != job.files[k].path
    ensures Join(target, job.files[k].path) in d1
    ensures d1[Join(target, job.files[k].path)] == File(job.files[k].bytes, job.files[k].mode)
  {
    CopyWrites(d - Victims(d, target, job), target, job.files, k);
  }

  /** Wherever a copy stops, a path of the build that held a file holds one: the old one or the
      build's, whole. */
  lemma NeverMissing(d: Disk, d1: Disk, target: Path, job: Job, gone: set<Path>, j: nat, k: nat)
    requires CopyCut(d, d1, target, job, gone, j) && k < |job.files|
    ensures var p := Join(target, job.files[k].path);
            && (p in d ==> p in d1)
            && (p in d1 ==> (p in d && d1[p] == d[p])
                            || exists m :: 0 <= m < j && Join(target, job.files[m].path) == p
                                           && d1[p] == File(job.files[m].bytes, job.files[m].mode))
  {
    var p := Join(target, job.files[k].path);
    DestsOf(target, job, k);
    assert p !in gone;
    OldOrBuilt(d - gone, target, job.files[..j], p);
  }

  lemma {:induction false} OldOrBuilt(d: Disk, target: Path, files: seq<StageFile>, p: Path)
    ensures var d1 := WriteAll(d, target, files);
            && (p in d ==> p in d1)
            && (p in d1 ==> (p in d && d1[p] == d[p])
                            || exists m :: 0 <= m < |files| && Join(target, files[m].path) == p
                                           && d1[p] == File(files[m].bytes, files[m].mode))
  {
    if files != [] {
      var front := files[..|files| - 1];
      OldOrBuilt(d, target, front, p);
      assert forall m :: 0 <= m < |front| ==> front[m] == files[m];
    }
  }

  /** The list copies, and restores nothing afterwards. */
  predicate EndsCopied(steps: seq<Builtin>) {
    exists k :: 0 <= k < |steps| && steps[k] == CopyStep && forall m :: k < m < |steps| ==> steps[m] != RestoreStep
  }

  lemma StepStands(own: set<Path>, w: World, w1: World, id: string, job: Job, at: int, s: Builtin)
    requires StepRun(own, w, w1, id, job, at, s, true)
    ensures w1.target == w.target
    ensures s == CopyStep || (s == BackupStep && BuildStands(w.disk, w.target, job)) ==>
              BuildStands(w1.disk, w.target, job)
  {
    hide BuildStands, CopyCut, CopyDone, RestoreCut, RestoreDone, IsBackupOf, LocalAndFree, ReplaceAllowed;
    if s == CopyStep {
      CopyInstalls(w.disk, w1.disk, w.target, job);
    }
  }

  lemma {:induction false} ListStands(own: set<Path>, ws: seq<World>, id: string, job: Job, clock: seq<int>,
                                      steps: seq<Builtin>, k: nat, n: nat)
    requires ListRun(own, ws, id, job, clock, steps, Ok) && k < n <= |steps| && steps[k] == CopyStep
    requires forall m :: k < m < |steps| ==> steps[m] != RestoreStep
    ensures |ws| == |steps| + 1 && ws[n].target == ws[0].target && BuildStands(ws[n].disk, ws[0].target, job)
  {
    hide StepRun, BuildStands;
    TargetStays(own, ws, id, job, clock, steps, n - 1);
    if n > k + 1 {
      ListStands(own, ws, id, job, clock, steps, k, n - 1);
    }
    StepStands(own, ws[n - 1], ws[n], id, job, clock[n - 1], steps[n - 1]);
  }

  lemma {:induction false} TargetStays(own: set<Path>, ws: seq<World>, id: string, job: Job, clock: seq<int>,
                                       steps: seq<Builtin>, n: nat)
    requires ListRun(own, ws, id, job, clock, steps, Ok) && n <= |steps|
    ensures |ws| == |steps| + 1 && ws[n].target == ws[0].target
  {
    hide StepRun, BuildStands;
    if n > 0 {
      TargetStays(own, ws, id, job, clock, steps, n - 1);
      StepStands(own, ws[n - 1], ws[n], id, job, clock[n - 1], steps[n - 1]);
    }
  }

  /** After a deployment that is done and whose list ends copied, the build stands on the disk and
      its version is the one installed. */
  lemma DeployInstalls(own: set<Path>, r: Run, w1: World)
    requires DeployRun(own, DeployList, r, w1) && r.end == Ok && EndsCopied(r.steps)
    ensures r.ws != [] && BuildStands(w1.disk, r.ws[0].target, r.job) && w1.installed == r.job.version
  {
    hide ListRun, BuildStands;
    var k :| 0 <= k < |r.steps| && r.steps[k] == CopyStep
             && forall m :: k < m < |r.steps| ==> r.steps[m] != RestoreStep;
    ListStands(own, r.ws, r.id, r.job, r.clock, r.steps, k, |r.steps|);
  }
}
