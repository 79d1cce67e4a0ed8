/** Deployments stacked on one machine: step lists run by the updater, and rollbacks that the
    supervisor allows for the latest deployment not rolled back yet only. */
module Deployments {
  import opened Wrappers
  import opened Install
  import opened OwnFiles
  import UpdaterJob

  datatype Builtin = BackupStep | CopyStep | RestoreStep

  /** What a deployment can see and change on the machine. */
  datatype World = World(disk: Disk, backups: map<string, Bundle>, installed: string, target: Path)

  ghost predicate HasBackup(w: World, id: string) { id in w.backups && UpdaterJob.Finished(w.backups[id]) }

  predicate AllLocal(job: Job) { forall f :: f in job.files ==> IsLocal(f.path) }

  /** The deployment's own folder under `backups/` is all that a stopped backup changed. */
  ghost predicate Unfinished(w: World, w1: World, id: string) {
    w1 == w.(backups := w1.backups) && (w1.backups == w.backups
      || (id in w1.backups && !HasBackup(w1, id) && w1.backups == w.backups[id := w1.backups[id]]))
  }

  /** One built-in step of deployment `id`, done or not. */
  ghost predicate StepRun(own: set<Path>, w: World, w1: World, id: string, job: Job, at: int, s: Builtin, ok: bool) {
    match s
    case BackupStep =>
      if ok then
        && w1 == w.(backups := w1.backups) && ReplaceAllowed(own, w.target, job)
        && exists b :: IsBackupOf(b, w.disk, w.target, job, w.installed) && b.manifest.value.at == at
                       && UpdaterJob.Pruned(w.backups[id := b], w1.backups, id)
      else Unfinished(w, w1, id)
    case CopyStep =>
      && w1 == w.(disk := w1.disk)
      && (exists gone, j :: CopyCut(w.disk, w1.disk, w.target, job, gone, j))
      && (!LocalAndFree(own, w.target, job) || !ReplaceAllowed(own, w.target, job) ==> !ok && w1 == w)
      && (ok ==> CopyDone(w.disk, w1.disk, w.target, job))
    case RestoreStep =>
      if HasBackup(w, id) then
        var b := w.backups[id];
        && w1 == w.(disk := w1.disk)
        && (exists done, gone :: RestoreCut(own, b, w.disk, w1.disk, b.manifest.value.targetDir, done, gone))
        && (ok ==> RestoreDone(own, b, w.disk, w1.disk, b.manifest.value.targetDir))
      else !ok && w1 == w
  }

  /** How a list ends. A timeout counts as a failure. */
  datatype End = Ok | Fail | Cancel

  /** A list run up to its end (`Ok`), stopped by a step that failed, or cancelled: between two
      steps, or inside the last one. Step `k` is run at time `clock[k]`. */
  ghost predicate ListRun(own: set<Path>, ws: seq<World>, id: string, job: Job, clock: seq<int>, steps: seq<Builtin>,
                          end: End) {
    && |clock| == |steps| && 1 <= |ws| <= |steps| + 1
    && (end == Ok ==> |ws| == |steps| + 1) && (end == Fail ==> |ws| > 1)
    && forall k {:trigger ws[k]} :: 0 <= k < |ws| - 1 ==>
         if k < |ws| - 2 || end == Ok then StepRun(own, ws[k], ws[k + 1], id, job, clock[k], steps[k], true)
         else || StepRun(own, ws[k], ws[k + 1], id, job, clock[k], steps[k], false)
              || (end == Cancel && k + 1 < |steps| && StepRun(own, ws[k], ws[k + 1], id, job, clock[k], steps[k], true))
  }

  /** The name shown as installed after a rollback list that ran to its end. */
  function AfterRollback(w: World, id: string): World {
    if id in w.backups
    && w.backups[id].manifest.Some? then w.(installed := w.backups[id].manifest.value.prevInstalled) else w
  }

  datatype Kind = DeployList | RollbackList

  /** One order to the updater as it was carried out: the list with the worlds it went through,
      and the rollback list run behind it (`back`, `ws2`), if one was. */
  datatype Run = Run(id: string, job: Job, clock: seq<int>, steps: seq<Builtin>, ws: seq<World>, end: End,
                     clock2: seq<int>, rollback: seq<Builtin>, ws2: seq<World>, back: Option<End>)

  /** `runDeploy`: the list, the rollback list behind a failed one if the order carries one and
      was not cancelled, and the name shown as installed. */
  ghost predicate DeployRun(own: set<Path>, kind: Kind, r: Run, w1: World) {
    && ListRun(own, r.ws, r.id, r.job, r.clock, r.steps, r.end)
    && match r.back
       case None =>
         var last := r.ws[|r.ws| - 1];
         w1 == if r.end != Ok then last
               else if kind == DeployList then last.(installed := r.job.version)
               else AfterRollback(last, r.id)
       case Some(back) =>
         && r.end == Fail && r.rollback != [] && ListRun(own, r.ws2, r.id, r.job, r.clock2, r.rollback, back)
         && r.ws2[0] == r.ws[|r.ws| - 1]
         && var last := r.ws2[|r.ws2| - 1]; w1 == if back == Ok then AfterRollback(last, r.id) else last
  }

  class Agent {
    const updater: UpdaterJob.Updater

    constructor (updater: UpdaterJob.Updater)
      ensures this.updater == updater
    {
      this.updater := updater;
    }

    ghost function Now(): World
      reads updater
    {
      World(updater.disk, updater.backups, updater.installed, updater.targetDir)
    }

    /** One step as the job runs it. A build with a path leading out of its folder gets no job. */
    method RunStep(id: string, job: Job, s: Builtin, at: int, steps: nat) returns (ok: bool)
      modifies updater`disk, updater`backups
      ensures StepRun(updater.own, old(Now()), Now(), id, job, at, s, ok)
      ensures OwnKept(updater.own, old(updater.disk), updater.disk)
    {
      NothingTouchedOwn(updater.own, updater.disk);
      hide OwnKept, CopyCut, CopyDone, RestoreCut, RestoreDone, UpdaterJob.Pruned, IsBackupOf;
      NotRun(updater.own, Now(), id, job, at, s);
      var local := AllLocal(job);
      if !local {
        return false;
      }
      match s
      case BackupStep =>
        var o := updater.Backup(id, job, at, steps);
        ok := o.Done?;
      case CopyStep =>
        var o, gone, j := updater.CopyFiles(job, steps);
        ok := o.Done?;
      case RestoreStep =>
        var o, done, gone := updater.Restore(id, steps);
        ok := o.Done?;
    }

    /** `runList`: step after step. The deployment is cancelled before step `stopAt`; `cuts` tells how
        far each step gets, `cancels` whether one that does not end was cancelled. */
    method RunList(id: string, job: Job, steps: seq<Builtin>, clock: seq<int>, stopAt: nat, cuts: seq<nat>,
                   cancels: seq<bool>)
      returns (end: End, ghost ws: seq<World>)
      requires |clock| == |cuts| == |cancels| == |steps|
      modifies updater`disk, updater`backups
      ensures ListRun(updater.own, ws, id, job, clock, steps, end) && ws[0] == old(Now()) && ws[|ws| - 1] == Now()
      ensures stopAt < |steps| ==> end != Ok && |ws| <= stopAt + 1
      ensures OwnKept(updater.own, old(updater.disk), updater.disk)
    {
      hide StepRun, OwnKept;
      ws := [Now()];
      NothingTouchedOwn(updater.own, updater.disk);
      for k := 0 to |steps|
        invariant k <= stopAt && |ws| == k + 1 && ws[0] == old(Now()) && ws[k] == Now()
        invariant OwnKept(updater.own, old(updater.disk), updater.disk)
        invariant forall m {:trigger ws[m]} :: 0 <= m < k ==>
                    StepRun(updater.own, ws[m], ws[m + 1], id, job, clock[m], steps[m], true)
      {
        if k == stopAt {
          return Cancel, ws;
        }
        ghost var mid := updater.disk;
        var done := RunStep(id, job, steps[k], clock[k], cuts[k]);
        OwnKeptOn(updater.own, old(updater.disk), mid, updater.disk);
        ws := ws + [Now()];
        if !done {
          return if cancels[k] then Cancel else Fail, ws;
        }
      }
      end := Ok;
    }

    /** `runDeploy`. `stopped` is whether the deployment has been cancelled by the time its list has
        failed; `stopAt2`, `cuts2` and `cancels2` are for the rollback list. */
    method RunDeploy(id: string, job: Job, kind: Kind, steps: seq<Builtin>, clock: seq<int>, stopAt: nat,
                     cuts: seq<nat>,
                     cancels: seq<bool>, stopped: bool, rollback: seq<Builtin>, clock2: seq<int>, stopAt2: nat,
                     cuts2: seq<nat>, cancels2: seq<bool>)
      returns (end: End, back: Option<End>, ghost ws: seq<World>, ghost ws2: seq<World>)
      requires |clock| == |cuts| == |cancels| == |steps| && |clock2| == |cuts2| == |cancels2| == |rollback|
      modifies updater`disk, updater`backups, updater`installed
      ensures ws != [] && ws[0] == old(Now())
      ensures DeployRun(updater.own, kind, Run(id, job, clock, steps, ws, end, clock2, rollback, ws2, back), Now())
      ensures back.Some? <==> end == Fail && rollback != [] && !stopped
      ensures OwnKept(updater.own, old(updater.disk), updater.disk)
      ensures updater.installed == if kind == DeployList && end == Ok then job.version
                                   else if ((kind == RollbackList && end == Ok) || back == Some(Ok))
                                           && id in updater.backups && updater.backups[id].manifest.Some?
                                     then updater.backups[id].manifest.value.prevInstalled
                                   else old(updater.installed)
    {
      hide StepRun, OwnKept;
      back, ws2 := None, [];
      end, ws := RunList(id, job, steps, clock, stopAt, cuts, cancels);
      if end == Fail && rollback != [] && !stopped {
        var end2;
        ghost var mid := updater.disk;
        end2, ws2 := RunList(id, job, rollback, clock2, stopAt2, cuts2, cancels2);
        OwnKeptOn(updater.own, old(updater.disk), mid, updater.disk);
        back := Some(end2);
      }
      if kind == DeployList && end == Ok {
        updater.installed := job.version;
      } else if (kind == RollbackList && end == Ok) || back == Some(Ok) {
        if id in updater.backups && updater.backups[id].manifest.Some? {
          updater.installed := updater.backups[id].manifest.value.prevInstalled;
        }
      }
    }
  }

  /** A step that did not start changes nothing. */
  lemma NotRun(own: set<Path>, w: World, id: string, job: Job, at: int, s: Builtin)
    ensures StepRun(own, w, w, id, job, at, s, false)
  {
    match s
    case BackupStep =>
    case CopyStep =>
      UpdaterJob.NothingCopied(w.disk, w.target, job);
    case RestoreStep =>
      if HasBackup(w, id) {
        UpdaterJob.PutBackNone(w.disk, w.backups[id], w.backups[id].manifest.value.targetDir);
        assert RestoreCut(own, w.backups[id], w.disk, w.disk, w.backups[id].manifest.value.targetDir, {}, {});
      }
  }
}
