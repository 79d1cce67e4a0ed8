/** Runs of deployments and rollbacks on one machine: what a rollback gives back, over every
    history of lists completed, failed or cut short, stacked deployments and pruned backups. */
module Rollouts {
  import opened Wrappers
  import opened NewsFile
  import opened Install
  import opened Deployments

  /** `DeployTag`: the folder name of a deployment, `d<id>`. */
  function Tag(id: nat): string { "d" + Decimal(id) }

  function Decimal(n: nat): (s: string)
    ensures s != []
  {
    if n < 10 then [Digit(n)] else Decimal(n / 10) + [Digit(n % 10)]
  }

  function Digit(n: nat): char
    requires n < 10
  {
    ['0', '1', '2', '3', '4', '5', '6', '7', '8', '9'][n]
  }

  lemma {:induction false} DecimalInjective(m: nat, n: nat)
    requires Decimal(m) == Decimal(n)
    ensures m == n
  {
    var l := |Decimal(m)| - 1;
    assert Decimal(m)[l] == Digit(m % 10) && Decimal(n)[l] == Digit(n % 10);
    if m >= 10 && n >= 10 {
      assert Decimal(m)[..l] == Decimal(m / 10) && Decimal(n)[..l] == Decimal(n / 10);
      DecimalInjective(m / 10, n / 10);
    }
  }

  lemma TagInjective(m: nat, n: nat)
    requires Tag(m) == Tag(n)
    ensures m == n
  {
    assert Tag(m)[1..] == Decimal(m) && Tag(n)[1..] == Decimal(n);
    DecimalInjective(m, n);
  }

  /** A deployment not rolled back, and the world it started from. */
  datatype Level = Level(id: nat, job: Job, before: World)

  /** The machine, the live deployments in the order they were made, the rolled-back ones, and
      the deployments whose backup was finished, in that order. */
  datatype State = State(w: World, live: seq<Level>, undone: set<nat>, saved: seq<nat>)

  datatype Block = Free | AlreadyUndone | NotLatest(latest: nat)

  /** `rollbackBlock`, with the greatest id not rolled back as the latest live deployment. */
  function RollbackBlock(s: State, id: nat): Block {
    var latest := if s.live == [] then 0 else s.live[|s.live| - 1].id;
    if id in s.undone then AlreadyUndone
    else if s.live == [] || latest != id then NotLatest(latest)
    else Free
  }

  predicate Unused(s: State, id: nat) {
    (forall k :: 0 <= k < |s.live| ==> s.live[k].id < id) && (forall n :: n in s.undone ==> n < id)
  }

  /** A new deployment. A successful automatic rollback behind a failed list counts as rolled back. */
  ghost predicate Deploys(own: set<Path>, s: State, s1: State, id: nat, r: Run) {
    && Unused(s, id) && r.id == Tag(id) && r.ws != [] && r.ws[0] == s.w
    && DeployRun(own, DeployList, r, s1.w)
    && s1.saved == (if HasBackup(s1.w, Tag(id)) then s.saved + [id] else s.saved)
    && s1.live == (if r.back == Some(Ok) then s.live else s.live + [Level(id, r.job, s.w)])
    && s1.undone == (if r.back == Some(Ok) then s.undone + {id} else s.undone)
  }

  /** A rollback the supervisor lets through; `r.job` is the build as it is now, with no folders
      to replace. */
  ghost predicate RollsBack(own: set<Path>, s: State, s1: State, id: nat, r: Run) {
    && RollbackBlock(s, id) == Free && r.id == Tag(id) && r.steps != [] && r.rollback == [] && r.job.replace == []
    && r.ws != [] && r.ws[0] == s.w
    && DeployRun(own, RollbackList, r, s1.w)
    && s1.saved == s.saved
    && s1.live == (if r.end == Ok then s.live[..|s.live| - 1] else s.live)
    && s1.undone == (if r.end == Ok then s.undone + {id} else s.undone)
  }

  /** The operator sets another install path. */
  ghost predicate Retargets(s: State, s1: State, target: Path) { s1 == s.(w := s.w.(target := target)) }

  ghost predicate Init(s: State) { s.live == [] && s.undone == {} && s.saved == [] && s.w.backups == map[] }

  // ---- which step lists can be undone ----

  /** The first `k` steps leave copied files on the disk, beginning with or without such. */
  predicate Copied(steps: seq<Builtin>, k: nat, from: bool)
    requires k <= |steps|
  {
    if k == 0 then from
    else match steps[k - 1]
         case BackupStep => Copied(steps, k - 1, from)
         case CopyStep => true
         case RestoreStep => false
  }

  /** Step `k` is never come to: a restore stands before it and no backup before that. */
  predicate Blocked(steps: seq<Builtin>, k: nat)
    requires k <= |steps|
  {
    k > 0 && (Blocked(steps, k - 1) || (steps[k - 1] == RestoreStep && BackupStep !in steps[..k - 1]))
  }

  /** No backup is made of copied files; `from` tells whether such may be there, and a backup too,
      when the list begins. */
  predicate BacksUpOld(steps: seq<Builtin>, from: bool) {
    forall k :: 0 <= k < |steps| && steps[k] == BackupStep && (from || !Blocked(steps, k)) ==> !Copied(steps, k, from)
  }

  /** A deployment list backs up what was there before it. */
  predicate DeployListOk(steps: seq<Builtin>) { BacksUpOld(steps, false) }

  /** A list run behind a failed deployment list backs up nothing that list or it has copied, and
      ends with the old files back. */
  predicate AutoListOk(steps: seq<Builtin>) {
    BacksUpOld(steps, true) && (steps != [] ==> !Copied(steps, |steps|, true))
  }

  /** A rollback list of its own restores, and nothing else. */
  predicate OnlyRestores(steps: seq<Builtin>) { forall k :: 0 <= k < |steps| ==> steps[k] == RestoreStep }

  ghost predicate DeployFits(s: State, r: Run) {
    DeployListOk(r.steps) && AutoListOk(r.rollback) && CleanNews(s.w.disk, s.w.target, r.job)
  }

  // ---- what holds in every reachable state ----

  /** What the deployment of a level may have changed. */
  function Reach(own: set<Path>, l: Level): set<Path> {
    if LocalAndFree(own, l.before.target, l.job) then Touched(l.before.disk, l.before.target, l.job) else {}
  }

  ghost predicate OwnBackup(w: World, before: World, id: string, job: Job) {
    HasBackup(w, id) ==> IsBackupOf(w.backups[id], before.disk, before.target, job, before.installed)
  }

  function DiskAfter(s: State, k: nat): Disk
    requires k < |s.live|
  {
    if k + 1 < |s.live| then s.live[k + 1].before.disk else s.w.disk
  }

  ghost predicate LevelOk(own: set<Path>, s: State, k: nat)
    requires k < |s.live|
  {
    var l := s.live[k];
    && OwnBackup(s.w, l.before, Tag(l.id), l.job)
    && CleanNews(l.before.disk, l.before.target, l.job)
    && Agree(l.before.disk, DiskAfter(s, k), Reach(own, l))
  }

  ghost predicate Owned(s: State, id: nat) { id in s.undone || exists k :: 0 <= k < |s.live| && s.live[k].id == id }

  ghost predicate LevelsOk(own: set<Path>, s: State) {
    forall k {:trigger s.live[k]} :: 0 <= k < |s.live| ==> LevelOk(own, s, k)
  }

  ghost predicate IdsOk(s: State) {
    && (forall k, m :: 0 <= k < m < |s.live| ==> s.live[k].id < s.live[m].id)
    && (forall k :: 0 <= k < |s.live| ==> s.live[k].id !in s.undone)
  }

  ghost predicate AllOwned(s: State) { forall id {:trigger Tag(id)} :: Tag(id) in s.w.backups ==> Owned(s, id) }

  ghost predicate Inv(own: set<Path>, s: State) { LevelsOk(own, s) && IdsOk(s) && AllOwned(s) }

  /** Other deployments' finished backups are kept as they are, or go. */
  ghost predicate Keeps(w: World, w1: World, id: string) {
    forall x {:trigger w1.backups[x]} :: x in w1.backups && x != id ==> x in w.backups && w1.backups[x] == w.backups[x]
  }

  /** `w` differs from `w0` on the deployment's own files at most, and its backup is of `w0`. */
  ghost predicate Undoable(own: set<Path>, w0: World, w: World, id: string, job: Job) {
    Agree(w0.disk, w.disk, Reach(own, Level(0, job, w0))) && OwnBackup(w, w0, id, job)
  }

  ghost predicate Midway(own: set<Path>, w0: World, w: World, id: string, job: Job) {
    w.target == w0.target && w.installed == w0.installed && Undoable(own, w0, w, id, job) && Keeps(w0, w, id)
  }

  lemma SameIsMidway(own: set<Path>, w: World, id: string, job: Job)
    requires !HasBackup(w, id)
    ensures Midway(own, w, w, id, job)
  {
    AgreesItself(w.disk, Reach(own, Level(0, job, w)));
  }

  lemma AgreesItself(d: Disk, t: set<Path>)
    ensures Agree(d, d, t)
  {
  }

  // ---- one step of a deployment ----

  /** A backup made while nothing copied is on the disk is one of the old disk. */
  lemma BackupMidway(own: set<Path>, w0: World, w: World, w1: World, id: string, job: Job, at: int, ok: bool)
    requires Midway(own, w0, w, id, job) && w.disk == w0.disk && StepRun(own, w, w1, id, job, at, BackupStep, ok)
    ensures Midway(own, w0, w1, id, job) && w1.disk == w0.disk
  {
    hide Saved, News, Written, Agree, CleanNews, Reach, UpdaterJob.Pruned;
    if ok {
      var b :| IsBackupOf(b, w.disk, w.target, job, w.installed) && b.manifest.value.at == at
               && UpdaterJob.Pruned(w.backups[id := b], w1.backups, id);
      PrunedFrom(w.backups, b, w1.backups, id);
      assert OwnBackup(w1, w0, id, job);
    }
    KeepsOn(w0, w, w1, id);
  }

  lemma PrunedFrom(bs: map<string, Bundle>, b: Bundle, after: map<string, Bundle>, id: string)
    requires UpdaterJob.Pruned(bs[id := b], after, id)
    ensures forall x {:trigger after[x]} :: x in after && x != id ==> x in bs && after[x] == bs[x]
    ensures id in after && after[id] == b
  {
    assert forall x {:trigger after[x]} :: x in after ==> x in bs[id := b] && after[x] == bs[id := b][x];
  }

  lemma KeepsOn(w0: World, w: World, w1: World, id: string)
    requires Keeps(w0, w, id) && Keeps(w, w1, id)
    ensures Keeps(w0, w1, id)
  {
  }

  lemma CopyMidway(own: set<Path>, w0: World, w: World, w1: World, id: string, job: Job, at: int, ok: bool)
    requires Midway(own, w0, w, id, job) && StepRun(own, w, w1, id, job, at, CopyStep, ok)
    ensures Midway(own, w0, w1, id, job)
  {
    hide Agree, CopyCut, LocalAndFree, Touched, IsBackupOf, CopyDone;
    if LocalAndFree(own, w.target, job) {
      var gone, j :| CopyCut(w.disk, w1.disk, w.target, job, gone, j);
      CopyAgrees(w0.disk, w.disk, w1.disk, w.target, job, gone, j);
    }
  }

  /** A restore, whatever build comes with it. */
  lemma RestoreStepUndoes(own: set<Path>, w0: World, w: World, w1: World, id: string, job: Job, any: Job, at: int,
                          ok: bool)
    requires Undoable(own, w0, w, id, job) && CleanNews(w0.disk, w0.target, job)
    requires StepRun(own, w, w1, id, any, at, RestoreStep, ok)
    ensures Undoable(own, w0, w1, id, job) && w1 == w.(disk := w1.disk)
    ensures ok ==> HasBackup(w, id) && w1.disk == w0.disk
    ensures !HasBackup(w, id) ==> w1 == w
  {
    hide Agree, RestoreCut, RestoreDone, CleanNews, Saved, News, Written, Reach;
    if HasBackup(w, id) {
      RestoreUndone(own, w0, w, w1, id, job, ok);
    }
  }

  lemma RestoreUndone(own: set<Path>, w0: World, w: World, w1: World, id: string, job: Job, ok: bool)
    requires HasBackup(w, id) && IsBackupOf(w.backups[id], w0.disk, w0.target, job, w0.installed)
    requires Agree(w0.disk, w.disk, Reach(own, Level(0, job, w0))) && CleanNews(w0.disk, w0.target, job)
    requires exists done, gone :: RestoreCut(own, w.backups[id], w.disk, w1.disk, w0.target, done, gone)
    requires ok ==> RestoreDone(own, w.backups[id], w.disk, w1.disk, w0.target)
    ensures Agree(w0.disk, w1.disk, Reach(own, Level(0, job, w0)))
    ensures ok ==> w1.disk == w0.disk
  {
    hide Agree, RestoreDone, Saved, News, Written, CleanNews, LocalAndFree, Touched, Removals, PutBack;
    var b, t := w.backups[id], Reach(own, Level(0, job, w0));
    var done, gone :| RestoreCut(own, b, w.disk, w1.disk, w0.target, done, gone);
    CleanIsRight(own, b, w0.disk, w.disk, w0.target, job, t);
    assert NoOldListed(own, b, w0.disk, w0.target);
    RestoreAgrees(own, b, w0.disk, w.disk, w1.disk, w0.target, job, w0.installed, done, gone, t);
    if ok {
      RestoreUndoes(own, b, w0.disk, w.disk, w1.disk, w0.target, job, w0.installed, t);
    }
  }

  /** One step, done or not; a backup only while nothing copied is on the disk. */
  lemma StepMidway(own: set<Path>, w0: World, w: World, w1: World, id: string, job: Job, at: int, s: Builtin, ok: bool)
    requires Midway(own, w0, w, id, job) && CleanNews(w0.disk, w0.target, job)
             && StepRun(own, w, w1, id, job, at, s, ok)
    requires s == BackupStep ==> w.disk == w0.disk
    ensures Midway(own, w0, w1, id, job)
    ensures ok && s == RestoreStep ==> w1.disk == w0.disk && HasBackup(w, id)
    ensures s == BackupStep ==> w1.disk == w0.disk
    ensures s != BackupStep ==> w1.backups == w.backups
  {
    match s
    case BackupStep => BackupMidway(own, w0, w, w1, id, job, at, ok);
    case CopyStep => CopyMidway(own, w0, w, w1, id, job, at, ok);
    case RestoreStep =>
      hide Undoable, CleanNews, StepRun;
      RestoreStepUndoes(own, w0, w, w1, id, job, job, at, ok);
      KeepsSame(w0, w, w1, id);
  }

  lemma KeepsSame(w0: World, w: World, w1: World, id: string)
    requires Keeps(w0, w, id) && w1.backups == w.backups
    ensures Keeps(w0, w1, id)
  {
  }

  /** What is known in front of step `k` when all steps before it are done. */
  ghost predicate InFront(own: set<Path>, w0: World, w: World, id: string, job: Job, steps: seq<Builtin>, k: nat,
                          from: bool)
    requires k <= |steps|
  {
    Midway(own, w0, w, id, job) && (Copied(steps, k, from) || w.disk == w0.disk)
  }

  ghost predicate AllDone(own: set<Path>, ws: seq<World>, id: string, job: Job, clock: seq<int>, steps: seq<Builtin>,
                          n: nat) {
    && n < |ws| && n <= |steps| == |clock|
    && forall k {:trigger ws[k]} :: 0 <= k < n ==> StepRun(own, ws[k], ws[k + 1], id, job, clock[k], steps[k], true)
  }

  lemma {:induction false} BlockedLater(steps: seq<Builtin>, i: nat, k: nat)
    requires i <= k <= |steps| && Blocked(steps, i)
    ensures Blocked(steps, k)
  {
    if i < k {
      BlockedLater(steps, i, k - 1);
    }
  }

  lemma BackupsAfter(own: set<Path>, w: World, w1: World, id: string, job: Job, at: int, s: Builtin)
    requires StepRun(own, w, w1, id, job, at, s, true)
    ensures s == RestoreStep ==> HasBackup(w, id)
    ensures s != BackupStep ==> HasBackup(w1, id) == HasBackup(w, id)
  {
  }

  /** No restore that was done stood before the first backup. */
  lemma {:induction false} DoneNotBlocked(own: set<Path>, ws: seq<World>, id: string, job: Job, clock: seq<int>,
                                          steps: seq<Builtin>, k: nat)
    requires AllDone(own, ws, id, job, clock, steps, k) && !HasBackup(ws[0], id)
    ensures !Blocked(steps, k) && (BackupStep in steps[..k] || !HasBackup(ws[k], id))
  {
    hide StepRun, HasBackup;
    if k > 0 {
      DoneNotBlocked(own, ws, id, job, clock, steps, k - 1);
      BackupsAfter(own, ws[k - 1], ws[k], id, job, clock[k - 1], steps[k - 1]);
      assert steps[..k] == steps[..k - 1] + [steps[k - 1]];
    }
  }

  /** Steps that were all done, from a world with the flag `from`. */
  lemma {:induction false} DoneInFront(own: set<Path>, w0: World, ws: seq<World>, id: string, job: Job, clock: seq<int>,
                                       steps: seq<Builtin>, from: bool, k: nat)
    requires AllDone(own, ws, id, job, clock, steps, k) && BacksUpOld(steps, from)
    requires InFront(own, w0, ws[0], id, job, steps, 0, from) && CleanNews(w0.disk, w0.target, job)
    requires from || !HasBackup(ws[0], id)
    ensures InFront(own, w0, ws[k], id, job, steps, k, from)
  {
    hide StepRun, Midway, CleanNews, HasBackup, Copied, Blocked;
    if k == 0 {
      assert InFront(own, w0, ws[0], id, job, steps, k, from);
    } else {
      DoneInFront(own, w0, ws, id, job, clock, steps, from, k - 1);
      if !from {
        DoneNotBlocked(own, ws, id, job, clock, steps, k - 1);
      }
      StepMidway(own, w0, ws[k - 1], ws[k], id, job, clock[k - 1], steps[k - 1], true);
      NextCopied(steps, k, from);
    }
  }

  lemma NextCopied(steps: seq<Builtin>, k: nat, from: bool)
    requires 0 < k <= |steps|
    ensures Copied(steps, k, from) == match steps[k - 1]
                                      case BackupStep => Copied(steps, k - 1, from)
                                      case CopyStep => true
                                      case RestoreStep => false
  {
  }

  lemma SameBackups(w: World, w1: World, id: string)
    requires w1.backups == w.backups
    ensures HasBackup(w1, id) == HasBackup(w, id)
  {
  }

  /** A whole list, ended in whatever way. */
  lemma ListMidway(own: set<Path>, w0: World, ws: seq<World>, id: string, job: Job, clock: seq<int>,
                   steps: seq<Builtin>, end: End, from: bool)
    requires ListRun(own, ws, id, job, clock, steps, end) && BacksUpOld(steps, from)
    requires InFront(own, w0, ws[0], id, job, steps, 0, from) && CleanNews(w0.disk, w0.target, job)
    requires from || !HasBackup(ws[0], id)
    ensures Midway(own, w0, ws[|ws| - 1], id, job)
    ensures end == Ok ==> Copied(steps, |steps|, from) || ws[|ws| - 1].disk == w0.disk
  {
    hide StepRun, Midway, CleanNews, HasBackup;
    var n := |ws| - 1;
    if end == Ok {
      DoneInFront(own, w0, ws, id, job, clock, steps, from, n);
    } else if n > 0 {
      DoneInFront(own, w0, ws, id, job, clock, steps, from, n - 1);
      if !from {
        DoneNotBlocked(own, ws, id, job, clock, steps, n - 1);
      }
      var ok := StepRun(own, ws[n - 1], ws[n], id, job, clock[n - 1], steps[n - 1], true);
      assert StepRun(own, ws[n - 1], ws[n], id, job, clock[n - 1], steps[n - 1], ok);
      StepMidway(own, w0, ws[n - 1], ws[n], id, job, clock[n - 1], steps[n - 1], ok);
    }
  }

  /** A list of restores, cut anywhere, from a world the deployment left; complete, it undoes it. */
  lemma {:induction false} RestoresUndo(own: set<Path>, w0: World, ws: seq<World>, id: string, job: Job, any: Job,
                                        clock: seq<int>, steps: seq<Builtin>, end: End, k: nat)
    requires ListRun(own, ws, id, any, clock, steps, end) && OnlyRestores(steps) && k < |ws|
    requires Undoable(own, w0, ws[0], id, job) && CleanNews(w0.disk, w0.target, job)
    ensures Undoable(own, w0, ws[k], id, job) && ws[k] == ws[0].(disk := ws[k].disk)
    ensures end == Ok && k == |steps| && steps != [] ==> HasBackup(ws[0], id) && ws[k].disk == w0.disk
    ensures !HasBackup(ws[0], id) ==> ws[k] == ws[0] && (end == Ok ==> steps == [])
  {
    hide Undoable, CleanNews, StepRun;
    if k > 0 {
      RestoresUndo(own, w0, ws, id, job, any, clock, steps, end, k - 1);
      var ok := StepRun(own, ws[k - 1], ws[k], id, any, clock[k - 1], steps[k - 1], true);
      assert StepRun(own, ws[k - 1], ws[k], id, any, clock[k - 1], steps[k - 1], ok);
      RestoreStepUndoes(own, w0, ws[k - 1], ws[k], id, job, any, clock[k - 1], ok);
    } else if end == Ok && steps != [] {
      RestoreStepUndoes(own, w0, ws[0], ws[1], id, job, any, clock[0], true);
    }
  }

  // ---- the events keep it ----

  lemma TagUnused(s: State, id: nat)
    requires AllOwned(s) && Unused(s, id)
    ensures Tag(id) !in s.w.backups
  {
    hide Tag;
    assert !Owned(s, id);
  }

  /** What a deployment does to the machine: it can be undone, and with a successful automatic
      rollback it is undone already. */
  lemma DeployEffect(own: set<Path>, s: State, s1: State, id: nat, r: Run)
    requires Inv(own, s) && Deploys(own, s, s1, id, r) && DeployFits(s, r)
    ensures Undoable(own, s.w, s1.w, Tag(id), r.job) && Keeps(s.w, s1.w, Tag(id)) && s1.w.target == s.w.target
    ensures r.back == Some(Ok) ==> s1.w.disk == s.w.disk && s1.w.installed == s.w.installed
  {
    TagUnused(s, id);
    assert !HasBackup(s.w, r.id);
    hide CleanNews, Inv, StepRun, Tag, HasBackup, ListRun, Undoable, Keeps, AfterRollback;
    SameIsMidway(own, s.w, r.id, r.job);
    LastWorld(own, r.ws, r.id, r.job, r.clock, r.steps, r.end);
    ListMidway(own, s.w, r.ws, r.id, r.job, r.clock, r.steps, r.end, false);
    if r.back.Some? {
      LastWorld(own, r.ws2, r.id, r.job, r.clock2, r.rollback, r.back.value);
      ListMidway(own, s.w, r.ws2, r.id, r.job, r.clock2, r.rollback, r.back.value, true);
      NameKept(own, s.w, r.ws2[|r.ws2| - 1], r.id, r.job);
      Installed(own, s.w, r.ws2[|r.ws2| - 1], r.id, r.job);
    }
    Installed(own, s.w, r.ws[|r.ws| - 1], r.id, r.job);
  }

  lemma LastWorld(own: set<Path>, ws: seq<World>, id: string, job: Job, clock: seq<int>, steps: seq<Builtin>, end: End)
    requires ListRun(own, ws, id, job, clock, steps, end)
    ensures |ws| > 0
  {
  }

  /** The backup remembers the name that was installed. */
  lemma NameBack(w: World, before: World, id: string, job: Job)
    requires HasBackup(w, id) && OwnBackup(w, before, id, job)
    ensures AfterRollback(w, id) == w.(installed := before.installed)
  {
  }

  lemma NameKept(own: set<Path>, w0: World, w: World, id: string, job: Job)
    requires Midway(own, w0, w, id, job)
    ensures AfterRollback(w, id) == w
  {
    hide Undoable;
    if HasBackup(w, id) {
      OwnOfUndoable(own, w0, w, id, job);
      NameBack(w, w0, id, job);
    }
  }

  lemma OwnOfUndoable(own: set<Path>, w0: World, w: World, id: string, job: Job)
    requires Undoable(own, w0, w, id, job)
    ensures OwnBackup(w, w0, id, job)
  {
  }

  /** Only the name shown changes when a deployment ends well. */
  lemma Installed(own: set<Path>, w0: World, w: World, id: string, job: Job)
    requires Midway(own, w0, w, id, job)
    ensures var w1 := w.(installed := job.version);
            Undoable(own, w0, w1, id, job) && Keeps(w0, w1, id) && w1.target == w0.target
    ensures Undoable(own, w0, w, id, job) && Keeps(w0, w, id) && w.target == w0.target && w.installed == w0.installed
  {
  }

  /** The levels below stay as they were when a later deployment changes its own backup only. */
  lemma LowerLevel(own: set<Path>, s: State, s1: State, id: nat, k: nat)
    requires Inv(own, s) && k < |s.live| && k < |s1.live| && s1.live[k] == s.live[k]
    requires Keeps(s.w, s1.w, Tag(id)) && s.live[k].id != id
    requires DiskAfter(s1, k) == DiskAfter(s, k)
    ensures LevelOk(own, s1, k)
  {
    hide Agree, CleanNews, Tag, IsBackupOf;
    assert LevelOk(own, s, k);
    if Tag(s.live[k].id) == Tag(id) {
      TagInjective(s.live[k].id, id);
    }
  }

  lemma NewLevel(own: set<Path>, s: State, s1: State, id: nat, job: Job)
    requires s1.live == s.live + [Level(id, job, s.w)] && Undoable(own, s.w, s1.w, Tag(id), job)
    requires CleanNews(s.w.disk, s.w.target, job)
    ensures LevelOk(own, s1, |s.live|)
  {
    hide Agree, CleanNews, Tag, IsBackupOf;
  }

  /** Every backup left belongs to a deployment that is live or undone. */
  lemma StillOwned(s: State, s1: State, id: nat)
    requires AllOwned(s) && Keeps(s.w, s1.w, Tag(id)) && Owned(s1, id)
    requires forall n :: Owned(s, n) ==> Owned(s1, n)
    ensures AllOwned(s1)
  {
    hide Owned, Tag;
    forall n {:trigger Tag(n)} | Tag(n) in s1.w.backups ensures Owned(s1, n) {
      if Tag(n) == Tag(id) {
        TagInjective(n, id);
      } else {
        assert Tag(n) in s.w.backups;
      }
    }
  }

  lemma OwnedAfterDeploy(own: set<Path>, s: State, s1: State, id: nat, r: Run)
    requires Deploys(own, s, s1, id, r)
    ensures Owned(s1, id) && forall n :: Owned(s, n) ==> Owned(s1, n)
  {
    hide DeployRun, Tag, HasBackup;
    if r.back != Some(Ok) {
      assert s1.live[|s.live|].id == id;
    }
    forall n | Owned(s, n) ensures Owned(s1, n) {
      if k :| 0 <= k < |s.live| && s.live[k].id == n {
        assert s1.live[k].id == n;
      }
    }
  }

  lemma LevelsAfterDeploy(own: set<Path>, s: State, s1: State, id: nat, r: Run)
    requires Inv(own, s) && Deploys(own, s, s1, id, r) && DeployFits(s, r)
    requires Undoable(own, s.w, s1.w, Tag(id), r.job) && Keeps(s.w, s1.w, Tag(id))
    requires r.back == Some(Ok) ==> s1.w.disk == s.w.disk
    ensures LevelsOk(own, s1)
  {
    hide CleanNews, Tag, DeployRun, DeployListOk, AutoListOk, LevelOk, Undoable, Keeps, Owned, HasBackup;
    forall k | 0 <= k < |s1.live| ensures LevelOk(own, s1, k) {
      if k < |s.live| {
        LowerLevel(own, s, s1, id, k);
      } else {
        NewLevel(own, s, s1, id, r.job);
      }
    }
  }

  lemma IdsAfterDeploy(own: set<Path>, s: State, s1: State, id: nat, r: Run)
    requires IdsOk(s) && Deploys(own, s, s1, id, r)
    ensures IdsOk(s1)
  {
    hide DeployRun, Tag, HasBackup;
  }

  lemma DeployKeepsInv(own: set<Path>, s: State, s1: State, id: nat, r: Run)
    requires Inv(own, s) && Deploys(own, s, s1, id, r) && DeployFits(s, r)
    ensures Inv(own, s1)
    ensures r.back == Some(Ok) ==> s1.w.disk == s.w.disk && s1.w.installed == s.w.installed
  {
    hide Deploys, DeployFits, Undoable, Keeps, LevelsOk, IdsOk, Owned, Tag;
    DeployEffect(own, s, s1, id, r);
    OwnedAfterDeploy(own, s, s1, id, r);
    StillOwned(s, s1, id);
    LevelsAfterDeploy(own, s, s1, id, r);
    IdsAfterDeploy(own, s, s1, id, r);
  }

  /** What a rollback list of restores does, seen from the deployment it undoes. */
  lemma RollbackEffect(own: set<Path>, s: State, s1: State, id: nat, r: Run, l: Level)
    requires RollsBack(own, s, s1, id, r) && OnlyRestores(r.steps)
    requires OwnBackup(s.w, l.before, r.id, l.job) && CleanNews(l.before.disk, l.before.target, l.job)
    requires Agree(l.before.disk, s.w.disk, Reach(own, l)) && Reach(own, l) == Reach(own, Level(0, l.job, l.before))
    ensures s1.w.backups == s.w.backups
    ensures Agree(l.before.disk, s1.w.disk, Reach(own, l))
    ensures r.end == Ok ==> s1.w.disk == l.before.disk && s1.w.installed == l.before.installed
    ensures !HasBackup(s.w, r.id) ==> r.end != Ok && s1.w == s.w
  {
    hide CleanNews, Agree, Tag, StepRun, Reach, ListRun, HasBackup, RollbackBlock, OwnBackup;
    LastWorld(own, r.ws, r.id, r.job, r.clock, r.steps, r.end);
    var n := |r.ws| - 1;
    EndOfOk(own, r.ws, r.id, r.job, r.clock, r.steps, r.end);
    RestoresUndo(own, l.before, r.ws, r.id, l.job, r.job, r.clock, r.steps, r.end, n);
    SameBackups(s.w, r.ws[n], r.id);
    if r.end == Ok {
      NameBack(r.ws[n], l.before, r.id, l.job);
    }
  }

  lemma EndOfOk(own: set<Path>, ws: seq<World>, id: string, job: Job, clock: seq<int>, steps: seq<Builtin>, end: End)
    requires ListRun(own, ws, id, job, clock, steps, end)
    ensures end == Ok ==> |ws| == |steps| + 1
  {
  }

  lemma LastLevel(own: set<Path>, s: State, s1: State, id: nat, r: Run) returns (n: nat)
    requires Inv(own, s) && RollsBack(own, s, s1, id, r)
    ensures n + 1 == |s.live| && s.live[n].id == id && r.id == Tag(id) && LevelOk(own, s, n)
    ensures s1.live == (if r.end == Ok then s.live[..n] else s.live)
    ensures s1.undone == (if r.end == Ok then s.undone + {id} else s.undone) && s1.saved == s.saved
  {
    hide LevelOk, DeployRun, Tag;
    n := |s.live| - 1;
  }

  lemma LevelsAfterRollback(own: set<Path>, s: State, s1: State, id: nat, n: nat)
    requires Inv(own, s) && n + 1 == |s.live| && s.live[n].id == id && s1.w.backups == s.w.backups
    requires || (s1.live == s.live[..n] && s1.w.disk == s.live[n].before.disk)
             || (s1.live == s.live && Agree(s.live[n].before.disk, s1.w.disk, Reach(own, s.live[n])))
    ensures LevelsOk(own, s1)
  {
    hide CleanNews, Agree, Tag, IsBackupOf, Reach, Owned;
    forall k | 0 <= k < |s1.live| ensures LevelOk(own, s1, k) {
      assert LevelOk(own, s, k);
    }
  }

  /** A rollback that the supervisor lets through. It restores the disk and the installed name
      from before the latest live deployment; or it does not end, and can be tried again; or the
      backup is gone, and nothing at all has changed. */
  lemma RollbackRestores(own: set<Path>, s: State, s1: State, id: nat, r: Run)
    requires Inv(own, s) && RollsBack(own, s, s1, id, r) && OnlyRestores(r.steps)
    ensures Inv(own, s1)
    ensures r.end == Ok ==> s.live != [] && var l := s.live[|s.live| - 1];
                            s1.w.disk == l.before.disk && s1.w.installed == l.before.installed
    ensures !HasBackup(s.w, Tag(id)) ==> r.end != Ok && s1 == s
  {
    hide RollsBack, CleanNews, Agree, LevelsOk, IdsOk, Owned, HasBackup, Tag, OnlyRestores, Reach;
    var n := LastLevel(own, s, s1, id, r);
    SameReach(own, s.live[n]);
    RollbackEffect(own, s, s1, id, r, s.live[n]);
    OwnedAfterRollback(s, s1, id, n);
    KeepsAll(s.w, s1.w, Tag(id));
    StillOwned(s, s1, id);
    LevelsAfterRollback(own, s, s1, id, n);
    IdsAfterRollback(s, s1, id, n);
  }

  lemma IdsAfterRollback(s: State, s1: State, id: nat, n: nat)
    requires IdsOk(s) && n + 1 == |s.live| && s.live[n].id == id
    requires || (s1.live == s.live[..n] && s1.undone == s.undone + {id})
             || (s1.live == s.live && s1.undone == s.undone)
    ensures IdsOk(s1)
  {
  }

  lemma SameReach(own: set<Path>, l: Level)
    ensures Reach(own, l) == Reach(own, Level(0, l.job, l.before))
  {
  }

  lemma KeepsAll(w: World, w1: World, id: string)
    requires w1.backups == w.backups
    ensures Keeps(w, w1, id)
  {
  }

  lemma OwnedAfterRollback(s: State, s1: State, id: nat, n: nat)
    requires n + 1 == |s.live| && s.live[n].id == id
    requires || (s1.live == s.live[..n] && s1.undone == s.undone + {id})
             || (s1.live == s.live && s1.undone == s.undone)
    ensures Owned(s1, id) && forall m :: Owned(s, m) ==> Owned(s1, m)
  {
    forall m | Owned(s, m) ensures Owned(s1, m) {
      if k :| 0 <= k < |s.live| && s.live[k].id == m {
        assert k < n ==> s1.live[k].id == m;
      }
    }
  }

  lemma RetargetKeepsInv(own: set<Path>, s: State, s1: State, target: Path)
    requires Inv(own, s) && Retargets(s, s1, target)
    ensures Inv(own, s1)
  {
    hide CleanNews, Agree, Tag, IsBackupOf;
    forall k | 0 <= k < |s1.live| ensures LevelOk(own, s1, k) {
      assert LevelOk(own, s, k);
    }
    assert forall id :: Owned(s, id) ==> Owned(s1, id);
  }
}
