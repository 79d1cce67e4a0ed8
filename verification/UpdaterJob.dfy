/** The updater's job object: the loops of `backup`, `copyFiles`, `restore` and
    `pruneBackups` over the disk, each file operation counted so that the job can be stopped
    before any one of them. */
module UpdaterJob {
  import opened Sequences
  import opened Wrappers
  import opened NewsFile
  import opened Install
  import opened OwnFiles

  const KEEP_BACKUPS := 3

  datatype Error = NoTarget | Stopped | OwnFile | BadReplace | NoBackup
  datatype Outcome = Done | Failed(why: Error)

  predicate Finished(b: Bundle) { b.manifest.Some? }

  function AllFinished(bs: map<string, Bundle>): set<string> { set x | x in bs && Finished(bs[x]) }

  /** When a finished backup was made. */
  function TimeOf(bs: map<string, Bundle>, x: string): int
    requires x in AllFinished(bs)
  {
    bs[x].manifest.value.at
  }

  /** `all` lists the finished backups, each once, none before a newer one: what sorting by age may
      give, which leaves the order of equally old ones open. */
  ghost predicate Ranked(bs: map<string, Bundle>, all: seq<string>) {
    && NoDup(all) && SetOf(all) == AllFinished(bs)
    && forall a, b :: 0 <= a < b < |all| && all[a] in SetOf(all) && all[b] in SetOf(all) ==>
                        TimeOf(bs, all[a]) >= TimeOf(bs, all[b])
  }

  /** The backups that go: all but the first three, and not `also`. */
  function Dropped(all: seq<string>, also: string): set<string> {
    if |all| <= KEEP_BACKUPS then {} else SetOf(all[KEEP_BACKUPS..]) - {also}
  }

  /** What `pruneBackups` may leave. */
  ghost predicate Pruned(before: map<string, Bundle>, after: map<string, Bundle>, also: string) {
    exists all :: Ranked(before, all) && after == before - Dropped(all, also)
  }

  class Updater {
    const own: set<Path>
    var disk: Disk
    var backups: map<string, Bundle>
    var installed: string
    var targetDir: Path

    constructor (own: set<Path>, disk: Disk, targetDir: Path)
      ensures this.own == own && this.disk == disk && this.targetDir == targetDir && backups == map[] && installed == ""
    {
      this.own, this.disk, this.targetDir, backups, installed := own, disk, targetDir, map[], "";
    }

    predicate HasTarget()
      reads this`targetDir
    {
      targetDir != "" && targetDir[0] == '/'
    }

    /** `guardSelf`: whether the updater itself writes there. */
    method GuardSelf(dst: Path) returns (mine: bool)
      ensures mine == Guarded(own, dst)
    {
      var left := own;
      while left != {}
        invariant left <= own && forall p :: p in own && p !in left ==> dst != p && !Under(dst, p)
        decreases |left|
      {
        var p :| p in left;
        if dst == p || Under(dst, p) {
          return true;
        }
        left := left - {p};
      }
      return false;
    }

    method ReplaceDirs(job: Job) returns (dirs: Option<seq<Path>>)
      ensures dirs.Some? <==> ReplaceAllowed(own, targetDir, job)
      ensures dirs.Some? ==>
                |dirs.value| == |job.replace|
                && forall k :: 0 <= k < |job.replace| ==> dirs.value[k] == Join(targetDir, job.replace[k])
    {
      var out: seq<Path> := [];
      for k := 0 to |job.replace|
        invariant |out| == k && forall m :: 0 <= m < k ==> out[m] == Join(targetDir, job.replace[m])
        invariant forall m ::
                    0 <= m < k ==>
                      IsLocal(job.replace[m]) && !Guarded(own, out[m])
                      && forall p :: p in own ==> p != out[m] && !Under(p, out[m])
      {
        var r := job.replace[k];
        if !IsLocal(r) {
          return None;
        }
        var d := Join(targetDir, r);
        var mine := GuardSelf(d);
        if mine {
          return None;
        }
        var left := own;
        while left != {}
          invariant left <= own && forall p :: p in own && p !in left ==> p != d && !Under(p, d)
          decreases |left|
        {
          var p :| p in left;
          if p == d || Under(p, d) {
            return None;
          }
          left := left - {p};
        }
        out := out + [d];
      }
      forall r | r in job.replace
        ensures IsLocal(r) && !Guarded(own, Join(targetDir, r))
                && forall p :: p in own ==> p != Join(targetDir, r) && !Under(p, Join(targetDir, r))
      {
        var k :| 0 <= k < |job.replace| && job.replace[k] == r;
        assert out[k] == Join(targetDir, r);
      }
      return Some(out);
    }

    /** The walk through one folder. */
    method VictimsIn(d: Path, keep: set<Path>) returns (out: seq<Path>)
      ensures forall p :: p in out <==> p in disk && Under(p, d) && p !in keep && !IsOldName(Base(p))
      ensures |out| <= |disk|
    {
      hide Under, IsOldName, Base;
      out := [];
      var left := disk.Keys;
      while left != {}
        invariant left <= disk.Keys && |out| + |left| <= |disk.Keys|
        invariant forall p :: p in out <==> p in disk && p !in left && Under(p, d) && p !in keep && !IsOldName(Base(p))
        decreases |left|
      {
        var p :| p in left;
        if Under(p, d) && p !in keep && !IsOldName(Base(p)) {
          out := out + [p];
        }
        left := left - {p};
      }
    }

    /** `replaceVictims`: the files to remove, folder by folder. */
    method ReplaceVictims(job: Job) returns (victims: Option<seq<Path>>)
      ensures victims.Some? <==> ReplaceAllowed(own, targetDir, job)
      ensures victims.Some? ==> SetOf(victims.value) == Victims(disk, targetDir, job)
      ensures victims.Some? ==> |victims.value| <= |job.replace| * |disk|
    {
      hide ReplaceAllowed, Under, IsOldName, Base, Join, Dests, IsLocal;
      var dirs := ReplaceDirs(job);
      if dirs.None? {
        return None;
      }
      var keep := Dests(targetDir, job);
      var out: seq<Path> := [];
      for k := 0 to |dirs.value|
        invariant |out| <= k * |disk|
        invariant forall p :: p in out <==>
                    p in disk && p !in keep && !IsOldName(Base(p)) && exists m :: 0 <= m < k && Under(p, dirs.value[m])
      {
        var more := VictimsIn(dirs.value[k], keep);
        out := out + more;
      }
      forall p ensures p in out <==> p in Victims(disk, targetDir, job) {
        if m :| 0 <= m < |dirs.value| && Under(p, dirs.value[m]) {
          assert job.replace[m] in job.replace;
        }
        if r :| r in job.replace && Under(p, Join(targetDir, r)) {
          var m :| 0 <= m < |job.replace| && job.replace[m] == r;
          assert Under(p, dirs.value[m]);
        }
      }
      return Some(out);
    }

    /** `backup`, made at time `at` and stopped before its file operation number `steps`. */
    method Backup(id: string, job: Job, at: int, steps: nat) returns (o: Outcome)
      requires forall f :: f in job.files ==> IsLocal(f.path)
      modifies this`backups
      ensures o.Done? ==> HasTarget() && ReplaceAllowed(own, targetDir, job)
      ensures o.Done? ==> exists b :: IsBackupOf(b, disk, targetDir, job, installed) && b.manifest.value.at == at
                                      && Pruned(old(backups)[id := b], backups, id)
      ensures o.Failed? ==> if o.why == NoTarget then !HasTarget() && backups == old(backups)
                            else id in backups && backups == old(backups)[id := backups[id]] && !Finished(backups[id])
      ensures o.Failed? ==> match o.why
                            case NoTarget => true
                            case BadReplace => !ReplaceAllowed(own, targetDir, job)
                            case Stopped => steps < |job.files| + |job.replace| * |disk|
                            case _ => false
    {
      hide *;
      if !HasTarget() {
        return Failed(NoTarget);
      }
      backups := backups[id := Bundle(map[], "", None)];
      var news;
      o, news := Collect(id, job, steps);
      if o.Failed? {
        SetTwice(old(backups), id, Bundle(map[], "", None), backups[id]);
        return;
      }
      ghost var mid := backups;
      ghost var b := Conclude(id, job, at, news);
      SetTwice(old(backups), id, Bundle(map[], "", None), mid[id]);
      SetTwice(old(backups), id, mid[id], b);
    }

    lemma SetTwice(bs: map<string, Bundle>, id: string, b: Bundle, c: Bundle)
      ensures bs[id := b][id := c] == bs[id := c]
    {
    }

    /** Everything up to the manifest. */
    method Collect(id: string, job: Job, steps: nat) returns (o: Outcome, news: seq<string>)
      requires id in backups && backups[id] == Bundle(map[], "", None)
      modifies this`backups
      ensures id in backups && backups == old(backups)[id := backups[id]] && !Finished(backups[id])
      ensures o.Done? ==> ReplaceAllowed(own, targetDir, job)
      ensures o.Done? ==> news == News(disk, targetDir, job.files) && backups[id].files == Saved(disk, targetDir, job)
      ensures o.Failed? ==> match o.why
                            case BadReplace => !ReplaceAllowed(own, targetDir, job)
                            case Stopped => steps < |job.files| + |job.replace| * |disk|
                            case _ => false
    {
      hide *;
      o, news := SaveFiles(id, job, steps);
      if o.Failed? {
        return;
      }
      var victims := ReplaceVictims(job);
      if victims.None? {
        return Failed(BadReplace), news;
      }
      ghost var mid := backups[id];
      o := SaveVictims(id, job, victims.value, steps - |job.files|);
      SetTwice(old(backups), id, mid, backups[id]);
    }

    /** The manifest, which makes the backup a finished one, and the pruning after it. */
    method Conclude(id: string, job: Job, at: int, news: seq<string>) returns (ghost b: Bundle)
      requires id in backups && news == News(disk, targetDir, job.files)
               && backups[id].files == Saved(disk, targetDir, job)
      modifies this`backups
      ensures IsBackupOf(b, disk, targetDir, job, installed) && b.manifest.value.at == at
      ensures Pruned(old(backups)[id := b], backups, id)
    {
      hide Pruned, IsBackupOf, Saved, Written, News;
      b := Bundle(backups[id].files, Written(news), Some(Manifest(targetDir, at, installed)));
      FinishedBackup(b, job, news, at);
      backups := backups[id := Bundle(backups[id].files, Written(news), Some(Manifest(targetDir, at, installed)))];
      PruneBackups(id);
    }

    lemma FinishedBackup(b: Bundle, job: Job, news: seq<string>, at: int)
      requires b == Bundle(b.files, Written(news), Some(Manifest(targetDir, at, installed)))
      requires news == News(disk, targetDir, job.files) && b.files == Saved(disk, targetDir, job)
      ensures IsBackupOf(b, disk, targetDir, job, installed)
    {
    }

    /** The loop over the files of the job. */
    method SaveFiles(id: string, job: Job, steps: nat) returns (o: Outcome, news: seq<string>)
      requires id in backups && backups[id] == Bundle(map[], "", None)
      modifies this`backups
      ensures id in backups && backups == old(backups)[id := backups[id]] && !Finished(backups[id])
      ensures o == if steps < |job.files| then Failed(Stopped) else Done
      ensures o.Done? ==> news == News(disk, targetDir, job.files) && Holds(backups[id].files, Dests(targetDir, job))
    {
      news := [];
      NoneSaved(id, job);
      hide *;
      for k := 0 to |job.files|
        invariant k <= steps
        invariant id in backups && backups == old(backups)[id := backups[id]] && !Finished(backups[id])
        invariant news == News(disk, targetDir, job.files[..k])
        invariant Holds(backups[id].files, FirstDests(targetDir, job.files[..k]))
      {
        if k == steps {
          return Failed(Stopped), news;
        }
        var f := job.files[k];
        SavedNext(backups[id].files, job, k);
        var src := Join(targetDir, f.path);
        if src !in disk {
          news := news + [f.path];
        } else {
          ghost var before := backups[id];
          SaveFile(id, f.path, disk[src]);
          SetTwice(old(backups), id, before, backups[id]);
        }
      }
      assert job.files[..|job.files|] == job.files;
      AllSaved(job);
      o := Done;
    }

    method SaveFile(id: string, rel: string, f: File)
      requires id in backups
      modifies this`backups
      ensures id in backups && backups == old(backups)[id := backups[id]]
      ensures backups[id].files == old(backups)[id].files[rel := f]
              && Finished(backups[id]) == Finished(old(backups)[id])
    {
      backups := backups[id := backups[id].(files := backups[id].files[rel := f])];
    }

    lemma NoneSaved(id: string, job: Job)
      requires id in backups && backups[id] == Bundle(map[], "", None)
      ensures !Finished(backups[id]) && [] == News(disk, targetDir, job.files[..0])
      ensures Holds(backups[id].files, FirstDests(targetDir, job.files[..0]))
    {
    }

    lemma AllSaved(job: Job)
      ensures FirstDests(targetDir, job.files) == Dests(targetDir, job)
    {
    }

    lemma SavedNext(files: map<string, File>, job: Job, k: nat)
      requires k < |job.files| && Holds(files, FirstDests(targetDir, job.files[..k]))
      ensures var f := job.files[k]; var src := Join(targetDir, f.path);
              var news, next := News(disk, targetDir, job.files[..k]), News(disk, targetDir, job.files[..k + 1]);
              if src in disk then next == news
              && Holds(files[f.path := disk[src]], FirstDests(targetDir, job.files[..k + 1]))
              else next == news + [f.path] && Holds(files, FirstDests(targetDir, job.files[..k + 1]))
    {
      assert job.files[..k + 1][..k] == job.files[..k];
      FirstDestsGrow(targetDir, job.files, k);
      RelOfJoin(targetDir, job.files[k].path);
      hide Join, Rel, FirstDests, Holds;
      var src := Join(targetDir, job.files[k].path);
      if src in disk {
        HoldsOne(files, FirstDests(targetDir, job.files[..k]), src);
      } else {
        HoldsNone(files, FirstDests(targetDir, job.files[..k]), src);
      }
    }

    lemma HoldsNone(files: map<string, File>, paths: set<Path>, p: Path)
      requires Holds(files, paths) && p !in disk
      ensures Holds(files, paths + {p})
    {
      hide Join, Rel;
    }

    /** The loop over the files the copy is going to remove. */
    method SaveVictims(id: string, job: Job, vs: seq<Path>, steps: nat) returns (o: Outcome)
      requires SetOf(vs) == Victims(disk, targetDir, job)
      requires id in backups && !Finished(backups[id]) && Holds(backups[id].files, Dests(targetDir, job))
      modifies this`backups
      ensures id in backups && backups == old(backups)[id := backups[id]] && !Finished(backups[id])
      ensures o == if steps < |vs| then Failed(Stopped) else Done
      ensures o.Done? ==> backups[id].files == Saved(disk, targetDir, job)
    {
      assert Dests(targetDir, job) + SetOf(vs[..0]) == Dests(targetDir, job);
      hide Victims, Dests, Holds, Saved, Join, Rel, SetOf, Touched;
      for k := 0 to |vs|
        invariant k <= steps
        invariant id in backups && backups == old(backups)[id := backups[id]] && !Finished(backups[id])
        invariant Holds(backups[id].files, Dests(targetDir, job) + SetOf(vs[..k]))
      {
        if k == steps {
          return Failed(Stopped);
        }
        var p := vs[k];
        VictimOnDisk(job, vs, k);
        HoldsNext(backups[id].files, job, vs, k);
        backups := backups[id := backups[id].(files := backups[id].files[Rel(targetDir, p) := disk[p]])];
      }
      assert vs[..|vs|] == vs;
      assert Dests(targetDir, job) + SetOf(vs) == Touched(disk, targetDir, job) by { TouchedIs(job, vs); }
      HoldsAll(backups[id].files, job);
      o := Done;
    }

    /** `copyFiles`, stopped before its file operation number `steps`; `gone` and `j` tell how far it came. */
    method CopyFiles(job: Job, steps: nat) returns (o: Outcome, ghost gone: set<Path>, ghost j: nat)
      requires forall f :: f in job.files ==> IsLocal(f.path)
      modifies this`disk
      ensures CopyCut(old(disk), disk, targetDir, job, gone, j)
      ensures o.Done? ==> CopyDone(old(disk), disk, targetDir, job) && HasTarget() && LocalAndFree(own, targetDir, job)
      ensures o.Done? ==> ReplaceAllowed(own, targetDir, job)
      ensures o.Failed? && o.why != Stopped ==> disk == old(disk)
      ensures o.Failed? ==> match o.why
                            case NoTarget => !HasTarget()
                            case OwnFile => !LocalAndFree(own, targetDir, job)
                            case BadReplace => !ReplaceAllowed(own, targetDir, job)
                            case Stopped => && LocalAndFree(own, targetDir, job) && ReplaceAllowed(own, targetDir, job)
                                            && steps < |job.files| + |job.replace| * |old(disk)|
                            case NoBackup => false
      ensures OwnKept(own, old(disk), disk)
      ensures WritesOwn(own, targetDir, job) || EmptiesOwn(own, targetDir, job) ==> o.Failed? && disk == old(disk)
      ensures EmptiesOutside(job) ==> o.Failed? && disk == old(disk)
    {
      hide ReplaceAllowed, IsLocal, Victims, WriteAll, SetOf, LocalAndFree, OwnKept, WritesOwn, EmptiesOwn;
      gone, j := {}, 0;
      NothingCopied(disk, targetDir, job);
      NothingTouchedOwn(own, disk);
      WritingOwnIsGuarded(own, targetDir, job);
      OutsideIsRefused(own, targetDir, job);
      if !HasTarget() {
        return Failed(NoTarget), gone, j;
      }
      var free := GuardFiles(job);
      if !free {
        return Failed(OwnFile), gone, j;
      }
      var victims := ReplaceVictims(job);
      if victims.None? {
        return Failed(BadReplace), gone, j;
      }
      var k := RemoveFiles(victims.value, steps);
      gone := SetOf(victims.value[..k]);
      SetOfPrefix(victims.value, k);
      NothingWritten(old(disk) - gone, targetDir, job);
      if k < |victims.value| {
        CopyKeepsOwn(own, old(disk), disk, targetDir, job, gone, j);
        return Failed(Stopped), gone, j;
      }
      assert victims.value[..k] == victims.value;
      var m := WriteFiles(job, steps - k);
      j := m;
      CopyKeepsOwn(own, old(disk), disk, targetDir, job, gone, j);
      if m < |job.files| {
        return Failed(Stopped), gone, j;
      }
      assert job.files[..j] == job.files;
      o := Done;
    }

    method GuardFiles(job: Job) returns (free: bool)
      requires forall f :: f in job.files ==> IsLocal(f.path)
      ensures free == LocalAndFree(own, targetDir, job)
    {
      hide IsLocal, Guarded;
      for k := 0 to |job.files|
        invariant forall m :: 0 <= m < k ==> !Guarded(own, Join(targetDir, job.files[m].path))
      {
        var mine := GuardSelf(Join(targetDir, job.files[k].path));
        if mine {
          assert job.files[k] in job.files;
          return false;
        }
      }
      return true;
    }

    /** Removes the first files of `vs`, as far as `steps` reaches; a file already gone is no error. */
    method RemoveFiles(vs: seq<Path>, steps: nat) returns (k: nat)
      modifies this`disk
      ensures k == if steps < |vs| then steps else |vs|
      ensures disk == old(disk) - SetOf(vs[..k])
    {
      k := 0;
      while k < |vs| && k < steps
        invariant k <= steps && k <= |vs| && disk == old(disk) - SetOf(vs[..k])
      {
        assert SetOf(vs[..k + 1]) == SetOf(vs[..k]) + {vs[k]};
        disk := disk - {vs[k]};
        k := k + 1;
      }
    }

    /** Writes the first files of the job, as far as `steps` reaches. */
    method WriteFiles(job: Job, steps: nat) returns (k: nat)
      modifies this`disk
      ensures k == if steps < |job.files| then steps else |job.files|
      ensures disk == WriteAll(old(disk), targetDir, job.files[..k])
    {
      k := 0;
      while k < |job.files| && k < steps
        invariant k <= steps && k <= |job.files| && disk == WriteAll(old(disk), targetDir, job.files[..k])
      {
        var f := job.files[k];
        assert job.files[..k + 1][..k] == job.files[..k];
        disk := disk[Join(targetDir, f.path) := File(f.bytes, f.mode)];
        k := k + 1;
      }
    }

    /** `restore`, stopped before its file operation number `steps`; `done` and `gone` tell how far it came. */
    method Restore(id: string, steps: nat) returns (o: Outcome, ghost done: set<string>, ghost gone: set<Path>)
      modifies this`disk
      ensures !(id in backups && Finished(backups[id])) ==> o == Failed(NoBackup) && disk == old(disk)
      ensures id in backups && Finished(backups[id]) ==> (
        && o != Failed(NoBackup)
        && RestoreCut(own, backups[id], old(disk), disk, backups[id].manifest.value.targetDir, done, gone)
        && (o.Done? ==> RestoreDone(own, backups[id], old(disk), disk, backups[id].manifest.value.targetDir))
        && (o == Failed(Stopped) ==> steps < |backups[id].files| + |Scanned(backups[id].news)|)
        && (o == Failed(OwnFile) ==> || Guarded(own, backups[id].manifest.value.targetDir)
                                     || exists rel :: rel in backups[id].files && Guarded(own,
                                            Join(backups[id].manifest.value.targetDir, rel)))
        && (o == Failed(NoTarget) ==> backups[id].manifest.value.targetDir == "")
        && o != Failed(BadReplace))
      ensures OwnKept(own, old(disk), disk)
    {
      hide Scanned, Guarded, PutBack, Removals, OwnKept;
      done, gone := {}, {};
      NothingTouchedOwn(own, disk);
      if id !in backups || backups[id].manifest.None? {
        return Failed(NoBackup), done, gone;
      }
      var b := backups[id];
      var target := b.manifest.value.targetDir;
      PutBackNone(disk, b, target);
      if target == "" {
        return Failed(NoTarget), done, gone;
      }
      var mine := GuardSelf(target);
      if mine {
        return Failed(OwnFile), done, gone;
      }
      var blocked, back := PutFilesBack(b, target, steps);
      done := back;
      assert disk - {} == disk;
      RestoreKeepsOwn(own, b, old(disk), disk, target, done, gone);
      if blocked {
        return Failed(OwnFile), done, gone;
      }
      if back < b.files.Keys {
        return Failed(Stopped), done, gone;
      }
      var all;
      all, gone := RemoveNews(b, target, steps - |b.files|);
      RestoreKeepsOwn(own, b, old(disk), disk, target, done, gone);
      o := if all then Done else Failed(Stopped);
    }

    /** The walk over `files/`. */
    method PutFilesBack(b: Bundle, target: Path, steps: nat) returns (blocked: bool, done: set<string>)
      modifies this`disk
      ensures done <= b.files.Keys && disk == PutBack(old(disk), b, target, done)
      ensures forall rel :: rel in done ==> !Guarded(own, Join(target, rel))
      ensures blocked ==> exists rel :: rel in b.files && Guarded(own, Join(target, rel))
      ensures !blocked && done < b.files.Keys ==> steps < |b.files|
      ensures !blocked && done == b.files.Keys ==> |b.files| <= steps
    {
      hide Guarded, PutBack, Join;
      done := {};
      PutBackNone(disk, b, target);
      var left := b.files.Keys;
      var n := 0;
      while left != {}
        invariant left <= b.files.Keys && done <= b.files.Keys && done + left == b.files.Keys && done !! left
        invariant n + |left| == |b.files.Keys| && n <= steps
        invariant disk == PutBack(old(disk), b, target, done)
        invariant forall rel :: rel in done ==> !Guarded(own, Join(target, rel))
        decreases |left|
      {
        var rel :| rel in left;
        if n == steps {
          return false, done;
        }
        var mine := GuardSelf(Join(target, rel));
        if mine {
          return true, done;
        }
        PutBackOne(old(disk), b, target, done, rel);
        disk := disk[Join(target, rel) := b.files[rel]];
        done := done + {rel};
        left := left - {rel};
        n := n + 1;
      }
      return false, done;
    }

    /** The loop over the lines of `new-files.txt`. */
    method RemoveNews(b: Bundle, target: Path, steps: nat) returns (all: bool, gone: set<Path>)
      modifies this`disk
      ensures gone <= Removals(own, b, target) && disk == old(disk) - gone
      ensures all ==> gone == Removals(own, b, target)
      ensures !all ==> steps < |Scanned(b.news)|
    {
      hide Scanned, IsLocal, Guarded;
      gone := {};
      var lines := Scanned(b.news);
      for k := 0 to |lines|
        invariant k <= steps && disk == old(disk) - gone
        invariant gone <= Removals(own, b, target)
        invariant forall m ::
                    0 <= m < k && IsLocal(lines[m]) && !Guarded(own, Join(target, lines[m])) ==>
                      Join(target, lines[m]) in gone
      {
        if k == steps {
          return false, gone;
        }
        var l := lines[k];
        assert l in lines;
        if IsLocal(l) {
          var mine := GuardSelf(Join(target, l));
          if !mine {
            assert Join(target, l) in Removals(own, b, target);
            gone := gone + {Join(target, l)};
            disk := disk - {Join(target, l)};
          }
        }
      }
      return true, gone;
    }

    /** `files` holds exactly the files of `paths` that are on the disk. */
    predicate Holds(files: map<string, File>, paths: set<Path>)
      reads this`disk, this`targetDir
    {
      && (forall rel ::
            rel in files ==>
              var p := Join(targetDir, rel); p in disk && p in paths && files[rel] == disk[p])
      && (forall p {:trigger Rel(targetDir, p)} :: p in paths && p in disk ==> Rel(targetDir, p) in files)
    }

    lemma VictimOnDisk(job: Job, vs: seq<Path>, k: nat)
      requires SetOf(vs) == Victims(disk, targetDir, job) && k < |vs|
      ensures vs[k] in disk && Join(targetDir, Rel(targetDir, vs[k])) == vs[k]
    {
      assert vs[k] in SetOf(vs);
      assert vs[k] in Touched(disk, targetDir, job);
      JoinOfRel(targetDir, job, vs[k], disk);
    }

    lemma TouchedIs(job: Job, vs: seq<Path>)
      requires SetOf(vs) == Victims(disk, targetDir, job)
      ensures Dests(targetDir, job) + SetOf(vs) == Touched(disk, targetDir, job)
    {
    }

    /** One more file saved. */
    lemma HoldsNext(files: map<string, File>, job: Job, vs: seq<Path>, k: nat)
      requires SetOf(vs) == Victims(disk, targetDir, job) && k < |vs| && vs[k] in disk
      requires Holds(files, Dests(targetDir, job) + SetOf(vs[..k]))
      ensures Holds(files[Rel(targetDir, vs[k]) := disk[vs[k]]], Dests(targetDir, job) + SetOf(vs[..k + 1]))
    {
      hide Touched, Victims, Dests, Join, Rel, Holds, SetOf;
      VictimOnDisk(job, vs, k);
      OneMore(vs, k);
      HoldsOne(files, Dests(targetDir, job) + SetOf(vs[..k]), vs[k]);
      assert Dests(targetDir, job) + SetOf(vs[..k + 1]) == Dests(targetDir, job) + SetOf(vs[..k]) + {vs[k]};
    }

    lemma OneMore(vs: seq<Path>, k: nat)
      requires k < |vs|
      ensures SetOf(vs[..k + 1]) == SetOf(vs[..k]) + {vs[k]}
    {
      assert vs[..k + 1] == vs[..k] + [vs[k]];
    }

    lemma HoldsOne(files: map<string, File>, paths: set<Path>, p: Path)
      requires Holds(files, paths) && p in disk && Join(targetDir, Rel(targetDir, p)) == p
      ensures Holds(files[Rel(targetDir, p) := disk[p]], paths + {p})
    {
      hide Join, Rel;
    }

    lemma HoldsAll(files: map<string, File>, job: Job)
      requires Holds(files, Touched(disk, targetDir, job))
      ensures files == Saved(disk, targetDir, job)
    {
      var s := Saved(disk, targetDir, job);
      forall rel ensures rel in files <==> rel in s
                 ensures rel in files && rel in s ==> files[rel] == s[rel]
      {
        if rel in files {
          RelOfJoin(targetDir, rel);
          assert Join(targetDir, rel) in Touched(disk, targetDir, job);
        }
      }
    }

    /** A newest one of some finished backups. */
    method Newest(some: set<string>) returns (best: string)
      requires some != {} && forall x :: x in some ==> x in backups && Finished(backups[x])
      ensures best in some && best in backups && Finished(backups[best])
      ensures forall x :: x in some ==>
                x in backups && Finished(backups[x]) && backups[best].manifest.value.at >= backups[x].manifest.value.at
    {
      best :| best in some;
      var rest := some - {best};
      while rest != {}
        invariant best in some && rest <= some
        invariant forall x ::
                    x in some && x !in rest ==> backups[best].manifest.value.at >= backups[x].manifest.value.at
        decreases |rest|
      {
        var x :| x in rest;
        if backups[x].manifest.value.at > backups[best].manifest.value.at {
          best := x;
        }
        rest := rest - {x};
      }
    }

    /** The finished backups, the newest first. */
    method ByAge() returns (all: seq<string>)
      ensures Ranked(backups, all)
    {
      all := [];
      var left := AllFinished(backups);
      AllLeft(left);
      hide Finished, RankedFirst;
      while left != {}
        invariant RankedFirst(all, left)
        decreases |left|
      {
        StillFinished(all, left);
        var best := Newest(left);
        RankNext(all, left, best);
        all := all + [best];
        left := left - {best};
      }
      RankedAll(all);
    }

    /** `all` lists some finished backups by age; those `left` are no newer. */
    ghost predicate RankedFirst(all: seq<string>, left: set<string>)
      reads this`backups
    {
      && (forall x :: x in backups && Finished(backups[x]) <==> x in all || x in left)
      && (forall x :: x in left ==> x !in all)
      && NoDup(all)
      && (forall i, j :: 0 <= i < j < |all| ==> backups[all[i]].manifest.value.at >= backups[all[j]].manifest.value.at)
      && (forall i, x ::
            0 <= i < |all| && x in left ==> backups[all[i]].manifest.value.at >= backups[x].manifest.value.at)
    }

    lemma AllLeft(left: set<string>)
      requires left == AllFinished(backups)
      ensures RankedFirst([], left)
    {
    }

    lemma StillFinished(all: seq<string>, left: set<string>)
      requires RankedFirst(all, left)
      ensures forall x :: x in left ==> x in backups && Finished(backups[x])
    {
    }

    lemma RankNext(all: seq<string>, left: set<string>, best: string)
      requires RankedFirst(all, left) && best in left
      requires forall x :: x in left ==> x in backups && Finished(backups[x])
      requires forall x :: x in left ==> backups[best].manifest.value.at >= backups[x].manifest.value.at
      ensures RankedFirst(all + [best], left - {best})
    {
    }

    lemma RankedAll(all: seq<string>)
      requires RankedFirst(all, {})
      ensures Ranked(backups, all)
    {
    }

    method PruneBackups(also: string)
      modifies this`backups
      ensures Pruned(old(backups), backups, also)
    {
      hide Ranked;
      var all := ByAge();
      assert old(backups) - Dropped(all[..0], also) == old(backups);
      for i := 0 to |all|
        invariant backups == old(backups) - Dropped(all[..i], also)
      {
        DroppedNext(all, i, also);
        if i >= KEEP_BACKUPS && all[i] != also {
          backups := backups - {all[i]};
        }
      }
      assert all[..|all|] == all;
    }
  }

  lemma DroppedNext(all: seq<string>, i: nat, also: string)
    requires i < |all|
    ensures Dropped(all[..i + 1], also)
         == Dropped(all[..i], also) + if i >= KEEP_BACKUPS && all[i] != also then {all[i]} else {}
  {
    if i >= KEEP_BACKUPS {
      assert all[..i + 1][KEEP_BACKUPS..] == all[..i + 1][KEEP_BACKUPS..i] + [all[i]];
      assert i > KEEP_BACKUPS ==> all[..i + 1][KEEP_BACKUPS..i] == all[..i][KEEP_BACKUPS..];
    }
  }

  lemma PutBackNone(d: Disk, b: Bundle, target: Path)
    ensures PutBack(d, b, target, {}) - {} == d && PutBack(d, b, target, {}) == d
  {
  }

  lemma PutBackOne(d: Disk, b: Bundle, target: Path, done: set<string>, rel: string)
    requires done <= b.files.Keys && rel in b.files
    ensures PutBack(d, b, target, done + {rel}) == PutBack(d, b, target, done)[Join(target, rel) := b.files[rel]]
  {
    var l, r := PutBack(d, b, target, done + {rel}), PutBack(d, b, target, done)[Join(target, rel) := b.files[rel]];
    RelOfJoin(target, rel);
    forall p ensures p in l <==> p in r
             ensures p in l && p in r ==> l[p] == r[p]
    {
      if p in (set x | x in done + {rel} :: Join(target, x)) {
        var x :| x in done + {rel} && p == Join(target, x);
        RelOfJoin(target, x);
      }
    }
  }

  lemma NothingCopied(d: Disk, target: Path, job: Job)
    ensures CopyCut(d, d, target, job, {}, 0)
  {
    assert d - {} == d;
    NothingWritten(d, target, job);
  }

  lemma NothingWritten(d: Disk, target: Path, job: Job)
    ensures WriteAll(d, target, job.files[..0]) == d
  {
  }

  lemma SetOfPrefix(s: seq<Path>, k: nat)
    requires k <= |s|
    ensures SetOf(s[..k]) <= SetOf(s)
  {
  }

  function FirstDests(target: Path, files: seq<StageFile>): set<Path> { set f | f in files :: Join(target, f.path) }

  lemma FirstDestsGrow(target: Path, files: seq<StageFile>, k: nat)
    requires k < |files|
    ensures FirstDests(target, files[..k + 1]) == FirstDests(target, files[..k]) + {Join(target, files[k].path)}
  {
    assert files[..k + 1] == files[..k] + [files[k]];
    assert files[k] in files[..k + 1];
  }
}
