/** Which step lists can be undone. For deployment lists, automatic rollback lists and rollback
    lists each, the condition of the rollback theorem is exact: every list that does not meet it
    has a run, with nothing else wrong, in which a rollback succeeds and does not restore. */
module RolloutLists {
  import opened Sequences
  import opened Wrappers
  import opened NewsFile
  import opened Install
  import opened InstallTheorems
  import opened Deployments
  import opened Rollouts
  import opened RolloutRuns

  // ---- a small machine: at most two files, at most one backup ----

  const FILE: File := File([1], 420)
  const ID: string := "d1"

  function Name(second: bool): string { if second then "b" else "a" }

  function JobOf(second: bool): Job { Job([StageFile(Name(second), [1], 420)], [], "v2") }

  function PathOf(second: bool): Path { Join("/opt", Name(second)) }

  function DiskOf(a: bool, b: bool): Disk {
    (if a then map[PathOf(false) := FILE] else map[]) + (if b then map[PathOf(true) := FILE] else map[])
  }

  /** Of which job a backup is, whether its file was there, and the name that was installed. */
  datatype Note = Note(second: bool, had: bool, name: string)

  function BundleOf(n: Note): Bundle {
    Bundle(if n.had then map[Name(n.second) := FILE] else map[],
           Written(if n.had then [] else [Name(n.second)]), Some(Manifest("/opt", 0, n.name)))
  }

  datatype Mark = Mark(a: bool, b: bool, note: Option<Note>, name: string)

  function WorldOf(m: Mark): World {
    World(DiskOf(m.a, m.b), if m.note.None? then map[] else map[ID := BundleOf(m.note.value)], m.name, "/opt")
  }

  function After(m: Mark, second: bool, s: Builtin): Mark {
    match s
    case BackupStep => m.(note := Some(Note(second, if second then m.b else m.a, m.name)))
    case CopyStep => if second then m.(b := true) else m.(a := true)
    case RestoreStep =>
      if m.note.None? then m
      else if m.note.value.second then m.(b := m.note.value.had) else m.(a := m.note.value.had)
  }

  lemma PathsDiffer()
    ensures PathOf(false) != PathOf(true)
    ensures forall second :: Rel("/opt", PathOf(second)) == Name(second)
  {
    RelOfJoin("/opt", "a");
    RelOfJoin("/opt", "b");
  }

  lemma NamesClean(second: bool)
    ensures Clean(Name(second)) && IsLocal(Name(second)) && LocalAndFree({}, "/opt", JobOf(second))
  {
    var n := Name(second);
    assert TrimStart(n) == n && TrimEnd(n) == n && n[0] != '\n';
  }

  lemma AllowsAll(second: bool)
    ensures ReplaceAllowed({}, "/opt", JobOf(second))
    ensures forall d :: Victims(d, "/opt", JobOf(second)) == {}
    ensures Dests("/opt", JobOf(second)) == {PathOf(second)}
  {
  }

  lemma CopyOne(m: Mark, second: bool)
    ensures var m1 := After(m, second, CopyStep);
            CopyDone(DiskOf(m.a, m.b), DiskOf(m1.a, m1.b), "/opt", JobOf(second))
  {
    var d, f := DiskOf(m.a, m.b), JobOf(second).files[0];
    AllowsAll(second);
    PathsDiffer();
    hide Join, Rel;
    assert d - {} == d && [f][..0] == [];
    assert WriteAll(d, "/opt", [f]) == d[PathOf(second) := FILE];
  }

  lemma BackupOne(m: Mark, second: bool)
    ensures var m1 := After(m, second, BackupStep);
            IsBackupOf(BundleOf(m1.note.value), DiskOf(m.a, m.b), "/opt", JobOf(second), m.name)
  {
    var d, had := DiskOf(m.a, m.b), if second then m.b else m.a;
    assert had <==> PathOf(second) in d && (had ==> d[PathOf(second)] == FILE) by { PathsDiffer(); hide PathOf; }
    hide DiskOf;
    SavedIs(d, second, had);
    NewsIs(d, second, had);
    hide Saved, News, Written, JobOf;
  }

  lemma SavedIs(d: Disk, second: bool, had: bool)
    requires had <==> PathOf(second) in d && (had ==> d[PathOf(second)] == FILE)
    ensures Saved(d, "/opt", JobOf(second)) == if had then map[Name(second) := FILE] else map[]
  {
    AllowsAll(second);
    PathsDiffer();
    hide Join, Rel, Victims, Dests;
    assert Touched(d, "/opt", JobOf(second)) == {PathOf(second)};
  }

  lemma NewsIs(d: Disk, second: bool, had: bool)
    requires had <==> PathOf(second) in d
    ensures News(d, "/opt", JobOf(second).files) == if had then [] else [Name(second)]
  {
    var f := JobOf(second).files[0];
    hide Join;
    assert [f][..0] == [];
  }

  lemma RemovalsOf(n: Note)
    ensures Removals({}, BundleOf(n), "/opt") == if n.had then {} else {PathOf(n.second)}
  {
    NamesClean(n.second);
    RoundTrip(if n.had then [] else [Name(n.second)]);
    hide Scanned, Written, Clean, Join;
    var b := BundleOf(n);
    assert Scanned(b.news) == if n.had then [""] else [Name(n.second)];
    forall p ensures p in Removals({}, b, "/opt") <==> !n.had && p == PathOf(n.second) {
      if !n.had {
        assert Name(n.second) in Scanned(b.news);
      }
    }
  }

  lemma RestoreOne(m: Mark, second: bool)
    requires m.note.Some?
    ensures var m1 := After(m, second, RestoreStep);
            RestoreDone({}, BundleOf(m.note.value), DiskOf(m.a, m.b), DiskOf(m1.a, m1.b), "/opt")
  {
    hide IsLocal, IsSpace, Join, Lines, LinesFrom, Name, PathOf, PutBack, Rel, Removals, Under, Written, DiskOf,
         DropCR, Scanned, Trim, TrimEnd, TrimStart, BundleOf, Guarded;
    var n := m.note.value;
    var d, b, m1 := DiskOf(m.a, m.b), BundleOf(n), After(m, second, RestoreStep);
    RemovalsOf(n);
    PathsDiffer();
    PutBackIs(d, n);
    FileBack(m, n);
    hide Removals, PathOf, PutBack, BundleOf, DiskOf;
  }

  lemma FileBack(m: Mark, n: Note)
    requires m.note == Some(n)
    ensures var d, m1 := DiskOf(m.a, m.b), After(m, false, RestoreStep);
            DiskOf(m1.a, m1.b) == (if n.had then d[PathOf(n.second) := FILE] else d) - (if n.had then {}
                else {PathOf(n.second)})
  {
    PathsDiffer();
    hide PathOf, Rel;
  }

  lemma PutBackIs(d: Disk, n: Note)
    ensures PutBack(d, BundleOf(n), "/opt", BundleOf(n).files.Keys) == if n.had then d[PathOf(n.second) := FILE] else d
  {
    BundleFiles(n);
    hide *;
    var b, none := BundleOf(n), {};
    UpdaterJob.PutBackNone(d, b, "/opt");
    if n.had {
      UpdaterJob.PutBackOne(d, b, "/opt", none, Name(n.second));
      assert none + {Name(n.second)} == {Name(n.second)};
    }
  }

  lemma BundleFiles(n: Note)
    ensures BundleOf(n).files == if n.had then map[Name(n.second) := FILE] else map[]
    ensures BundleOf(n).files.Keys == if n.had then {Name(n.second)} else {}
    ensures PathOf(n.second) == Join("/opt", Name(n.second))
  {
    hide Written, Join, Name;
  }

  lemma OneIsPruned(bs: map<string, Bundle>, b: Bundle)
    requires bs.Keys <= {ID} && b.manifest.Some?
    ensures bs[ID := b] == map[ID := b] && UpdaterJob.Pruned(bs[ID := b], map[ID := b], ID)
  {
    assert UpdaterJob.Ranked(map[ID := b], [ID]);
  }

  /** Every step of the small machine is a step that is done. */
  lemma StepOf(m: Mark, second: bool, s: Builtin)
    requires s == RestoreStep ==> m.note.Some?
    ensures StepRun({}, WorldOf(m), WorldOf(After(m, second, s)), ID, JobOf(second), 0, s, true)
  {
    var w, w1 := WorldOf(m), WorldOf(After(m, second, s));
    AllowsAll(second);
    NamesClean(second);
    hide ReplaceAllowed, LocalAndFree, IsBackupOf, CopyDone, RestoreDone, DiskOf, JobOf, Victims, UpdaterJob.Pruned;
    match s
    case BackupStep =>
      BackupOne(m, second);
      OneIsPruned(w.backups, BundleOf(After(m, second, s).note.value));
    case CopyStep =>
      CopyOne(m, second);
      WholeCopy(w.disk, w1.disk, "/opt", JobOf(second));
    case RestoreStep =>
      RestoreOne(m, second);
      WholeRestore({}, w.backups[ID], w.disk, w1.disk, "/opt");
  }

  lemma WholeCopy(d: Disk, d1: Disk, target: Path, job: Job)
    requires CopyDone(d, d1, target, job)
    ensures exists gone, j :: CopyCut(d, d1, target, job, gone, j)
  {
    assert job.files[..|job.files|] == job.files;
    assert CopyCut(d, d1, target, job, Victims(d, target, job), |job.files|);
  }

  lemma WholeRestore(own: set<Path>, b: Bundle, d: Disk, d1: Disk, target: Path)
    requires RestoreDone(own, b, d, d1, target)
    ensures exists done, gone :: RestoreCut(own, b, d, d1, target, done, gone)
  {
    assert RestoreCut(own, b, d, d1, target, b.files.Keys, Removals(own, b, target));
  }

  // ---- lists on the small machine ----

  function MarkAt(m: Mark, second: bool, steps: seq<Builtin>, k: nat): Mark
    requires k <= |steps|
  {
    if k == 0 then m else After(MarkAt(m, second, steps, k - 1), second, steps[k - 1])
  }

  function WorldsOf(m: Mark, second: bool, steps: seq<Builtin>, n: nat): (ws: seq<World>)
    requires n <= |steps|
    ensures |ws| == n + 1 && forall k :: 0 <= k <= n ==> ws[k] == WorldOf(MarkAt(m, second, steps, k))
  {
    seq(n + 1, k requires 0 <= k <= n => WorldOf(MarkAt(m, second, steps, k)))
  }

  lemma EndsOf(m: Mark, second: bool, steps: seq<Builtin>, n: nat)
    requires n <= |steps|
    ensures var ws := WorldsOf(m, second, steps, n);
            |ws| == n + 1 && ws[0] == WorldOf(m) && ws[n] == WorldOf(MarkAt(m, second, steps, n))
  {
    hide WorldOf;
  }

  /** No restore among the first `n` steps finds no backup. */
  predicate Fed(m: Mark, second: bool, steps: seq<Builtin>, n: nat)
    requires n <= |steps|
  {
    forall k :: 0 <= k < n && steps[k] == RestoreStep ==> MarkAt(m, second, steps, k).note.Some?
  }

  function EndAt(steps: seq<Builtin>, n: nat): End { if n == |steps| then Ok else Cancel }

  /** The first `n` steps, then the end of the list or a cancel. */
  lemma ListOf(m: Mark, second: bool, steps: seq<Builtin>, n: nat)
    requires n <= |steps| && Fed(m, second, steps, n)
    ensures ListRun({}, WorldsOf(m, second, steps, n), ID, JobOf(second), Repeat(0, |steps|), steps, EndAt(steps, n))
  {
    hide StepRun, WorldOf, JobOf, After;
    forall k {:trigger steps[k]} | 0 <= k < n
      ensures StepRun({}, WorldOf(MarkAt(m, second, steps, k)), WorldOf(MarkAt(m, second, steps, k + 1)),
                      ID, JobOf(second), 0, steps[k], true)
    {
      StepOf(MarkAt(m, second, steps, k), second, steps[k]);
    }
  }

  const START: Mark := Mark(false, false, None, "v1")

  lemma TagOne()
    ensures Tag(1) == ID
  {
  }

  /** One deployment, then one rollback of it. */
  function StatesOf(w: World, job: Job, w1: World, w2: World): seq<State> {
    var l := Level(1, job, w);
    var saved := if ID in w1.backups && w1.backups[ID].manifest.Some? then [1] else [];
    [State(w, [], {}, []), State(w1, [l], {}, saved), State(w2, [], {1}, saved)]
  }

  lemma DeployThenRollback(own: set<Path>, r: Run, w1: World, r2: Run, w2: World)
    requires r.id == ID && r.ws != [] && r.ws[0].backups == map[] && r.back != Some(Ok)
             && DeployRun(own, DeployList, r, w1)
    requires r2.id == ID && r2.ws != [] && r2.ws[0] == w1 && r2.rollback == [] && r2.steps != [] && r2.job.replace == []
    requires r2.end == Ok && DeployRun(own, RollbackList, r2, w2)
    ensures IsRun(own, StatesOf(r.ws[0], r.job, w1, w2), [Deploy(1, r), Rollback(1, r2)])
  {
    TagOne();
    hide DeployRun, Tag;
  }

  lemma DeployOnly(own: set<Path>, r: Run, w1: World)
    requires r.id == ID && r.ws != [] && r.ws[0].backups == map[] && r.back == Some(Ok)
             && DeployRun(own, DeployList, r, w1)
    ensures var saved := if HasBackup(w1, ID) then [1] else [];
            IsRun(own, [State(r.ws[0], [], {}, []), State(w1, [], {1}, saved)], [Deploy(1, r)])
  {
    TagOne();
    hide DeployRun, Tag;
  }

  // ---- deployment lists ----

  /** Every deployment uses the list `steps`; all else fits. */
  ghost predicate DeploysWith(states: seq<State>, events: seq<Event>, steps: seq<Builtin>) {
    && |states| == |events| + 1
    && forall k {:trigger events[k]} :: 0 <= k < |events| ==>
         match events[k]
         case Deploy(id, r) =>
           r.steps == steps && AutoListOk(r.rollback) && CleanNews(states[k].w.disk, states[k].w.target, r.job)
         case Rollback(id, r) => OnlyRestores(r.steps)
         case Retarget(target) => true
  }

  ghost predicate DeployListSafe(steps: seq<Builtin>) {
    forall own: set<Path>, states: seq<State>, events: seq<Event>, n: nat
      {:trigger IsRun(own, states, events), Restored(states, events, n)} ::
      IsRun(own, states, events) && DeploysWith(states, events, steps) && n < |events| ==> Restored(states, events, n)
  }

  predicate DirtyAt(steps: seq<Builtin>, from: bool, k: nat) {
    k < |steps| && steps[k] == BackupStep && (from || !Blocked(steps, k)) && Copied(steps, k, from)
  }

  lemma {:induction false} FirstDirty(steps: seq<Builtin>, from: bool, k: nat) returns (j: nat)
    requires DirtyAt(steps, from, k)
    ensures j <= k && DirtyAt(steps, from, j) && forall i: nat :: i < j ==> !DirtyAt(steps, from, i)
  {
    if i: nat :| i < k && DirtyAt(steps, from, i) {
      j := FirstDirty(steps, from, i);
    } else {
      j := k;
    }
  }

  /** The world after `[backup, copy]`. */
  const COPIED: Mark := Mark(true, false, Some(Note(false, false, "v1")), "v1")

  /** The mark one expects after `k` steps as long as no copied file was backed up. */
  function Expected(steps: seq<Builtin>, from: bool, k: nat): Mark
    requires k <= |steps|
  {
    Mark(Copied(steps, k, from), false, if from || BackupStep in steps[..k] then COPIED.note else None, "v1")
  }

  lemma ExpectedNext(steps: seq<Builtin>, from: bool, k: nat)
    requires 0 < k <= |steps| && (from || !Blocked(steps, k)) && !DirtyAt(steps, from, k - 1)
    ensures from || !Blocked(steps, k - 1)
    ensures Expected(steps, from, k) == After(Expected(steps, from, k - 1), false, steps[k - 1])
    ensures steps[k - 1] == RestoreStep ==> Expected(steps, from, k - 1).note.Some?
  {
    OneMore(steps, k);
  }

  /** Up to the first backup of copied files the marks are those one expects. */
  lemma {:induction false} MarksAre(steps: seq<Builtin>, from: bool, k: nat)
    requires k <= |steps| && (from || !Blocked(steps, k)) && forall i: nat :: i < k ==> !DirtyAt(steps, from, i)
    ensures MarkAt(if from then COPIED else START, false, steps, k) == Expected(steps, from, k)
    ensures Fed(if from then COPIED else START, false, steps, k)
  {
    hide After, DirtyAt, Blocked;
    if k > 0 {
      ExpectedNext(steps, from, k);
      hide Expected;
      MarksAre(steps, from, k - 1);
    }
  }

  /** The list up to its first backup of copied files: the backup is of what was copied. */
  lemma DirtyBackup(steps: seq<Builtin>, from: bool, k: nat)
    requires DirtyAt(steps, from, k) && forall i: nat :: i < k ==> !DirtyAt(steps, from, i)
    ensures var m := if from then COPIED else START;
            && MarkAt(m, false, steps, k + 1) == Mark(true, false, Some(Note(false, true, "v1")), "v1")
            && Fed(m, false, steps, k + 1)
  {
    MarksAre(steps, from, k);
  }

  /** A rollback of one restore behind the deployment `r`. */
  lemma RestoreBehind(r: Run, m1: Mark) returns (states: seq<State>, events: seq<Event>)
    requires r.id == ID && r.ws != [] && r.ws[0] == WorldOf(START) && r.back != Some(Ok)
    requires DeployRun({}, DeployList, r, WorldOf(m1)) && m1.note.Some?
    ensures IsRun({}, states, events) && |events| == 2 && events[0] == Deploy(1, r) && states[0].w == WorldOf(START)
    ensures events[1].Rollback? && events[1].id == 1 && events[1].run.end == Ok && events[1].run.steps == [RestoreStep]
    ensures |states| == 3 && states[2].w.disk == WorldOf(After(m1, false, RestoreStep)).disk
  {
    hide DiskOf, BundleOf, JobOf, DeployRun, ListRun;
    var steps := [RestoreStep];
    assert MarkAt(m1, false, steps, 1) == After(m1, false, RestoreStep);
    assert MarkAt(m1, false, steps, 0) == m1;
    ListOf(m1, false, steps, 1);
    var ws := WorldsOf(m1, false, steps, 1);
    var w2 := AfterRollback(ws[1], ID);
    var r2 := Run(ID, JobOf(false), Repeat(0, 1), steps, ws, Ok, [], [], [], None);
    RollbackRun({}, r2);
    NoReplace(false);
    DeployThenRollback({}, r, WorldOf(m1), r2, w2);
    states, events := StatesOf(r.ws[0], r.job, WorldOf(m1), w2), [Deploy(1, r), Rollback(1, r2)];
  }

  lemma NoReplace(second: bool)
    ensures JobOf(second).replace == []
  {
  }

  lemma RollbackRun(own: set<Path>, r: Run)
    requires r.back == None && r.end == Ok && ListRun(own, r.ws, r.id, r.job, r.clock, r.steps, Ok)
    ensures |r.ws| > 0 && DeployRun(own, RollbackList, r, AfterRollback(r.ws[|r.ws| - 1], r.id))
  {
  }

  /** What the disk and the name look like, for telling two worlds apart. */
  lemma DisksDiffer(a: bool, b: bool)
    requires DiskOf(a, b) == DiskOf(false, false)
    ensures !a && !b
  {
    assert PathOf(false) in DiskOf(true, b);
    assert PathOf(true) in DiskOf(a, true);
  }

  lemma NotRestored(states: seq<State>, events: seq<Event>)
    requires |states| == 3 && |events| == 2 && events[1].Rollback? && events[1].run.end == Ok
    requires states[2].w.disk != states[0].w.disk || states[2].w.installed != states[0].w.installed
    ensures !Restored(states, events, 1)
  {
  }

  lemma CleanAtStart()
    ensures CleanNews(WorldOf(START).disk, WorldOf(START).target, JobOf(false))
  {
    NamesClean(false);
    hide Clean;
  }

  /** A deployment cut behind its first backup of copied files. */
  lemma DirtyDeploy(steps: seq<Builtin>, k: nat) returns (r: Run, m: Mark)
    requires DirtyAt(steps, false, k) && forall i: nat :: i < k ==> !DirtyAt(steps, false, i)
    ensures m.a && m.note == Some(Note(false, true, "v1"))
    ensures r.id == ID && r.job == JobOf(false) && r.steps == steps && r.rollback == [] && r.back == None
    ensures r.ws != [] && r.ws[0] == WorldOf(START) && DeployRun({}, DeployList, r, WorldOf(m))
  {
    hide DirtyAt, DeployRun;
    DirtyBackup(steps, false, k);
    DirtyInside(steps, k);
    r, m := DeployOf(steps, k + 1);
  }

  /** A deployment of the first `n` steps of a list. */
  lemma DeployOf(steps: seq<Builtin>, n: nat) returns (r: Run, m: Mark)
    requires n <= |steps| && Fed(START, false, steps, n)
    ensures var m0 := MarkAt(START, false, steps, n); m == if n == |steps| then m0.(name := "v2") else m0
    ensures r.id == ID && r.job == JobOf(false) && r.steps == steps && r.rollback == [] && r.back == None
    ensures r.end == EndAt(steps, n)
    ensures r.ws != [] && r.ws[0] == WorldOf(START) && DeployRun({}, DeployList, r, WorldOf(m))
  {
    hide DiskOf, BundleOf, JobOf, ListRun, StepRun, Fed;
    ListOf(START, false, steps, n);
    VersionTwo(false);
    assert MarkAt(START, false, steps, 0) == START;
    hide MarkAt;
    m := MarkAt(START, false, steps, n);
    var ws := WorldsOf(START, false, steps, n);
    if n == |steps| {
      m := m.(name := "v2");
    }
    r := Run(ID, JobOf(false), Repeat(0, |steps|), steps, ws, EndAt(steps, n), [], [], [], None);
  }

  lemma DirtyInside(steps: seq<Builtin>, k: nat)
    requires DirtyAt(steps, false, k)
    ensures k < |steps|
  {
  }

  /** A list with a backup of copied files, and the run in which it is not undone. */
  lemma DirtyDeployFails(steps: seq<Builtin>, k: nat) returns (states: seq<State>, events: seq<Event>)
    requires DirtyAt(steps, false, k)
    ensures IsRun({}, states, events) && DeploysWith(states, events, steps) && |events| == 2
            && !Restored(states, events, 1)
  {
    hide DiskOf, BundleOf, JobOf, DeployRun, CleanNews, DirtyAt, IsRun, Restored;
    var j := FirstDirty(steps, false, k);
    var r, m := DirtyDeploy(steps, j);
    states, events := RestoreBehind(r, m);
    if states[2].w.disk == states[0].w.disk {
      DisksDiffer(true, m.b);
    }
    NotRestored(states, events);
    CleanAtStart();
  }

  lemma VersionTwo(second: bool)
    ensures JobOf(second).version == "v2"
  {
  }

  /** A deployment list can be undone in every run if and only if it never backs up files that it
      has copied and not yet taken back. */
  lemma DeployListExact(steps: seq<Builtin>)
    ensures DeployListSafe(steps) <==> DeployListOk(steps)
  {
    hide IsRun, Restored, Blocked, Copied, CleanNews;
    if DeployListOk(steps) {
      forall own: set<Path>, states: seq<State>, events: seq<Event>, n: nat
        | IsRun(own, states, events) && DeploysWith(states, events, steps) && n < |events|
        ensures Restored(states, events, n)
      {
        RollbackOverRuns(own, states, events, n);
      }
    } else {
      var k: nat :| k < |steps| && steps[k] == BackupStep && !Blocked(steps, k) && Copied(steps, k, false);
      var states, events := DirtyDeployFails(steps, k);
    }
  }

  // ---- lists run behind a failed one ----

  ghost predicate RollsBackItself(states: seq<State>, events: seq<Event>, rollback: seq<Builtin>) {
    && |states| == |events| + 1
    && forall k {:trigger events[k]} :: 0 <= k < |events| ==>
         match events[k]
         case Deploy(id, r) =>
           && DeployListOk(r.steps) && r.rollback == rollback
           && CleanNews(states[k].w.disk, states[k].w.target, r.job)
         case Rollback(id, r) => OnlyRestores(r.steps)
         case Retarget(target) => true
  }

  ghost predicate AutoListSafe(rollback: seq<Builtin>) {
    forall own: set<Path>, states: seq<State>, events: seq<Event>, n: nat
      {:trigger IsRun(own, states, events), Restored(states, events, n)} ::
      IsRun(own, states, events) && RollsBackItself(states, events, rollback) && n < |events| ==>
        Restored(states, events, n)
  }

  const FAILING: seq<Builtin> := [BackupStep, CopyStep, CopyStep]

  /** `[backup, copy, copy]`, of which the last step fails before it does anything. */
  lemma FailedList() returns (ws: seq<World>)
    ensures |ws| == 4 && ws[0] == WorldOf(START) && ws[3] == WorldOf(COPIED)
    ensures ListRun({}, ws, ID, JobOf(false), Repeat(0, 3), FAILING, Fail)
  {
    hide DiskOf, BundleOf, JobOf, StepRun;
    var m1 := After(START, false, BackupStep);
    StepOf(START, false, BackupStep);
    StepOf(m1, false, CopyStep);
    NotRun({}, WorldOf(COPIED), ID, JobOf(false), 0, CopyStep);
    ws := [WorldOf(START), WorldOf(m1), WorldOf(COPIED), WorldOf(COPIED)];
    assert After(m1, false, CopyStep) == COPIED;
  }

  /** A failed list and the one behind it. */
  lemma FailedThen(own: set<Path>, job: Job, clock: seq<int>, steps: seq<Builtin>, ws: seq<World>,
                   clock2: seq<int>, rollback: seq<Builtin>, ws2: seq<World>, back: End) returns (r: Run)
    requires |ws| > 0 && |ws2| > 0 && ws2[0] == ws[|ws| - 1] && rollback != []
    requires ListRun(own, ws, ID, job, clock, steps, Fail) && ListRun(own, ws2, ID, job, clock2, rollback, back)
    ensures r == Run(ID, job, clock, steps, ws, Fail, clock2, rollback, ws2, Some(back))
    ensures var last := ws2[|ws2| - 1];
            DeployRun(own, DeployList, r, if back == Ok then AfterRollback(last, ID) else last)
  {
    hide ListRun, AfterRollback;
    r := Run(ID, job, clock, steps, ws, Fail, clock2, rollback, ws2, Some(back));
  }

  /** The failed list and the first `n` steps of the one behind it. */
  lemma FailThenBack(rollback: seq<Builtin>, n: nat) returns (r: Run, m: Mark)
    requires rollback != [] && n <= |rollback| && Fed(COPIED, false, rollback, n)
    ensures m == MarkAt(COPIED, false, rollback, n)
    ensures r.id == ID && r.job == JobOf(false) && r.steps == FAILING && r.rollback == rollback
    ensures r.back == Some(EndAt(rollback, n)) && r.ws != [] && r.ws[0] == WorldOf(START)
    ensures DeployRun({}, DeployList, r, if EndAt(rollback, n) == Ok then AfterRollback(WorldOf(m), ID) else WorldOf(m))
  {
    var ws := FailedList();
    r, m := BackFrom(ws, COPIED, rollback, n);
  }

  lemma BackFrom(ws: seq<World>, m0: Mark, rollback: seq<Builtin>, n: nat) returns (r: Run, m: Mark)
    requires rollback != [] && n <= |rollback| && Fed(m0, false, rollback, n)
    requires |ws| == 4 && ws[3] == WorldOf(m0) && ListRun({}, ws, ID, JobOf(false), Repeat(0, 3), FAILING, Fail)
    ensures m == MarkAt(m0, false, rollback, n)
    ensures r.id == ID && r.job == JobOf(false) && r.steps == FAILING && r.rollback == rollback
    ensures r.back == Some(EndAt(rollback, n)) && r.ws == ws
    ensures DeployRun({}, DeployList, r, if EndAt(rollback, n) == Ok then AfterRollback(WorldOf(m), ID) else WorldOf(m))
  {
    hide *;
    ListOf(m0, false, rollback, n);
    m := MarkAt(m0, false, rollback, n);
    var ws2 := WorldsOf(m0, false, rollback, n);
    EndsOf(m0, false, rollback, n);
    var zeros := Repeat(0, |rollback|);
    r := FailedThen({}, JobOf(false), Repeat(0, 3), FAILING, ws, zeros, rollback, ws2, EndAt(rollback, n));
  }

  lemma FailingFits()
    ensures DeployListOk(FAILING)
  {
  }

  /** A backup of copied files, and steps behind it: the run is cancelled there. */
  lemma DirtyAutoFails(rollback: seq<Builtin>, k: nat) returns (states: seq<State>, events: seq<Event>)
    requires DirtyAt(rollback, true, k) && k + 1 < |rollback|
    ensures IsRun({}, states, events) && RollsBackItself(states, events, rollback)
    ensures |events| == 2 && !Restored(states, events, 1)
  {
    hide DiskOf, BundleOf, JobOf, DeployRun, CleanNews, DirtyAt, IsRun, Restored, RollsBackItself, MarkAt, Fed;
    var j := FirstDirty(rollback, true, k);
    DirtyBackup(rollback, true, j);
    var r, m := FailThenBack(rollback, j + 1);
    states, events := RestoreBehind(r, m);
    if states[2].w.disk == states[0].w.disk {
      DisksDiffer(true, m.b);
    }
    NotRestored(states, events);
    FailingItself(states, events, r);
  }

  lemma FailingItself(states: seq<State>, events: seq<Event>, r: Run)
    requires |states| == 3 && |events| == 2 && states[0].w == WorldOf(START)
    requires events[0] == Deploy(1, r) && r.job == JobOf(false) && r.steps == FAILING
    requires events[1].Rollback? && events[1].run.steps == [RestoreStep]
    ensures RollsBackItself(states, events, r.rollback)
  {
    hide DiskOf, BundleOf, JobOf, CleanNews, DeployListOk;
    CleanAtStart();
    FailingFits();
  }

  /** At the end of the list copied files are still there, though it succeeds. */
  lemma CopiedAtEnd(rollback: seq<Builtin>) returns (states: seq<State>, events: seq<Event>)
    requires rollback != [] && Copied(rollback, |rollback|, true)
    requires forall k: nat :: k + 1 < |rollback| ==> !DirtyAt(rollback, true, k)
    ensures IsRun({}, states, events) && RollsBackItself(states, events, rollback)
    ensures |events| == 1 && !Restored(states, events, 0)
  {
    hide DiskOf, BundleOf, JobOf, DeployRun, CleanNews, DirtyAt, IsRun;
    var n := |rollback|;
    MarksAre(rollback, true, n - 1);
    var r, m := FailThenBack(rollback, n);
    assert m.a && EndAt(rollback, n) == Ok;
    var w1 := AfterRollback(WorldOf(m), ID);
    DeployOnly({}, r, w1);
    states := [State(r.ws[0], [], {}, []), State(w1, [], {1}, if HasBackup(w1, ID) then [1] else [])];
    events := [Deploy(1, r)];
    if states[1].w.disk == states[0].w.disk {
      DisksDiffer(true, m.b);
    }
    CleanAtStart();
    FailingFits();
  }

  /** A list behind a failed deployment list keeps the promise in every run if and only if it backs
      up nothing copied and, unless it is empty, ends with the old files back. */
  lemma AutoListExact(rollback: seq<Builtin>)
    ensures AutoListSafe(rollback) <==> AutoListOk(rollback)
  {
    hide IsRun, Restored, CleanNews;
    if AutoListOk(rollback) {
      forall own: set<Path>, states: seq<State>, events: seq<Event>, n: nat
        | IsRun(own, states, events) && RollsBackItself(states, events, rollback) && n < |events|
        ensures Restored(states, events, n)
      {
        RollbackOverRuns(own, states, events, n);
      }
    } else if k: nat :| k + 1 < |rollback| && DirtyAt(rollback, true, k) {
      var states, events := DirtyAutoFails(rollback, k);
    } else {
      DirtyAtLast(rollback);
      var states, events := CopiedAtEnd(rollback);
    }
  }

  lemma DirtyAtLast(rollback: seq<Builtin>)
    requires !AutoListOk(rollback) && forall k: nat :: k + 1 < |rollback| ==> !DirtyAt(rollback, true, k)
    ensures rollback != [] && Copied(rollback, |rollback|, true)
  {
    var n := |rollback| - 1;
    if !BacksUpOld(rollback, true) {
      var k: nat :| k < |rollback| && rollback[k] == BackupStep && Copied(rollback, k, true);
      assert DirtyAt(rollback, true, k);
      assert k == n;
    }
  }

  // ---- rollback lists ----

  ghost predicate RollsBackWith(states: seq<State>, events: seq<Event>, steps: seq<Builtin>) {
    && |states| == |events| + 1
    && forall k {:trigger events[k]} :: 0 <= k < |events| ==>
         match events[k]
         case Deploy(id, r) => DeployFits(states[k], r)
         case Rollback(id, r) => r.steps == steps
         case Retarget(target) => true
  }

  ghost predicate RollbackListSafe(steps: seq<Builtin>) {
    forall own: set<Path>, states: seq<State>, events: seq<Event>, n: nat
      {:trigger IsRun(own, states, events), Restored(states, events, n)} ::
      IsRun(own, states, events) && RollsBackWith(states, events, steps) && n < |events| ==> Restored(states, events, n)
  }

  /** The machine after a deployment that ended well. */
  const DEPLOYED: Mark := COPIED.(name := "v2")

  lemma OneMore(steps: seq<Builtin>, k: nat)
    requires 0 < k <= |steps|
    ensures forall s :: s in steps[..k] <==> s in steps[..k - 1] || s == steps[k - 1]
  {
    assert steps[..k] == steps[..k - 1] + [steps[k - 1]];
  }

  lemma NextMark(m: Mark, second: bool, steps: seq<Builtin>, k: nat)
    requires 0 < k <= |steps|
    ensures MarkAt(m, second, steps, k) == After(MarkAt(m, second, steps, k - 1), second, steps[k - 1])
  {
  }

  /** What is known of the machine behind some steps of a rollback with another build, `backed`
      and `copied` telling whether there was such a step. */
  predicate OtherAt(m: Mark, backed: bool, copied: bool) {
    && m.name == "v2" && m.note.Some?
    && if backed then m.note.value.name == "v2" else m.note == DEPLOYED.note && (copied ==> m.b)
  }

  lemma OtherNext(m: Mark, backed: bool, copied: bool, s: Builtin)
    requires OtherAt(m, backed, copied)
    ensures OtherAt(After(m, true, s), backed || s == BackupStep, copied || s == CopyStep)
  {
  }

  /** A rollback with a build that has another file: what it copies is never taken back, and a
      backup it makes remembers the wrong name. */
  lemma {:induction false} OtherMarks(steps: seq<Builtin>, k: nat)
    requires k <= |steps|
    ensures OtherAt(MarkAt(DEPLOYED, true, steps, k), BackupStep in steps[..k], CopyStep in steps[..k])
    ensures Fed(DEPLOYED, true, steps, k)
  {
    if k == 0 {
      FirstOther(steps);
    } else {
      hide *;
      OtherMarks(steps, k - 1);
      OneMore(steps, k);
      NextMark(DEPLOYED, true, steps, k);
      var m := MarkAt(DEPLOYED, true, steps, k - 1);
      OtherNext(m, BackupStep in steps[..k - 1], CopyStep in steps[..k - 1], steps[k - 1]);
      FedNext(steps, k, BackupStep in steps[..k - 1], CopyStep in steps[..k - 1]);
    }
  }

  lemma FirstOther(steps: seq<Builtin>)
    ensures OtherAt(MarkAt(DEPLOYED, true, steps, 0), false, false) && Fed(DEPLOYED, true, steps, 0)
  {
  }

  lemma FedNext(steps: seq<Builtin>, k: nat, backed: bool, copied: bool)
    requires 0 < k <= |steps| && Fed(DEPLOYED, true, steps, k - 1)
    requires OtherAt(MarkAt(DEPLOYED, true, steps, k - 1), backed, copied)
    ensures Fed(DEPLOYED, true, steps, k)
  {
    hide MarkAt;
  }

  lemma DeployedRun() returns (r: Run)
    ensures r.id == ID && r.job == JobOf(false) && r.steps == [BackupStep, CopyStep] && r.rollback == []
            && r.back == None
    ensures r.ws != [] && r.ws[0] == WorldOf(START) && DeployRun({}, DeployList, r, WorldOf(DEPLOYED))
  {
    var steps, m := [BackupStep, CopyStep], After(START, false, BackupStep);
    assert MarkAt(START, false, steps, 1) == m;
    assert MarkAt(START, false, steps, 2) == COPIED;
    hide DeployRun, MarkAt;
    var m2;
    r, m2 := DeployOf(steps, 2);
  }

  lemma OtherRollback(steps: seq<Builtin>) returns (r: Run, m: Mark)
    ensures m == MarkAt(DEPLOYED, true, steps, |steps|)
    ensures r.id == ID && r.steps == steps && r.rollback == [] && r.end == Ok && r.job.replace == []
    ensures r.ws != [] && r.ws[0] == WorldOf(DEPLOYED) && DeployRun({}, RollbackList, r, AfterRollback(WorldOf(m), ID))
  {
    hide DiskOf, BundleOf, JobOf, DeployRun, ListRun, Fed, AfterRollback;
    var n := |steps|;
    OtherMarks(steps, n);
    ListOf(DEPLOYED, true, steps, n);
    assert MarkAt(DEPLOYED, true, steps, 0) == DEPLOYED;
    hide MarkAt;
    m := MarkAt(DEPLOYED, true, steps, n);
    r := Run(ID, JobOf(true), Repeat(0, n), steps, WorldsOf(DEPLOYED, true, steps, n), Ok, [], [], [], None);
    RollbackRun({}, r);
    NoReplace(true);
  }

  lemma BadRollbackFails(steps: seq<Builtin>) returns (states: seq<State>, events: seq<Event>)
    requires !OnlyRestores(steps)
    ensures IsRun({}, states, events) && RollsBackWith(states, events, steps) && |events| == 2
            && !Restored(states, events, 1)
  {
    hide DiskOf, BundleOf, JobOf, DeployRun, CleanNews, IsRun, Restored, AfterRollback, MarkAt, Fed;
    var r := DeployedRun();
    var r2, m := OtherRollback(steps);
    var w1, w2 := WorldOf(DEPLOYED), AfterRollback(WorldOf(m), ID);
    OtherMarks(steps, |steps|);
    DeployThenRollback({}, r, w1, r2, w2);
    states, events := StatesOf(r.ws[0], r.job, w1, w2), [Deploy(1, r), Rollback(1, r2)];
    StatesAre(r.ws[0], r.job, w1, w2);
    hide StatesOf;
    NotAsBefore(steps, m);
    NotRestored(states, events);
    CleanAtStart();
  }

  lemma NotAsBefore(steps: seq<Builtin>, m: Mark)
    requires !OnlyRestores(steps) && OtherAt(m, BackupStep in steps[..|steps|], CopyStep in steps[..|steps|])
    ensures var w, w1 := WorldOf(START), AfterRollback(WorldOf(m), ID);
            w1.installed != w.installed || w1.disk != w.disk
  {
    hide DiskOf, BundleOf;
    NameAfter(m);
    assert steps[..|steps|] == steps;
    if BackupStep !in steps {
      var k :| 0 <= k < |steps| && steps[k] != RestoreStep;
      assert steps[k] in steps;
      if WorldOf(m).disk == WorldOf(START).disk {
        DisksDiffer(m.a, true);
      }
    }
  }

  lemma NameAfter(m: Mark)
    requires m.note.Some?
    ensures AfterRollback(WorldOf(m), ID) == WorldOf(m).(installed := m.note.value.name)
  {
  }

  /** A rollback list restores in every run, whatever has become of the build in the meantime, if
      and only if it holds nothing but restores. */
  lemma RollbackListExact(steps: seq<Builtin>)
    ensures RollbackListSafe(steps) <==> OnlyRestores(steps)
  {
    hide IsRun, Restored, DeployFits;
    if OnlyRestores(steps) {
      forall own: set<Path>, states: seq<State>, events: seq<Event>, n: nat
        | IsRun(own, states, events) && RollsBackWith(states, events, steps) && n < |events|
        ensures Restored(states, events, n)
      {
        RollbackOverRuns(own, states, events, n);
      }
    } else {
      var states, events := BadRollbackFails(steps);
    }
  }

  // ---- names of files ----

  /** A build with a new name that the list of new files does not bring back: on every machine that
      may take the build there is a run in which its rollback succeeds and does not restore. */
  lemma UncleanNameFails(own: set<Path>, disk: Disk, target: Path, job: Job, installed: string)
    returns (states: seq<State>, events: seq<Event>)
    requires LocalAndFree(own, target, job) && ReplaceAllowed(own, target, job) && !CleanNews(disk, target, job)
    ensures IsRun(own, states, events) && states[0].w == World(disk, map[], installed, target) && |events| == 2
    ensures events[0].Deploy? && events[0].run.job == job && events[0].run.steps == [BackupStep, CopyStep]
    ensures events[1].Rollback? && events[1].run.steps == [RestoreStep] && !Restored(states, events, 1)
  {
    var w := World(disk, map[], installed, target);
    var r, w1 := WholeDeploy(own, w, job);
    var r2, w2 := WholeRollback(own, w1);
    hide *;
    DeployThenRollback(own, r, w1, r2, w2);
    RestoreExact(own, w1.backups[ID], disk, w1.disk, w2.disk, target, job, installed);
    states, events := StatesOf(w, job, w1, w2), [Deploy(1, r), Rollback(1, r2)];
    StatesAre(w, job, w1, w2);
    NotRestored(states, events);
  }

  lemma StatesAre(w: World, job: Job, w1: World, w2: World)
    ensures var ss := StatesOf(w, job, w1, w2); |ss| == 3 && ss[0].w == w && ss[2].w == w2
  {
  }

  /** `[backup, copy]`, done to the end. */
  lemma WholeDeploy(own: set<Path>, w: World, job: Job) returns (r: Run, w1: World)
    requires LocalAndFree(own, w.target, job) && ReplaceAllowed(own, w.target, job) && w.backups == map[]
    ensures r.id == ID && r.job == job && r.steps == [BackupStep, CopyStep] && r.back == None && r.ws != []
            && r.ws[0] == w
    ensures DeployRun(own, DeployList, r, w1) && ID in w1.backups && w1.target == w.target
    ensures IsBackupOf(w1.backups[ID], w.disk, w.target, job, w.installed)
    ensures CopyDone(w.disk, w1.disk, w.target, job)
  {
    var b := Bundle(Saved(w.disk, w.target, job), Written(News(w.disk, w.target, job.files)),
                    Some(Manifest(w.target, 0, w.installed)));
    var wb := w.(backups := map[ID := b]);
    BackupDone(own, w, wb, job);
    var wc := wb.(disk := WriteAll(w.disk - Victims(w.disk, w.target, job), w.target, job.files));
    CopyIsDone(own, wb, wc, job);
    hide *;
    r := TwoSteps(own, w, wb, wc, job);
    w1 := wc.(installed := job.version);
  }

  lemma TwoSteps(own: set<Path>, w: World, wb: World, wc: World, job: Job) returns (r: Run)
    requires StepRun(own, w, wb, ID, job, 0, BackupStep, true) && StepRun(own, wb, wc, ID, job, 0, CopyStep, true)
    ensures r == Run(ID, job, [0, 0], [BackupStep, CopyStep], [w, wb, wc], Ok, [], [], [], None)
    ensures DeployRun(own, DeployList, r, wc.(installed := job.version))
  {
    hide StepRun;
    r := Run(ID, job, [0, 0], [BackupStep, CopyStep], [w, wb, wc], Ok, [], [], [], None);
  }

  lemma BackupDone(own: set<Path>, w: World, w1: World, job: Job)
    requires ReplaceAllowed(own, w.target, job) && w.backups == map[]
    requires w1 == w.(backups := map[ID := Bundle(Saved(w.disk, w.target, job),
                                                  Written(News(w.disk, w.target, job.files)),
                                                  Some(Manifest(w.target, 0, w.installed)))])
    ensures StepRun(own, w, w1, ID, job, 0, BackupStep, true)
    ensures IsBackupOf(w1.backups[ID], w.disk, w.target, job, w.installed)
  {
    hide ReplaceAllowed, Saved, News, Written, UpdaterJob.Pruned;
    OneIsPruned(w.backups, w1.backups[ID]);
  }

  lemma CopyIsDone(own: set<Path>, w: World, w1: World, job: Job)
    requires LocalAndFree(own, w.target, job) && ReplaceAllowed(own, w.target, job)
    requires w1 == w.(disk := w1.disk) && CopyDone(w.disk, w1.disk, w.target, job)
    ensures StepRun(own, w, w1, ID, job, 0, CopyStep, true)
  {
    hide LocalAndFree, ReplaceAllowed, CopyDone, CopyCut;
    WholeCopy(w.disk, w1.disk, w.target, job);
  }

  /** One restore, done to the end. */
  lemma WholeRollback(own: set<Path>, w1: World) returns (r: Run, w2: World)
    requires HasBackup(w1, ID)
    ensures r.id == ID && r.steps == [RestoreStep] && r.rollback == [] && r.end == Ok && r.ws != [] && r.ws[0] == w1
    ensures r.job.replace == [] && DeployRun(own, RollbackList, r, w2)
    ensures RestoreDone(own, w1.backups[ID], w1.disk, w2.disk, w1.backups[ID].manifest.value.targetDir)
  {
    hide IsBackupOf, IsLocal, IsOldName, IsSpace, IsVictim, LocalAndFree, News, PutBack, Rel, Removals,
         UpdaterJob.Pruned, Victims, WriteAll, Written, CopyCut, CopyDone, DropCR, Guarded, Join, LastIndex, Lines,
         LinesFrom, Saved, Scanned, Trim, TrimEnd, TrimStart, Under, Base,
         Dests, InReplaced, ReplaceAllowed, RestoreCut, Touched, Unfinished;
    var b, job := w1.backups[ID], Job([], [], "v2");
    var target := b.manifest.value.targetDir;
    hide PutBack, Removals;
    var d := PutBack(w1.disk, b, target, b.files.Keys) - Removals(own, b, target);
    var wr := w1.(disk := d);
    WholeRestore(own, b, w1.disk, d, target);
    assert StepRun(own, w1, wr, ID, job, 0, RestoreStep, true);
    hide StepRun;
    w2 := AfterRollback(wr, ID);
    r := Run(ID, job, [0], [RestoreStep], [w1, wr], Ok, [], [], [], None);
  }
}
