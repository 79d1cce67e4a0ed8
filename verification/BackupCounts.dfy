/** How exact the theorem on kept backups is. In every state it applies to, an order of a deployment
    or a rollback keeps the count however it goes if and only if it meets the condition; an order
    that does not has a course, shown here, after which the count is wrong. */
module BackupCounts {
  import opened Wrappers
  import opened Sequences
  import opened NewsFile
  import opened Install
  import opened Deployments
  import opened Rollouts
  import opened RolloutRuns
  import opened UpdaterJob
  import opened Prunings
  import opened KeptBackups

  // ---- a build with no files, on any machine ----

  const NOTHING: Job := Job([], [], "v1")

  lemma NothingTouched(own: set<Path>, d: Disk, target: Path)
    ensures Saved(d, target, NOTHING) == map[] && News(d, target, NOTHING.files) == []
    ensures Victims(d, target, NOTHING) == {}
    ensures ReplaceAllowed(own, target, NOTHING) && LocalAndFree(own, target, NOTHING)
  {
  }

  function BackupOf(w: World, at: int): (b: Bundle)
    ensures Finished(b) && b.manifest.value.at == at
  {
    Bundle(map[], Written([]), Some(Manifest(w.target, at, w.installed)))
  }

  lemma CopyNothing(own: set<Path>, w: World, id: string, at: int)
    ensures StepRun(own, w, w, id, NOTHING, at, CopyStep, true)
  {
    NothingTouched(own, w.disk, w.target);
    hide ReplaceAllowed, LocalAndFree;
    assert w.disk - {} == w.disk;
    assert CopyCut(w.disk, w.disk, w.target, NOTHING, {}, 0);
  }

  /** A restore that is done, whatever was saved. */
  lemma RestoreDoes(own: set<Path>, w: World, id: string, at: int) returns (w1: World)
    requires HasBackup(w, id)
    ensures StepRun(own, w, w1, id, NOTHING, at, RestoreStep, true) && w1.backups == w.backups
  {
    hide PutBack, Removals;
    var b := w.backups[id];
    var target := b.manifest.value.targetDir;
    w1 := w.(disk := PutBack(w.disk, b, target, b.files.Keys) - Removals(own, b, target));
    assert RestoreCut(own, b, w.disk, w1.disk, target, b.files.Keys, Removals(own, b, target));
  }

  lemma BackupNothing(own: set<Path>, w: World, after: map<string, Bundle>, id: string, at: int)
    requires Pruned(w.backups[id := BackupOf(w, at)], after, id)
    ensures StepRun(own, w, w.(backups := after), id, NOTHING, at, BackupStep, true)
  {
    NothingTouched(own, w.disk, w.target);
    hide ReplaceAllowed, Saved, News, Written, Pruned;
    assert IsBackupOf(BackupOf(w, at), w.disk, w.target, NOTHING, w.installed);
  }

  const CUT: Bundle := Bundle(map[], "", None)

  lemma BackupIsCut(own: set<Path>, w: World, id: string, at: int)
    ensures StepRun(own, w, w.(backups := w.backups[id := CUT]), id, NOTHING, at, BackupStep, false)
  {
  }

  // ---- lists done so far ----

  /** The first steps of a list, done with the build without files. */
  ghost predicate SoFar(own: set<Path>, ws: seq<World>, id: string, clock: seq<int>, steps: seq<Builtin>) {
    |ws| > 0 && AllDone(own, ws, id, NOTHING, clock, steps, |ws| - 1)
  }

  lemma Begin(own: set<Path>, w: World, id: string, clock: seq<int>, steps: seq<Builtin>)
    requires |clock| == |steps|
    ensures SoFar(own, [w], id, clock, steps)
  {
  }

  lemma Goes(own: set<Path>, ws: seq<World>, w1: World, id: string, clock: seq<int>, steps: seq<Builtin>)
    requires SoFar(own, ws, id, clock, steps) && |ws| <= |steps| == |clock|
    requires var n := |ws| - 1; StepRun(own, ws[n], w1, id, NOTHING, clock[n], steps[n], true)
    ensures SoFar(own, ws + [w1], id, clock, steps)
  {
    hide StepRun;
    var ws1 := ws + [w1];
    forall k {:trigger ws1[k]} | 0 <= k < |ws1| - 1
      ensures StepRun(own, ws1[k], ws1[k + 1], id, NOTHING, clock[k], steps[k], true)
    {
      assert k < |ws| - 1 ==> ws1[k] == ws[k] && ws1[k + 1] == ws[k + 1];
    }
  }

  /** On to a backup step, over copies, and over restores if there is a backup. */
  lemma {:induction false} Onward(own: set<Path>, ws: seq<World>, id: string, clock: seq<int>, steps: seq<Builtin>,
                                  j: nat)
    returns (ws1: seq<World>)
    requires SoFar(own, ws, id, clock, steps) && |ws| - 1 <= j <= |steps| == |clock|
    requires forall m :: |ws| - 1 <= m < j ==> steps[m] != BackupStep
    requires HasBackup(ws[|ws| - 1], id) || forall m :: |ws| - 1 <= m < j ==> steps[m] == CopyStep
    ensures SoFar(own, ws1, id, clock, steps) && |ws1| == j + 1 && ws1[0] == ws[0]
    ensures ws1[j].backups == ws[|ws| - 1].backups
    decreases |steps| + 1 - |ws|
  {
    hide StepRun, AllDone;
    var n := |ws| - 1;
    if n == j {
      ws1 := ws;
    } else {
      var w1 := ws[n];
      if steps[n] == CopyStep {
        CopyNothing(own, ws[n], id, clock[n]);
      } else {
        w1 := RestoreDoes(own, ws[n], id, clock[n]);
      }
      Goes(own, ws, w1, id, clock, steps);
      ws1 := Onward(own, ws + [w1], id, clock, steps, j);
    }
  }

  /** A list stopped behind the steps done, or at its end. */
  lemma Stops(own: set<Path>, ws: seq<World>, id: string, clock: seq<int>, steps: seq<Builtin>) returns (end: End)
    requires SoFar(own, ws, id, clock, steps)
    ensures ListRun(own, ws, id, NOTHING, clock, steps, end)
  {
    hide StepRun;
    end := if |ws| == |steps| + 1 then Ok else Cancel;
  }

  /** A list whose next step fails. */
  lemma Fails(own: set<Path>, ws: seq<World>, w1: World, id: string, clock: seq<int>, steps: seq<Builtin>)
    requires SoFar(own, ws, id, clock, steps) && |ws| <= |steps| == |clock|
    requires var n := |ws| - 1; StepRun(own, ws[n], w1, id, NOTHING, clock[n], steps[n], false)
    ensures ListRun(own, ws + [w1], id, NOTHING, clock, steps, Fail)
  {
    hide StepRun;
    var ws1 := ws + [w1];
    forall k {:trigger ws1[k]} | 0 <= k < |ws1| - 1
      ensures StepRun(own, ws1[k], ws1[k + 1], id, NOTHING, clock[k], steps[k], k < |ws1| - 2)
    {
      assert k < |ws| - 1 ==> ws1[k] == ws[k] && ws1[k + 1] == ws[k + 1];
    }
  }

  // ---- the steps that go wrong ----

  /** Copies, then the first backup. */
  predicate BackupComes(steps: seq<Builtin>, i: nat) {
    i < |steps| && steps[i] == BackupStep && forall m :: 0 <= m < i ==> steps[m] == CopyStep
  }

  lemma {:induction false} FirstFrom(steps: seq<Builtin>, from: nat, k: nat) returns (i: nat)
    requires from <= k < |steps| && steps[k] == BackupStep
    ensures from <= i <= k && steps[i] == BackupStep && forall m :: from <= m < i ==> steps[m] != BackupStep
  {
    if m :| from <= m < k && steps[m] == BackupStep {
      i := FirstFrom(steps, from, m);
    } else {
      i := k;
    }
  }

  /** In front of the first backup that is come to there are copies only. */
  lemma FirstCome(steps: seq<Builtin>, k: nat) returns (i: nat)
    requires Comes(steps, k)
    ensures BackupComes(steps, i) && i <= k
  {
    i := FirstFrom(steps, 0, k);
    forall m | 0 <= m < i ensures steps[m] == CopyStep {
      if steps[m] == RestoreStep {
        assert Blocked(steps, m + 1);
        BlockedLater(steps, m + 1, k);
      }
    }
  }

  /** The backups are not those of the last three deployments that finished one. */
  ghost predicate Miscounts(s: State, id: nat, bs: map<string, Bundle>) {
    var saved := if Tag(id) in AllFinished(bs) then s.saved + [id] else s.saved;
    exists x: nat {:trigger Tag(x)} :: Tag(x) in AllFinished(bs) <==> x !in Latest(saved)
  }

  /** The new backup drives out another one than the first, or none: the first is still there. */
  lemma WrongOneGoes(s: State, w: World, id: nat, at: int) returns (after: map<string, Bundle>)
    requires Kept(s) && |Latest(s.saved)| == KEEP_BACKUPS && id !in s.saved && Tag(id) !in s.w.backups
    requires w.backups == s.w.backups && !InTime(s, at)
    ensures Pruned(w.backups[Tag(id) := BackupOf(w, at)], after, Tag(id)) && Miscounts(s, id, after)
  {
    FirstIsThere(s);
    KeptSize(s);
    var bs, b, t, first := w.backups, BackupOf(w, at), Tag(id), Latest(s.saved)[0];
    hide Kept, BackupOf, Tag, Pruned;
    FourthIs(bs, b, t, Tag(first));
    after := OldestCanStay(bs[t := b], t, Tag(first));
    PruneStays(bs[t := b], after, t);
    GoneFromLatest(s, id);
    assert t in AllFinished(after);
  }

  lemma FirstIsThere(s: State)
    requires Kept(s) && s.saved != []
    ensures Latest(s.saved) != [] && Tag(Latest(s.saved)[0]) in AllFinished(s.w.backups) && NoDup(s.saved)
  {
    TagsOf(Latest(s.saved), Latest(s.saved)[0]);
    hide Tag, AllOwned, Owned;
    assert Latest(s.saved)[0] in Latest(s.saved);
  }

  lemma GoneFromLatest(s: State, id: nat)
    requires NoDup(s.saved) && |Latest(s.saved)| == KEEP_BACKUPS && id !in s.saved
    ensures Latest(s.saved)[0] !in Latest(s.saved + [id]) && Latest(s.saved)[0] in Latest(s.saved)
  {
    LatestMore(s.saved, id);
    LatestOf(s.saved);
    assert Latest(s.saved)[0] in Latest(s.saved);
  }

  /** A backup in time drives out the first one. */
  lemma FirstGoes(s: State, w: World, id: nat, at: int) returns (after: map<string, Bundle>)
    requires Kept(s) && |Latest(s.saved)| == KEEP_BACKUPS && id !in s.saved && Tag(id) !in s.w.backups
    requires w.backups == s.w.backups && InTime(s, at)
    ensures Pruned(w.backups[Tag(id) := BackupOf(w, at)], after, Tag(id))
    ensures Tag(id) in AllFinished(after) && Tag(Latest(s.saved)[0]) !in after && Latest(s.saved)[0] != id
  {
    FirstIsThere(s);
    KeptSize(s);
    var bs, b, t, a := w.backups, BackupOf(w, at), Tag(id), Tag(Latest(s.saved)[0]);
    hide Kept, BackupOf, Tag, Pruned;
    FourthIs(bs, b, t, a);
    PruneExact(bs[t := b], t, a);
    after :| Pruned(bs[t := b], after, t);
    PruneStays(bs[t := b], after, t);
  }

  /** With the first one's backup gone and none made instead the count is wrong. */
  lemma FirstIsMissing(s: State, id: nat, bs: map<string, Bundle>)
    requires s.saved != [] && Latest(s.saved) != [] && Tag(Latest(s.saved)[0]) !in bs && Latest(s.saved)[0] != id
    ensures Miscounts(s, id, bs[Tag(id) := CUT])
  {
    var first := Latest(s.saved)[0];
    assert first in Latest(s.saved);
    if Tag(first) == Tag(id) {
      TagInjective(first, id);
    }
    hide Tag;
    assert Tag(first) !in AllFinished(bs[Tag(id) := CUT]);
  }

  // ---- a list that is not right ----

  /** A list that makes a second backup, or one out of time, from a machine as it was before the
      deployment: a course of it that ends with a wrong count. */
  lemma BadList(own: set<Path>, s: State, w: World, id: nat, clock: seq<int>, steps: seq<Builtin>)
    returns (ws: seq<World>, end: End)
    requires Kept(s) && |Latest(s.saved)| == KEEP_BACKUPS && id !in s.saved && Tag(id) !in s.w.backups
    requires w.backups == s.w.backups && |clock| == |steps|
    requires !OneBackup(steps) || !InTimes(s, steps, clock)
    ensures ListRun(own, ws, Tag(id), NOTHING, clock, steps, end)
    ensures |ws| > 0 && ws[0] == w && Miscounts(s, id, ws[|ws| - 1].backups)
  {
    hide Kept, Tag, InTime, Pruned, SoFar, StepRun, ListRun, Miscounts;
    var k := BadStep(s, clock, steps);
    var i := FirstCome(steps, k);
    ws := ToFirst(own, w, Tag(id), clock, steps, i);
    if InTime(s, clock[i]) {
      var after := FirstGoes(s, ws[i], id, clock[i]);
      ws := BackUp(own, ws, after, Tag(id), clock, steps);
      var j := SecondOne(s, clock, steps, i);
      ws := CutAtNext(own, s, ws, id, clock, steps, j);
      end := Fail;
    } else {
      var after := WrongOneGoes(s, ws[i], id, clock[i]);
      ws := BackUp(own, ws, after, Tag(id), clock, steps);
      end := Stops(own, ws, Tag(id), clock, steps);
    }
  }

  lemma BadStep(s: State, clock: seq<int>, steps: seq<Builtin>) returns (k: nat)
    requires s.saved != [] && |clock| == |steps| && (!OneBackup(steps) || !InTimes(s, steps, clock))
    ensures Comes(steps, k)
  {
    if OneBackup(steps) {
      k :| k < |clock| && Comes(steps, k) && !InTime(s, clock[k]);
    } else {
      var i, j :| 0 <= i < j < |steps| && steps[i] == BackupStep && steps[j] == BackupStep && !Blocked(steps, i);
      k := i;
    }
  }

  /** If the first backup that is come to is in time, a second one is at fault. */
  lemma SecondOne(s: State, clock: seq<int>, steps: seq<Builtin>, i: nat) returns (j: nat)
    requires s.saved != [] && |clock| == |steps| && (!OneBackup(steps) || !InTimes(s, steps, clock))
    requires BackupComes(steps, i) && InTime(s, clock[i])
    ensures i < j < |steps| && steps[j] == BackupStep && forall m :: i < m < j ==> steps[m] != BackupStep
  {
    var k: nat;
    if OneBackup(steps) {
      k :| k < |clock| && Comes(steps, k) && !InTime(s, clock[k]);
    } else {
      var a, b :| 0 <= a < b < |steps| && steps[a] == BackupStep && steps[b] == BackupStep && !Blocked(steps, a);
      k := b;
    }
    hide InTime, Blocked;
    j := FirstFrom(steps, i + 1, k);
  }

  lemma ToFirst(own: set<Path>, w: World, id: string, clock: seq<int>, steps: seq<Builtin>, i: nat)
    returns (ws: seq<World>)
    requires |clock| == |steps| && BackupComes(steps, i)
    ensures SoFar(own, ws, id, clock, steps) && |ws| == i + 1 && ws[0] == w && ws[i].backups == w.backups
  {
    hide SoFar, HasBackup;
    Begin(own, w, id, clock, steps);
    ws := Onward(own, [w], id, clock, steps, i);
  }

  lemma BackUp(own: set<Path>, ws: seq<World>, after: map<string, Bundle>, id: string, clock: seq<int>,
               steps: seq<Builtin>)
    returns (ws1: seq<World>)
    requires SoFar(own, ws, id, clock, steps) && 0 < |ws| <= |steps| == |clock| && steps[|ws| - 1] == BackupStep
    requires var n := |ws| - 1; Pruned(ws[n].backups[id := BackupOf(ws[n], clock[n])], after, id)
    ensures SoFar(own, ws1, id, clock, steps) && |ws1| == |ws| + 1 && ws1[0] == ws[0] && ws1[|ws|].backups == after
  {
    hide SoFar, StepRun, Pruned, BackupOf;
    var n := |ws| - 1;
    BackupNothing(own, ws[n], after, id, clock[n]);
    Goes(own, ws, ws[n].(backups := after), id, clock, steps);
    ws1 := ws + [ws[n].(backups := after)];
  }

  /** On to the next backup step, which is cut: with the first backup driven out the count is wrong. */
  lemma CutAtNext(own: set<Path>, s: State, ws: seq<World>, id: nat, clock: seq<int>, steps: seq<Builtin>, j: nat)
    returns (ws1: seq<World>)
    requires SoFar(own, ws, Tag(id), clock, steps) && 0 < |ws| <= j + 1 <= |steps| == |clock|
    requires steps[j] == BackupStep && forall m :: |ws| - 1 <= m < j ==> steps[m] != BackupStep
    requires s.saved != [] && Latest(s.saved) != [] && Latest(s.saved)[0] != id
    requires var bs := ws[|ws| - 1].backups; Tag(id) in AllFinished(bs) && Tag(Latest(s.saved)[0]) !in bs
    ensures ListRun(own, ws1, Tag(id), NOTHING, clock, steps, Fail)
    ensures |ws1| == j + 2 && ws1[0] == ws[0] && Miscounts(s, id, ws1[j + 1].backups)
  {
    var bs := ws[|ws| - 1].backups;
    assert HasBackup(ws[|ws| - 1], Tag(id));
    hide *;
    ws1 := Onward(own, ws, Tag(id), clock, steps, j);
    var w1 := ws1[j].(backups := ws1[j].backups[Tag(id) := CUT]);
    BackupIsCut(own, ws1[j], Tag(id), clock[j]);
    Fails(own, ws1, w1, Tag(id), clock, steps);
    FirstIsMissing(s, id, bs);
    ws1 := ws1 + [w1];
  }

  // ---- an order of a deployment that is not right ----

  function Deployed(s: State, id: nat, r: Run, w1: World): State {
    State(w1, if r.back == Some(Ok) then s.live else s.live + [Level(id, r.job, s.w)],
          if r.back == Some(Ok) then s.undone + {id} else s.undone,
          if Tag(id) in AllFinished(w1.backups) then s.saved + [id] else s.saved)
  }

  lemma IsDeployed(own: set<Path>, s: State, id: nat, r: Run, w1: World)
    requires Unused(s, id) && r.id == Tag(id) && r.ws != [] && r.ws[0] == s.w && DeployRun(own, DeployList, r, w1)
    ensures Deploys(own, s, Deployed(s, id, r, w1), id, r)
    ensures Miscounts(s, id, w1.backups) ==> !Counted(Deployed(s, id, r, w1))
  {
    hide Tag, DeployRun, Latest;
  }

  /** A deployment of one list, with nothing run behind it. */
  lemma OneList(own: set<Path>, s: State, id: nat, o: Order, ws: seq<World>, end: End) returns (s1: State, r: Run)
    requires Unused(s, id) && |ws| > 0 && ws[0] == s.w
    requires ListRun(own, ws, Tag(id), NOTHING, o.clock, o.steps, end) && Miscounts(s, id, ws[|ws| - 1].backups)
    ensures Deploys(own, s, s1, id, r) && OrderOf(r) == o && !Counted(s1)
  {
    hide ListRun, Unused, Tag, Miscounts, Deploys, Counted;
    r := Run(Tag(id), NOTHING, o.clock, o.steps, ws, end, o.clock2, o.rollback, [], None);
    var last := ws[|ws| - 1];
    var w1 := if end == Ok then last.(installed := NOTHING.version) else last;
    IsDeployed(own, s, id, r, w1);
    s1 := Deployed(s, id, r, w1);
  }

  /** A deployment that failed, and the list behind it. */
  lemma TwoLists(own: set<Path>, s: State, id: nat, o: Order, ws: seq<World>, ws2: seq<World>, back: End)
    returns (s1: State, r: Run)
    requires Unused(s, id) && |ws| > 0 && ws[0] == s.w && |ws2| > 0 && ws2[0] == ws[|ws| - 1] && o.rollback != []
    requires ListRun(own, ws, Tag(id), NOTHING, o.clock, o.steps, Fail)
    requires ListRun(own, ws2, Tag(id), NOTHING, o.clock2, o.rollback, back)
    requires Miscounts(s, id, ws2[|ws2| - 1].backups)
    ensures Deploys(own, s, s1, id, r) && OrderOf(r) == o && !Counted(s1)
  {
    hide ListRun, Unused, Tag, Miscounts, Deploys, Counted;
    r := Run(Tag(id), NOTHING, o.clock, o.steps, ws, Fail, o.clock2, o.rollback, ws2, Some(back));
    var last := ws2[|ws2| - 1];
    var w1 := if back == Ok then AfterRollback(last, Tag(id)) else last;
    IsDeployed(own, s, id, r, w1);
    s1 := Deployed(s, id, r, w1);
  }

  /** The first list fails at once, and the one behind it is not right. */
  lemma BadBehind(own: set<Path>, s: State, id: nat, o: Order) returns (s1: State, r: Run)
    requires Kept(s) && |Latest(s.saved)| == KEEP_BACKUPS && Unused(s, id) && id !in s.saved
             && Tag(id) !in s.w.backups
    requires |o.clock| == |o.steps| && |o.clock2| == |o.rollback| && o.steps != []
    requires !OneBackup(o.rollback) || !InTimes(s, o.rollback, o.clock2)
    ensures Deploys(own, s, s1, id, r) && OrderOf(r) == o && !Counted(s1)
  {
    assert s.saved != [];
    hide *;
    FailsAtOnce(own, s.w, Tag(id), o.clock, o.steps);
    SomeSteps(s, o.rollback, o.clock2);
    var ws2, back := BadList(own, s, s.w, id, o.clock2, o.rollback);
    s1, r := TwoLists(own, s, id, o, [s.w, s.w], ws2, back);
  }

  lemma FailsAtOnce(own: set<Path>, w: World, id: string, clock: seq<int>, steps: seq<Builtin>)
    requires |clock| == |steps| && steps != []
    ensures ListRun(own, [w, w], id, NOTHING, clock, steps, Fail)
  {
    hide *;
    Begin(own, w, id, clock, steps);
    NotRun(own, w, id, NOTHING, clock[0], steps[0]);
    Fails(own, [w], w, id, clock, steps);
    assert [w] + [w] == [w, w];
  }

  lemma SomeSteps(s: State, steps: seq<Builtin>, clock: seq<int>)
    requires s.saved != [] && |clock| == |steps| && (!OneBackup(steps) || !InTimes(s, steps, clock))
    ensures steps != []
  {
  }

  /** The first list makes its backup and fails behind it, and the second one begins another. */
  lemma BadTogether(own: set<Path>, s: State, id: nat, o: Order, k: nat) returns (s1: State, r: Run)
    requires Kept(s) && |Latest(s.saved)| == KEEP_BACKUPS && Unused(s, id) && id !in s.saved
             && Tag(id) !in s.w.backups
    requires |o.clock| == |o.steps| && |o.clock2| == |o.rollback|
    requires InTimes(s, o.steps, o.clock) && Comes(o.steps, k) && k + 1 < |o.steps| && BackupStep in o.rollback
    ensures Deploys(own, s, s1, id, r) && OrderOf(r) == o && !Counted(s1)
  {
    hide *;
    var m := Somewhere(o.rollback);
    var j := FirstFrom(o.rollback, 0, m);
    var ws, w := BackupThenFails(own, s, id, o.clock, o.steps, k);
    Begin(own, w, Tag(id), o.clock2, o.rollback);
    FirstIsThere(s);
    var ws2 := CutAtNext(own, s, [w], id, o.clock2, o.rollback, j);
    s1, r := TwoLists(own, s, id, o, ws, ws2, Fail);
  }

  lemma Somewhere(steps: seq<Builtin>) returns (m: nat)
    requires BackupStep in steps
    ensures m < |steps| && steps[m] == BackupStep
  {
    m :| m < |steps| && steps[m] == BackupStep;
  }

  lemma BackupThenFails(own: set<Path>, s: State, id: nat, clock: seq<int>, steps: seq<Builtin>, k: nat)
    returns (ws: seq<World>, w: World)
    requires Kept(s) && |Latest(s.saved)| == KEEP_BACKUPS && id !in s.saved && Tag(id) !in s.w.backups
    requires |clock| == |steps| && InTimes(s, steps, clock) && Comes(steps, k) && k + 1 < |steps|
    ensures ListRun(own, ws, Tag(id), NOTHING, clock, steps, Fail)
    ensures |ws| > 0 && ws[0] == s.w && w == ws[|ws| - 1] && s.saved != [] && Latest(s.saved)[0] != id
    ensures Tag(id) in AllFinished(w.backups) && Tag(Latest(s.saved)[0]) !in w.backups
  {
    assert s.saved != [];
    hide *;
    var i := FirstCome(steps, k);
    InTimeAt(s, steps, clock, i);
    ws := ToFirst(own, s.w, Tag(id), clock, steps, i);
    var after := FirstGoes(s, ws[i], id, clock[i]);
    ws := BackUp(own, ws, after, Tag(id), clock, steps);
    w := ws[i + 1];
    NotRun(own, w, Tag(id), NOTHING, clock[i + 1], steps[i + 1]);
    Fails(own, ws, w, Tag(id), clock, steps);
    ws := ws + [w];
  }

  lemma InTimeAt(s: State, steps: seq<Builtin>, clock: seq<int>, i: nat)
    requires s.saved != [] && |clock| == |steps| && InTimes(s, steps, clock) && BackupComes(steps, i)
    ensures i < |steps| && steps[i] == BackupStep && InTime(s, clock[i])
  {
    NotBlockedYet(steps, i);
    hide InTime, Blocked;
  }

  lemma {:induction false} NotBlockedYet(steps: seq<Builtin>, i: nat)
    requires i <= |steps| && forall m :: 0 <= m < i ==> steps[m] == CopyStep
    ensures !Blocked(steps, i)
  {
    if i > 0 {
      NotBlockedYet(steps, i - 1);
    }
  }

  /** An order that does not count has a course that ends with a wrong count. */
  lemma BadOrder(own: set<Path>, s: State, id: nat, o: Order) returns (s1: State, r: Run)
    requires Kept(s) && Unused(s, id) && |o.clock| == |o.steps| && |o.clock2| == |o.rollback| && !DeployCounts(s, o)
    ensures Deploys(own, s, s1, id, r) && OrderOf(r) == o && !Counted(s1)
  {
    NewTag(s, id);
    hide Kept, Tag, InTimes, OneBackup, Comes, Unused, Deploys, Counted, Latest;
    if !OneBackup(o.steps) || !InTimes(s, o.steps, o.clock) {
      var ws, end := BadList(own, s, s.w, id, o.clock, o.steps);
      s1, r := OneList(own, s, id, o, ws, end);
    } else if o.steps != [] && (!OneBackup(o.rollback) || !InTimes(s, o.rollback, o.clock2)) {
      s1, r := BadBehind(own, s, id, o);
    } else {
      var k: nat :| k < |o.steps| - 1 && Comes(o.steps, k) && BackupStep in o.rollback;
      s1, r := BadTogether(own, s, id, o, k);
    }
  }

  /** In every state of every history whose orders counted so far: the next deployment keeps the
      count, however it goes, if and only if its order counts. */
  lemma DeployCountsExact(own: set<Path>, states: seq<State>, events: seq<Event>, id: nat, o: Order)
    requires IsRun(own, states, events) && AllCount(states, events)
    requires |o.clock| == |o.steps| && |o.clock2| == |o.rollback| && Unused(states[|events|], id)
    ensures var s := states[|events|];
            (forall s1, r :: Deploys(own, s, s1, id, r) && OrderOf(r) == o ==> Counted(s1)) <==> DeployCounts(s, o)
  {
    var s := states[|events|];
    hide IsRun, AllCount, Unused, Deploys, DeployCounts, Counted, Kept;
    KeptOverRuns(own, states, events, |events|);
    if DeployCounts(s, o) {
      forall s1, r | Deploys(own, s, s1, id, r) && OrderOf(r) == o ensures Counted(s1) {
        DeployKeepsKept(own, s, s1, id, r);
        KeptIsCounted(s1);
      }
    } else {
      var s1, r := BadOrder(own, s, id, o);
    }
  }

  // ---- rollbacks ----

  function RolledBack(s: State, id: nat, r: Run, w1: World): State
    requires s.live != []
  {
    State(w1, if r.end == Ok then s.live[..|s.live| - 1] else s.live,
          if r.end == Ok then s.undone + {id} else s.undone, s.saved)
  }

  lemma RolledBackIs(own: set<Path>, s: State, id: nat, clock: seq<int>, steps: seq<Builtin>, ws: seq<World>, end: End)
    returns (s1: State, r: Run)
    requires RollbackBlock(s, id) == Free && steps != [] && |ws| > 0 && ws[0] == s.w
    requires ListRun(own, ws, Tag(id), NOTHING, clock, steps, end)
    ensures RollsBack(own, s, s1, id, r) && r.steps == steps && r.clock == clock
    ensures s1.saved == s.saved && s1.w.backups == ws[|ws| - 1].backups
  {
    hide ListRun, Tag;
    r := Run(Tag(id), NOTHING, clock, steps, ws, end, [], [], [], None);
    var last := ws[|ws| - 1];
    s1 := RolledBack(s, id, r, if end == Ok then AfterRollback(last, Tag(id)) else last);
  }

  /** A rollback that comes to a backup step. Cut there it has lost the backup there was; with none
      there it has made one that is too much. */
  lemma BadRollback(own: set<Path>, s: State, id: nat, clock: seq<int>, steps: seq<Builtin>)
    returns (s1: State, r: Run)
    requires Kept(s) && RollbackBlock(s, id) == Free && |clock| == |steps| && !RollbackCounts(s, id, steps)
    ensures RollsBack(own, s, s1, id, r) && r.steps == steps && r.clock == clock && !Counted(s1)
  {
    var m: nat :| m < |steps| && steps[m] == BackupStep && (HasBackup(s.w, Tag(id)) || !Blocked(steps, m));
    KeptIsCounted(s);
    hide Kept, Blocked, Tag, HasBackup, RollbackBlock, RollsBack;
    var ws, end := BackupInRollback(own, s.w, Tag(id), clock, steps, m);
    s1, r := RolledBackIs(own, s, id, clock, steps, ws, end);
    assert HasBackup(s1.w, Tag(id)) == HasBackup(ws[|ws| - 1], Tag(id)) by { SameBackups(s1.w, ws[|ws| - 1], Tag(id)); }
    assert HasBackup(s.w, Tag(id)) <==> id in Latest(s.saved);
  }

  lemma BackupInRollback(own: set<Path>, w: World, id: string, clock: seq<int>, steps: seq<Builtin>, m: nat)
    returns (ws: seq<World>, end: End)
    requires |clock| == |steps| && m < |steps| && steps[m] == BackupStep && (HasBackup(w, id) || !Blocked(steps, m))
    ensures ListRun(own, ws, id, NOTHING, clock, steps, end)
    ensures |ws| > 0 && ws[0] == w && (HasBackup(ws[|ws| - 1], id) <==> !HasBackup(w, id))
  {
    if HasBackup(w, id) {
      hide StepRun, ListRun, SoFar;
      var j := FirstFrom(steps, 0, m);
      Begin(own, w, id, clock, steps);
      ws := Onward(own, [w], id, clock, steps, j);
      var w1 := ws[j].(backups := ws[j].backups[id := CUT]);
      BackupIsCut(own, ws[j], id, clock[j]);
      Fails(own, ws, w1, id, clock, steps);
      ws, end := ws + [w1], Fail;
    } else {
      hide StepRun, ListRun, SoFar, Pruned, Blocked, BackupOf;
      var i := FirstCome(steps, m);
      ws := ToFirst(own, w, id, clock, steps, i);
      var after := SomePruning(ws[i].backups[id := BackupOf(ws[i], clock[i])], id);
      ws := BackUp(own, ws, after, id, clock, steps);
      end := Stops(own, ws, id, clock, steps);
    }
  }

  lemma SomePruning(bs: map<string, Bundle>, also: string) returns (after: map<string, Bundle>)
    requires also in AllFinished(bs)
    ensures Pruned(bs, after, also) && also in AllFinished(after)
  {
    var all := RankingExists(bs);
    after := bs - Dropped(all, also);
    assert Pruned(bs, after, also);
    hide Pruned;
    PruneStays(bs, after, also);
  }

  /** The next rollback keeps the count, however it goes, if and only if it comes to no backup step. */
  lemma RollbackCountsExact(own: set<Path>, states: seq<State>, events: seq<Event>, id: nat, clock: seq<int>,
                            steps: seq<Builtin>)
    requires IsRun(own, states, events) && AllCount(states, events) && |clock| == |steps|
    requires RollbackBlock(states[|events|], id) == Free
    ensures var s := states[|events|];
            (forall s1, r :: RollsBack(own, s, s1, id, r) && r.steps == steps && r.clock == clock ==> Counted(s1))
            <==> RollbackCounts(s, id, steps)
  {
    var s := states[|events|];
    hide IsRun, AllCount, RollbackBlock, RollsBack, RollbackCounts, Counted, Kept;
    KeptOverRuns(own, states, events, |events|);
    if RollbackCounts(s, id, steps) {
      forall s1, r | RollsBack(own, s, s1, id, r) && r.steps == steps && r.clock == clock ensures Counted(s1) {
        RollbackKeepsKept(own, s, s1, id, r);
        KeptIsCounted(s1);
      }
    } else {
      var s1, r := BadRollback(own, s, id, clock, steps);
    }
  }

  // ---- lists that are safe in every history ----

  /** One more event. */
  lemma RunGrows(own: set<Path>, states: seq<State>, events: seq<Event>, e: Event, s1: State)
    requires IsRun(own, states, events) && Next(own, states[|events|], e, s1)
    ensures IsRun(own, states + [s1], events + [e])
    ensures AllCount(states, events) && EventCounts(states[|events|], e) ==> AllCount(states + [s1], events + [e])
  {
    hide Next, EventCounts, Init;
    var ss, es := states + [s1], events + [e];
    forall k {:trigger es[k]} | 0 <= k < |es|
      ensures Next(own, ss[k], es[k], ss[k + 1])
      ensures AllCount(states, events) && EventCounts(states[|events|], e) ==> EventCounts(ss[k], es[k])
    {
      assert k < |events| ==> es[k] == events[k] && ss[k] == states[k] && ss[k + 1] == states[k + 1];
    }
  }

  /** A deployment that only backs up, while there is room. */
  lemma BackUpOnce(own: set<Path>, s: State, id: nat, at: int) returns (s1: State, r: Run)
    requires Kept(s) && |Latest(s.saved)| < KEEP_BACKUPS && Unused(s, id)
    ensures Deploys(own, s, s1, id, r) && OrderOf(r) == Order([BackupStep], [at], [], [])
    ensures s1.w.backups == s.w.backups[Tag(id) := BackupOf(s.w, at)] && s1.saved == s.saved + [id]
    ensures s1.live == s.live + [Level(id, NOTHING, s.w)] && s1.undone == s.undone
  {
    var t, bs1 := Tag(id), s.w.backups[Tag(id) := BackupOf(s.w, at)];
    RoomForOne(s, id, at);
    hide *;
    var ws, end := JustBackUp(own, s.w, bs1, t, at);
    s1, r := JustDeployed(own, s, id, at, ws, end);
  }

  lemma RoomForOne(s: State, id: nat, at: int)
    requires Kept(s) && |Latest(s.saved)| < KEEP_BACKUPS && Unused(s, id)
    ensures var bs1 := s.w.backups[Tag(id) := BackupOf(s.w, at)];
            Pruned(bs1, bs1, Tag(id)) && Tag(id) in AllFinished(bs1)
  {
    NewTag(s, id);
    KeptSize(s);
    hide Tag, Kept, Latest, BackupOf, Unused, Pruned;
    OneMoreFinished(s.w.backups, BackupOf(s.w, at), Tag(id));
    assert AllFinished(s.w.backups) - {Tag(id)} == AllFinished(s.w.backups);
    FewStay(s.w.backups[Tag(id) := BackupOf(s.w, at)], Tag(id));
  }

  lemma JustBackUp(own: set<Path>, w: World, after: map<string, Bundle>, id: string, at: int)
    returns (ws: seq<World>, end: End)
    requires Pruned(w.backups[id := BackupOf(w, at)], after, id)
    ensures ListRun(own, ws, id, NOTHING, [at], [BackupStep], end)
    ensures |ws| == 2 && ws[0] == w && ws[1].backups == after
  {
    hide SoFar, ListRun, Pruned, BackupOf;
    Begin(own, w, id, [at], [BackupStep]);
    ws := BackUp(own, [w], after, id, [at], [BackupStep]);
    end := Stops(own, ws, id, [at], [BackupStep]);
  }

  lemma JustDeployed(own: set<Path>, s: State, id: nat, at: int, ws: seq<World>, end: End) returns (s1: State, r: Run)
    requires Unused(s, id) && |ws| == 2 && ws[0] == s.w && Tag(id) in AllFinished(ws[1].backups)
    requires ListRun(own, ws, Tag(id), NOTHING, [at], [BackupStep], end)
    ensures Deploys(own, s, s1, id, r) && OrderOf(r) == Order([BackupStep], [at], [], [])
    ensures s1.w.backups == ws[1].backups && s1.saved == s.saved + [id]
    ensures s1.live == s.live + [Level(id, NOTHING, s.w)] && s1.undone == s.undone
  {
    hide ListRun, Tag, Unused, Miscounts, Deploys, Counted;
    r := Run(Tag(id), NOTHING, [at], [BackupStep], ws, end, [], [], [], None);
    var w1 := if end == Ok then ws[1].(installed := NOTHING.version) else ws[1];
    IsDeployed(own, s, id, r, w1);
    s1 := Deployed(s, id, r, w1);
  }

  const NEW_MACHINE: State := State(World(map[], map[], "v1", "/opt"), [], {}, [])

  /** The backups of the deployments `ids`, each made at the time that is its id. */
  ghost predicate MadeAt(bs: map<string, Bundle>, ids: seq<nat>) {
    forall id {:trigger Tag(id)} :: id in ids ==> Tag(id) in AllFinished(bs) && TimeOf(bs, Tag(id)) == id
  }

  lemma NextMadeAt(bs: map<string, Bundle>, ids: seq<nat>, id: nat, b: Bundle)
    requires MadeAt(bs, ids) && id !in ids && Finished(b) && b.manifest.value.at == id
    ensures MadeAt(bs[Tag(id) := b], ids + [id])
  {
    forall m {:trigger Tag(m)} | m in ids ensures Tag(m) != Tag(id) {
      if Tag(m) == Tag(id) {
        TagInjective(m, id);
      }
    }
    hide Tag;
  }

  function UpTo(n: nat): (ids: seq<nat>)
    ensures |ids| == n && forall k :: 0 <= k < n ==> ids[k] == k + 1
  {
    seq(n, k requires 0 <= k => k + 1)
  }

  /** Deployments 1 to `n`, each with its backup. */
  ghost predicate Backed(s: State, n: nat) {
    && s.saved == UpTo(n) && MadeAt(s.w.backups, s.saved)
    && s.undone == {} && |s.live| == n && forall k :: 0 <= k < n ==> s.live[k].id == k + 1
  }

  lemma NextBacked(s: State, s1: State, n: nat)
    requires Backed(s, n) && s1.w.backups == s.w.backups[Tag(n + 1) := BackupOf(s.w, n + 1)]
    requires s1.saved == s.saved + [n + 1] && s1.undone == s.undone && s1.live == s.live + [Level(n + 1, NOTHING, s.w)]
    ensures Backed(s1, n + 1)
  {
    hide MadeAt, Tag, BackupOf;
    assert UpTo(n + 1) == UpTo(n) + [n + 1];
    NextMadeAt(s.w.backups, s.saved, n + 1, BackupOf(s.w, n + 1));
  }

  lemma NewIsBacked()
    ensures Init(NEW_MACHINE) && Backed(NEW_MACHINE, 0)
  {
  }

  /** The first of three is in time for whatever comes after it. */
  lemma ThreeInTime(s: State, t: int)
    requires Kept(s) && Backed(s, 3)
    ensures |Latest(s.saved)| == KEEP_BACKUPS && (InTime(s, t) <==> t > 1)
  {
    var bs := s.w.backups;
    assert Latest(s.saved) == s.saved && s.saved[0] == 1;
    hide Tag, AllOwned, Owned;
    assert 1 in s.saved;
    forall x | x in AllFinished(bs) && x != Tag(1) ensures TimeOf(bs, Tag(1)) < TimeOf(bs, x) {
      var k :| 0 <= k < |s.saved| && x == Tags(s.saved)[k];
      assert s.saved[k] in s.saved;
    }
  }

  lemma UnusedNext(s: State, n: nat)
    requires Backed(s, n)
    ensures Unused(s, n + 1) && (n < KEEP_BACKUPS ==> |Latest(s.saved)| < KEEP_BACKUPS)
  {
    hide Tag;
  }

  /** Up to three deployments, each with a backup. */
  lemma {:induction false} SomeDeployments(own: set<Path>, n: nat) returns (states: seq<State>, events: seq<Event>)
    requires n <= KEEP_BACKUPS
    ensures IsRun(own, states, events) && AllCount(states, events) && |events| == n && states[0] == NEW_MACHINE
    ensures Backed(states[n], n)
    ensures forall k :: 0 <= k < n ==> events[k].Deploy? && events[k].id == k + 1
                                       && OrderOf(events[k].run) == Order([BackupStep], [k + 1], [], [])
  {
    if n == 0 {
      NewIsBacked();
      states, events := [NEW_MACHINE], [];
    } else {
      states, events := SomeDeployments(own, n - 1);
      var s := states[n - 1];
      KeptOverRuns(own, states, events, n - 1);
      UnusedNext(s, n - 1);
      hide Kept, Backed, Unused, IsRun, AllCount, Latest, Deploys;
      var s1, r := BackUpOnce(own, s, n, n);
      NextBacked(s, s1, n - 1);
      RunGrows(own, states, events, Deploy(n, r), s1);
      states, events := states + [s1], events + [Deploy(n, r)];
    }
  }

  /** Times without fault: while three are kept each backup of the order is in time. */
  predicate OnTime(s: State, o: Order) {
    |Latest(s.saved)| == KEEP_BACKUPS ==> InTimes(s, o.steps, o.clock) && InTimes(s, o.rollback, o.clock2)
  }

  /** In whatever history, a deployment with these lists keeps the count if its times are without
      fault. */
  ghost predicate ListsSafe(steps: seq<Builtin>, rollback: seq<Builtin>) {
    forall own: set<Path>, states: seq<State>, events: seq<Event>, s1: State, id: nat, r: Run
      {:trigger IsRun(own, states, events), Deploys(own, states[|events|], s1, id, r)} ::
      (&& IsRun(own, states, events) && AllCount(states, events) && Deploys(own, states[|events|], s1, id, r)
       && r.steps == steps && r.rollback == rollback && OnTime(states[|events|], OrderOf(r))) ==> Counted(s1)
  }

  /** A pair of lists keeps the count in every history if and only if both together make one backup at
      most. */
  lemma BackupListsExact(steps: seq<Builtin>, rollback: seq<Builtin>)
    ensures ListsSafe(steps, rollback) <==> OneBackupInBoth(steps, rollback)
  {
    hide Next, Init, AllCount, Deploys, Counted, OneBackupInBoth, InTimes, Kept;
    if OneBackupInBoth(steps, rollback) {
      forall own: set<Path>, states: seq<State>, events: seq<Event>, s1: State, id: nat, r: Run
        | IsRun(own, states, events) && AllCount(states, events) && Deploys(own, states[|events|], s1, id, r)
          && r.steps == steps && r.rollback == rollback && OnTime(states[|events|], OrderOf(r))
        ensures Counted(s1)
      {
        KeptOverRuns(own, states, events, |events|);
        DeployKeepsKept(own, states[|events|], s1, id, r);
        KeptIsCounted(s1);
      }
    } else {
      var own, states, events, s1, id, r := BadLists(steps, rollback);
    }
  }

  lemma BadLists(steps: seq<Builtin>, rollback: seq<Builtin>)
    returns (own: set<Path>, states: seq<State>, events: seq<Event>, s1: State, id: nat, r: Run)
    requires !OneBackupInBoth(steps, rollback)
    ensures IsRun(own, states, events) && AllCount(states, events) && Deploys(own, states[|events|], s1, id, r)
    ensures r.steps == steps && r.rollback == rollback && OnTime(states[|events|], OrderOf(r)) && !Counted(s1)
  {
    own, id := {}, 4;
    states, events := SomeDeployments(own, 3);
    var s, o := states[3], Order(steps, Repeat(4, |steps|), rollback, Repeat(4, |rollback|));
    KeptOverRuns(own, states, events, 3);
    UnusedNext(s, 3);
    ThreeInTime(s, 4);
    hide Kept, Backed, Unused, IsRun, AllCount, Latest, Deploys, Counted, InTime, Comes, OneBackupInBoth;
    s1, r := BadOrder(own, s, id, o);
  }

  /** And the times matter as much: deployed at the times 1, 2, 3 and then 0, the fourth backup does
      not drive out the first. */
  lemma ClockBackFails(own: set<Path>) returns (states: seq<State>, events: seq<Event>)
    ensures IsRun(own, states, events) && |events| == 4 && !Counted(states[4])
    ensures forall k :: 0 <= k < 4 ==>
              && events[k].Deploy?
              && OrderOf(events[k].run) == Order([BackupStep], [if k < 3 then k + 1 else 0], [], [])
  {
    states, events := SomeDeployments(own, 3);
    var s, o := states[3], Order([BackupStep], [0], [], []);
    KeptOverRuns(own, states, events, 3);
    UnusedNext(s, 3);
    ThreeInTime(s, 0);
    assert Comes(o.steps, 0) && o.clock[0] == 0;
    hide Kept, Backed, Unused, IsRun, AllCount, Latest, Deploys, Counted, InTime, Comes, OneBackupInBoth;
    var s1, r := BadOrder(own, s, 4, o);
    RunGrows(own, states, events, Deploy(4, r), s1);
    states, events := states + [s1], events + [Deploy(4, r)];
  }

  /** In whatever history, a rollback with this list keeps the count. */
  ghost predicate RollbackListSafe(steps: seq<Builtin>) {
    forall own: set<Path>, states: seq<State>, events: seq<Event>, s1: State, id: nat, r: Run
      {:trigger IsRun(own, states, events), RollsBack(own, states[|events|], s1, id, r)} ::
      (&& IsRun(own, states, events) && AllCount(states, events) && RollsBack(own, states[|events|], s1, id, r)
       && r.steps == steps) ==> Counted(s1)
  }

  /** A rollback list keeps the count in every history if and only if it holds no backup step. */
  lemma RollbackBackupExact(steps: seq<Builtin>)
    ensures RollbackListSafe(steps) <==> BackupStep !in steps
  {
    hide Next, Init, AllCount, RollsBack, Counted, Kept;
    if BackupStep !in steps {
      forall own: set<Path>, states: seq<State>, events: seq<Event>, s1: State, id: nat, r: Run
        | IsRun(own, states, events) && AllCount(states, events) && RollsBack(own, states[|events|], s1, id, r)
          && r.steps == steps
        ensures Counted(s1)
      {
        KeptOverRuns(own, states, events, |events|);
        RollbackKeepsKept(own, states[|events|], s1, id, r);
        KeptIsCounted(s1);
      }
    } else {
      var own, states, events, s1, r := BackupInRollbackFails(steps);
    }
  }

  /** One deployment, and a rollback of it that is cut in its backup step: no backup is left. */
  lemma BackupInRollbackFails(steps: seq<Builtin>)
    returns (own: set<Path>, states: seq<State>, events: seq<Event>, s1: State, r: Run)
    requires BackupStep in steps
    ensures IsRun(own, states, events) && AllCount(states, events) && |events| == 1
    ensures RollsBack(own, states[1], s1, 1, r) && r.steps == steps && !Counted(s1)
  {
    own := {};
    states, events := SomeDeployments(own, 1);
    KeptOverRuns(own, states, events, 1);
    OneIsFree(states[1]);
    hide Kept, IsRun, AllCount, Deploys, RollsBack, Counted, RollbackBlock, HasBackup, Backed;
    var k :| 0 <= k < |steps| && steps[k] == BackupStep;
    s1, r := BadRollback(own, states[1], 1, Repeat(0, |steps|), steps);
  }

  lemma OneIsFree(s: State)
    requires Backed(s, 1)
    ensures RollbackBlock(s, 1) == Free && HasBackup(s.w, Tag(1))
  {
    hide Tag;
    assert 1 in s.saved by { assert s.saved[0] == 1; }
  }
}
