/** How long a backup is there to roll back to: over every history whose lists and times keep the
    count, the finished backups are those of the last three deployments that finished one. */
module KeptBackups {
  import opened Sequences
  import opened Install
  import opened Deployments
  import opened Rollouts
  import opened RolloutRuns
  import opened UpdaterJob
  import opened Prunings

  /** The last `keepBackups` of a list. */
  function Latest(ids: seq<nat>): (r: seq<nat>)
    ensures |r| <= KEEP_BACKUPS && |r| <= |ids| && (|r| < KEEP_BACKUPS ==> r == ids)
  {
    if |ids| <= KEEP_BACKUPS then ids else ids[|ids| - KEEP_BACKUPS..]
  }

  function Tags(ids: seq<nat>): (r: seq<string>)
    ensures |r| == |ids| && forall k :: 0 <= k < |ids| ==> r[k] == Tag(ids[k])
  {
    seq(|ids|, k requires 0 <= k < |ids| => Tag(ids[k]))
  }

  /** A finished backup is there for exactly the last three deployments that finished one: an older
      deployment cannot be rolled back, a younger one can. */
  ghost predicate Counted(s: State) {
    forall id: nat {:trigger Tag(id)} :: HasBackup(s.w, Tag(id)) <==> id in Latest(s.saved)
  }

  // ---- which lists and times keep the count ----

  /** The order of a deployment: its lists, and when each of their steps is run. */
  datatype Order = Order(steps: seq<Builtin>, clock: seq<int>, rollback: seq<Builtin>, clock2: seq<int>)

  function OrderOf(r: Run): Order { Order(r.steps, r.clock, r.rollback, r.clock2) }

  /** Step `k` is a backup that is come to when the list begins without one. */
  predicate Comes(steps: seq<Builtin>, k: nat) { k < |steps| && steps[k] == BackupStep && !Blocked(steps, k) }

  /** No second backup step that is come to. */
  predicate OneBackup(steps: seq<Builtin>) {
    forall i, j :: 0 <= i < j < |steps| && steps[i] == BackupStep && steps[j] == BackupStep ==> Blocked(steps, i)
  }

  /** However a deployment list and the one behind it go, at most one backup is made: neither has two,
      and if the first can fail behind its backup the second has none. An empty list does not fail. */
  predicate OneBackupInBoth(steps: seq<Builtin>, rollback: seq<Builtin>) {
    && OneBackup(steps) && (steps != [] ==> OneBackup(rollback))
    && forall i :: 0 <= i < |steps| - 1 && Comes(steps, i) ==> BackupStep !in rollback
  }

  /** A backup made at `t` finds the first of the kept ones strictly older than the others and than now. */
  predicate InTime(s: State, t: int)
    requires s.saved != []
  {
    var bs, a := s.w.backups, Tag(Latest(s.saved)[0]);
    IsStrictlyOldest(bs, a) && TimeOf(bs, a) < t
  }

  predicate InTimes(s: State, steps: seq<Builtin>, clock: seq<int>)
    requires s.saved != []
  {
    forall k {:trigger clock[k]} :: 0 <= k < |clock| && Comes(steps, k) ==> InTime(s, clock[k])
  }

  /** As long as fewer than three backups are kept, any order will do. */
  predicate DeployCounts(s: State, o: Order) {
    |Latest(s.saved)| == KEEP_BACKUPS ==>
      && OneBackupInBoth(o.steps, o.rollback)
      && InTimes(s, o.steps, o.clock) && (o.steps != [] ==> InTimes(s, o.rollback, o.clock2))
  }

  /** A rollback comes to no backup step: where there is a backup to restore, that is none at all. */
  ghost predicate RollbackCounts(s: State, id: nat, steps: seq<Builtin>) {
    forall k :: 0 <= k < |steps| && steps[k] == BackupStep ==> !HasBackup(s.w, Tag(id)) && Blocked(steps, k)
  }

  ghost predicate EventCounts(s: State, e: Event) {
    match e
    case Deploy(id, r) => DeployCounts(s, OrderOf(r))
    case Rollback(id, r) => RollbackCounts(s, id, r.steps)
    case Retarget(target) => true
  }

  ghost predicate AllCount(states: seq<State>, events: seq<Event>) {
    |states| == |events| + 1 && forall k {:trigger events[k]} :: 0 <= k < |events| ==> EventCounts(states[k], events[k])
  }

  // ---- what holds in every state ----

  ghost predicate Kept(s: State) {
    && AllFinished(s.w.backups) == SetOf(Tags(Latest(s.saved)))
    && NoDup(s.saved) && (forall id :: id in s.saved ==> Owned(s, id)) && AllOwned(s)
  }

  lemma LatestOf(ids: seq<nat>)
    ensures NoDup(ids) ==> NoDup(Latest(ids))
    ensures forall id :: id in Latest(ids) ==> id in ids
  {
  }

  lemma TagsOf(ids: seq<nat>, id: nat)
    ensures Tag(id) in SetOf(Tags(ids)) <==> id in ids
  {
    hide Tag;
    if id in ids {
      var k :| 0 <= k < |ids| && ids[k] == id;
      assert Tags(ids)[k] == Tag(id);
    }
    if Tag(id) in SetOf(Tags(ids)) {
      var k :| 0 <= k < |ids| && Tags(ids)[k] == Tag(id);
      TagInjective(ids[k], id);
    }
  }

  lemma KeptIsCounted(s: State)
    requires Kept(s)
    ensures Counted(s)
  {
    hide Tag, Tags, Latest, AllOwned, Owned;
    forall id: nat {:trigger Tag(id)} ensures HasBackup(s.w, Tag(id)) <==> id in Latest(s.saved) {
      TagsOf(Latest(s.saved), id);
    }
  }

  lemma TagsSize(ids: seq<nat>)
    requires NoDup(ids)
    ensures |SetOf(Tags(ids))| == |ids|
  {
    hide Tag;
    forall i, j | 0 <= i < j < |ids| ensures Tags(ids)[i] != Tags(ids)[j] {
      if Tag(ids[i]) == Tag(ids[j]) {
        TagInjective(ids[i], ids[j]);
      }
    }
    NoDupSize(Tags(ids));
  }

  lemma KeptSize(s: State)
    requires Kept(s)
    ensures |AllFinished(s.w.backups)| == |Latest(s.saved)|
  {
    hide AllOwned, Owned, Latest, Tags;
    LatestOf(s.saved);
    TagsSize(Latest(s.saved));
  }

  /** Of one more id than three the first goes. */
  lemma LatestMore(ids: seq<nat>, id: nat)
    ensures Latest(ids + [id]) == if |Latest(ids)| < KEEP_BACKUPS then Latest(ids) + [id] else Latest(ids)[1..] + [id]
  {
  }

  lemma TagsMore(ids: seq<nat>, id: nat)
    requires NoDup(ids) && id !in ids
    ensures SetOf(Tags(ids + [id])) == SetOf(Tags(ids)) + {Tag(id)}
    ensures ids != [] ==> SetOf(Tags(ids[1..] + [id])) == SetOf(Tags(ids)) + {Tag(id)} - {Tag(ids[0])}
  {
    hide Tag;
    assert Tags(ids + [id]) == Tags(ids) + [Tag(id)];
    if ids != [] {
      var rest, first := Tags(ids[1..]), Tag(ids[0]);
      assert Tags(ids[1..] + [id]) == rest + [Tag(id)];
      assert Tags(ids) == [first] + rest;
      TagsOf(ids[1..], ids[0]);
      if Tag(id) == first {
        TagInjective(id, ids[0]);
      }
      assert first !in SetOf(rest) by { FirstOnce(ids); }
    }
  }

  lemma FirstOnce(ids: seq<nat>)
    requires NoDup(ids) && ids != []
    ensures Tag(ids[0]) !in SetOf(Tags(ids[1..]))
  {
    hide Tag;
    TagsOf(ids[1..], ids[0]);
  }

  // ---- one list ----

  /** A new finished backup, with the old ones pruned, or no finished one of its own. */
  ghost predicate BackedUp(bs: map<string, Bundle>, after: map<string, Bundle>, id: string, at: int) {
    exists b :: Finished(b) && b.manifest.value.at == at && Pruned(bs[id := b], after, id)
  }

  ghost predicate NotBackedUp(bs: map<string, Bundle>, after: map<string, Bundle>, id: string) {
    after == bs || (id in after && !Finished(after[id]) && after == bs[id := after[id]])
  }

  /** One of the first `n` steps made the backup. */
  ghost predicate MadeBy(bs: map<string, Bundle>, after: map<string, Bundle>, id: string, clock: seq<int>,
                         steps: seq<Builtin>, n: nat) {
    exists m {:trigger clock[m]} :: 0 <= m < n && m < |clock| && Comes(steps, m) && BackedUp(bs, after, id, clock[m])
  }

  /** A list with one backup makes one backup at most. */
  lemma {:induction false} BackupsOfList(own: set<Path>, ws: seq<World>, id: string, job: Job, clock: seq<int>,
                                         steps: seq<Builtin>, end: End, k: nat)
    requires ListRun(own, ws, id, job, clock, steps, end) && k < |ws| && OneBackup(steps) && !HasBackup(ws[0], id)
    ensures BackupStep !in steps[..k] ==> ws[k].backups == ws[0].backups
    ensures var bs, after := ws[0].backups, ws[k].backups;
            NotBackedUp(bs, after, id) || MadeBy(bs, after, id, clock, steps, k)
  {
    hide *;
    if k == 0 {
      NoneBackedUp(ws[0].backups, id);
    } else {
      OneTurn(own, ws, id, job, clock, steps, end, k - 1);
      BackupsOfList(own, ws, id, job, clock, steps, end, k - 1);
      assert steps[..k] == steps[..k - 1] + [steps[k - 1]];
      var ok := StepRun(own, ws[k - 1], ws[k], id, job, clock[k - 1], steps[k - 1], true);
      if steps[k - 1] == BackupStep {
        FirstBackup(own, ws, id, job, clock, steps, k - 1);
        BackupOnce(own, ws[k - 1], ws[k], id, job, clock[k - 1], ok);
        MadeNow(ws[0].backups, ws[k].backups, id, clock, steps, k - 1);
      } else {
        NoBackupMade(own, ws[k - 1], ws[k], id, job, clock[k - 1], steps[k - 1], ok);
        MadeBefore(ws[0].backups, ws[k].backups, id, clock, steps, k - 1);
      }
    }
  }

  lemma MadeNow(bs: map<string, Bundle>, after: map<string, Bundle>, id: string, clock: seq<int>, steps: seq<Builtin>,
                k: nat)
    requires k < |clock| && Comes(steps, k)
    ensures BackedUp(bs, after, id, clock[k]) ==> MadeBy(bs, after, id, clock, steps, k + 1)
  {
    hide Comes, BackedUp;
  }

  lemma MadeBefore(bs: map<string, Bundle>, after: map<string, Bundle>, id: string, clock: seq<int>,
                   steps: seq<Builtin>, k: nat)
    ensures MadeBy(bs, after, id, clock, steps, k) ==> MadeBy(bs, after, id, clock, steps, k + 1)
  {
    hide Comes, BackedUp;
  }

  /** A step of a list with all steps before it. */
  lemma OneTurn(own: set<Path>, ws: seq<World>, id: string, job: Job, clock: seq<int>, steps: seq<Builtin>, end: End,
                k: nat)
    requires ListRun(own, ws, id, job, clock, steps, end) && k + 1 < |ws|
    ensures AllDone(own, ws, id, job, clock, steps, k) && k < |steps| == |clock|
    ensures StepRun(own, ws[k], ws[k + 1], id, job, clock[k], steps[k], true)
            || StepRun(own, ws[k], ws[k + 1], id, job, clock[k], steps[k], false)
    ensures end == Fail && k + 2 == |ws| ==> StepRun(own, ws[k], ws[k + 1], id, job, clock[k], steps[k], false)
  {
    hide StepRun;
  }

  lemma FirstBackup(own: set<Path>, ws: seq<World>, id: string, job: Job, clock: seq<int>, steps: seq<Builtin>, k: nat)
    requires AllDone(own, ws, id, job, clock, steps, k) && k < |steps| && steps[k] == BackupStep
    requires OneBackup(steps) && !HasBackup(ws[0], id)
    ensures BackupStep !in steps[..k] && Comes(steps, k)
  {
    hide StepRun, HasBackup, Blocked;
    DoneNotBlocked(own, ws, id, job, clock, steps, k);
    if i :| 0 <= i < k && steps[i] == BackupStep {
      BlockedLater(steps, i, k);
    }
  }

  lemma NoneBackedUp(bs: map<string, Bundle>, id: string)
    ensures NotBackedUp(bs, bs, id)
  {
  }

  lemma NoBackupMade(own: set<Path>, w: World, w1: World, id: string, job: Job, at: int, s: Builtin, ok: bool)
    requires StepRun(own, w, w1, id, job, at, s, ok) && s != BackupStep
    ensures w1.backups == w.backups
  {
  }

  lemma BackupOnce(own: set<Path>, w: World, w1: World, id: string, job: Job, at: int, ok: bool)
    requires StepRun(own, w, w1, id, job, at, BackupStep, ok)
    ensures if ok then BackedUp(w.backups, w1.backups, id, at) else NotBackedUp(w.backups, w1.backups, id)
  {
    hide Pruned, Saved, News;
    if ok {
      var b :| IsBackupOf(b, w.disk, w.target, job, w.installed) && b.manifest.value.at == at
               && Pruned(w.backups[id := b], w1.backups, id);
      assert Finished(b);
    }
  }

  /** Of a list that failed the last step made no backup. */
  lemma BackupsOfFailed(own: set<Path>, ws: seq<World>, id: string, job: Job, clock: seq<int>, steps: seq<Builtin>)
    requires ListRun(own, ws, id, job, clock, steps, Fail) && OneBackup(steps) && !HasBackup(ws[0], id)
    ensures 1 < |ws| <= |steps| + 1
    ensures var bs, after := ws[0].backups, ws[|ws| - 1].backups;
            NotBackedUp(bs, after, id) || MadeBy(bs, after, id, clock, steps, |steps| - 1)
  {
    assert 1 < |ws| <= |steps| + 1;
    hide *;
    var n := |ws| - 2;
    OneTurn(own, ws, id, job, clock, steps, Fail, n);
    BackupsOfList(own, ws, id, job, clock, steps, Fail, n);
    if steps[n] == BackupStep {
      FirstBackup(own, ws, id, job, clock, steps, n);
      BackupOnce(own, ws[n], ws[n + 1], id, job, clock[n], false);
    } else {
      NoBackupMade(own, ws[n], ws[n + 1], id, job, clock[n], steps[n], false);
      MadeEarlier(ws[0].backups, ws[n].backups, id, clock, steps, n, |steps| - 1);
    }
  }

  lemma MadeEarlier(bs: map<string, Bundle>, after: map<string, Bundle>, id: string, clock: seq<int>,
                    steps: seq<Builtin>, k: nat, n: nat)
    requires k <= n
    ensures MadeBy(bs, after, id, clock, steps, k) ==> MadeBy(bs, after, id, clock, steps, n)
  {
    hide Comes, BackedUp;
  }

  lemma {:induction false} NoBackupsMade(own: set<Path>, ws: seq<World>, id: string, job: Job, clock: seq<int>,
                                         steps: seq<Builtin>, end: End, k: nat)
    requires ListRun(own, ws, id, job, clock, steps, end) && k < |ws| && BackupStep !in steps
    ensures ws[k].backups == ws[0].backups
  {
    hide *;
    if k > 0 {
      NoBackupsMade(own, ws, id, job, clock, steps, end, k - 1);
      OneTurn(own, ws, id, job, clock, steps, end, k - 1);
      var ok := StepRun(own, ws[k - 1], ws[k], id, job, clock[k - 1], steps[k - 1], true);
      assert steps[k - 1] in steps;
      NoBackupMade(own, ws[k - 1], ws[k], id, job, clock[k - 1], steps[k - 1], ok);
    }
  }

  /** Backup steps that are never come to make none either. */
  lemma {:induction false} NoBackupComes(own: set<Path>, ws: seq<World>, id: string, job: Job, clock: seq<int>,
                                         steps: seq<Builtin>, end: End, k: nat)
    requires ListRun(own, ws, id, job, clock, steps, end) && k < |ws| && !HasBackup(ws[0], id)
    requires forall m :: 0 <= m < |steps| && steps[m] == BackupStep ==> Blocked(steps, m)
    ensures ws[k].backups == ws[0].backups
  {
    hide *;
    if k > 0 {
      NoBackupComes(own, ws, id, job, clock, steps, end, k - 1);
      OneTurn(own, ws, id, job, clock, steps, end, k - 1);
      DoneNotBlocked(own, ws, id, job, clock, steps, k - 1);
      var ok := StepRun(own, ws[k - 1], ws[k], id, job, clock[k - 1], steps[k - 1], true);
      NoBackupMade(own, ws[k - 1], ws[k], id, job, clock[k - 1], steps[k - 1], ok);
    }
  }

  // ---- a deployment while three are kept ----

  lemma InTimeOf(s: State, bs: map<string, Bundle>, after: map<string, Bundle>, id: string, clock: seq<int>,
                 steps: seq<Builtin>, n: nat)
    requires s.saved != [] && MadeBy(bs, after, id, clock, steps, n) && InTimes(s, steps, clock)
    ensures exists t :: InTime(s, t) && BackedUp(bs, after, id, t)
  {
    hide Comes, BackedUp, InTime;
  }

  lemma MadeComes(bs: map<string, Bundle>, after: map<string, Bundle>, id: string, clock: seq<int>,
                  steps: seq<Builtin>, n: nat)
    requires MadeBy(bs, after, id, clock, steps, n)
    ensures exists m: nat :: m < n && Comes(steps, m)
  {
    hide Comes, BackedUp;
  }

  /** What was begun in vain does not show behind a later backup. */
  lemma BackedUpAfter(bs: map<string, Bundle>, mid: map<string, Bundle>, after: map<string, Bundle>, id: string)
    requires NotBackedUp(bs, mid, id)
    ensures NotBackedUp(mid, after, id) && id !in bs ==> NotBackedUp(bs, after, id)
    ensures forall t :: BackedUp(mid, after, id, t) ==> BackedUp(bs, after, id, t)
  {
    hide Pruned, Finished;
    forall b: Bundle {:trigger mid[id := b]} ensures mid[id := b] == bs[id := b] {
    }
  }

  lemma StillNone(w: World, w1: World, id: string)
    requires !HasBackup(w, id) && NotBackedUp(w.backups, w1.backups, id)
    ensures !HasBackup(w1, id)
  {
  }

  /** Both lists together make one backup at most, and in time. */
  lemma BackupsOfBoth(own: set<Path>, s: State, id: string, r: Run)
    requires s.saved != [] && id !in s.w.backups && OneBackupInBoth(r.steps, r.rollback)
    requires InTimes(s, r.steps, r.clock) && (r.steps != [] ==> InTimes(s, r.rollback, r.clock2))
    requires ListRun(own, r.ws, id, r.job, r.clock, r.steps, Fail) && r.ws[0] == s.w
    requires r.back.Some? && ListRun(own, r.ws2, id, r.job, r.clock2, r.rollback, r.back.value)
    requires r.ws2[0] == r.ws[|r.ws| - 1]
    ensures |r.ws2| > 0
    ensures var bs, after := s.w.backups, r.ws2[|r.ws2| - 1].backups;
            NotBackedUp(bs, after, id) || exists t :: InTime(s, t) && BackedUp(bs, after, id, t)
  {
    LastWorld(own, r.ws2, id, r.job, r.clock2, r.rollback, r.back.value);
    hide BackedUp, NotBackedUp, OneBackup, ListRun, InTime, InTimes, Comes, MadeBy;
    assert !HasBackup(s.w, id);
    hide HasBackup;
    BackupsOfFailed(own, r.ws, id, r.job, r.clock, r.steps);
    var bs, mid, after, n := s.w.backups, r.ws2[0].backups, r.ws2[|r.ws2| - 1].backups, |r.ws2| - 1;
    if NotBackedUp(bs, mid, id) {
      StillNone(s.w, r.ws2[0], id);
      BackupsOfList(own, r.ws2, id, r.job, r.clock2, r.rollback, r.back.value, n);
      BackedUpAfter(bs, mid, after, id);
      if !NotBackedUp(mid, after, id) {
        InTimeOf(s, mid, after, id, r.clock2, r.rollback, n);
      }
    } else {
      MadeComes(bs, mid, id, r.clock, r.steps, |r.steps| - 1);
      NoBackupsMade(own, r.ws2, id, r.job, r.clock2, r.rollback, r.back.value, n);
      InTimeOf(s, bs, mid, id, r.clock, r.steps, |r.steps| - 1);
    }
  }

  lemma BackupsOfDeploy(own: set<Path>, s: State, s1: State, id: nat, r: Run)
    requires Deploys(own, s, s1, id, r) && AllOwned(s) && s.saved != []
    requires OneBackupInBoth(r.steps, r.rollback)
    requires InTimes(s, r.steps, r.clock) && (r.steps != [] ==> InTimes(s, r.rollback, r.clock2))
    ensures var bs, after := s.w.backups, s1.w.backups;
            NotBackedUp(bs, after, Tag(id)) || exists t :: InTime(s, t) && BackedUp(bs, after, Tag(id), t)
  {
    TagUnused(s, id);
    assert !HasBackup(s.w, r.id);
    hide StepRun, BackedUp, NotBackedUp, OneBackup, Tag, ListRun, HasBackup, AllOwned, InTime, InTimes, Comes, MadeBy,
         Unused;
    LastWorld(own, r.ws, r.id, r.job, r.clock, r.steps, r.end);
    if r.back.Some? {
      BackupsOfBoth(own, s, r.id, r);
    } else {
      var n := |r.ws| - 1;
      BackupsOfList(own, r.ws, r.id, r.job, r.clock, r.steps, r.end, n);
      if !NotBackedUp(s.w.backups, s1.w.backups, r.id) {
        InTimeOf(s, s.w.backups, s1.w.backups, r.id, r.clock, r.steps, n);
      }
    }
  }

  // ---- a deployment while fewer are kept ----

  /** The finished backups of others are as they were. */
  ghost predicate OthersStay(bs: map<string, Bundle>, after: map<string, Bundle>, id: string) {
    AllFinished(after) - {id} == AllFinished(bs) - {id}
  }

  lemma BackupAmongFew(bs: map<string, Bundle>, after: map<string, Bundle>, id: string, at: int)
    requires |AllFinished(bs) - {id}| < KEEP_BACKUPS && BackedUp(bs, after, id, at)
    ensures OthersStay(bs, after, id)
  {
    hide Pruned;
    var b :| Finished(b) && b.manifest.value.at == at && Pruned(bs[id := b], after, id);
    OneMoreFinished(bs, b, id);
    hide AllFinished;
    FewStay(bs[id := b], id);
  }

  lemma OneMoreFinished(bs: map<string, Bundle>, b: Bundle, id: string)
    requires Finished(b)
    ensures AllFinished(bs[id := b]) == (AllFinished(bs) - {id}) + {id}
    ensures |AllFinished(bs[id := b])| == |AllFinished(bs) - {id}| + 1
    ensures AllFinished(bs[id := b]) - {id} == AllFinished(bs) - {id}
  {
  }

  lemma StepAmongFew(own: set<Path>, w: World, w1: World, id: string, job: Job, at: int, s: Builtin, ok: bool)
    requires StepRun(own, w, w1, id, job, at, s, ok) && |AllFinished(w.backups) - {id}| < KEEP_BACKUPS
    ensures OthersStay(w.backups, w1.backups, id)
  {
    hide StepRun, BackedUp;
    if s == BackupStep {
      BackupOnce(own, w, w1, id, job, at, ok);
      if ok {
        BackupAmongFew(w.backups, w1.backups, id, at);
      }
    } else {
      NoBackupMade(own, w, w1, id, job, at, s, ok);
    }
  }

  lemma {:induction false} ListAmongFew(own: set<Path>, ws: seq<World>, id: string, job: Job, clock: seq<int>,
                                        steps: seq<Builtin>, end: End, k: nat)
    requires ListRun(own, ws, id, job, clock, steps, end) && k < |ws|
    requires |AllFinished(ws[0].backups) - {id}| < KEEP_BACKUPS
    ensures OthersStay(ws[0].backups, ws[k].backups, id)
  {
    hide StepRun, ListRun;
    if k > 0 {
      OneTurn(own, ws, id, job, clock, steps, end, k - 1);
      ListAmongFew(own, ws, id, job, clock, steps, end, k - 1);
      var ok := StepRun(own, ws[k - 1], ws[k], id, job, clock[k - 1], steps[k - 1], true);
      StepAmongFew(own, ws[k - 1], ws[k], id, job, clock[k - 1], steps[k - 1], ok);
    }
  }

  lemma DeployAmongFew(own: set<Path>, s: State, s1: State, id: nat, r: Run)
    requires Deploys(own, s, s1, id, r) && AllOwned(s) && |AllFinished(s.w.backups)| < KEEP_BACKUPS
    ensures AllFinished(s1.w.backups) - {Tag(id)} == AllFinished(s.w.backups)
  {
    TagUnused(s, id);
    var bs := s.w.backups;
    assert AllFinished(bs) - {Tag(id)} == AllFinished(bs);
    hide StepRun, Tag, ListRun, HasBackup, AllOwned, Unused, AllFinished, AfterRollback;
    LastWorld(own, r.ws, r.id, r.job, r.clock, r.steps, r.end);
    ListAmongFew(own, r.ws, r.id, r.job, r.clock, r.steps, r.end, |r.ws| - 1);
    if r.back.Some? {
      LastWorld(own, r.ws2, r.id, r.job, r.clock2, r.rollback, r.back.value);
      ListAmongFew(own, r.ws2, r.id, r.job, r.clock2, r.rollback, r.back.value, |r.ws2| - 1);
    }
  }

  // ---- every deployment ----

  /** What a deployment leaves finished: of the others those kept, and its own if it finished one. */
  predicate Leaves(ids: seq<nat>, bs: map<string, Bundle>, after: map<string, Bundle>, t: string) {
    AllFinished(after) ==
    if t !in AllFinished(after) then AllFinished(bs)
    else if |ids| < KEEP_BACKUPS then AllFinished(bs) + {t}
    else AllFinished(bs) + {t} - {Tag(ids[0])}
  }

  lemma DeployLeaves(own: set<Path>, s: State, s1: State, id: nat, r: Run)
    requires Kept(s) && Deploys(own, s, s1, id, r) && DeployCounts(s, OrderOf(r))
    ensures Leaves(Latest(s.saved), s.w.backups, s1.w.backups, Tag(id))
  {
    KeptOwned(s);
    NewTag(s, id);
    KeptSize(s);
    var bs, after, t := s.w.backups, s1.w.backups, Tag(id);
    hide Kept, Deploys, Tag, Latest, OneBackupInBoth, InTimes, AllFinished, NotBackedUp, BackedUp, InTime, AllOwned,
         Leaves;
    if |Latest(s.saved)| < KEEP_BACKUPS {
      DeployAmongFew(own, s, s1, id, r);
      LeavesFew(Latest(s.saved), bs, after, t);
    } else {
      BackupsOfDeploy(own, s, s1, id, r);
      if NotBackedUp(bs, after, t) {
        LeavesSame(Latest(s.saved), bs, after, t);
      } else {
        var at :| InTime(s, at) && BackedUp(bs, after, t, at);
        FourthBackup(s, after, t, at);
        LeavesLast(Latest(s.saved), bs, after, t);
      }
    }
  }

  lemma NewTag(s: State, id: nat)
    requires Kept(s) && Unused(s, id)
    ensures id !in s.saved && Tag(id) !in s.w.backups
  {
    TagUnused(s, id);
    hide Tag, AllOwned;
    assert !Owned(s, id);
  }

  lemma LeavesFew(ids: seq<nat>, bs: map<string, Bundle>, after: map<string, Bundle>, t: string)
    requires |ids| < KEEP_BACKUPS && AllFinished(after) - {t} == AllFinished(bs)
    ensures Leaves(ids, bs, after, t)
  {
    hide AllFinished, Tag;
  }

  lemma LeavesSame(ids: seq<nat>, bs: map<string, Bundle>, after: map<string, Bundle>, t: string)
    requires t !in bs && NotBackedUp(bs, after, t)
    ensures Leaves(ids, bs, after, t)
  {
    hide Tag;
    assert AllFinished(after) == AllFinished(bs);
  }

  lemma LeavesLast(ids: seq<nat>, bs: map<string, Bundle>, after: map<string, Bundle>, t: string)
    requires |ids| == KEEP_BACKUPS && t in AllFinished(after)
    requires AllFinished(after) == AllFinished(bs) + {t} - {Tag(ids[0])}
    ensures Leaves(ids, bs, after, t)
  {
    hide AllFinished, Tag;
  }

  lemma KeptOwned(s: State)
    requires Kept(s)
    ensures AllOwned(s)
  {
  }

  lemma FourthBackup(s: State, after: map<string, Bundle>, t: string, at: int)
    requires |Latest(s.saved)| == KEEP_BACKUPS == |AllFinished(s.w.backups)| && t !in s.w.backups
    requires InTime(s, at) && BackedUp(s.w.backups, after, t, at)
    ensures AllFinished(after) == AllFinished(s.w.backups) + {t} - {Tag(Latest(s.saved)[0])} && t in AllFinished(after)
  {
    var bs, a := s.w.backups, Tag(Latest(s.saved)[0]);
    hide Latest, Tag, Pruned;
    var b :| Finished(b) && b.manifest.value.at == at && Pruned(bs[t := b], after, t);
    FourthIs(bs, b, t, a);
    hide AllFinished;
    PruneExact(bs[t := b], t, a);
  }

  /** A fourth one, and which of the four is the oldest. */
  lemma FourthIs(bs: map<string, Bundle>, b: Bundle, t: string, a: string)
    requires Finished(b) && t !in bs && a in AllFinished(bs)
    ensures var bs1 := bs[t := b];
            && AllFinished(bs1) == AllFinished(bs) + {t} && |AllFinished(bs1)| == |AllFinished(bs)| + 1 && a != t
            && AllFinished(bs1 - {a}) == AllFinished(bs1) - {a}
            && (IsStrictlyOldest(bs1, a) <==> IsStrictlyOldest(bs, a) && TimeOf(bs, a) < b.manifest.value.at)
  {
    OneMoreFinished(bs, b, t);
    assert AllFinished(bs) - {t} == AllFinished(bs);
    var bs1 := bs[t := b];
    assert forall x :: x in AllFinished(bs) ==> bs1[x] == bs[x];
    if IsStrictlyOldest(bs1, a) {
      assert t in AllFinished(bs1);
      assert forall x :: x in AllFinished(bs) ==> x in AllFinished(bs1);
    }
  }

  lemma {:induction false} ListKeeps(own: set<Path>, ws: seq<World>, id: string, job: Job, clock: seq<int>,
                                     steps: seq<Builtin>, end: End, k: nat)
    requires ListRun(own, ws, id, job, clock, steps, end) && k < |ws|
    ensures Keeps(ws[0], ws[k], id)
  {
    hide StepRun, ListRun;
    if k > 0 {
      OneTurn(own, ws, id, job, clock, steps, end, k - 1);
      ListKeeps(own, ws, id, job, clock, steps, end, k - 1);
      var ok := StepRun(own, ws[k - 1], ws[k], id, job, clock[k - 1], steps[k - 1], true);
      StepKeeps(own, ws[k - 1], ws[k], id, job, clock[k - 1], steps[k - 1], ok);
      KeepsOn(ws[0], ws[k - 1], ws[k], id);
    }
  }

  lemma StepKeeps(own: set<Path>, w: World, w1: World, id: string, job: Job, at: int, s: Builtin, ok: bool)
    requires StepRun(own, w, w1, id, job, at, s, ok)
    ensures Keeps(w, w1, id)
  {
    hide StepRun, BackedUp, Keeps;
    if s == BackupStep {
      BackupOnce(own, w, w1, id, job, at, ok);
      if ok {
        BackupKeeps(w, w1, id, at);
      } else {
        NoBackupKeeps(w, w1, id);
      }
    } else {
      NoBackupMade(own, w, w1, id, job, at, s, ok);
      KeepsAll(w, w1, id);
    }
  }

  lemma BackupKeeps(w: World, w1: World, id: string, at: int)
    requires BackedUp(w.backups, w1.backups, id, at)
    ensures Keeps(w, w1, id)
  {
    hide Pruned;
    var b :| Finished(b) && b.manifest.value.at == at && Pruned(w.backups[id := b], w1.backups, id);
    PrunedFrom(w.backups, b, w1.backups, id);
  }

  lemma NoBackupKeeps(w: World, w1: World, id: string)
    requires NotBackedUp(w.backups, w1.backups, id)
    ensures Keeps(w, w1, id)
  {
  }

  lemma DeployKeepsOwned(own: set<Path>, s: State, s1: State, id: nat, r: Run)
    requires AllOwned(s) && Deploys(own, s, s1, id, r)
    ensures AllOwned(s1) && Owned(s1, id) && forall n :: Owned(s, n) ==> Owned(s1, n)
  {
    OwnedAfterDeploy(own, s, s1, id, r);
    hide StepRun, Tag, ListRun, HasBackup, AllOwned, Unused, Owned, Keeps;
    LastWorld(own, r.ws, r.id, r.job, r.clock, r.steps, r.end);
    ListKeeps(own, r.ws, r.id, r.job, r.clock, r.steps, r.end, |r.ws| - 1);
    var w1 := r.ws[|r.ws| - 1];
    if r.back.Some? {
      LastWorld(own, r.ws2, r.id, r.job, r.clock2, r.rollback, r.back.value);
      ListKeeps(own, r.ws2, r.id, r.job, r.clock2, r.rollback, r.back.value, |r.ws2| - 1);
      KeepsOn(s.w, w1, r.ws2[|r.ws2| - 1], r.id);
      w1 := r.ws2[|r.ws2| - 1];
    }
    KeepsSame(s.w, w1, s1.w, r.id);
    StillOwned(s, s1, id);
  }

  /** The ids of those left are the latest again. */
  lemma LeavesLatest(saved: seq<nat>, id: nat, bs: map<string, Bundle>, after: map<string, Bundle>)
    requires AllFinished(bs) == SetOf(Tags(Latest(saved))) && Leaves(Latest(saved), bs, after, Tag(id))
    requires NoDup(saved) && id !in saved
    ensures var saved1 := if Tag(id) in AllFinished(after) then saved + [id] else saved;
            AllFinished(after) == SetOf(Tags(Latest(saved1)))
  {
    hide AllFinished, Tag, Tags, Latest;
    LatestOf(saved);
    LatestMore(saved, id);
    TagsMore(Latest(saved), id);
  }

  /** An order that counts keeps the count, however it goes. */
  lemma DeployKeepsKept(own: set<Path>, s: State, s1: State, id: nat, r: Run)
    requires Kept(s) && Deploys(own, s, s1, id, r) && DeployCounts(s, OrderOf(r))
    ensures Kept(s1)
  {
    SavedAfter(own, s, s1, id, r);
    DeployLeaves(own, s, s1, id, r);
    DeployKeepsOwned(own, s, s1, id, r);
    hide Deploys, DeployCounts, Tag, Latest, Owned, AllOwned, Tags, AllFinished, Leaves;
    LeavesLatest(s.saved, id, s.w.backups, s1.w.backups);
  }

  lemma SavedAfter(own: set<Path>, s: State, s1: State, id: nat, r: Run)
    requires Kept(s) && Deploys(own, s, s1, id, r)
    ensures id !in s.saved && s1.saved == if Tag(id) in AllFinished(s1.w.backups) then s.saved + [id] else s.saved
  {
    NewTag(s, id);
    hide Tag, DeployRun, Kept;
  }

  /** So does a rollback that comes to no backup step. */
  lemma RollbackKeepsKept(own: set<Path>, s: State, s1: State, id: nat, r: Run)
    requires Kept(s) && RollsBack(own, s, s1, id, r) && RollbackCounts(s, id, r.steps)
    ensures Kept(s1)
  {
    RollbackKeepsBackups(own, s, s1, id, r);
    RollbackKeepsOwned(own, s, s1, id, r);
    hide RollsBack, RollbackCounts, Tag, Latest, Owned, AllOwned, Tags;
  }

  lemma RollbackKeepsBackups(own: set<Path>, s: State, s1: State, id: nat, r: Run)
    requires RollsBack(own, s, s1, id, r) && RollbackCounts(s, id, r.steps)
    ensures s1.w.backups == s.w.backups && s1.saved == s.saved
  {
    hide StepRun, Tag, HasBackup, ListRun, RollbackBlock, Blocked;
    LastWorld(own, r.ws, r.id, r.job, r.clock, r.steps, r.end);
    var n := |r.ws| - 1;
    if HasBackup(s.w, r.id) {
      NoBackupsMade(own, r.ws, r.id, r.job, r.clock, r.steps, r.end, n);
    } else {
      NoBackupComes(own, r.ws, r.id, r.job, r.clock, r.steps, r.end, n);
    }
  }

  lemma RollbackKeepsOwned(own: set<Path>, s: State, s1: State, id: nat, r: Run)
    requires AllOwned(s) && RollsBack(own, s, s1, id, r) && s1.w.backups == s.w.backups
    ensures AllOwned(s1) && forall n :: Owned(s, n) ==> Owned(s1, n)
  {
    hide Tag, DeployRun, Owned, AllOwned;
    OwnedAfterRollback(s, s1, id, |s.live| - 1);
    KeepsAll(s.w, s1.w, Tag(id));
    StillOwned(s, s1, id);
  }

  // ---- over every history ----

  lemma {:induction false} KeptOverRuns(own: set<Path>, states: seq<State>, events: seq<Event>, n: nat)
    requires IsRun(own, states, events) && AllCount(states, events) && n <= |events|
    ensures Kept(states[n])
  {
    hide Deploys, RollsBack, Kept, DeployCounts, RollbackCounts;
    if n == 0 {
      NoBackups(states[0]);
    } else {
      KeptOverRuns(own, states, events, n - 1);
      var s, s1, e := states[n - 1], states[n], events[n - 1];
      assert Next(own, s, e, s1) && EventCounts(s, e);
      match e
      case Deploy(id, r) => DeployKeepsKept(own, s, s1, id, r);
      case Rollback(id, r) => RollbackKeepsKept(own, s, s1, id, r);
      case Retarget(target) => SameKept(s, s1);
    }
  }

  lemma NoBackups(s: State)
    requires Init(s)
    ensures Kept(s)
  {
  }

  lemma SameKept(s: State, s1: State)
    requires Kept(s) && s1 == s.(w := s.w.(target := s1.w.target))
    ensures Kept(s1)
  {
    hide Latest, Tags, Tag;
    assert forall id :: Owned(s, id) ==> Owned(s1, id);
  }

  /** In every history whose orders count, a finished backup is there for exactly the last three
      deployments that finished one. */
  lemma BackupsOverRuns(own: set<Path>, states: seq<State>, events: seq<Event>, n: nat)
    requires IsRun(own, states, events) && AllCount(states, events) && n <= |events|
    ensures Counted(states[n])
  {
    hide Next, EventCounts, Kept, Counted;
    KeptOverRuns(own, states, events, n);
    KeptIsCounted(states[n]);
  }
}
