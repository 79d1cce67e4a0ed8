/** Whole histories of one machine, and the rollback theorem over every one of them. */
module RolloutRuns {
  import opened Wrappers
  import opened Install
  import opened Deployments
  import opened Rollouts

  datatype Event = Deploy(id: nat, run: Run) | Rollback(id: nat, run: Run) | Retarget(target: Path)

  ghost predicate Next(own: set<Path>, s: State, e: Event, s1: State) {
    match e
    case Deploy(id, r) => Deploys(own, s, s1, id, r)
    case Rollback(id, r) => RollsBack(own, s, s1, id, r)
    case Retarget(target) => Retargets(s, s1, target)
  }

  ghost predicate IsRun(own: set<Path>, states: seq<State>, events: seq<Event>) {
    && |states| == |events| + 1 && Init(states[0])
    && forall k {:trigger events[k]} :: 0 <= k < |events| ==> Next(own, states[k], events[k], states[k + 1])
  }

  /** Deployments keep the lists and names to what can be undone, rollbacks only restore. */
  ghost predicate EventFits(s: State, e: Event) {
    match e
    case Deploy(id, r) => DeployFits(s, r)
    case Rollback(id, r) => OnlyRestores(r.steps)
    case Retarget(target) => true
  }

  ghost predicate AllFit(states: seq<State>, events: seq<Event>) {
    |states| == |events| + 1 && forall k {:trigger events[k]} :: 0 <= k < |events| ==> EventFits(states[k], events[k])
  }

  /** A rollback that succeeds gives the disk and the installed name back as they were just before
      that deployment began, and so does an automatic one; without its backup a rollback fails and
      changes nothing. */
  ghost predicate Restored(states: seq<State>, events: seq<Event>, n: nat)
    requires n < |events| && |states| == |events| + 1
  {
    var w, w1 := states[n].w, states[n + 1].w;
    match events[n]
    case Deploy(id, r) => r.back == Some(Ok) ==> w1.disk == w.disk && w1.installed == w.installed
    case Rollback(id, r) =>
      && (r.end == Ok ==> exists j :: 0 <= j < n && events[j].Deploy? && events[j].id == id
                                      && w1.disk == states[j].w.disk && w1.installed == states[j].w.installed)
      && (!HasBackup(w, Tag(id)) ==> r.end != Ok && states[n + 1] == states[n])
    case Retarget(target) => true
  }

  /** The level remembers the machine as it was when event `j` deployed it. */
  ghost predicate Remembered(states: seq<State>, events: seq<Event>, n: nat, l: Level) {
    exists j :: 0 <= j < n && n <= |events| && |states| == |events| + 1
                && events[j].Deploy? && events[j].id == l.id && l.before == states[j].w
  }

  ghost predicate AllRemembered(states: seq<State>, events: seq<Event>, n: nat)
    requires n < |states|
  {
    forall k {:trigger states[n].live[k]} ::
      0 <= k < |states[n].live| ==> Remembered(states, events, n, states[n].live[k])
  }

  lemma {:induction false} InvOverRuns(own: set<Path>, states: seq<State>, events: seq<Event>, n: nat)
    requires IsRun(own, states, events) && AllFit(states, events) && n <= |events|
    ensures Inv(own, states[n]) && AllRemembered(states, events, n)
  {
    hide Inv, Deploys, RollsBack, DeployFits, OnlyRestores, Remembered;
    if n == 0 {
      InitInv(own, states[0]);
    } else {
      InvOverRuns(own, states, events, n - 1);
      var s, s1, e := states[n - 1], states[n], events[n - 1];
      assert Next(own, s, e, s1) && EventFits(s, e);
      EventKeepsInv(own, s, s1, e);
      forall k | 0 <= k < |s1.live| ensures Remembered(states, events, n, s1.live[k]) {
        if k < |s.live| {
          RememberedLater(states, events, n, s.live[k]);
        } else {
          JustRemembered(states, events, n, s1.live[k]);
        }
      }
    }
  }

  lemma EventKeepsInv(own: set<Path>, s: State, s1: State, e: Event)
    requires Inv(own, s) && Next(own, s, e, s1) && EventFits(s, e)
    ensures Inv(own, s1)
    ensures forall k :: 0 <= k < |s1.live| && k < |s.live| ==> s1.live[k] == s.live[k]
    ensures forall k {:trigger s1.live[k]} :: |s.live| <= k < |s1.live| ==>
              e.Deploy? && s1.live[k].id == e.id && s1.live[k].before == s.w
  {
    hide Inv, Deploys, RollsBack, DeployFits, OnlyRestores;
    match e
    case Deploy(id, r) =>
      DeployKeepsInv(own, s, s1, id, r);
      LiveAfterDeploy(own, s, s1, id, r);
    case Rollback(id, r) =>
      RollbackRestores(own, s, s1, id, r);
      LiveAfterRollback(own, s, s1, id, r);
    case Retarget(target) =>
      RetargetKeepsInv(own, s, s1, target);
  }

  lemma InitInv(own: set<Path>, s: State)
    requires Init(s)
    ensures Inv(own, s)
  {
  }

  lemma RememberedLater(states: seq<State>, events: seq<Event>, n: nat, l: Level)
    requires 0 < n <= |events| && Remembered(states, events, n - 1, l)
    ensures Remembered(states, events, n, l)
  {
  }

  lemma JustRemembered(states: seq<State>, events: seq<Event>, n: nat, l: Level)
    requires 0 < n <= |events| && |states| == |events| + 1
    requires events[n - 1].Deploy? && events[n - 1].id == l.id && l.before == states[n - 1].w
    ensures Remembered(states, events, n, l)
  {
  }

  lemma LiveAfterDeploy(own: set<Path>, s: State, s1: State, id: nat, r: Run)
    requires Deploys(own, s, s1, id, r)
    ensures s1.live == if r.back == Some(Ok) then s.live else s.live + [Level(id, r.job, s.w)]
  {
  }

  lemma LiveAfterRollback(own: set<Path>, s: State, s1: State, id: nat, r: Run)
    requires RollsBack(own, s, s1, id, r)
    ensures s.live != [] && id == s.live[|s.live| - 1].id
    ensures s1.live == if r.end == Ok then s.live[..|s.live| - 1] else s.live
  {
    hide DeployRun, Tag;
  }

  /** In every run whose lists and names fit, every rollback restores. */
  lemma RollbackOverRuns(own: set<Path>, states: seq<State>, events: seq<Event>, n: nat)
    requires IsRun(own, states, events) && AllFit(states, events) && n < |events|
    ensures Restored(states, events, n)
  {
    hide Inv, Deploys, RollsBack, DeployFits, OnlyRestores, Tag, HasBackup;
    InvOverRuns(own, states, events, n);
    var e, s, s1 := events[n], states[n], states[n + 1];
    assert Next(own, s, e, s1) && EventFits(s, e);
    match e
    case Deploy(id, r) =>
      DeployKeepsInv(own, s, s1, id, r);
    case Rollback(id, r) =>
      RollbackRestores(own, s, s1, id, r);
      LiveAfterRollback(own, s, s1, id, r);
      assert Remembered(states, events, n, s.live[|s.live| - 1]);
    case Retarget(target) =>
  }
}
