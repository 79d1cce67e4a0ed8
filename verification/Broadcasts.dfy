/** The broadcaster as the interleaving of its lock-protected sections. A push holds `pushMu`
    from its snapshot of the channels to the end of its sweep; subscribing and cancelling hold
    `mutex` only and fall between any two of a push's steps; a cancelled channel is closed
    later, by a goroutine that waits for `pushMu`. */
module Broadcasts {
  import opened Sequences

  type Chan = nat

  datatype Status = Pending | Distributing | Closed

  /** Who holds `pushMu`, and how far it is. */
  datatype Phase<V> =
    | Free
    | Locked(value: V)
    | Sending(value: V, todo: set<Chan>, stale: set<Chan>)
    | Sweeping(stale: set<Chan>)
    | Removed(d: Chan, stale: set<Chan>)
    | ShuttingDown

  /** `closed` are the closed channels, `closing` those a goroutine still has to close, `since`
      how many values had been pushed when a channel was made, `log` what it was sent. `panicked`
      is set by a send on a closed channel, by closing one twice, and by closing one somebody
      is sending on. */
  datatype State<V> = State(dests: seq<Chan>, status: Status, phase: Phase<V>, closing: set<Chan>, closed: set<Chan>,
                            since: map<Chan, nat>, log: map<Chan, seq<V>>, history: seq<V>,
                            statusClosed: bool, panicked: bool)

  datatype Step<V> =
    | Subscribe(d: Chan)
    | Cancel(d: Chan)
    | CloseDest(d: Chan)
    | PushLock(value: V)
    | PushSnapshot
    | Send(d: Chan)
    | TimeOut(d: Chan)
    | SendsDone
    | SweepRemove(d: Chan)
    | SweepClose
    | PushEnd
    | Close
    | CloseStatus

  predicate Busy<V(==)>(s: State<V>, d: Chan) { s.phase.Sending? && d in s.phase.todo }

  function CloseChan<V(==)>(s: State<V>, d: Chan): State<V> {
    s.(closed := s.closed + {d}, panicked := s.panicked || d in s.closed || Busy(s, d))
  }

  /** `Close` closes every channel of the list. */
  function CloseEach<V(==)>(s: State<V>, ds: seq<Chan>): State<V> {
    if ds == [] then s else CloseChan(CloseEach(s, ds[..|ds| - 1]), ds[|ds| - 1])
  }

  /** `enqueueStatus`, which sends on the status channel. */
  function Enqueue<V>(s: State<V>): State<V> { s.(panicked := s.panicked || s.statusClosed) }

  ghost predicate Next<V>(s: State<V>, s1: State<V>, e: Step<V>) {
    match e
    case Subscribe(d) =>
      if s.status.Closed? then s1 == s
      else d !in s.since && s1 == s.(dests := s.dests + [d], since := s.since[d := |s.history|], log := s.log[d := []])
    case Cancel(d) =>
      if d in s.dests then s1 == s.(dests := Drop(s.dests, d), closing := s.closing + {d}) else s1 == s
    case CloseDest(d) => s.phase.Free? && d in s.closing && s1 == CloseChan(s, d).(closing := s.closing - {d})
    case PushLock(v) => s.phase.Free? && s1 == s.(phase := Locked(v))
    case PushSnapshot =>
      && s.phase.Locked?
      && if s.status.Closed? then s1 == s.(phase := Free)
         else s1 == Enqueue(s).(status := Distributing, phase := Sending(s.phase.value, SetOf(s.dests), {}),
                                history := s.history + [s.phase.value])
    case Send(d) =>
      && s.phase.Sending? && d in s.phase.todo && d in s.log
      && s1 == s.(phase := Sending(s.phase.value, s.phase.todo - {d}, s.phase.stale),
                  log := s.log[d := s.log[d] + [s.phase.value]],
                  panicked := s.panicked || d in s.closed)
    case TimeOut(d) =>
      && s.phase.Sending? && d in s.phase.todo
      && s1 == s.(phase := Sending(s.phase.value, s.phase.todo - {d}, s.phase.stale + {d}))
    case SendsDone => s.phase.Sending? && s.phase.todo == {} && s1 == s.(phase := Sweeping(s.phase.stale))
    case SweepRemove(d) =>
      && s.phase.Sweeping? && d in s.phase.stale
      && if d in s.dests then s1 == s.(dests := Drop(s.dests, d), phase := Removed(d, s.phase.stale - {d}))
         else s1 == s.(phase := Sweeping(s.phase.stale - {d}))
    case SweepClose => s.phase.Removed? && s1 == CloseChan(s, s.phase.d).(phase := Sweeping(s.phase.stale))
    case PushEnd => s.phase.Sweeping? && s.phase.stale == {} && s1 == Enqueue(s).(status := Pending, phase := Free)
    case Close =>
      && s.phase.Free?
      && if s.status.Closed? then s1 == s
         else s1 == CloseEach(s, s.dests).(dests := [], status := Closed, phase := ShuttingDown)
    case CloseStatus => s.phase.ShuttingDown?
                        && s1 == s.(phase := Free, statusClosed := true, panicked := s.panicked || s.statusClosed)
  }

  ghost predicate Init<V>(s: State<V>) { s == State([], Pending, Free, {}, {}, map[], map[], [], false, false) }

  /** What a channel was sent is a stretch of the history without a gap, from when it was made. */
  predicate Block<V(==)>(history: seq<V>, since: nat, log: seq<V>) {
    since + |log| <= |history| && log == history[since..since + |log|]
  }

  function StaleOf<V>(p: Phase<V>): set<Chan> { if p.Sending? || p.Sweeping? || p.Removed? then p.stale else {} }

  function TodoOf<V>(p: Phase<V>): set<Chan> { if p.Sending? then p.todo else {} }

  function Owed<V>(s: State<V>, d: Chan): nat { if d in TodoOf(s.phase) || d in StaleOf(s.phase) then 1 else 0 }

  /** Every channel is in one place: subscribed, waiting to be closed, just swept, or closed. */
  ghost predicate Places<V>(s: State<V>) {
    && NoDup(s.dests) && s.since.Keys == s.log.Keys
    && (forall d :: d in s.dests ==> d in s.since && d !in s.closing && d !in s.closed)
    && (forall d :: d in s.closing ==> d in s.since && d !in s.closed)
    && (forall d :: d in s.closed ==> d in s.since)
    && (s.phase.Removed? ==>
          && s.phase.d in s.since && s.phase.d !in s.dests && s.phase.d !in s.closing && s.phase.d !in s.closed
          && s.phase.d !in s.phase.stale)
    && (forall d ::
          d in s.since ==> d in s.dests || d in s.closing || d in s.closed || (s.phase.Removed? && s.phase.d == d))
  }

  /** A channel a push has in hand is not closed. */
  ghost predicate InHand<V>(s: State<V>) {
    && TodoOf(s.phase) !! StaleOf(s.phase)
    && (forall d :: d in TodoOf(s.phase) || d in StaleOf(s.phase) ==> d in s.since && d !in s.closed)
  }

  /** A subscribed channel, or one being sent to, is behind by the value in hand at most. */
  ghost predicate LogOk<V>(s: State<V>, d: Chan)
    requires d in s.since
  {
    && d in s.log && Block(s.history, s.since[d], s.log[d])
    && (d in s.dests || d in TodoOf(s.phase) ==> s.since[d] + |s.log[d]| + Owed(s, d) == |s.history|)
  }

  ghost predicate Logs<V>(s: State<V>) {
    && (forall d :: d in s.since ==> LogOk(s, d))
    && (s.phase.Sending? ==> s.history != [] && s.history[|s.history| - 1] == s.phase.value)
  }

  ghost predicate Flags<V>(s: State<V>) {
    && !s.panicked && (s.statusClosed ==> s.status.Closed? && !s.phase.ShuttingDown?)
    && (s.status.Closed? ==> s.dests == [] && (s.phase.Free? || s.phase.Locked? || s.phase.ShuttingDown?))
    && (s.phase.ShuttingDown? ==> s.status.Closed?)
  }

  ghost predicate Inv<V>(s: State<V>) { Places(s) && InHand(s) && Logs(s) && Flags(s) }

  // ---- the list of channels ----

  lemma DropAll(s: seq<Chan>, d: Chan)
    requires NoDup(s)
    ensures NoDup(Drop(s, d)) && forall x :: x in Drop(s, d) <==> x in s && x != d
  {
    hide NoDup;
    forall x ensures x in Drop(s, d) <==> x in s && x != d {
      DropHas(s, d, x);
    }
    DropNoDup(s, d);
  }

  lemma {:induction false} CloseEachIs<V>(s: State<V>, ds: seq<Chan>)
    requires NoDup(ds) && s.phase.Free? && forall d :: d in ds ==> d !in s.closed
    ensures CloseEach(s, ds) == s.(closed := s.closed + SetOf(ds))
  {
    if ds == [] {
      assert s.closed + SetOf(ds) == s.closed;
    } else {
      var front, d := ds[..|ds| - 1], ds[|ds| - 1];
      assert ds == front + [d];
      CloseEachIs(s, front);
      assert d in ds;
      assert SetOf(ds) == SetOf(front) + {d};
    }
  }

  /** The list of channels under `mutex`. */
  class Dests {
    var dests: seq<Chan>

    constructor ()
      ensures dests == []
    {
      dests := [];
    }

    /** `unsubscribe`. */
    method Unsubscribe(d: Chan) returns (was: bool)
      modifies this
      ensures was <==> d in old(dests)
      ensures dests == Drop(old(dests), d)
    {
      for i := 0 to |dests|
        invariant dests == old(dests) && d !in dests[..i]
      {
        if dests[i] == d {
          DropAt(dests, d, i);
          dests := dests[..i] + dests[i + 1..];
          return true;
        }
      }
      DropNone(dests, d);
      return false;
    }
  }

  // ---- the steps ----

  lemma PlacesKept<V>(s: State<V>, s1: State<V>, e: Step<V>)
    requires Inv(s) && Next(s, s1, e)
    ensures Places(s1)
  {
    hide *;
    match e
    case Cancel(d) => PlacesAtEnd(s, s1, e);
    case SweepRemove(d) => PlacesAtEnd(s, s1, e);
    case Close => PlacesAtEnd(s, s1, e);
    case _ => PlacesOnTheWay(s, s1, e);
  }

  lemma PlacesAtEnd<V>(s: State<V>, s1: State<V>, e: Step<V>)
    requires Inv(s) && Next(s, s1, e) && (e.Cancel? || e.SweepRemove? || e.Close?)
    ensures Places(s1)
  {
    hide Logs, Drop;
    match e
    case Cancel(d) => DropAll(s.dests, d);
    case SweepRemove(d) => DropAll(s.dests, d);
    case Close => if !s.status.Closed? { CloseEachIs(s, s.dests); }
  }

  lemma PlacesOnTheWay<V>(s: State<V>, s1: State<V>, e: Step<V>)
    requires Inv(s) && Next(s, s1, e) && !e.Cancel? && !e.SweepRemove? && !e.Close?
    ensures Places(s1)
  {
    hide Logs, Drop, CloseEach;
  }

  lemma InHandKept<V>(s: State<V>, s1: State<V>, e: Step<V>)
    requires Inv(s) && Next(s, s1, e)
    ensures InHand(s1)
  {
    hide *;
    match e
    case Close => InHandAtClose(s, s1);
    case PushSnapshot => InHandOnTheWay(s, s1, e);
    case Send(d) => InHandOnTheWay(s, s1, e);
    case TimeOut(d) => InHandOnTheWay(s, s1, e);
    case SweepRemove(d) => InHandOnTheWay(s, s1, e);
    case _ => InHandElse(s, s1, e);
  }

  lemma InHandOnTheWay<V>(s: State<V>, s1: State<V>, e: Step<V>)
    requires Inv(s) && Next(s, s1, e) && (e.PushSnapshot? || e.Send? || e.TimeOut? || e.SweepRemove?)
    ensures InHand(s1)
  {
    hide Logs, Drop, CloseEach;
  }

  lemma InHandElse<V>(s: State<V>, s1: State<V>, e: Step<V>)
    requires Inv(s) && Next(s, s1, e) && !(e.PushSnapshot? || e.Send? || e.TimeOut? || e.SweepRemove? || e.Close?)
    ensures InHand(s1)
  {
    hide Logs, Drop, CloseEach;
  }

  lemma InHandAtClose<V>(s: State<V>, s1: State<V>)
    requires Inv(s) && Next(s, s1, Close)
    ensures InHand(s1)
  {
    hide Logs, Drop;
    if !s.status.Closed? {
      CloseEachIs(s, s.dests);
    }
  }

  lemma FlagsKept<V>(s: State<V>, s1: State<V>, e: Step<V>)
    requires Inv(s) && Next(s, s1, e)
    ensures Flags(s1)
  {
    hide Logs, Drop;
    if e.Close? && !s.status.Closed? {
      CloseEachIs(s, s.dests);
    }
  }

  lemma Untouched<V>(s: State<V>, s1: State<V>, d: Chan)
    requires d in s.since && LogOk(s, d) && d in s1.since && s1.since[d] == s.since[d] && d in s1.log
             && s1.log[d] == s.log[d] && s1.history == s.history
    requires d in s1.dests || d in TodoOf(s1.phase) ==>
               (d in s.dests || d in TodoOf(s.phase)) && Owed(s1, d) == Owed(s, d)
    ensures LogOk(s1, d)
  {
  }

  lemma LogKept<V>(s: State<V>, s1: State<V>, e: Step<V>, d: Chan)
    requires Inv(s) && Next(s, s1, e) && d in s1.since
    ensures LogOk(s1, d)
  {
    hide Inv, Next, LogOk;
    match e
    case Subscribe(c) =>
      if d !in s.since { NewLogAt(s, s1, c, d); } else { LogStays(s, s1, e, d); }
    case PushSnapshot =>
      if s.status.Closed? { LogStays(s, s1, e, d); } else { PushedAt(s, s1, d); }
    case Send(c) =>
      if d == c { SentAt(s, s1, d); } else { LogStays(s, s1, e, d); }
    case Cancel(c) => LogStaysAtEnd(s, s1, e, d);
    case SweepRemove(c) => LogStaysAtEnd(s, s1, e, d);
    case Close => LogStaysAtEnd(s, s1, e, d);
    case _ => LogStays(s, s1, e, d);
  }

  lemma NewLogAt<V>(s: State<V>, s1: State<V>, c: Chan, d: Chan)
    requires Inv(s) && Next(s, s1, Subscribe(c)) && d in s1.since && d !in s.since
    ensures LogOk(s1, d)
  {
    NewLog(s1, d);
  }

  lemma PushedAt<V>(s: State<V>, s1: State<V>, d: Chan)
    requires Inv(s) && Next(s, s1, PushSnapshot) && d in s1.since && !s.status.Closed?
    ensures LogOk(s1, d)
  {
    hide LogOk, Block;
    Pushed(s, s1, d);
  }

  lemma SentAt<V>(s: State<V>, s1: State<V>, d: Chan)
    requires Inv(s) && Next(s, s1, Send(d)) && d in s1.since
    ensures LogOk(s1, d)
  {
    hide LogOk, Block;
    Sent(s, s1, d);
  }

  /** A step that sends nothing to `d` and pushes nothing. */
  lemma LogStays<V>(s: State<V>, s1: State<V>, e: Step<V>, d: Chan)
    requires Inv(s) && Next(s, s1, e) && d in s1.since && !e.Cancel? && !e.SweepRemove? && !e.Close?
    requires (e.Subscribe? ==> d in s.since) && (e.PushSnapshot? ==> s.status.Closed?) && (e.Send? ==> e.d != d)
    ensures LogOk(s1, d)
  {
    hide LogOk, Block;
    assert LogOk(s, d);
    Untouched(s, s1, d);
  }

  lemma LogStaysAtEnd<V>(s: State<V>, s1: State<V>, e: Step<V>, d: Chan)
    requires Inv(s) && Next(s, s1, e) && d in s1.since && (e.Cancel? || e.SweepRemove? || e.Close?)
    ensures LogOk(s1, d)
  {
    hide Drop, LogOk, Block;
    match e {
      case Cancel(c) => DropAll(s.dests, c);
      case SweepRemove(c) => DropAll(s.dests, c);
      case Close => if !s.status.Closed? { CloseEachIs(s, s.dests); }
    }
    assert LogOk(s, d);
    Untouched(s, s1, d);
  }

  lemma NewLog<V>(s1: State<V>, d: Chan)
    requires d in s1.since && s1.since[d] == |s1.history| && d in s1.log && s1.log[d] == [] && Owed(s1, d) == 0
    ensures LogOk(s1, d)
  {
  }

  lemma Pushed<V>(s: State<V>, s1: State<V>, d: Chan)
    requires Inv(s) && s.phase.Locked? && !s.status.Closed? && d in s.since && Next(s, s1, PushSnapshot)
    ensures LogOk(s1, d)
  {
    assert LogOk(s, d);
    assert Block(s1.history, s.since[d], s.log[d]) by { assert s1.history[..|s.history|] == s.history; }
  }

  lemma Sent<V>(s: State<V>, s1: State<V>, d: Chan)
    requires Inv(s) && Next(s, s1, Send(d)) && d in s.since
    ensures LogOk(s1, d)
  {
    assert LogOk(s, d);
    var n := |s.history| - 1;
    assert s.history[s.since[d]..] == s.history[s.since[d]..n] + [s.history[n]];
  }

  lemma LogsKept<V>(s: State<V>, s1: State<V>, e: Step<V>)
    requires Inv(s) && Next(s, s1, e)
    ensures Logs(s1)
  {
    hide Drop, LogOk, Places, InHand, Flags;
    forall d | d in s1.since ensures LogOk(s1, d) {
      LogKept(s, s1, e, d);
    }
    if e.Close? && !s.status.Closed? {
      assert Places(s);
      CloseEachPhase(s, s.dests);
    }
  }

  lemma {:induction false} CloseEachPhase<V>(s: State<V>, ds: seq<Chan>)
    ensures CloseEach(s, ds).phase == s.phase && CloseEach(s, ds).history == s.history
  {
    if ds != [] {
      CloseEachPhase(s, ds[..|ds| - 1]);
    }
  }

  lemma StepKeepsInv<V>(s: State<V>, s1: State<V>, e: Step<V>)
    requires Inv(s) && Next(s, s1, e)
    ensures Inv(s1)
  {
    hide Places, InHand, Logs, Flags, Next;
    PlacesKept(s, s1, e);
    InHandKept(s, s1, e);
    LogsKept(s, s1, e);
    FlagsKept(s, s1, e);
  }

  ghost predicate IsRun<V>(states: seq<State<V>>, steps: seq<Step<V>>) {
    && |states| == |steps| + 1 && Init(states[0])
    && forall k {:trigger steps[k]} :: 0 <= k < |steps| ==> Next(states[k], states[k + 1], steps[k])
  }

  lemma {:induction false} InvOverRuns<V>(states: seq<State<V>>, steps: seq<Step<V>>, n: nat)
    requires IsRun(states, steps) && n <= |steps|
    ensures Inv(states[n])
  {
    hide Inv, Next;
    if n == 0 {
      assert Inv(states[0]) by { EmptyInv(states[0]); }
    } else {
      InvOverRuns(states, steps, n - 1);
      StepKeepsInv(states[n - 1], states[n], steps[n - 1]);
    }
  }

  lemma EmptyInv<V>(s: State<V>)
    requires Init(s)
    ensures Inv(s)
  {
  }

  /** In every interleaving nothing is sent on a closed channel and nothing is closed twice; what
      a channel was sent is a stretch of all pushed values from when it was made, and, between
      pushes, a channel still subscribed has been sent all of them. */
  lemma BroadcastOverRuns<V>(states: seq<State<V>>, steps: seq<Step<V>>, n: nat, d: Chan)
    requires IsRun(states, steps) && n <= |steps| && d in states[n].since
    ensures var s := states[n];
            && !s.panicked && d in s.log
            && Block(s.history, s.since[d], s.log[d])
            && (d in s.dests && (s.phase.Free? || s.phase.Locked?) ==> s.log[d] == s.history[s.since[d]..])
    ensures states[n].status.Closed? && states[n].phase.Free? && states[n].closing == {} ==> d in states[n].closed
  {
    hide Next;
    InvOverRuns(states, steps, n);
  }
}
