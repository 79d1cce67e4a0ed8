/** Sending a file to a worker in chunks that can be resumed: what the finished file is, whatever
    is lost on the way. */
module Transfers {
  import opened Wrappers
  import opened Bytes

  /** An open `SaveFile`: the high-water mark, the size announced, and the hash announced or "". */
  datatype Save = Save(written: int, size: int, hash: string)

  /** The worker's side of one transfer: the `.part` file, the final file, the open save. */
  datatype Disk = Disk(part: Option<seq<byte>>, final: Option<seq<byte>>, save: Option<Save>)

  datatype Refusal = BadPath | IsFolder | Exists | NoParent

  datatype InitReply = Accepted(resume: int) | Rejected(why: Refusal)

  /** `FileInitRequest`, and what the worker finds where it points: whether the path is a good one,
      whether a folder stands there, whether its folder does. */
  datatype Ask = Ask(size: int, hash: string, exclusive: bool, resume: bool, abs: bool)

  datatype Place = Place(good: bool, folder: bool, parent: bool)

  datatype Result = Done | Incomplete | Corrupt | Unknown

  function Zeros(n: nat): (r: seq<byte>)
    ensures |r| == n
  {
    seq(n, i => 0)
  }

  /** `os.File.WriteAt`: a write behind the end leaves zeros between. */
  function Overwritten(f: seq<byte>, off: nat, data: seq<byte>): seq<byte> {
    if off > |f| then f + Zeros(off - |f|) + data
    else f[..off] + data + if off + |data| < |f| then f[off + |data|..] else []
  }

  /** `checkDest` and the check of the path before it. */
  function Refused(d: Disk, ask: Ask, at: Place): Option<Refusal> {
    if !at.good then Some(BadPath)
    else if at.folder then Some(IsFolder)
    else if d.final.Some? && ask.exclusive then Some(Exists)
    else if ask.abs && !at.parent then Some(NoParent)
    else None
  }

  /** `fileInit`. */
  function Inited(d: Disk, ask: Ask, at: Place): (Disk, InitReply) {
    if Refused(d, ask, at).Some? then (d, Rejected(Refused(d, ask, at).value))
    else
      var kept := if ask.resume && d.part.Some? && |d.part.value| <= ask.size then d.part.value else [];
      (Disk(Some(kept), d.final, Some(Save(|kept|, ask.size, ask.hash))), Accepted(|kept|))
  }

  /** `fileChunk` and `SaveFile.WriteAt`; false is an error answer. */
  function Chunked(d: Disk, off: int, data: seq<byte>): (Disk, bool) {
    if d.save.None? || d.part.None? || off < 0 then (d, false)
    else
      var s, end := d.save.value, off + |data|;
      (d.(part := Some(Overwritten(d.part.value, off, data)),
          save := Some(s.(written := if end > s.written then end else s.written))), true)
  }

  /** `fileResult`. A wrong hash throws the part away. */
  function Finished(d: Disk, sha: seq<byte> -> string): (Disk, Result) {
    if d.save.None? || d.part.None? then (d, Unknown)
    else if d.save.value.written < d.save.value.size then (d, Incomplete)
    else if d.save.value.hash != ""
    && sha(d.part.value) != d.save.value.hash then (d.(part := None, save := None), Corrupt)
    else (Disk(None, d.part, None), Done)
  }

  function Max(a: int, b: int): int { if a < b then b else a }

  /** `g` is `f` with `data` written at `off`, a gap filled with zeros. */
  ghost predicate PutAt(f: seq<byte>, off: nat, data: seq<byte>, g: seq<byte>) {
    && |g| == Max(|f|, off + |data|)
    && forall k {:trigger g[k]} :: 0 <= k < |g| ==>
         g[k] == if off <= k < off + |data| then data[k - off] else if k < |f| then f[k] else 0
  }

  lemma OverwrittenIs(f: seq<byte>, off: nat, data: seq<byte>)
    ensures PutAt(f, off, data, Overwritten(f, off, data))
  {
  }

  class Receiver {
    var part: Option<seq<byte>>
    var final: Option<seq<byte>>
    var save: Option<Save>

    constructor (part: Option<seq<byte>>, final: Option<seq<byte>>)
      ensures Now() == Disk(part, final, None)
    {
      this.part, this.final, save := part, final, None;
    }

    function Now(): Disk
      reads this
    {
      Disk(part, final, save)
    }

    method FileInit(ask: Ask, at: Place) returns (r: InitReply)
      modifies this
      ensures (Now(), r) == Inited(old(Now()), ask, at)
      ensures r.Rejected? <==>
                !at.good || at.folder || (ask.exclusive && old(final).Some?) || (ask.abs && !at.parent)
      ensures r.Rejected? ==> Now() == old(Now())
      ensures final == old(final)
      ensures r.Accepted? ==> part.Some? && r.resume == |part.value|
                              && part.value == if ask.resume && old(part).Some? && |old(part).value| <= ask.size
                                               then old(part).value else []
    {
      if !at.good {
        return Rejected(BadPath);
      }
      var why := CheckDest(ask.abs, ask.exclusive, at);
      if why.Some? {
        return Rejected(why.value);
      }
      save := None;
      var resume := 0;
      if ask.resume {
        if part.Some? {
          if |part.value| <= ask.size {
            resume := |part.value|;
          } else {
            part := None;
          }
        }
      } else {
        part := None;
      }
      var written := 0;
      if part.Some? {
        written := |part.value|;
      } else {
        part := Some([]);
      }
      save := Some(Save(written, ask.size, ask.hash));
      return Accepted(resume);
    }

    method CheckDest(abs: bool, exclusive: bool, at: Place) returns (why: Option<Refusal>)
      ensures forall ask: Ask ::
                at.good && ask.abs == abs && ask.exclusive == exclusive ==> why == Refused(Now(), ask, at)
    {
      if at.folder {
        return Some(IsFolder);
      }
      if final.Some? && exclusive {
        return Some(Exists);
      }
      if abs && !at.parent {
        return Some(NoParent);
      }
      return None;
    }

    method FileChunk(off: int, data: seq<byte>) returns (ok: bool)
      modifies this
      ensures (Now(), ok) == Chunked(old(Now()), off, data)
      ensures ok <==> old(save).Some? && old(part).Some? && off >= 0
      ensures final == old(final) && (!ok ==> Now() == old(Now()))
      ensures ok ==> && part.Some? && PutAt(old(part).value, off, data, part.value)
                     && save.Some? && save.value == old(save).value.(written := save.value.written)
                     && save.value.written == Max(old(save).value.written, off + |data|)
    {
      if save.None? || part.None? || off < 0 {
        return false;
      }
      OverwrittenIs(part.value, off, data);
      hide PutAt, Overwritten;
      part := Some(Overwritten(part.value, off, data));
      var end := off + |data|;
      if end > save.value.written {
        save := Some(save.value.(written := end));
      }
      return true;
    }

    method FileResult(sha: seq<byte> -> string) returns (r: Result)
      modifies this
      ensures (Now(), r) == Finished(old(Now()), sha)
      ensures r.Unknown? <==> old(save).None? || old(part).None?
      ensures r.Incomplete? <==> old(save).Some? && old(part).Some? && old(save).value.written < old(save).value.size
      ensures r.Unknown? || r.Incomplete? ==> Now() == old(Now())
      ensures r.Corrupt? ==> Now() == Disk(None, old(final), None)
                             && old(save).value.hash != "" && old(save).value.hash != sha(old(part).value)
      ensures r.Done? ==> Now() == Disk(None, old(part), None)
                          && (old(save).value.hash == "" || old(save).value.hash == sha(old(part).value))
    {
      if save.None? || part.None? {
        return Unknown;
      }
      if save.value.written < save.value.size {
        return Incomplete;
      }
      if save.value.hash != "" {
        var got := sha(part.value);
        if got != save.value.hash {
          part, save := None, None;
          return Corrupt;
        }
      }
      final, part, save := part, None, None;
      return Done;
    }
  }

  // ---- sending ----

  /** Between attempts, or in the chunk loop of one. */
  datatype Sender = Idle | Sending(offset: int)

  /** `base` is what the present `.part` began as; `done` says the last thing handled was a
      `fileResult` that completed the file. */
  datatype State = State(disk: Disk, sender: Sender, base: seq<byte>, done: bool)

  datatype Fate = Lost | NoAck | Acked

  datatype Step = Init(at: Place, fate: Fate) | Chunk(k: nat, fate: Fate) | Finish(fate: Fate) | Expire | Abort

  datatype Job = Job(source: seq<byte>, hash: string, exclusive: bool, abs: bool, sha: seq<byte> -> string)

  /** The supervisor always offers to resume. */
  function AskOf(j: Job): Ask { Ask(|j.source|, j.hash, j.exclusive, true, j.abs) }

  /** The part a transfer starts on top of: none, if it is too long. */
  function Base(part: Option<seq<byte>>, size: int): seq<byte> {
    if part.Some? && |part.value| <= size then part.value else []
  }

  ghost predicate Start(j: Job, s: State) {
    s.disk.save.None? && s.sender.Idle? && s.base == Base(s.disk.part, |j.source|) && !s.done
  }

  /** One call of `sendOnce`: lost, or handled with its answer lost, or answered. Anything but a
      good answer ends the attempt. */
  ghost predicate Next(j: Job, s: State, s1: State, e: Step) {
    match e
    case Init(at, fate) =>
      && s.sender.Idle?
      && if fate.Lost? then s1 == s.(done := false)
         else
           var (d, r) := Inited(s.disk, AskOf(j), at);
           s1 == State(d, if fate.Acked? && r.Accepted? then Sending(r.resume) else Idle, s.base, false)
    case Chunk(k, fate) =>
      && s.sender.Sending? && 1 <= k && 0 <= s.sender.offset && s.sender.offset + k <= |j.source|
      && if fate.Lost? then s1 == s.(sender := Idle, done := false)
         else
           var (d, ok) := Chunked(s.disk, s.sender.offset, j.source[s.sender.offset..s.sender.offset + k]);
           s1 == State(d, if fate.Acked? && ok then Sending(s.sender.offset + k) else Idle, s.base, false)
    case Finish(fate) =>
      && s.sender.Sending? && s.sender.offset == |j.source|
      && if fate.Lost? then s1 == s.(sender := Idle, done := false)
         else
           var (d, r) := Finished(s.disk, j.sha);
           s1 == State(d, Idle, if r.Corrupt? || r.Done? then [] else s.base, r.Done?)
    case Expire => s1 == s.(disk := s.disk.(save := None), done := false)
    case Abort =>
      if s.disk.save.Some? then s1 == State(s.disk.(part := None, save := None), s.sender, [], false)
      else s1 == s.(done := false)
  }

  /** The source with its beginning replaced by what the transfer started on top of. */
  function Mixed(base: seq<byte>, source: seq<byte>): seq<byte>
    requires |base| <= |source|
  {
    base + source[|base|..]
  }

  ghost predicate PartOk(j: Job, s: State) {
    && |s.base| <= |j.source|
    && (s.disk.part.None? ==> s.base == [] && s.disk.save.None?)
    && (s.disk.part.Some? && |s.disk.part.value| <= |j.source| ==>
          |s.base| <= |s.disk.part.value| && s.disk.part.value == Mixed(s.base, j.source)[..|s.disk.part.value|])
    && (s.disk.part.Some? && |s.disk.part.value| > |j.source| ==> s.base == [] && s.disk.save.None?)
  }

  ghost predicate SaveOk(j: Job, s: State) {
    s.disk.save.Some? && s.disk.part.Some? ==>
      && s.disk.save.value == Save(|s.disk.part.value|, |j.source|, j.hash)
      && (s.sender.Sending? ==> |s.base| <= s.sender.offset <= |s.disk.part.value|)
  }

  ghost predicate Inv(j: Job, s: State) { PartOk(j, s) && SaveOk(j, s) }

  /** A chunk of the source written where a part that follows it has come to, or before. */
  lemma ChunkFollows(base: seq<byte>, source: seq<byte>, part: seq<byte>, off: nat, k: nat)
    requires |base| <= off <= |part| <= |source| && off + k <= |source| && part == Mixed(base, source)[..|part|]
    ensures var p := Overwritten(part, off, source[off..off + k]);
            |p| == (if off + k > |part| then off + k else |part|) && p == Mixed(base, source)[..|p|]
  {
    var m := Mixed(base, source);
    assert source[off..off + k] == m[off..off + k];
  }

  lemma StepKeepsInv(j: Job, s: State, s1: State, e: Step)
    requires Inv(j, s) && Next(j, s, s1, e)
    ensures Inv(j, s1)
    ensures s1.done ==> s1.disk.final == Some(Mixed(s.base, j.source))
    ensures s1.done && j.hash != "" ==> s1.disk.final.Some? && j.sha(s1.disk.final.value) == j.hash
  {
    hide Mixed, Overwritten;
    match e
    case Init(at, fate) => InitKeeps(j, s, s1, at, fate);
    case Chunk(k, fate) => ChunkKeeps(j, s, s1, k, fate);
    case Finish(fate) => FinishKeeps(j, s, s1, fate);
    case Expire =>
    case Abort => MixedEmpty(j.source);
  }

  lemma MixedEmpty(source: seq<byte>)
    ensures Mixed([], source) == source && Mixed([], source)[..0] == []
  {
  }

  lemma InitKeeps(j: Job, s: State, s1: State, at: Place, fate: Fate)
    requires Inv(j, s) && Next(j, s, s1, Init(at, fate))
    ensures Inv(j, s1) && !s1.done
  {
    hide Mixed;
    MixedEmpty(j.source);
  }

  lemma ChunkKeeps(j: Job, s: State, s1: State, k: nat, fate: Fate)
    requires Inv(j, s) && Next(j, s, s1, Chunk(k, fate))
    ensures Inv(j, s1) && !s1.done
  {
    hide Mixed, Overwritten;
    if !fate.Lost? && s.disk.save.Some? && s.disk.part.Some? {
      ChunkFollows(s.base, j.source, s.disk.part.value, s.sender.offset, k);
    }
  }

  lemma FinishKeeps(j: Job, s: State, s1: State, fate: Fate)
    requires Inv(j, s) && Next(j, s, s1, Finish(fate))
    ensures Inv(j, s1)
    ensures s1.done ==> s1.disk.final == Some(Mixed(s.base, j.source))
    ensures s1.done && j.hash != "" ==> s1.disk.final.Some? && j.sha(s1.disk.final.value) == j.hash
  {
    MixedEmpty(j.source);
    if s1.done {
      var p := s.disk.part.value;
      assert |p| == |j.source| == |Mixed(s.base, j.source)|;
      assert Mixed(s.base, j.source)[..|p|] == Mixed(s.base, j.source);
    }
  }

  ghost predicate IsRun(j: Job, states: seq<State>, steps: seq<Step>) {
    && |states| == |steps| + 1 && Start(j, states[0])
    && forall k {:trigger steps[k]} :: 0 <= k < |steps| ==> Next(j, states[k], states[k + 1], steps[k])
  }

  lemma StartInv(j: Job, s: State)
    requires Start(j, s)
    ensures Inv(j, s)
  {
    assert Mixed(s.base, j.source)[..|s.base|] == s.base;
  }

  /** All along the base is what the transfer began with, or nothing. */
  lemma {:induction false} InvOverRuns(j: Job, states: seq<State>, steps: seq<Step>, n: nat)
    requires IsRun(j, states, steps) && n <= |steps|
    ensures Inv(j, states[n]) && (states[n].base == states[0].base || states[n].base == [])
  {
    hide Inv;
    if n == 0 {
      StartInv(j, states[0]);
    } else {
      InvOverRuns(j, states, steps, n - 1);
      StepKeepsInv(j, states[n - 1], states[n], steps[n - 1]);
    }
  }

  lemma MixedIsSource(base: seq<byte>, source: seq<byte>)
    requires |base| <= |source|
    ensures Mixed(base, source) == source <==> base <= source
  {
    assert Mixed(base, source)[..|base|] == base;
    assert base <= source ==> source[..|base|] == base;
  }

  /** When the receiver has said that the file is complete, it is the source, if the `.part` it
      found at the start was a beginning of the source, or too long and so thrown away; then no
      hash is needed. With a hash it is the source in any case. */
  lemma DoneIsSource(j: Job, states: seq<State>, steps: seq<Step>, n: nat)
    requires IsRun(j, states, steps) && n <= |steps| && states[n].done
    requires Base(states[0].disk.part, |j.source|) <= j.source
          || (j.hash != "" && j.hash == j.sha(j.source)
              && forall x: seq<byte> :: j.sha(x) == j.sha(j.source) ==> x == j.source)
    ensures states[n].disk.final == Some(j.source)
  {
    hide Mixed, Inv;
    StartNotDone(j, states[0]);
    InvOverRuns(j, states, steps, n - 1);
    StepKeepsInv(j, states[n - 1], states[n], steps[n - 1]);
    BaseFits(j, states[n - 1]);
    MixedIsSource(states[n - 1].base, j.source);
  }

  lemma StartNotDone(j: Job, s: State)
    requires Start(j, s)
    ensures !s.done && s.base == Base(s.disk.part, |j.source|)
  {
  }

  lemma BaseFits(j: Job, s: State)
    requires Inv(j, s)
    ensures |s.base| <= |j.source|
  {
  }

  /** Without a hash that condition is also needed: the first file completed on top of the part
      found is the source only if the part was a beginning of it. */
  lemma DoneNeedsPrefix(j: Job, states: seq<State>, steps: seq<Step>, n: nat)
    requires IsRun(j, states, steps) && 0 < n <= |steps| && states[n].done
    requires states[n - 1].base == Base(states[0].disk.part, |j.source|)
    ensures states[n].disk.final == Some(j.source) <==> Base(states[0].disk.part, |j.source|) <= j.source
  {
    hide Mixed, Inv;
    InvOverRuns(j, states, steps, n - 1);
    StepKeepsInv(j, states[n - 1], states[n], steps[n - 1]);
    BaseFits(j, states[n - 1]);
    MixedIsSource(states[n - 1].base, j.source);
  }

  /** And such a file is completed: on top of every part that is no beginning of the source a run
      without a hash in which nothing is lost ends with another file. */
  lemma WrongPartCompletes(source: seq<byte>, part: seq<byte>, sha: seq<byte> -> string)
    returns (j: Job, states: seq<State>, steps: seq<Step>)
    requires |part| <= |source| && !(part <= source)
    ensures j.source == source && j.hash == "" && IsRun(j, states, steps)
            && states[0].disk == Disk(Some(part), None, None)
    ensures states[|steps|].done && states[|steps|].disk.final == Some(Mixed(part, source)) != Some(source)
    ensures |steps| > 0 && states[|steps| - 1].base == Base(states[0].disk.part, |source|)
  {
    j := Job(source, "", false, false, sha);
    var n, k, at := |part|, |source| - |part|, Place(true, false, true);
    var save := Save(n, |source|, "");
    var s0 := State(Disk(Some(part), None, None), Idle, part, false);
    var s1 := State(Disk(Some(part), None, Some(save)), Sending(n), part, false);
    var s2 := State(Disk(Some(Mixed(part, source)), None, Some(save.(written := |source|))), Sending(|source|), part,
                    false);
    var s3 := State(Disk(None, Some(Mixed(part, source)), None), Idle, [], true);
    assert Next(j, s0, s1, Init(at, Acked));
    assert source[n..n + k] == source[n..] && part[..n] == part;
    assert Overwritten(part, n, source[n..n + k]) == Mixed(part, source);
    if k > 0 {
      states, steps := [s0, s1, s2, s3], [Init(at, Acked), Chunk(k, Acked), Finish(Acked)];
      assert Next(j, s1, s2, Chunk(k, Acked));
    } else {
      states, steps := [s0, s1, s3], [Init(at, Acked), Finish(Acked)];
      assert Mixed(part, source) == part;
    }
    assert Next(j, s2, s3, Finish(Acked));
    MixedIsSource(part, source);
  }

  /** What was delivered stays: a file delivered again, after its last answer was lost, is the
      source again. */
  lemma {:induction false} StaysDelivered(j: Job, states: seq<State>, steps: seq<Step>, m: nat, n: nat)
    requires IsRun(j, states, steps) && m <= n <= |steps| && states[m].done
    requires Base(states[0].disk.part, |j.source|) <= j.source
    ensures states[n].disk.final == Some(j.source)
  {
    hide Inv, Mixed;
    if states[n].done {
      DoneIsSource(j, states, steps, n);
    } else {
      StaysDelivered(j, states, steps, m, n - 1);
      assert Next(j, states[n - 1], states[n], steps[n - 1]);
    }
  }

  // ---- a file that is not to be overwritten ----

  /** In every run of an exclusive transfer a file that was there stays as it is, and nothing is
      completed. */
  lemma {:induction false} ExclusiveLeaves(j: Job, states: seq<State>, steps: seq<Step>, n: nat)
    requires IsRun(j, states, steps) && n <= |steps| && j.exclusive && states[0].disk.final.Some?
    ensures states[n].disk.final == states[0].disk.final && !states[n].done
    ensures states[n].disk.save.None? && states[n].sender.Idle?
  {
    if n > 0 {
      ExclusiveLeaves(j, states, steps, n - 1);
      assert Next(j, states[n - 1], states[n], steps[n - 1]);
    }
  }

  /** Nor is one put where a folder of that name stands. */
  lemma {:induction false} FolderLeaves(j: Job, states: seq<State>, steps: seq<Step>, n: nat)
    requires IsRun(j, states, steps) && n <= |steps|
    requires forall k {:trigger steps[k]} :: 0 <= k < |steps| && steps[k].Init? ==> steps[k].at.folder
    ensures states[n].disk.final == states[0].disk.final && !states[n].done
    ensures states[n].disk.save.None? && states[n].sender.Idle?
  {
    if n > 0 {
      FolderLeaves(j, states, steps, n - 1);
      assert Next(j, states[n - 1], states[n], steps[n - 1]);
    }
  }
}
