/** Reading a zip that a worker writes as it goes: the worker can go forward only and repeat its
    last piece once more; requests and answers may be lost, and old requests may come in late. */
module ZipReads {
  import opened Wrappers
  import opened Bytes

  const CHUNK_MAX: nat := 0x10_0000

  /** The zip as the pipe gives it: its bytes, and whether writing it fails at their end. */
  datatype Pipe = Pipe(bytes: seq<byte>, fails: bool)

  datatype Reply = Ok(data: seq<byte>, eof: bool) | OutOfOrder | Broken

  /** The worker's side: how much the pipe has given, and the fields of `fileRead`. */
  datatype Server = Server(taken: nat, pos: int, last: Option<seq<byte>>, lastAt: int, lastEof: bool)

  const OPENED: Server := Server(0, 0, None, 0, false)

  /** `io.ReadFull`: `n` bytes, or what is left up to the end; bytes before a failure are lost. */
  function ReadFull(p: Pipe, taken: nat, n: nat): (nat, Reply)
    requires taken <= |p.bytes|
  {
    if taken + n <= |p.bytes| then (taken + n, Ok(p.bytes[taken..taken + n], false))
    else if p.fails then (|p.bytes|, Broken)
    else (|p.bytes|, Ok(p.bytes[taken..], true))
  }

  /** `fileRead.read` of a zip. */
  function ReadZip(p: Pipe, s: Server, off: int, n: nat): (Server, Reply)
    requires s.taken <= |p.bytes|
  {
    if off != s.pos then (s, if off == s.lastAt && s.last.Some? then Ok(s.last.value, s.lastEof) else OutOfOrder)
    else
      var (taken, r) := ReadFull(p, s.taken, n);
      if r.Ok? then (Server(taken, s.pos + |r.data|, Some(r.data), s.pos, r.eof), r) else (s.(taken := taken), r)
  }

  /** `fileRead.read` of one file, at any place. */
  function ReadFile(bytes: seq<byte>, off: int, n: nat): Reply {
    if off < 0 then Broken
    else if off >= |bytes| then Ok([], n > 0)
    else if off + n <= |bytes| then Ok(bytes[off..off + n], false)
    else Ok(bytes[off..], true)
  }

  /** As many of the bytes from `off` on as are asked for and there; the end is told when fewer come. */
  predicate GivenBytes(bytes: seq<byte>, off: nat, n: nat, data: seq<byte>, eof: bool) {
    && |data| == (if off >= |bytes| then 0 else if off + n <= |bytes| then n else |bytes| - off)
    && (forall k :: 0 <= k < |data| ==> data[k] == bytes[off + k]) && (eof <==> |data| < n)
  }

  /** What one call on a zip gives and leaves. At its place: the next bytes, or the failure, once the
      pipe has come to it. At the place of the last piece: that piece once more. Anywhere else: nothing. */
  ghost predicate ZipGives(p: Pipe, s: Server, s1: Server, off: int, n: nat, r: Reply) {
    if off == s.pos then
      && !r.OutOfOrder? && (r.Broken? <==> p.fails && s.taken + n > |p.bytes|)
      && (r.Broken? ==> s1 == s.(taken := |p.bytes|))
      && (r.Ok? ==> && GivenBytes(p.bytes, s.taken, n, r.data, r.eof)
                    && s1 == Server(s.taken + |r.data|, off + |r.data|, Some(r.data), off, r.eof))
    else s1 == s && r == if s.last.Some? && off == s.lastAt then Ok(s.last.value, s.lastEof) else OutOfOrder
  }

  lemma ReadGives(p: Pipe, s: Server, off: int, n: nat)
    requires s.taken <= |p.bytes|
    ensures var (s1, r) := ReadZip(p, s, off, n); ZipGives(p, s, s1, off, n, r)
  {
  }

  /** A file read piece by piece, each from where the last one ended, until the end is told. */
  function ReadOn(bytes: seq<byte>, off: nat, sizes: seq<nat>): (seq<byte>, bool)
    decreases |sizes|
  {
    if sizes == [] then ([], false)
    else
      match ReadFile(bytes, off, sizes[0])
      case Ok(data, eof) =>
        if eof then (data, true)
        else var (rest, e) := ReadOn(bytes, off + |data|, sizes[1..]); (data + rest, e)
      case _ => ([], false)
  }

  lemma FileGives(bytes: seq<byte>, off: nat, n: nat)
    requires n >= 1
    ensures var r := ReadFile(bytes, off, n); r.Ok? && GivenBytes(bytes, off, n, r.data, r.eof)
  {
  }

  /** Whatever the sizes, the pieces are the bytes in order, and at the end all of them. */
  lemma {:induction false} FileInPieces(bytes: seq<byte>, off: nat, sizes: seq<nat>)
    requires off <= |bytes| && forall k :: 0 <= k < |sizes| ==> sizes[k] >= 1
    ensures var (out, eof) := ReadOn(bytes, off, sizes);
            off + |out| <= |bytes| && out == bytes[off..off + |out|] && (eof ==> off + |out| == |bytes|)
    ensures |sizes| > |bytes| - off ==> ReadOn(bytes, off, sizes).1
    decreases |sizes|
  {
    if sizes != [] {
      FileGives(bytes, off, sizes[0]);
      var r := ReadFile(bytes, off, sizes[0]);
      assert r.data == bytes[off..off + |r.data|];
      hide ReadFile, GivenBytes;
      if !r.eof {
        FileInPieces(bytes, off + |r.data|, sizes[1..]);
        var rest := ReadOn(bytes, off + |r.data|, sizes[1..]).0;
        assert r.data + rest == bytes[off..off + |r.data| + |rest|];
      }
    }
  }

  class FileRead {
    const file: Option<seq<byte>>
    const pipe: Pipe
    var taken: nat
    var pos: int
    var last: Option<seq<byte>>
    var lastAt: int
    var lastEof: bool

    constructor (file: Option<seq<byte>>, pipe: Pipe)
      ensures this.file == file && this.pipe == pipe && Valid() && Now() == OPENED
    {
      this.file, this.pipe := file, pipe;
      taken, pos, last, lastAt, lastEof := 0, 0, None, 0, false;
    }

    predicate Valid()
      reads this
    {
      taken <= |pipe.bytes|
    }

    function Now(): Server
      reads this
    {
      Server(taken, pos, last, lastAt, lastEof)
    }

    method Read(off: int, n: nat) returns (r: Reply)
      requires Valid()
      modifies this
      ensures Valid()
      ensures file.Some? ==> r == ReadFile(file.value, off, n) && Now() == old(Now())
      ensures file.Some? && off >= 0 && n >= 1 ==> r.Ok? && GivenBytes(file.value, off, n, r.data, r.eof)
      ensures file.None? ==> (Now(), r) == ReadZip(pipe, old(Now()), off, n)
      ensures file.None? ==> ZipGives(pipe, old(Now()), Now(), off, n, r)
    {
      if file.Some? {
        var b := file.value;
        if off < 0 {
          return Broken;
        }
        var end := if off + n < |b| then off + n else |b|;
        var got := if off < |b| then b[off..end] else [];
        return Ok(got, |got| < n);
      }
      ReadGives(pipe, Now(), off, n);
      hide ZipGives, GivenBytes;
      if off != pos {
        if off == lastAt && last.Some? {
          return Ok(last.value, lastEof);
        }
        return OutOfOrder;
      }
      var left := |pipe.bytes| - taken;
      var got := pipe.bytes[taken..taken + if n < left then n else left];
      assert left <= n ==> got == pipe.bytes[taken..];
      taken := taken + |got|;
      if |got| < n && pipe.fails {
        return Broken;
      }
      last, lastAt, lastEof := Some(got), pos, |got| < n;
      pos := pos + |got|;
      return Ok(got, lastEof);
    }
  }

  // ---- the protocol ----

  datatype Call = Call(id: nat, off: int, max: nat)

  datatype Answer = Answer(call: Call, reply: Reply)

  /** The reader: its position, whether it saw the end, what it handed on, and the call it waits
      for. An answer to a call given up is dropped. */
  datatype Client = Client(pos: int, eof: bool, out: seq<byte>, waiting: Option<Call>)

  datatype State = State(server: Server, client: Client, calls: set<Call>, answers: set<Answer>)

  datatype Step = Ask(c: Call) | Serve(c: Call) | Take(a: Answer) | GiveUp

  /** What `readOnce` does with an answer. */
  function Taken(c: Client, r: Reply): Client {
    if r.Ok? then Client(c.pos + |r.data|, r.eof, c.out + r.data, None) else c.(waiting := None)
  }

  ghost predicate Next(p: Pipe, s: State, s1: State, e: Step) {
    match e
    case Ask(c) =>
      && s.client.waiting.None? && !s.client.eof && c.off == s.client.pos && 1 <= c.max <= CHUNK_MAX
         && (forall d :: d in s.calls ==> d.id != c.id)
      && s1 == s.(client := s.client.(waiting := Some(c)), calls := s.calls + {c})
    case Serve(c) =>
      && c in s.calls && s.server.taken <= |p.bytes|
      && var (sv, r) := ReadZip(p, s.server, c.off, c.max);
         s1 == s.(server := sv, answers := s.answers + {Answer(c, r)})
    case Take(a) => a in s.answers && s.client.waiting == Some(a.call) && s1 == s.(client := Taken(s.client, a.reply))
    case GiveUp => s1 == s.(client := s.client.(waiting := None))
  }

  ghost predicate Init(s: State) { s == State(OPENED, Client(0, false, [], None), {}, {}) }

  /** The data is the zip's from the offset on, the end is its end, and only there is it empty. */
  predicate Piece(p: Pipe, off: int, data: seq<byte>, eof: bool) {
    0 <= off && off + |data| <= |p.bytes| && p.bytes[off..off + |data|] == data
    && (eof ==> off + |data| == |p.bytes| && !p.fails) && (data == [] ==> eof)
  }

  ghost predicate ServerOk(p: Pipe, s: Server) {
    && 0 <= s.pos <= s.taken <= |p.bytes| && (s.taken == s.pos || (p.fails && s.taken == |p.bytes|))
    && (s.last.Some? ==> Piece(p, s.lastAt, s.last.value, s.lastEof) && s.pos == s.lastAt + |s.last.value|)
    && (s.last.None? ==> s.pos == 0)
  }

  ghost predicate ClientOk(p: Pipe, s: State) {
    && 0 <= s.client.pos <= |p.bytes| && s.client.out == p.bytes[..s.client.pos]
       && (s.client.eof ==> s.client.pos == |p.bytes| && !p.fails)
    && (s.client.pos == s.server.pos || (s.server.last.Some? && s.client.pos == s.server.lastAt))
    && (forall c :: c in s.calls ==> c.off <= s.client.pos && c.max >= 1)
    && (forall c, d :: c in s.calls && d in s.calls && c.id == d.id ==> c == d)
    && (s.client.waiting.Some? ==> s.client.waiting.value in s.calls && s.client.waiting.value.off == s.client.pos)
  }

  /** An answer that says something says what stands in the zip at the place asked for; one to
      a call from where the reader still is ends where the worker is. */
  ghost predicate AnswersOk(p: Pipe, s: State) {
    forall a {:trigger a in s.answers} :: a in s.answers ==>
      && a.call in s.calls
      && (a.reply.Ok? ==> Piece(p, a.call.off, a.reply.data, a.reply.eof)
                          && (a.call.off == s.client.pos ==> s.server.pos == a.call.off + |a.reply.data|))
      && (a.reply.OutOfOrder? ==> a.call.off < s.client.pos)
  }

  ghost predicate Inv(p: Pipe, s: State) { ServerOk(p, s.server) && ClientOk(p, s) && AnswersOk(p, s) }

  /** Whatever is asked of it, the worker gives bytes of the zip at the place asked for. */
  lemma ServeOk(p: Pipe, s: Server, off: int, n: nat)
    requires ServerOk(p, s) && n >= 1
    ensures var (s1, r) := ReadZip(p, s, off, n);
            && ServerOk(p, s1) && (r.Ok? ==> Piece(p, off, r.data, r.eof) && s1.pos == off + |r.data|)
            && (off != s.pos ==> s1 == s)
            && (r.Ok? && off == s.pos ==> s1.lastAt == off && s1.last.Some?)
            && (!r.Ok? ==> s1 == s.(taken := s1.taken))
            && (r.OutOfOrder? ==> off != s.pos && (s.last.None? || off != s.lastAt))
  {
  }

  lemma StepKeepsInv(p: Pipe, s: State, s1: State, e: Step)
    requires Inv(p, s) && Next(p, s, s1, e)
    ensures Inv(p, s1)
  {
    match e
    case Ask(c) =>
    case Serve(c) =>
      ServeKeeps(p, s, s1, c);
    case Take(a) =>
      TakeKeeps(p, s, s1, a);
    case GiveUp =>
  }

  lemma ServeKeeps(p: Pipe, s: State, s1: State, c: Call)
    requires Inv(p, s) && Next(p, s, s1, Serve(c))
    ensures Inv(p, s1)
  {
    hide ReadZip;
    ServeOk(p, s.server, c.off, c.max);
    BetweenPieces(s.server, s.client.pos, c.off);
  }

  /** A call from before the reader's place is not one from the worker's place, unless they are
      the same. */
  lemma BetweenPieces(s: Server, pos: int, off: int)
    requires pos == s.pos || (s.last.Some? && pos == s.lastAt)
    requires s.last.Some? ==> s.pos == s.lastAt + |s.last.value|
    requires off <= pos
    ensures off == s.pos ==> off == pos
  {
  }

  lemma TakeKeeps(p: Pipe, s: State, s1: State, a: Answer)
    requires Inv(p, s) && Next(p, s, s1, Take(a))
    ensures Inv(p, s1)
  {
    if a.reply.Ok? {
      assert p.bytes[..s1.client.pos] == p.bytes[..s.client.pos] + a.reply.data;
      assert s1.client.pos == s.server.pos;
    }
  }

  ghost predicate IsRun(p: Pipe, states: seq<State>, steps: seq<Step>) {
    && |states| == |steps| + 1 && Init(states[0])
    && forall k {:trigger steps[k]} :: 0 <= k < |steps| ==> Next(p, states[k], states[k + 1], steps[k])
  }

  lemma {:induction false} InvOverRuns(p: Pipe, states: seq<State>, steps: seq<Step>, n: nat)
    requires IsRun(p, states, steps) && n <= |steps|
    ensures Inv(p, states[n])
  {
    hide Inv, Next;
    if n == 0 {
      EmptyInv(p, states[0]);
    } else {
      InvOverRuns(p, states, steps, n - 1);
      StepKeepsInv(p, states[n - 1], states[n], steps[n - 1]);
    }
  }

  lemma EmptyInv(p: Pipe, s: State)
    requires Init(s)
    ensures Inv(p, s)
  {
  }

  /** In every run the bytes handed on are the beginning of the zip, nothing skipped and nothing
      twice, and a reader that saw the end has all of it. A failed zip is never taken for whole. */
  lemma ReadsOverRuns(p: Pipe, states: seq<State>, steps: seq<Step>, n: nat)
    requires IsRun(p, states, steps) && n <= |steps|
    ensures states[n].client.out <= p.bytes && |states[n].client.out| == states[n].client.pos
    ensures states[n].client.eof ==> states[n].client.out == p.bytes && !p.fails
  {
    hide Next, Piece;
    InvOverRuns(p, states, steps, n);
  }

  /** The reader is never stuck: the call it waits for, if it is served, is not refused for its
      place, however many late calls were served before. */
  lemma NeverOutOfOrder(p: Pipe, states: seq<State>, steps: seq<Step>, n: nat, c: Call)
    requires IsRun(p, states, steps) && n < |steps| && steps[n] == Serve(c) && states[n].client.waiting == Some(c)
    ensures !p.fails ==> exists data, eof :: Answer(c, Ok(data, eof)) in states[n + 1].answers
    ensures exists r :: Answer(c, r) in states[n + 1].answers && !r.OutOfOrder?
  {
    hide Piece;
    StepAt(p, states, steps, n);
    InvOverRuns(p, states, steps, n);
    var r := ReadZip(p, states[n].server, c.off, c.max).1;
    assert Answer(c, r) in states[n + 1].answers;
  }

  lemma StepAt(p: Pipe, states: seq<State>, steps: seq<Step>, n: nat)
    requires IsRun(p, states, steps) && n < |steps|
    ensures Next(p, states[n], states[n + 1], steps[n])
  {
  }
}
