/** The updater's built-in steps as relations between disks: `backup`, `copy` and `restore`,
    each stopped after any number of file operations. */
module Install {
  import opened Wrappers
  import opened NewsFile

  type Path = string
  datatype File = File(bytes: seq<int>, mode: nat)
  type Disk = map<Path, File>

  /** A file of the build in the staging folder, and one deployment job. */
  datatype StageFile = StageFile(path: string, bytes: seq<int>, mode: nat)
  datatype Job = Job(files: seq<StageFile>, replace: seq<string>, version: string)

  datatype Manifest = Manifest(targetDir: Path, at: int, prevInstalled: string)

  /** One folder under `backups/`: `files/`, `new-files.txt`, `manifest.json` (written last). */
  datatype Bundle = Bundle(files: map<string, File>, news: string, manifest: Option<Manifest>)

  /** `filepath.Join` of a clean absolute folder and a clean relative path, and `filepath.Rel` back. */
  function Join(target: Path, rel: string): Path { if target == "/" then target + rel else target + "/" + rel }

  function Rel(target: Path, p: Path): string {
    var n := if target == "/" then 1 else |target| + 1;
    if n <= |p| then p[n..] else ""
  }

  predicate Under(child: Path, parent: Path) { parent + "/" <= child }

  /** The last name of a path. */
  function Base(p: Path): string {
    if p == "" then "" else if p[|p| - 1] == '/' then "" else Base(p[..|p| - 1]) + [p[|p| - 1]]
  }

  function LastIndex(s: string, t: string): (i: int)
    ensures -1 <= i <= |s|
  {
    if |t| > |s| then -1
    else if s[|s| - |t|..] == t then |s| - |t|
    else if s == "" then -1
    else LastIndex(s[..|s| - 1], t)
  }

  /** A name a locked file was moved to: `<name>.old-20060102-150405`. */
  predicate IsOldName(name: string) {
    var i := LastIndex(name, ".old-");
    i >= 0 && |name| - i - 5 == 15
  }

  /** `filepath.IsLocal` for clean paths: relative, not empty, not leading out. */
  predicate IsLocal(rel: string) { rel != "" && rel[0] != '/' && rel != ".." && !("../" <= rel) }

  /** The path is one the updater itself writes. */
  predicate Guarded(own: set<Path>, dst: Path) { exists p :: p in own && (dst == p || Under(dst, p)) }

  /** The folders to be emptied are inside the target and hold nothing of the updater's. */
  predicate ReplaceAllowed(own: set<Path>, target: Path, job: Job) {
    forall r :: r in job.replace ==>
      && IsLocal(r) && !Guarded(own, Join(target, r))
      && forall p :: p in own ==> p != Join(target, r) && !Under(p, Join(target, r))
  }

  predicate InReplaced(target: Path, job: Job, p: Path) { exists r :: r in job.replace && Under(p, Join(target, r)) }

  function Dests(target: Path, job: Job): set<Path> { set f | f in job.files :: Join(target, f.path) }

  predicate IsVictim(target: Path, job: Job, p: Path) {
    InReplaced(target, job, p) && p !in Dests(target, job) && !IsOldName(Base(p))
  }

  /** What emptying the replaced folders removes. */
  function Victims(d: Disk, target: Path, job: Job): set<Path> { set p | p in d && IsVictim(target, job, p) }

  /** Every path the job may write or remove. */
  function Touched(d: Disk, target: Path, job: Job): set<Path> { Dests(target, job) + Victims(d, target, job) }

  function WriteAll(d: Disk, target: Path, files: seq<StageFile>): Disk {
    if files == [] then d
    else
      var f := files[|files| - 1];
      WriteAll(d, target, files[..|files| - 1])[Join(target, f.path) := File(f.bytes, f.mode)]
  }

  /** `copy` stopped after removing `gone` and writing the first `j` files. */
  ghost predicate CopyCut(d: Disk, d1: Disk, target: Path, job: Job, gone: set<Path>, j: nat) {
    && gone <= Victims(d, target, job) && j <= |job.files|
    && (j > 0 ==> gone == Victims(d, target, job))
    && d1 == WriteAll(d - gone, target, job.files[..j])
  }

  ghost predicate CopyDone(d: Disk, d1: Disk, target: Path, job: Job) {
    d1 == WriteAll(d - Victims(d, target, job), target, job.files)
  }

  /** The files `backup` saves, and the names it notes as new, in the order of the job. */
  function Saved(d: Disk, target: Path, job: Job): map<string, File> {
    map rel | rel in (set p | p in Touched(d, target, job) && p in d :: Rel(target, p))
    && Join(target, rel) in d :: d[Join(target, rel)]
  }

  function News(d: Disk, target: Path, files: seq<StageFile>): (r: seq<string>)
    ensures forall n :: n in r <==> exists k :: 0 <= k < |files| && files[k].path == n && Join(target, n) !in d
  {
    if files == [] then []
    else
      var l, f := News(d, target, files[..|files| - 1]), files[|files| - 1];
      assert forall k :: 0 <= k < |files| - 1 ==> files[..|files| - 1][k] == files[k];
      if Join(target, f.path) in d then l else l + [f.path]
  }

  /** A finished backup of the disk `d`. */
  ghost predicate IsBackupOf(b: Bundle, d: Disk, target: Path, job: Job, installed: string) {
    && b.files == Saved(d, target, job)
    && b.news == Written(News(d, target, job.files))
    && b.manifest.Some? && b.manifest.value.targetDir == target && b.manifest.value.prevInstalled == installed
  }

  /** What `restore` removes once all files are back. */
  function Removals(own: set<Path>, b: Bundle, target: Path): set<Path> {
    set l | l in Scanned(b.news) && IsLocal(l) && !Guarded(own, Join(target, l)) :: Join(target, l)
  }

  function PutBack(d: Disk, b: Bundle, target: Path, done: set<string>): Disk
    requires done <= b.files.Keys
  {
    d + map p | p in (set r | r in done :: Join(target, r)) && Rel(target, p) in b.files :: b.files[Rel(target, p)]
  }

  /** `restore` stopped after putting `done` back and removing `gone`. */
  ghost predicate RestoreCut(own: set<Path>, b: Bundle, d: Disk, d1: Disk, target: Path, done: set<string>,
                             gone: set<Path>) {
    && done <= b.files.Keys && gone <= Removals(own, b, target)
    && (gone != {} ==> done == b.files.Keys)
    && d1 == PutBack(d, b, target, done) - gone
  }

  ghost predicate RestoreDone(own: set<Path>, b: Bundle, d: Disk, d1: Disk, target: Path) {
    d1 == PutBack(d, b, target, b.files.Keys) - Removals(own, b, target)
  }

  /** The two disks differ on `t` at most. */
  ghost predicate Agree(d0: Disk, d: Disk, t: set<Path>) {
    forall p {:trigger p in d} {:trigger p in d0} :: p !in t ==> (p in d <==> p in d0) && (p in d ==> d[p] == d0[p])
  }

  lemma RelOfJoin(target: Path, rel: string)
    ensures Rel(target, Join(target, rel)) == rel
  {
  }

  lemma JoinOfRel(target: Path, job: Job, p: Path, d: Disk)
    requires p in Touched(d, target, job)
    ensures Join(target, Rel(target, p)) == p
  {
    if p in Dests(target, job) {
      var f :| f in job.files && p == Join(target, f.path);
      RelOfJoin(target, f.path);
    } else {
      var r :| r in job.replace && Under(p, Join(target, r));
      InsideTarget(target, r, p);
    }
  }

  lemma InsideTarget(target: Path, r: string, p: Path)
    requires Under(p, Join(target, r))
    ensures Join(target, Rel(target, p)) == p
  {
    var top := if target == "/" then target else target + "/";
    assert top + (r + "/") == Join(target, r) + "/";
    Begins(top, r + "/", p);
  }

  lemma Begins(a: string, b: string, p: string)
    requires a + b <= p
    ensures p == a + p[|a|..]
  {
    assert p[..|a|] == (a + b)[..|a|] == a;
  }

  lemma {:induction false} WriteAllAt(d: Disk, target: Path, files: seq<StageFile>, p: Path)
    ensures var d1 := WriteAll(d, target, files);
            && (p in d1 <==> p in d || exists k :: 0 <= k < |files| && Join(target, files[k].path) == p)
            && ((forall k :: 0 <= k < |files| ==> Join(target, files[k].path) != p) ==> p in d ==> d1[p] == d[p])
  {
    if files != [] {
      var front := files[..|files| - 1];
      WriteAllAt(d, target, front, p);
      assert forall k :: 0 <= k < |front| ==> front[k] == files[k];
    }
  }

  lemma DestsOf(target: Path, job: Job, k: nat)
    requires k < |job.files|
    ensures Join(target, job.files[k].path) in Dests(target, job)
  {
    assert job.files[k] in job.files;
  }

  lemma DestIsFile(target: Path, job: Job, p: Path) returns (k: nat)
    requires p in Dests(target, job)
    ensures k < |job.files| && p == Join(target, job.files[k].path)
  {
    var f :| f in job.files && p == Join(target, f.path);
    k :| 0 <= k < |job.files| && job.files[k] == f;
  }

  /** Away from the files the job had in view at the start, a cut copy changes nothing; so any
      number of cut copies in a row does not either. */
  lemma CopyAgrees(d0: Disk, d: Disk, d1: Disk, target: Path, job: Job, gone: set<Path>, j: nat)
    requires Agree(d0, d, Touched(d0, target, job)) && CopyCut(d, d1, target, job, gone, j)
    ensures Agree(d0, d1, Touched(d0, target, job))
  {
    var t := Touched(d0, target, job);
    forall p {:trigger p in d1} {:trigger p in d0} | p !in t
      ensures (p in d1 <==> p in d0) && (p in d1 ==> d1[p] == d0[p])
    {
      WriteAllAt(d - gone, target, job.files[..j], p);
      forall k | 0 <= k < j ensures Join(target, job.files[..j][k].path) != p {
        DestsOf(target, job, k);
      }
      assert p in d <==> p in d0;
      assert p in gone ==> IsVictim(target, job, p);
    }
  }

  /** A cut restore brings saved files back and removes what the list names: it makes the disk
      differ from the saved one nowhere else than before, exactly if it removes no old file. */
  lemma RestoreAgrees(own: set<Path>, b: Bundle, d0: Disk, d: Disk, d1: Disk, target: Path, job: Job,
                      installed: string, done: set<string>, gone: set<Path>, t: set<Path>)
    requires IsBackupOf(b, d0, target, job, installed) && RestoreCut(own, b, d, d1, target, done, gone)
    requires Agree(d0, d, t)
    ensures Agree(d0, d1, t) <==> forall p :: p in gone && p in d0 ==> p in t
  {
    hide Scanned, Written, IsLocal, Agree, News, Removals;
    forall p | p !in t && !(p in gone && p in d0) ensures (p in d1 <==> p in d0) && (p in d1 ==> d1[p] == d0[p]) {
      AgreeAt(d0, d, t, p);
      PutBackAt(b, d0, d, target, job, done, p);
    }
    if forall p :: p in gone && p in d0 ==> p in t {
      AgreeFrom(d0, d1, t);
    } else {
      var p :| p in gone && p in d0 && p !in t;
      if Agree(d0, d1, t) {
        AgreeAt(d0, d1, t, p);
      }
    }
  }

  lemma AgreeAt(d0: Disk, d: Disk, t: set<Path>, p: Path)
    requires Agree(d0, d, t) && p !in t
    ensures (p in d <==> p in d0) && (p in d ==> d[p] == d0[p])
  {
  }

  lemma AgreeFrom(d0: Disk, d: Disk, t: set<Path>)
    requires forall p {:trigger p in d} {:trigger p in d0} ::
               p !in t ==> (p in d <==> p in d0) && (p in d ==> d[p] == d0[p])
    ensures Agree(d0, d, t)
  {
  }

  lemma SavedIsTouched(d0: Disk, target: Path, job: Job, rel: string)
    requires rel in Saved(d0, target, job)
    ensures Join(target, rel) in Touched(d0, target, job) && Join(target, rel) in d0
            && Saved(d0, target, job)[rel] == d0[Join(target, rel)]
  {
    var p :| p in Touched(d0, target, job) && p in d0 && rel == Rel(target, p);
    JoinOfRel(target, job, p, d0);
  }

  /** At each path a cut put-back leaves what was there or the saved file. */
  lemma PutBackAt(b: Bundle, d0: Disk, d: Disk, target: Path, job: Job, done: set<string>, p: Path)
    requires b.files == Saved(d0, target, job) && done <= b.files.Keys
    ensures var d1 := PutBack(d, b, target, done);
            if p in d0 && p in d1 && d1[p] == d0[p] then true else (p in d1 <==> p in d) && (p in d ==> d1[p] == d[p])
  {
    if r :| r in done && p == Join(target, r) {
      SavedIsTouched(d0, target, job, r);
      RelOfJoin(target, r);
    }
  }

  /** No name the job adds is one the list would garble. */
  predicate CleanNews(d0: Disk, target: Path, job: Job) { forall n :: n in News(d0, target, job.files) ==> Clean(n) }

  /** The list, as `restore` reads it, names no file that was there before. */
  ghost predicate NoOldListed(own: set<Path>, b: Bundle, d0: Disk, target: Path) {
    forall p :: p in Removals(own, b, target) ==> p !in d0
  }

  /** And it names every new file that is there now. */
  ghost predicate ListedRight(own: set<Path>, b: Bundle, d0: Disk, d: Disk, target: Path, job: Job) {
    && NoOldListed(own, b, d0, target)
    && (forall p :: p in Dests(target, job) && p in d && p !in d0 ==> p in Removals(own, b, target))
  }

  /** A complete restore over any disk that differs from the saved one on files of the job at
      most gives the saved disk back exactly if the list is right. */
  lemma RestoreUndoes(own: set<Path>, b: Bundle, d0: Disk, d: Disk, d1: Disk, target: Path, job: Job,
                      installed: string, t: set<Path>)
    requires IsBackupOf(b, d0, target, job, installed) && RestoreDone(own, b, d, d1, target)
    requires t <= Touched(d0, target, job) && Agree(d0, d, t)
    ensures d1 == d0 <==> ListedRight(own, b, d0, d, target, job)
  {
    hide Scanned, Written, IsLocal, News, Removals, Agree, Saved, Join, Dests, PutBack, Touched;
    forall p ensures (p in d1 <==> p in d0) && (p in d1 ==> d1[p] == d0[p]) <==>
                     if p in Removals(own, b, target) then p !in d0 else p in d0 || p !in d || p !in Dests(target, job)
    {
      RestoredAt(own, b, d0, d, target, job, t, p);
    }
    if ListedRight(own, b, d0, d, target, job) {
      assert forall p :: p in d1 <==> p in d0;
    }
  }

  /** What a complete put-back leaves at one path, when the old files are put where they were. */
  lemma RestoredAt(own: set<Path>, b: Bundle, d0: Disk, d: Disk, target: Path, job: Job, t: set<Path>, p: Path)
    requires b.files == Saved(d0, target, job)
    requires t <= Touched(d0, target, job) && Agree(d0, d, t)
    ensures var d1 := PutBack(d, b, target, b.files.Keys);
            if p in d0 then p in d1 && d1[p] == d0[p]
            else p in d1 ==> p in d && p in Dests(target, job)
    ensures p !in d0 && p in d ==> p in PutBack(d, b, target, b.files.Keys)
  {
    hide Scanned, Written, IsLocal, News, Agree, PutBack;
    PutBackAt(b, d0, d, target, job, b.files.Keys, p);
    if p !in t {
      AgreeAt(d0, d, t, p);
    } else if p in d0 {
      PutBackInside(b, d0, d, target, job, p);
    }
  }

  /** Clean names make the list right. */
  lemma CleanIsRight(own: set<Path>, b: Bundle, d0: Disk, d: Disk, target: Path, job: Job, t: set<Path>)
    requires b.news == Written(News(d0, target, job.files)) && CleanNews(d0, target, job)
    requires Agree(d0, d, t) && (t != {} ==> LocalAndFree(own, target, job))
    ensures ListedRight(own, b, d0, d, target, job)
  {
    hide Scanned, Written, IsLocal, News, Removals, Agree, Dests, Join, CleanNews;
    forall p | p in Removals(own, b, target) ensures p !in d0 {
      RemovalsAreNew(own, b, d0, target, job, p);
    }
    forall p | p in Dests(target, job) && p in d && p !in d0 ensures p in Removals(own, b, target) {
      if p !in t {
        AgreeAt(d0, d, t, p);
      }
      NewIsRemoved(own, b, d0, target, job, p);
    }
  }

  lemma RemovalsAreNew(own: set<Path>, b: Bundle, d0: Disk, target: Path, job: Job, p: Path)
    requires b.news == Written(News(d0, target, job.files)) && CleanNews(d0, target, job)
    requires p in Removals(own, b, target)
    ensures p in Dests(target, job) && p !in d0
  {
    hide Scanned, Written;
    var news := News(d0, target, job.files);
    RoundTrip(news);
    var l :| l in Scanned(b.news) && IsLocal(l) && p == Join(target, l);
    assert l in news;
    var k :| 0 <= k < |job.files| && job.files[k].path == l && Join(target, l) !in d0;
    DestsOf(target, job, k);
  }

  /** Every path of the job stays inside the target and off the updater's own files. */
  predicate LocalAndFree(own: set<Path>, target: Path, job: Job) {
    forall f :: f in job.files ==> IsLocal(f.path) && !Guarded(own, Join(target, f.path))
  }

  lemma PutBackInside(b: Bundle, d0: Disk, d: Disk, target: Path, job: Job, p: Path)
    requires b.files == Saved(d0, target, job) && p in Touched(d0, target, job) && p in d0
    ensures var d1 := PutBack(d, b, target, b.files.Keys); p in d1 && d1[p] == d0[p]
  {
    var rel := Rel(target, p);
    JoinOfRel(target, job, p, d0);
    assert rel in b.files && b.files[rel] == d0[p];
    assert p in set r | r in b.files.Keys :: Join(target, r);
  }

  lemma NewIsRemoved(own: set<Path>, b: Bundle, d0: Disk, target: Path, job: Job, p: Path)
    requires b.news == Written(News(d0, target, job.files)) && CleanNews(d0, target, job)
             && LocalAndFree(own, target, job)
    requires p in Dests(target, job) && p !in d0
    ensures p in Removals(own, b, target)
  {
    hide Scanned, Written, IsLocal;
    var k := DestIsFile(target, job, p);
    var l := job.files[k].path;
    assert job.files[k] in job.files;
    assert l in News(d0, target, job.files);
    RoundTrip(News(d0, target, job.files));
    assert l in Scanned(b.news);
  }
}
