/** All boards of one account, changed by locked steps and by version-checked saves that read
    first and write later. What holds in every run: each stored board is valid, and no terminal,
    video file or pinned folder has a tile on two places. */
module Boards {
  import opened Wrappers
  import opened TileDocs
  import opened TileTrees

  datatype Board = Board(doc: Doc, version: int, isDefault: bool)
  type Boards = map<string, Board>

  /** What an account may show on one tile only. */
  datatype Tag = Process(uid: string) | VideoFile(instance: string, path: string) | Pinned(node: int)

  function TagOf(t: Tile, video: string -> bool): Option<Tag> {
    match t.kind
    case Terminal => Some(Process(t.uid))
    case Viewer => if video(t.path) then Some(VideoFile(t.instance, t.path)) else None
    case Folder => if t.bound && t.node.Some? then Some(Pinned(t.node.value)) else None
    case _ => None
  }

  function TagAt(d: Doc, k: string, video: string -> bool): Option<Tag> {
    if k in d.tiles then TagOf(d.tiles[k], video) else None
  }

  predicate Holds(bs: Boards, video: string -> bool, h: string, k: string, tag: Tag) {
    h in bs && TagAt(bs[h].doc, k, video) == Some(tag)
  }

  ghost predicate Unique(bs: Boards, video: string -> bool) {
    forall h, k, g, m, tag {:trigger Holds(bs, video, h, k, tag), Holds(bs, video, g, m, tag)} ::
      Holds(bs, video, h, k, tag) && Holds(bs, video, g, m, tag) ==> h == g && k == m
  }

  ghost predicate AllValid(bs: Boards) { forall h {:trigger bs[h]} :: h in bs ==> Valid(bs[h].doc) }

  /** `marshal`: folders get a `uid` and a `shownAt` where they had none. */
  ghost predicate Marshalled(d: Doc, e: Doc) {
    && SameBut(d, e)
    && forall k {:trigger e.tiles[k]} :: k in d.tiles ==>
         && e.tiles[k].bound == d.tiles[k].bound
         && (if d.tiles[k].kind.Folder? then (d.tiles[k].uid != "" ==> e.tiles[k].uid == d.tiles[k].uid)
                                             && (d.tiles[k].shownAt != 0 ==> e.tiles[k].shownAt == d.tiles[k].shownAt)
             else e.tiles[k].shownAt == d.tiles[k].shownAt)
  }

  /** The row after a save of `d`. */
  ghost predicate Saved(b: Board, d: Doc, b1: Board) {
    b1.version == b.version + 1 && b1.isDefault == b.isDefault && Marshalled(d, b1.doc)
  }

  // ---- the steps ----

  /** A tile made by the server is opened on a board. Nothing shows its process or file yet. */
  ghost predicate Opens(bs: Boards, bs1: Boards, video: string -> bool, h: string, opener: string, t: Tile) {
    && h in bs && h in bs1 && bs1 == bs[h := bs1[h]]
    && Sound(t) && t.id !in bs[h].doc.tiles && !t.bound
    && (forall g, k, tag {:trigger Holds(bs, video, g, k, tag)} ::
          Holds(bs, video, g, k, tag) ==> TagOf(t, video) != Some(tag))
    && Saved(bs[h], Open(bs[h].doc, opener, t), bs1[h])
  }

  function OpenAll(d: Doc, ts: seq<Tile>): Doc {
    if ts == [] then d else Open(OpenAll(d, ts[..|ts| - 1]), d.root, ts[|ts| - 1])
  }

  predicate Apart(ts: seq<Tile>) { forall i, j :: 0 <= i < j < |ts| ==> ts[i].id != ts[j].id && ts[i].uid != ts[j].uid }

  /** New terminal tiles, each with a process no board shows yet. */
  ghost predicate AdoptReady(bs: Boards, video: string -> bool, h: string, ts: seq<Tile>) {
    && h in bs && Apart(ts)
    && (forall t :: t in ts ==> t.kind.Terminal? && Sound(t) && t.id !in bs[h].doc.tiles && !t.bound)
    && (forall t, g, k {:trigger t in ts, Holds(bs, video, g, k, Process(t.uid))} ::
          t in ts ==> !Holds(bs, video, g, k, Process(t.uid)))
  }

  /** Terminals of processes without a tile are put on the default board. */
  ghost predicate Adopts(bs: Boards, bs1: Boards, video: string -> bool, h: string, ts: seq<Tile>) {
    h in bs1 && AdoptReady(bs, video, h, ts) && bs1 == bs[h := bs1[h]] && Saved(bs[h], OpenAll(bs[h].doc, ts), bs1[h])
  }

  ghost predicate Shifts(bs: Boards, bs1: Boards, h: string, id: string, after: string) {
    && h in bs && h in bs1 && bs1 == bs[h := bs1[h]] && id in bs[h].doc.tiles && id != bs[h].doc.root
    && Saved(bs[h], Place(bs[h].doc.(order := Pick(bs[h].doc.order, {id}, false)), after, [id]), bs1[h])
  }

  ghost predicate Moves(bs: Boards, bs1: Boards, src: string, dst: string, id: string, after: string) {
    && src in bs && dst in bs && src != dst && src in bs1 && dst in bs1 && bs1 == bs[src := bs1[src]][dst := bs1[dst]]
    && id in bs[src].doc.tiles && id != bs[src].doc.root && Valid(bs[src].doc)
    && InsideOf(bs[src].doc, id) !! bs[dst].doc.tiles.Keys
    && Saved(bs[src], Left(bs[src].doc, id), bs1[src])
       && Saved(bs[dst], Put(bs[dst].doc, after, Taken(bs[src].doc, id)), bs1[dst])
  }

  /** `newHash` is drawn at random and taken by no board. */
  ghost predicate Splits(bs: Boards, bs1: Boards, h: string, id: string, newHash: string) {
    && h in bs && newHash !in bs && h in bs1 && newHash in bs1 && bs1 == bs[h := bs1[h]][newHash := bs1[newHash]]
    && id in bs[h].doc.tiles && id != bs[h].doc.root && CanRoot(bs[h].doc.tiles[id].kind)
    && Saved(bs[h], Left(bs[h].doc, id), bs1[h])
    && !bs1[newHash].isDefault && Marshalled(CutOff(bs[h].doc, id), bs1[newHash].doc)
  }

  ghost predicate Deletes(bs: Boards, bs1: Boards, h: string, def: string) {
    && h in bs && def in bs && h != def && def in bs1 && bs1 == (bs - {h})[def := bs1[def]] && Valid(bs[h].doc)
    && !bs[h].isDefault && bs[def].isDefault
    && bs[h].doc.tiles.Keys !! bs[def].doc.tiles.Keys
    && Saved(bs[def], Put(bs[def].doc, "", Taken(bs[h].doc, bs[h].doc.root)), bs1[def])
  }

  function RepinnedTile(t: Tile, k: string, node: int, id: Option<string>): Tile {
    if t.kind.Folder? && t.node == Some(node) then t.(bound := id == Some(k)) else t
  }

  /** The folder tiles of one node, with the pin on one of them or on none. */
  function Repinned(d: Doc, node: int, id: Option<string>): Doc {
    d.(tiles := map k | k in d.tiles :: RepinnedTile(d.tiles[k], k, node, id))
  }

  ghost predicate Binds(bs: Boards, bs1: Boards, h: string, id: string) {
    && h in bs && id in bs[h].doc.tiles && bs[h].doc.tiles[id].kind.Folder? && bs[h].doc.tiles[id].node.Some?
    && bs1.Keys == bs.Keys
    && forall g {:trigger bs1[g]} :: g in bs ==>
         var d := Repinned(bs[g].doc, bs[h].doc.tiles[id].node.value, if g == h then Some(id) else None);
         if d == bs[g].doc then bs1[g] == bs[g] else Saved(bs[g], d, bs1[g])
  }

  /** The tile of a process, wherever it is, is opened elsewhere and shown again. */
  ghost predicate Rehangs(bs: Boards, bs1: Boards, g: string, k: string, h: string, opener: string) {
    && g in bs && h in bs && k in bs[g].doc.tiles && bs[g].doc.tiles[k].kind.Terminal?
    && var t := bs[g].doc.tiles[k].(minimized := false);
       if g == h then h in bs1 && bs1 == bs[h := bs1[h]] && Saved(bs[h], Open(Remove(bs[h].doc, k), opener, t), bs1[h])
       else k !in bs[h].doc.tiles && g in bs1 && h in bs1 && bs1 == bs[g := bs1[g]][h := bs1[h]]
            && Saved(bs[g], Remove(bs[g].doc, k), bs1[g]) && Saved(bs[h], Open(bs[h].doc, opener, t), bs1[h])
  }

  /** The tiles of ended processes are taken out of every board that has one. */
  ghost predicate Purges(bs: Boards, bs1: Boards, uids: set<string>) {
    && bs1.Keys == bs.Keys
    && forall g {:trigger bs1[g]} :: g in bs ==> Purged(bs[g], bs1[g], uids)
  }

  ghost predicate Purged(b: Board, b1: Board, uids: set<string>) {
    var ids := ProcTiles(b.doc, uids);
    if ids == {} then b1 == b else Saved(b, Without(b.doc, ids), b1)
  }

  /** The default board, made when there is none. */
  ghost predicate Creates(bs: Boards, bs1: Boards, h: string, root: string) {
    && h !in bs && root != "" && h in bs1 && bs1 == bs[h := bs1[h]] && bs1[h].isDefault
       && Marshalled(RootDoc(root), bs1[h].doc)
  }

  function FolderTile(id: string, node: Option<int>, uid: string): Tile {
    Tile(id, Folder, None, 0.5, 0.5, node, uid, false, false, 0, false, "", "", [], [])
  }

  /** `newRootDoc`. */
  function RootDoc(root: string): Doc { Doc(root, [root], map[root := FolderTile(root, None, "")]) }

  /** A save by a browser, between its reading of the stored board and its writing. */
  datatype Request = Request(h: string, version: int, sent: Doc, stored: Doc)

  ghost predicate PutChecked(p: Request, video: string -> bool) {
    Valid(p.sent) && TerminalsOk(p.sent, p.stored) && VideosOk(p.sent, p.stored, video)
  }

  ghost predicate Reads(bs: Boards, p: Request, video: string -> bool) {
    p.h in bs && bs[p.h].version == p.version && bs[p.h].doc == p.stored && PutChecked(p, video)
  }

  /** The write finds the version it read, or it is a conflict and nothing is written. */
  ghost predicate Writes(bs: Boards, bs1: Boards, p: Request) {
    if p.h in bs && bs[p.h].version == p.version then
      p.h in bs1 && bs1 == bs[p.h := bs1[p.h]] && Saved(bs[p.h], KeepMeta(p.sent, p.stored), bs1[p.h])
    else bs1 == bs
  }

  // ---- one document ----

  lemma MarshalKeeps(d: Doc, e: Doc, video: string -> bool)
    requires Marshalled(d, e)
    ensures Valid(d) ==> Valid(e)
    ensures forall k :: TagAt(e, k, video) == TagAt(d, k, video)
  {
    hide Valid;
    if Valid(d) {
      SameButValid(d, e);
    }
    forall k ensures TagAt(e, k, video) == TagAt(d, k, video) {
      if k in d.tiles {
        assert e.tiles[k] == d.tiles[k].(uid := e.tiles[k].uid, shownAt := e.tiles[k].shownAt,
                                         bound := e.tiles[k].bound);
      }
    }
  }

  ghost predicate DocUnique(d: Doc, video: string -> bool) {
    forall k, m {:trigger TagAt(d, k, video), TagAt(d, m, video)} ::
      TagAt(d, k, video).Some? && TagAt(d, k, video) == TagAt(d, m, video) ==> k == m
  }

  /** Every tag of `e` is one of `d`. */
  ghost predicate TagsFrom(d: Doc, e: Doc, video: string -> bool) {
    forall k {:trigger TagAt(e, k, video)} ::
      TagAt(e, k, video).Some? ==> exists m :: TagAt(d, m, video) == TagAt(e, k, video)
  }

  lemma UniqueDoc(bs: Boards, h: string, video: string -> bool)
    requires Unique(bs, video) && h in bs
    ensures DocUnique(bs[h].doc, video)
  {
    forall k, m | TagAt(bs[h].doc, k, video).Some? && TagAt(bs[h].doc, k, video) == TagAt(bs[h].doc, m, video)
      ensures k == m
    {
      assert Holds(bs, video, h, k, TagAt(bs[h].doc, k, video).value)
             && Holds(bs, video, h, m, TagAt(bs[h].doc, k, video).value);
    }
  }

  /** What a checked save may hold: no tag that was not stored, and none twice. */
  lemma PutIsSafe(p: Request, video: string -> bool)
    requires PutChecked(p, video) && DocUnique(p.stored, video)
    ensures var next := KeepMeta(p.sent, p.stored);
            Valid(next) && DocUnique(next, video) && TagsFrom(p.stored, next, video)
  {
    hide Valid, DocUnique;
    var next := KeepMeta(p.sent, p.stored);
    KeepMetaSameBut(p.sent, p.stored);
    SameButValid(p.sent, next);
    forall k | TagAt(next, k, video).Some?
      ensures exists m :: TagAt(p.stored, m, video) == TagAt(next, k, video)
      ensures !p.sent.tiles[k].kind.Terminal? ==> TagAt(p.stored, k, video) == TagAt(next, k, video)
    {
      var t := p.sent.tiles[k];
      if t.kind.Terminal? {
        var m :| m in p.stored.tiles && SameProc(p.stored.tiles[m], t);
        assert TagAt(p.stored, m, video) == TagAt(next, k, video);
      } else {
        assert TagAt(p.stored, k, video) == TagAt(next, k, video);
      }
    }
    PutUnique(p, video);
  }

  lemma PutUnique(p: Request, video: string -> bool)
    requires PutChecked(p, video) && DocUnique(p.stored, video)
    requires forall k {:trigger TagAt(KeepMeta(p.sent, p.stored), k, video)} ::
               TagAt(KeepMeta(p.sent, p.stored), k, video).Some? ==>
      k in p.sent.tiles
      && (!p.sent.tiles[k].kind.Terminal? ==> TagAt(p.stored, k, video) == TagAt(KeepMeta(p.sent, p.stored), k, video))
    ensures DocUnique(KeepMeta(p.sent, p.stored), video)
  {
    hide Valid, VideosOk;
    var next := KeepMeta(p.sent, p.stored);
    forall k, m | TagAt(next, k, video).Some? && TagAt(next, k, video) == TagAt(next, m, video) ensures k == m {
      if p.sent.tiles[k].kind.Terminal? {
        assert next.tiles[m].kind.Terminal?;
        assert SameProc(p.sent.tiles[k], p.sent.tiles[m]);
      } else {
        assert !next.tiles[m].kind.Terminal?;
        assert TagAt(p.stored, k, video) == TagAt(p.stored, m, video);
      }
    }
  }
}
