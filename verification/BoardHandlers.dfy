/** The handlers that change boards, each one transaction over the account's rows: it either ends
    in the step the state machine of BoardRuns.dfy allows, or leaves the rows as they were. */
module BoardHandlers {
  import opened Sequences
  import opened Wrappers
  import opened TileDocs
  import opened TileTrees
  import opened TileDocObject
  import opened Boards
  import opened BoardRuns
  import opened Bindings

  /** What a request draws from outside: the clock, random ids, and which files are videos. */
  datatype Env = Env(now: int, uids: string -> string, newId: string, newRoot: string, newHash: string,
                     video: string -> bool)

  /** 200, 400, 404, 409 and 500; `Same` is a 200 that had nothing to change. */
  datatype Status = Ok | Same | BadRequest | Missing | Conflict | Failed

  datatype Proc = Proc(uid: string, node: Option<int>)

  function TerminalTile(id: string, node: Option<int>, uid: string, w: real, h: real): Tile {
    Tile(id, Terminal, None, w, h, node, uid, false, false, 0, false, "", "", [], [])
  }

  function ViewerTile(id: string, node: int, instance: string, path: string, w: real, h: real): Tile {
    Tile(id, Viewer, None, w, h, Some(node), "", false, false, 0, false, instance, path, [], [])
  }

  function Filled(t: Tile, k: string, env: Env): Tile {
    if !t.kind.Folder? then t
    else t.(uid := if t.uid == "" then env.uids(k) else t.uid, shownAt := if t.shownAt == 0 then env.now else t.shownAt)
  }

  ghost predicate AllFilled(d: Doc, e: Doc, env: Env) {
    && e.root == d.root && e.order == d.order && e.tiles.Keys == d.tiles.Keys
    && forall k {:trigger e.tiles[k]} :: k in d.tiles ==> e.tiles[k] == Filled(d.tiles[k], k, env)
  }

  /** A board with one folder of no node, half a span wide and high, and nothing else. */
  function OneFolder(id: string, uid: string, now: int): Doc {
    Doc(id, [id], map[id := Tile(id, Folder, None, 0.5, 0.5, None, uid, false, false, now, false, "", "", [], [])])
  }

  /** What a save stores of the tile `t` sent by a browser, where `was` is the tile stored under its
      id. A folder keeps its stored uid, and as long as it shows the same node the time it was first
      shown and its pin; what is missing is given anew. Nothing the browser says of these counts. */
  ghost predicate StoredTile(t: Tile, was: Option<Tile>, e: Tile, uid: string, now: int) {
    if t.kind != Folder then e == t.(shownAt := 0, bound := false)
    else
      var folder := was.Some? && was.value.kind == Folder;
      var same := folder && was.value.node == t.node;
      && e == t.(uid := e.uid, shownAt := e.shownAt, bound := e.bound)
      && e.uid == (if folder && was.value.uid != "" then was.value.uid else uid)
      && e.shownAt == (if same && was.value.shownAt != 0 then was.value.shownAt else now)
      && e.bound == (same && was.value.bound)
  }

  ghost predicate StoredAs(sent: Doc, stored: Doc, e: Doc, env: Env) {
    && e.root == sent.root && e.order == sent.order && e.tiles.Keys == sent.tiles.Keys
    && forall k {:trigger e.tiles[k]} :: k in sent.tiles ==>
         StoredTile(sent.tiles[k], if k in stored.tiles then Some(stored.tiles[k]) else None, e.tiles[k], env.uids(k),
                    env.now)
  }

  ghost predicate Ensured(bs: Boards, mid: Boards, env: Env) { mid == bs || Creates(bs, mid, env.newHash, env.newRoot) }

  ghost predicate HasProc(bs: Boards, h: string, k: string, uid: string) {
    h in bs && k in bs[h].doc.tiles && bs[h].doc.tiles[k].kind.Terminal? && bs[h].doc.tiles[k].uid == uid
  }

  ghost predicate HasFile(bs: Boards, h: string, k: string, instance: string, path: string) {
    h in bs && k in bs[h].doc.tiles && bs[h].doc.tiles[k].kind.Viewer? && bs[h].doc.tiles[k].instance == instance
    && bs[h].doc.tiles[k].path == path
  }

  ghost predicate HasFolder(bs: Boards, h: string, k: string, node: int) {
    h in bs && k in bs[h].doc.tiles && bs[h].doc.tiles[k].kind.Folder? && bs[h].doc.tiles[k].node == Some(node)
  }

  ghost predicate FolderUidUsed(bs: Boards, uid: string) { exists h, k :: HasFolderUid(bs, h, k, uid) }

  /** A new terminal tile of the process, on the board and at the place asked for. */
  ghost predicate TerminalHung(d: Doc, e: Doc, opener: string, id: string, node: Option<int>, uid: string, w: real,
                               h: real) {
    && HungOn(d, e, opener, id)
    && e.tiles[id] == Tile(id, Terminal, e.tiles[id].parent, w, h, node, uid, false, false, 0, false, "", "", [], [])
  }

  /** The same of a viewer tile of a file. */
  ghost predicate ViewerHung(d: Doc, e: Doc, opener: string, id: string, node: int, instance: string, path: string,
                             w: real, h: real) {
    && HungOn(d, e, opener, id)
    && e.tiles[id] == Tile(id, Viewer, e.tiles[id].parent, w, h, Some(node), "", false, false, 0, false, instance, path,
                           [], [])
  }

  /** The tile `t` at `k` on board `g` after the tile `id` of board `h` was made the pin of `node`. */
  ghost predicate PinnedTile(t: Tile, e: Tile, here: bool, node: int) {
    && e.bound == (if t.kind == Folder && t.node == Some(node) then here else t.bound)
    && e == t.(uid := e.uid, shownAt := e.shownAt, bound := e.bound)
    && (t.uid != "" || t.kind != Folder ==> e.uid == t.uid)
    && (t.shownAt != 0 || t.kind != Folder ==> e.shownAt == t.shownAt)
  }

  /** The folder tile `id` of board `h` is the one pin of its node on all boards; no other pin, no
      place and no opener has changed, and a board without a change has kept its version. */
  ghost predicate PinMoved(bs: Boards, bs1: Boards, h: string, id: string) {
    && h in bs && id in bs[h].doc.tiles && bs[h].doc.tiles[id].node.Some? && bs1.Keys == bs.Keys
    && forall g {:trigger bs1[g]} :: g in bs ==>
         && bs1[g].isDefault == bs[g].isDefault && SameBut(bs[g].doc, bs1[g].doc)
         && bs1[g].version == bs[g].version + (if bs1[g] == bs[g] then 0 else 1)
         && bs1[g].doc.tiles.Keys == bs[g].doc.tiles.Keys
         && forall k {:trigger bs1[g].doc.tiles[k]} :: k in bs[g].doc.tiles ==>
              PinnedTile(bs[g].doc.tiles[k], bs1[g].doc.tiles[k], g == h && k == id, bs[h].doc.tiles[id].node.value)
  }

  /** The id is taken: it is that of a new tile, or on another board too. */
  predicate OnBoth(bs: Boards, id: string, g: string, h: string, k: string)
    requires g in bs && h in bs
  {
    k in bs[h].doc.tiles && (k == id || (g != h && k in bs[g].doc.tiles))
  }

  predicate IsDefault(bs: Boards, h: string) { h in bs && bs[h].isDefault }

  class Router {
    var boards: Boards

    constructor (boards: Boards)
      ensures this.boards == boards
    {
      this.boards := boards;
    }

    /** `marshal`, on the document to be stored. */
    method Marshal(doc: TileDoc, env: Env)
      modifies doc`tiles
      ensures Marshalled(old(doc.Now()), doc.Now()) && AllFilled(old(doc.Now()), doc.Now(), env)
    {
      hide Marshalled, Filled;
      ghost var was := doc.tiles;
      var left := doc.tiles.Keys;
      while left != {}
        modifies doc`tiles
        invariant left <= doc.tiles.Keys == was.Keys
        invariant forall k :: k in was && k in left ==> doc.tiles[k] == was[k]
        invariant forall k :: k in was && k !in left ==> doc.tiles[k] == Filled(was[k], k, env)
        decreases |left|
      {
        var key :| key in left;
        left := left - {key};
        var t := Fill(doc.tiles[key], key, env);
        doc.tiles := doc.tiles[key := t];
      }
      FilledIsMarshalled(old(doc.Now()), doc.Now(), env);
    }

    method Fill(t0: Tile, key: string, env: Env) returns (t: Tile)
      ensures t == Filled(t0, key, env)
    {
      t := t0;
      if t.kind.Folder? && t.uid == "" {
        t := t.(uid := env.uids(key));
      }
      if t.kind.Folder? && t.shownAt == 0 {
        t := t.(shownAt := env.now);
      }
    }

    /** The write of a row that is locked or whose version was just compared. */
    method Store(h: string, doc: TileDoc, env: Env)
      requires h in boards
      modifies this, doc`tiles
      ensures h in boards && boards == old(boards)[h := boards[h]] && Saved(old(boards)[h], old(doc.Now()), boards[h])
      ensures AllFilled(old(doc.Now()), boards[h].doc, env)
    {
      hide Marshalled, AllFilled;
      Marshal(doc, env);
      boards := boards[h := Board(doc.Now(), boards[h].version + 1, boards[h].isDefault)];
    }

    /** `saveLockedTree`: an invalid result is never stored. */
    method SaveLocked(h: string, doc: TileDoc, env: Env) returns (ok: bool)
      requires h in boards
      modifies this, doc`tiles
      ensures ok <==> Valid(old(doc.Now()))
      ensures ok ==>
                h in boards && boards == old(boards)[h := boards[h]] && Saved(old(boards)[h], old(doc.Now()), boards[h])
      ensures !ok ==> boards == old(boards)
    {
      hide Valid, Marshalled;
      ok := doc.Validate();
      if ok {
        Store(h, doc, env);
      }
    }

    /** `ensureTileTree`. */
    method EnsureDefault(env: Env) returns (def: string)
      requires env.newHash !in boards && env.newRoot != ""
      modifies this
      ensures Ensured(old(boards), boards, env) && IsDefault(boards, def)
      ensures forall h :: h in old(boards) ==> h in boards && boards[h] == old(boards)[h]
      ensures boards.Keys <= old(boards).Keys + {env.newHash}
      ensures (exists h :: IsDefault(old(boards), h)) ==> boards == old(boards)
      ensures !(exists h :: IsDefault(old(boards), h)) ==>
                boards == old(boards)[env.newHash :=
                    Board(OneFolder(env.newRoot, env.uids(env.newRoot), env.now), 1, true)]
    {
      hide Marshalled;
      var left := boards.Keys;
      while left != {}
        invariant left <= boards.Keys && forall h :: h in boards && h !in left ==> !boards[h].isDefault
        decreases |left|
      {
        var h :| h in left;
        if boards[h].isDefault {
          assert IsDefault(boards, h);
          return h;
        }
        left := left - {h};
      }
      var doc := new TileDoc(RootDoc(env.newRoot));
      Marshal(doc, env);
      RootFilled(env.newRoot, doc.Now(), env);
      boards := boards[env.newHash := Board(doc.Now(), 1, true)];
      return env.newHash;
    }

    method FindTerminal(uid: string) returns (at: Option<(string, string)>)
      ensures at.Some? ==> HasProc(boards, at.value.0, at.value.1, uid)
      ensures at.None? ==> forall h, k :: !HasProc(boards, h, k, uid)
    {
      var left := boards.Keys;
      while left != {}
        invariant left <= boards.Keys
                  && forall h, k {:trigger HasProc(boards, h, k, uid)} :: h !in left ==> !HasProc(boards, h, k, uid)
        decreases |left|
      {
        var h :| h in left;
        left := left - {h};
        var doc := new TileDoc(boards[h].doc);
        var k := doc.TerminalOf(uid);
        if k.Some? {
          return Some((h, k.value));
        }
      }
      return None;
    }

    method FindFile(instance: string, path: string) returns (at: Option<(string, string)>)
      ensures at.Some? ==> HasFile(boards, at.value.0, at.value.1, instance, path)
      ensures at.None? ==> forall h, k :: !HasFile(boards, h, k, instance, path)
    {
      var left := boards.Keys;
      while left != {}
        invariant left <= boards.Keys
                  && forall h, k {:trigger HasFile(boards, h, k, instance, path)} ::
                       h !in left ==> !HasFile(boards, h, k, instance, path)
        decreases |left|
      {
        var h :| h in left;
        left := left - {h};
        var tiles := boards[h].doc.tiles;
        var rest := tiles.Keys;
        while rest != {}
          invariant rest <= tiles.Keys
                    && forall k {:trigger HasFile(boards, h, k, instance, path)} ::
                         k !in rest ==> !HasFile(boards, h, k, instance, path)
          decreases |rest|
        {
          var k :| k in rest;
          rest := rest - {k};
          if tiles[k].kind.Viewer? && tiles[k].instance == instance && tiles[k].path == path {
            return Some((h, k));
          }
        }
      }
      return None;
    }

    /** `appendTerminalTile`: saved without a check. The board is a valid one exactly if the tile's
        fields are sound, as its callers see to, and the random id is new. */
    method AppendTerminal(hash: string, parent: string, w: real, h: real, node: Option<int>, uid: string, env: Env)
      returns (s: Status, ghost mid: Boards)
      requires Good(boards, env.video) && env.newHash !in boards && env.newRoot != ""
      modifies this
      ensures Ensured(old(boards), mid, env) && (s == Ok || s == Same)
      ensures s == Same ==> boards == mid && exists g, k :: HasProc(mid, g, k, uid)
      ensures s == Ok ==> exists at :: (if hash in mid then at == hash else IsDefault(mid, at))
                                       && Appends(mid, boards, env.video, at, parent,
                                                  TerminalTile(env.newId, node, uid, w, h))
                                       && TerminalHung(mid[at].doc, boards[at].doc, parent, env.newId, node, uid, w, h)
    {
      hide Good, Marshalled, Open, Creates, Appends, TerminalHung;
      ghost var was := boards;
      var def := EnsureDefault(env);
      mid := boards;
      EnsuredGood(was, mid, env);
      var found := FindTerminal(uid);
      if found.Some? {
        return Same, mid;
      }
      var at := if hash in boards then hash else def;
      var t := TerminalTile(env.newId, node, uid, w, h);
      var doc := new TileDoc(boards[at].doc);
      var r := doc.OpenTile(parent, t);
      Store(at, doc, env);
      NoProcNoTag(mid, env.video, uid);
      Appended(mid, boards, env.video, at, parent, t);
      SavedHung(mid, boards, env.video, at, parent, t);
      s := Ok;
    }

    /** `insertTerminal` with `boundPlace`: the account's boards come as the rows `rows`, `ancestors`
        are the folders above the process that the account may see, the nearest first, and `viewed`
        the boards some tab shows, "" for the default one. */
    method InsertTerminal(node: int, uid: string, ancestors: seq<int>, viewed: set<string>, env: Env)
      returns (s: Status, rows: seq<string>, ghost mid: Boards)
      requires Good(boards, env.video) && env.newHash !in boards && env.newRoot != ""
      modifies this
      ensures Ensured(old(boards), mid, env) && Lists(rows, mid.Keys)
      ensures s != Ok ==> boards == mid
      ensures s == Same <==> (exists h, k :: HasProc(mid, h, k, uid)) || !Placed(mid, rows, ancestors, viewed)
      ensures s == Ok || s == Same || s == Failed
      ensures s == Failed ==> uid == "" || env.newId == "" || exists g :: g in mid && env.newId in mid[g].doc.tiles
      ensures s == Ok ==> BindingAt(mid, rows, ancestors)
      ensures s == Ok ==> var b := TheBinding(mid, rows, ancestors);
                          Opens(mid, boards, env.video, rows[b.at], b.tile.id,
                                TerminalTile(env.newId, Some(node), uid, 0.5, 0.5))
      ensures s == Ok ==> exists k, i: nat, n: nat ::
                            BoundHung(mid, boards, rows, ancestors, k, i, n, env.newId, node, uid)
    {
      hide Marshalled, Open, Creates, Valid, Unique, Sound, TheBinding, BindingAt, BoundHung;
      ghost var was := boards;
      var def := EnsureDefault(env);
      mid := boards;
      EnsuredGood(was, mid, env);
      rows := Rows();
      var found := FindTerminal(uid);
      if found.Some? {
        return Same, rows, mid;
      }
      var place := BoundPlace(rows, ancestors, viewed);
      if place.None? {
        return Same, rows, mid;
      }
      var (at, parent) := place.value;
      var t := TerminalTile(env.newId, Some(node), uid, 0.5, 0.5);
      var doc := new TileDoc(boards[at].doc);
      var r := doc.OpenTile(parent, t);
      OpenValid(mid[at].doc, parent, t);
      NewTilesSound(env.newId, Some(node), uid);
      var ok := SaveLocked(at, doc, env);
      if !ok {
        return Failed, rows, mid;
      }
      NoProcNoTag(mid, env.video, uid);
      UnderBinding(mid, boards, env.video, rows, ancestors, t);
      s := Ok;
    }

    /** The rows in the order the database gives them. */
    method Rows() returns (rows: seq<string>)
      ensures Lists(rows, boards.Keys)
    {
      rows := [];
      var left := boards.Keys;
      while left != {}
        invariant left <= boards.Keys && NoDup(rows) && forall k :: k in rows <==> k in boards && k !in left
        decreases |left|
      {
        var h :| h in left;
        left := left - {h};
        rows := rows + [h];
      }
    }

    /** `boundPlace`: the binding tile, if a tab shows its board. */
    method BoundPlace(rows: seq<string>, ancestors: seq<int>, viewed: set<string>)
      returns (place: Option<(string, string)>)
      requires Lists(rows, boards.Keys)
      ensures place.Some? <==> Placed(boards, rows, ancestors, viewed)
      ensures place.Some? ==> BindingAt(boards, rows, ancestors)
      ensures place.Some? ==> var b := TheBinding(boards, rows, ancestors);
                              place == Some((rows[b.at], b.tile.id)) && rows[b.at] in boards
    {
      hide AllSpots, Of, Best;
      RowsStored(rows, boards.Keys);
      var docs := DocsOf(boards, rows);
      var binder := new Binder(rows, docs);
      var best := binder.BindingTile(ancestors);
      BindingIs(docs, ancestors, best);
      if best.None? {
        return None;
      }
      var h := rows[best.value.at];
      return if h in viewed || (boards[h].isDefault && "" in viewed) then Some((h, best.value.tile.id)) else None;
    }

    /** `attachSharedFolder`: a folder that has become visible gets a tile on the default board. */
    method AttachFolder(node: int, uid: string, env: Env) returns (s: Status, ghost mid: Boards)
      requires Good(boards, env.video) && env.newHash !in boards && env.newRoot != ""
      modifies this
      ensures Ensured(old(boards), mid, env)
      ensures s != Ok ==> boards == mid
      ensures s == Same <==> exists h, k :: HasFolder(mid, h, k, node)
      ensures s == Ok || s == Same || s == Failed
      ensures s == Failed ==> env.newId == "" || exists g :: g in mid && env.newId in mid[g].doc.tiles
      ensures s == Ok ==> var t := FolderTile(env.newId, Some(node), if FolderUidUsed(mid, uid) then "" else uid);
                          exists at :: IsDefault(mid, at) && Opens(mid, boards, env.video, at, mid[at].doc.root, t)
                                       && HungOn(mid[at].doc, boards[at].doc, mid[at].doc.root, env.newId)
                                       && HasFolder(boards, at, env.newId, node)
    {
      hide Marshalled, Open, Valid, Unique, Sound, Creates, HasFolder, FolderUidUsed;
      ghost var was := boards;
      var def := EnsureDefault(env);
      mid := boards;
      EnsuredGood(was, mid, env);
      var there, used := LookForFolder(node, uid, env);
      if there {
        return Same, mid;
      }
      var t := FolderTile(env.newId, Some(node), if used then "" else uid);
      var doc := new TileDoc(boards[def].doc);
      var r := doc.OpenTile(doc.rootId, t);
      OpenValid(mid[def].doc, mid[def].doc.root, t);
      NewTilesSound(env.newId, Some(node), if used then "" else uid);
      var ok := SaveLocked(def, doc, env);
      if !ok {
        return Failed, mid;
      }
      NoTagOfFolder(t, env.video);
      EmptyUid(t, mid, uid, used);
      SavedHung(mid, boards, env.video, def, mid[def].doc.root, t);
      FolderHung(mid, boards, def, t, node);
      s := Ok;
    }

    /** The loop over the locked boards: whether one shows the node, and whether one has the uid. */
    method LookForFolder(node: int, uid: string, env: Env) returns (there: bool, used: bool)
      requires Good(boards, env.video)
      ensures there <==> exists h, k :: HasFolder(boards, h, k, node)
      ensures !there ==> (used <==> uid != "" && FolderUidUsed(boards, uid))
    {
      hide Valid, Unique;
      used := false;
      var left := boards.Keys;
      while left != {}
        invariant left <= boards.Keys
        invariant forall h, k {:trigger HasFolder(boards, h, k, node)} :: h !in left ==> !HasFolder(boards, h, k, node)
        invariant used <==> uid != "" && exists h, k :: h !in left && HasFolderUid(boards, h, k, uid)
        decreases |left|
      {
        var h :| h in left;
        left := left - {h};
        var doc := new TileDoc(boards[h].doc);
        GoodAt(boards, env.video, h);
        AllOrdered(boards[h].doc);
        var at := doc.FolderTileOf(node);
        if at.Some? {
          assert HasFolder(boards, h, at.value, node);
          return true, used;
        }
        var has := doc.HasFolderUID(uid);
        FolderUidOn(boards, h, uid, has);
        if uid != "" && has {
          used := true;
        }
      }
      return false, used;
    }

    /** `purgeTiles`: the tiles of ended processes go, on all boards at once. */
    method PurgeTiles(uids: set<string>, env: Env)
      requires Good(boards, env.video)
      modifies this
      ensures Purges(old(boards), boards, uids)
    {
      hide Valid, Good, Purged;
      var left := boards.Keys;
      while left != {}
        invariant left <= boards.Keys == old(boards).Keys
        invariant forall g :: g in left ==> boards[g] == old(boards)[g]
        invariant forall g :: g in boards && g !in left ==> Purged(old(boards)[g], boards[g], uids)
        decreases |left|
      {
        var g :| g in left;
        left := left - {g};
        GoodAt(old(boards), env.video, g);
        PurgeBoard(g, uids, env);
      }
    }

    method PurgeBoard(g: string, uids: set<string>, env: Env)
      requires g in boards && Valid(boards[g].doc)
      modifies this
      ensures g in boards && boards == old(boards)[g := boards[g]] && Purged(old(boards)[g], boards[g], uids)
    {
      hide Marshalled, Valid, Without, ProcTiles, Leaves;
      var doc := new TileDoc(boards[g].doc);
      ghost var d := boards[g].doc;
      ProcsAreLeaves(d, uids);
      WithoutValid(d, ProcTiles(d, uids));
      var removed := doc.RemoveProcs(uids);
      if removed {
        var ok := SaveLocked(g, doc, env);
        assert ok;
      }
    }

    /** `openVideoTile`. */
    method OpenVideo(workspace: string, parent: string, node: int, instance: string, path: string, w: real, h: real,
                     env: Env)
      returns (s: Status, ghost mid: Boards)
      requires Good(boards, env.video) && env.newHash !in boards && env.newRoot != ""
      modifies this
      ensures Ensured(old(boards), mid, env)
      ensures s != Ok ==> boards == mid
      ensures s == BadRequest <==> !env.video(path) || '#' !in instance || !(w == 0.5 || w == 1.0)
                                   || !(h == 0.5 || h == 1.0)
      ensures s == Failed ==> path == "" || env.newId == "" || exists g :: g in mid && env.newId in mid[g].doc.tiles
      ensures s == Ok || s == Same || s == BadRequest || s == Failed
      ensures s == Same ==> exists g, k :: HasFile(mid, g, k, instance, path)
      ensures s == Ok ==>
                env.video(path) && exists at :: (if workspace in mid then at == workspace else IsDefault(mid, at))
                                                  && Opens(mid, boards, env.video, at, parent,
                                                           ViewerTile(env.newId, node, instance, path, w, h))
                                                  && ViewerHung(mid[at].doc, boards[at].doc, parent, env.newId, node,
                                                                instance, path, w, h)
    {
      hide Marshalled, Open, Valid, Unique, Sound, Creates;
      mid := boards;
      if !env.video(path) || '#' !in instance || !ValidSpan(w) || !ValidSpan(h) {
        return BadRequest, mid;
      }
      ghost var was := boards;
      var def := EnsureDefault(env);
      mid := boards;
      EnsuredGood(was, mid, env);
      var found := FindFile(instance, path);
      if found.Some? {
        return Same, mid;
      }
      var at := if workspace in boards then workspace else def;
      var t := ViewerTile(env.newId, node, instance, path, w, h);
      var doc := new TileDoc(boards[at].doc);
      var r := doc.OpenTile(parent, t);
      OpenValid(mid[at].doc, parent, t);
      NewViewerSound(env.newId, node, instance, path, w, h);
      var ok := SaveLocked(at, doc, env);
      if !ok {
        return Failed, mid;
      }
      NoFileNoTag(mid, env.video, instance, path);
      assert Opens(mid, boards, env.video, at, parent, t);
      SavedHung(mid, boards, env.video, at, parent, t);
      s := Ok;
    }

    /** `bindProcessTile`: the tile of a process moves under another tile, or one is made. */
    method BindProcess(uid: string, hash: string, tileId: string, alive: bool, node: Option<int>, env: Env)
      returns (s: Status, ghost mid: Boards)
      requires Good(boards, env.video) && env.newHash !in boards && env.newRoot != "" && uid != ""
      modifies this
      ensures Ensured(old(boards), mid, env)
      ensures s != Ok ==> boards == mid
      ensures s == Missing <==> hash != "" && hash !in mid
      ensures s == BadRequest ==> !alive && forall g, k :: !HasProc(mid, g, k, uid)
      ensures s == Same ==> exists h, k :: HasProc(mid, h, k, uid)
                                           && mid[h].doc.tiles[k].parent == Some(Opener(mid[h].doc, tileId))
      ensures s == Failed ==> env.newId == ""
                              || exists g, h, k :: g in mid && h in mid && OnBoth(mid, env.newId, g, h, k)
      ensures s != Conflict
      ensures s == Ok ==> exists h :: (if hash != "" then h == hash else IsDefault(mid, h)) && h in mid &&
                            var opener := Opener(mid[h].doc, tileId);
                            || (alive
                                && Opens(mid, boards, env.video, h, opener,
                                         TerminalTile(env.newId, node, uid, 0.5, 0.5)))
                            || exists g, k :: HasProc(mid, g, k, uid) && Rehangs(mid, boards, g, k, h, opener)
                                              && (g == h ==> mid[h].doc.tiles[k].parent != Some(opener))
      ensures s == Ok ==> exists h :: (if hash != "" then h == hash else IsDefault(mid, h)) && h in mid && h in boards
                            && (|| (alive && TerminalHung(mid[h].doc, boards[h].doc, tileId, env.newId, node, uid, 0.5,
                                                          0.5))
                                || exists g, k :: HasProc(mid, g, k, uid) && Rehung(mid, boards, g, k, h, tileId, uid))
    {
      hide Marshalled, Open, Remove, Valid, Unique, Sound, Creates, Opener, TerminalHung, Rehung;
      ghost var was := boards;
      var def := EnsureDefault(env);
      mid := boards;
      EnsuredGood(was, mid, env);
      var h := if hash == "" then def else hash;
      if h !in boards {
        return Missing, mid;
      }
      var parent := Opener(boards[h].doc, tileId);
      var dst := new TileDoc(boards[h].doc);
      var found := FindTerminal(uid);
      if found.None? {
        if !alive {
          return BadRequest, mid;
        }
        var t := TerminalTile(env.newId, node, uid, 0.5, 0.5);
        var r := dst.OpenTile(parent, t);
        OpenValid(mid[h].doc, parent, t);
        NewTilesSound(env.newId, node, uid);
        var ok := SaveLocked(h, dst, env);
        if !ok {
          assert env.newId == "" || OnBoth(mid, env.newId, h, h, env.newId);
          return Failed, mid;
        }
        NoProcNoTag(mid, env.video, uid);
        assert Opens(mid, boards, env.video, h, parent, t);
        BoundHere(mid, boards, env.video, h, tileId, t);
        return Ok, mid;
      }
      var (g, k) := found.value;
      var t := boards[g].doc.tiles[k];
      if g == h && t.parent == Some(parent) {
        return Same, mid;
      }
      var ok := Rehang(g, k, h, parent, env);
      if ok {
        RehungThere(mid, boards, env.video, g, k, h, tileId);
      } else {
        assert OnBoth(mid, env.newId, g, h, k);
      }
      s := if ok then Ok else Failed;
    }

    /** The move itself, on one board or on two. */
    method Rehang(g: string, k: string, h: string, parent: string, env: Env) returns (ok: bool)
      requires Good(boards, env.video) && g in boards && h in boards && k in boards[g].doc.tiles
               && boards[g].doc.tiles[k].kind.Terminal?
      modifies this
      ensures !ok ==> boards == old(boards) && g != h && k in old(boards)[h].doc.tiles
      ensures ok ==> Rehangs(old(boards), boards, g, k, h, parent)
    {
      hide Marshalled, Open, Remove, Valid, Unique, Sound;
      ghost var was := boards;
      var dst := new TileDoc(boards[h].doc);
      SoundTile(was[g].doc, k);
      RemoveValid(was[g].doc, k);
      var shown := boards[g].doc.tiles[k].(minimized := false);
      if g == h {
        dst.RemoveTile(k);
        OpenValid(Remove(was[h].doc, k), parent, shown);
        var r := dst.OpenTile(parent, shown);
        ok := SaveLocked(h, dst, env);
      } else {
        var from := new TileDoc(boards[g].doc);
        from.RemoveTile(k);
        var r := dst.OpenTile(parent, shown);
        OpenValid(was[h].doc, parent, shown);
        ok := SaveLocked(h, dst, env);
        if ok {
          var saved := SaveLocked(g, from, env);
          assert saved;
          assert boards == was[g := boards[g]][h := boards[h]];
        }
      }
    }

    /** `moveWorkspaceTile`. */
    method MoveTile(src: string, dst: string, id: string, after: string, version: Option<int>, env: Env)
      returns (s: Status)
      requires Good(boards, env.video)
      modifies this
      ensures s != Ok ==> boards == old(boards)
      ensures s == Missing <==>
                src !in old(boards) || dst !in old(boards) || (s != Conflict && id !in old(boards)[src].doc.tiles)
      ensures s == Conflict <==> src in old(boards) && dst in old(boards) && version.Some?
                                 && version.value != old(boards)[src].version
      ensures s == BadRequest ==> id == old(boards)[src].doc.root || (src == dst && after == id)
      ensures s != Same
      ensures s == Failed ==> src != dst && !(InsideOf(old(boards)[src].doc, id) !! old(boards)[dst].doc.tiles.Keys)
      ensures s == Ok ==>
                if src == dst then Shifts(old(boards), boards, src, id, after)
                else Moves(old(boards), boards, src, dst, id, after)
    {
      hide Marshalled, Valid, Unique, Put, Left, InsideOf, Place;
      if src !in boards || dst !in boards {
        return Missing;
      }
      if version.Some? && boards[src].version != version.value {
        return Conflict;
      }
      var srcDoc := new TileDoc(boards[src].doc);
      if id !in srcDoc.tiles {
        return Missing;
      }
      if id == srcDoc.rootId {
        return BadRequest;
      }
      ghost var was := boards;
      if src == dst {
        if after == id {
          return BadRequest;
        }
        srcDoc.order := Pick(srcDoc.order, {id}, false);
        srcDoc.PlaceAfter(after, [id]);
        ShiftValid(was[src].doc, id, after);
        var ok := SaveLocked(src, srcDoc, env);
        assert ok;
        return Ok;
      }
      var dstDoc := new TileDoc(boards[dst].doc);
      LeftValid(was[src].doc, id);
      PutValid(was[src].doc, id, was[dst].doc, after);
      var moved := srcDoc.TakeOpened(id);
      dstDoc.PutOpened(after, moved);
      var before := boards;
      var ok := SaveLocked(src, srcDoc, env);
      ok := SaveLocked(dst, dstDoc, env);
      if !ok {
        boards := before;
        return Failed;
      }
      return Ok;
    }

    /** `createWorkspace`. */
    method CreateWorkspace(from: string, folder: string, version: int, env: Env, splitHash: string)
      returns (s: Status, ghost mid: Boards)
      requires Good(boards, env.video) && env.newHash !in boards && env.newRoot != "" && splitHash !in boards
               && splitHash != env.newHash
      modifies this
      ensures Ensured(old(boards), mid, env)
      ensures s != Ok ==> boards == mid
      ensures s != Ok ==> (s == Missing && from != "" && from !in mid) || exists h ::
                && (if from != "" then h == from else IsDefault(mid, h)) && h in mid
                && match s
                   case Conflict => mid[h].version != version
                   case Missing => folder !in mid[h].doc.tiles
                   case BadRequest => folder in mid[h].doc.tiles
                                      && (folder == mid[h].doc.root
                                          || mid[h].doc.tiles[folder].kind !in {Folder, Device})
                   case _ => false
      ensures s == Ok ==>
                exists h ::
                  (if from != "" then h == from else IsDefault(mid, h)) && h in mid && mid[h].version == version
                                      && Splits(mid, boards, h, folder, splitHash)
    {
      hide Marshalled, Valid, Unique, CutOff, Left, Creates, InsideOf, Pick;
      ghost var was := boards;
      mid := boards;
      var h := from;
      if from == "" {
        h := EnsureDefault(env);
        mid := boards;
        EnsuredGood(was, mid, env);
      } else if from !in boards {
        return Missing, mid;
      }
      if boards[h].version != version {
        return Conflict, mid;
      }
      var doc := new TileDoc(boards[h].doc);
      var refused, sub := doc.DetachFolder(folder);
      if refused.Some? {
        return (if refused.value == NotFound then Missing else BadRequest), mid;
      }
      CutValid(mid[h].doc, folder);
      LeftValid(mid[h].doc, folder);
      var ok := sub.Validate();
      assert ok;
      ok := SaveLocked(h, doc, env);
      assert ok;
      Marshal(sub, env);
      boards := boards[splitHash := Board(sub.Now(), 1, false)];
      assert Splits(mid, boards, h, folder, splitHash);
      s := Ok;
    }

    /** `deleteWorkspace`: everything on the board goes to the default one. */
    method DeleteWorkspace(hash: string, env: Env) returns (s: Status)
      requires Good(boards, env.video)
      modifies this
      ensures s != Ok ==> boards == old(boards)
      ensures s == Missing <==> hash !in old(boards)
      ensures s == BadRequest <==> hash in old(boards) && old(boards)[hash].isDefault
      ensures s == Failed ==> || (forall g :: !IsDefault(old(boards), g))
                              || exists g :: IsDefault(old(boards), g)
                                             && !(old(boards)[hash].doc.tiles.Keys !! old(boards)[g].doc.tiles.Keys)
      ensures s != Same && s != Conflict
      ensures s == Ok ==> exists def :: Deletes(old(boards), boards, hash, def)
    {
      hide Marshalled, Valid, Unique, Put, Left, InsideOf;
      if hash !in boards {
        return Missing;
      }
      if boards[hash].isDefault {
        return BadRequest;
      }
      var def: Option<string> := None;
      var left := boards.Keys;
      while left != {}
        invariant left <= boards.Keys && (def.Some? ==> IsDefault(boards, def.value))
        invariant def.None? ==> forall h :: h !in left ==> !IsDefault(boards, h)
        decreases |left|
      {
        var h :| h in left;
        left := left - {h};
        if boards[h].isDefault {
          def := Some(h);
        }
      }
      if def.None? {
        return Failed;
      }
      ghost var was := boards;
      var defDoc := new TileDoc(boards[def.value].doc);
      var moved := new TileDoc(boards[hash].doc);
      WholeBoard(was[hash].doc);
      PutValid(was[hash].doc, was[hash].doc.root, was[def.value].doc, "");
      var items := moved.TakeOpened(moved.rootId);
      defDoc.PutOpened("", items);
      var ok := SaveLocked(def.value, defDoc, env);
      if !ok {
        return Failed;
      }
      boards := boards - {hash};
      assert boards == (was - {hash})[def.value := boards[def.value]];
      assert Deletes(was, boards, hash, def.value);
      return Ok;
    }

    /** The loop of `bindTile` over one document. */
    method Repin(doc: TileDoc, node: int, id: Option<string>) returns (changed: bool)
      modifies doc`tiles
      ensures doc.Now() == Repinned(old(doc.Now()), node, id) && (changed <==> doc.Now() != old(doc.Now()))
    {
      changed := false;
      var was, tiles := doc.tiles, doc.tiles;
      var left := tiles.Keys;
      doc.NowTiles();
      hide *;
      NoneRepinned(was, node, id);
      while left != {}
        invariant left <= was.Keys && RepinnedBut(was, tiles, left, node, id)
        invariant doc.tiles == was && (changed <==> tiles != was)
        decreases |left|
      {
        var key :| key in left;
        RepinnedNext(was, tiles, left, key, node, id);
        left := left - {key};
        var t := RepinTile(was[key], key, node, id);
        if t != was[key] {
          tiles := tiles[key := t];
          changed := true;
        }
      }
      RepinnedIs(doc.Now(), tiles, node, id);
      SetTiles(doc, tiles);
    }

    method SetTiles(doc: TileDoc, tiles: map<string, Tile>)
      modifies doc`tiles
      ensures doc.Now() == old(doc.Now()).(tiles := tiles) && doc.tiles == tiles
              && old(doc.Now()).tiles == old(doc.tiles)
    {
      doc.tiles := tiles;
    }

    method RepinTile(t0: Tile, key: string, node: int, id: Option<string>) returns (t: Tile)
      ensures t == RepinnedTile(t0, key, node, id)
    {
      t := t0;
      var want := id == Some(key);
      if t.kind.Folder? && t.node == Some(node) && t.bound != want {
        t := t.(bound := want);
      }
    }

    /** `bindTile`: one pin a node in the whole account. */
    method BindTile(hash: string, tileId: string, env: Env) returns (s: Status, ghost mid: Boards)
      requires Good(boards, env.video) && env.newHash !in boards && env.newRoot != ""
      modifies this
      ensures Ensured(old(boards), mid, env)
      ensures s != Ok ==> boards == mid
      ensures s == Missing <==> hash != "" && hash !in mid
      ensures s == BadRequest ==> exists h :: (if hash != "" then h == hash else IsDefault(mid, h)) && h in mid
                                              && (forall node :: !HasFolder(mid, h, tileId, node))
      ensures s == Ok || s == Missing || s == BadRequest
      ensures s == Ok ==> exists h :: (if hash != "" then h == hash else IsDefault(mid, h))
                                      && Binds(mid, boards, h, tileId) && PinMoved(mid, boards, h, tileId)
    {
      hide Valid, Good, Creates, Binds, Bound, Saved, PinMoved;
      ghost var was := boards;
      var def := EnsureDefault(env);
      mid := boards;
      EnsuredGood(was, mid, env);
      var h := if hash == "" then def else hash;
      if h !in boards {
        return Missing, mid;
      }
      var tiles := boards[h].doc.tiles;
      if tileId !in tiles || !tiles[tileId].kind.Folder? || tiles[tileId].node.None? {
        return BadRequest, mid;
      }
      RepinAll(h, tiles[tileId].node.value, tileId, env);
      AllBound(mid, boards, h, tileId);
      BoundMoves(mid, boards, h, tileId);
      s := Ok;
    }

    method RepinAll(h: string, node: int, tileId: string, env: Env)
      requires Good(boards, env.video)
      modifies this
      ensures boards.Keys == old(boards).Keys
      ensures forall g :: g in boards ==> Bound(old(boards)[g], boards[g], node, if g == h then Some(tileId) else None)
    {
      hide Valid, Good, Bound;
      var left := boards.Keys;
      while left != {}
        invariant left <= boards.Keys == old(boards).Keys
        invariant forall g :: g in left ==> boards[g] == old(boards)[g]
        invariant forall g ::
                    g in boards && g !in left ==>
                      Bound(old(boards)[g], boards[g], node, if g == h then Some(tileId) else None)
        decreases |left|
      {
        var g :| g in left;
        left := left - {g};
        GoodAt(old(boards), env.video, g);
        RepinBoard(g, node, if g == h then Some(tileId) else None, env);
      }
    }

    method RepinBoard(g: string, node: int, at: Option<string>, env: Env)
      requires g in boards && Valid(boards[g].doc)
      modifies this
      ensures g in boards && boards == old(boards)[g := boards[g]] && Bound(old(boards)[g], boards[g], node, at)
    {
      hide Marshalled, Valid, Repinned;
      var doc := new TileDoc(boards[g].doc);
      RepinValid(boards[g].doc, node, at);
      var changed := Repin(doc, node, at);
      if changed {
        var ok := SaveLocked(g, doc, env);
        assert ok;
      }
    }

    /** `findOrphans`: the processes no board shows. */
    method FindOrphans(procs: seq<Proc>) returns (out: seq<Proc>)
      requires (forall p :: p in procs ==> p.uid != "") && ProcsApart(procs)
      ensures forall p :: p in out <==> p in procs && !ShownAnywhere(boards, p.uid)
      ensures ProcsApart(out) && |out| <= |procs|
    {
      var has: set<string> := {};
      var left := boards.Keys;
      while left != {}
        invariant left <= boards.Keys
        invariant forall u ::
                    u in has <==> u != "" && exists h :: h in boards && h !in left && ShowsProc(boards[h].doc, u)
        decreases |left|
      {
        var h :| h in left;
        left := left - {h};
        var doc := new TileDoc(boards[h].doc);
        var uids := doc.TerminalUIDs();
        has := has + (set u | u in uids);
      }
      out := [];
      for i := 0 to |procs|
        invariant forall p :: p in out <==> p in procs[..i] && p.uid !in has
        invariant ProcsApart(out) && |out| <= i
      {
        assert procs[..i + 1] == procs[..i] + [procs[i]];
        if procs[i].uid !in has {
          forall j | 0 <= j < |out| ensures out[j].uid != procs[i].uid {
            assert out[j] in out;
          }
          out := out + [procs[i]];
        }
      }
      assert procs[..|procs|] == procs;
    }

    /** `adoptOrphans`: living processes without a tile come to the default board. */
    method AdoptOrphans(procs: seq<Proc>, ids: seq<string>, env: Env) returns (s: Status, ghost mid: Boards)
      requires Good(boards, env.video) && env.newHash !in boards && env.newRoot != ""
      requires (forall p :: p in procs ==> p.uid != "") && ProcsApart(procs)
      requires |ids| == |procs| && NoDup(ids) && "" !in ids && env.newRoot !in ids
               && forall g, k :: g in boards && k in ids ==> k !in boards[g].doc.tiles
      modifies this
      ensures Ensured(old(boards), mid, env) && (s == Ok || s == Same)
      ensures s == Same ==> boards == mid && forall p :: p in procs ==> ShownAnywhere(mid, p.uid)
      ensures s == Ok ==>
                exists h, ts: seq<Tile> ::
                  IsDefault(mid, h) && Adopts(mid, boards, env.video, h, ts) && AllAdopted(mid, procs, ts)
      ensures s == Ok ==> exists h :: IsDefault(mid, h) && h in boards && forall p ::
                            p in procs && !ShownAnywhere(mid, p.uid) ==> AdoptedOn(boards[h].doc, mid[h].doc.root, p)
    {
      hide Marshalled, Valid, Unique, Creates, Open, Sound, ShownAnywhere;
      mid := boards;
      var orphans := FindOrphans(procs);
      if orphans == [] {
        return Same, mid;
      }
      ghost var was := boards;
      var def := EnsureDefault(env);
      mid := boards;
      EnsuredGood(was, mid, env);
      orphans := FindOrphans(procs);
      if orphans == [] {
        return Same, mid;
      }
      var doc := new TileDoc(boards[def].doc);
      ghost var ts := OpenOrphans(doc, orphans, ids);
      hide OpenAll, TerminalTile, Good, Saved, Adopts, AllAdopted, Ensured, AdoptedOn;
      Adoptable(was, mid, def, ts, orphans, ids, procs, env);
      var ok := SaveLocked(def, doc, env);
      AdoptsNow(mid, boards, env.video, def, ts);
      AllOnRoot(mid, boards, env.video, def, procs, ts);
      s := Ok;
    }

    /** The loop of `adoptOrphans` over the processes. */
    method OpenOrphans(doc: TileDoc, orphans: seq<Proc>, ids: seq<string>) returns (ghost ts: seq<Tile>)
      requires |orphans| <= |ids|
      modifies doc`order, doc`tiles
      ensures doc.Now() == OpenAll(old(doc.Now()), ts)
      ensures |ts| == |orphans|
              && forall j :: 0 <= j < |ts| ==> ts[j] == TerminalTile(ids[j], orphans[j].node, orphans[j].uid, 0.5, 0.5)
    {
      hide Open;
      ts := [];
      for i := 0 to |orphans|
        invariant |ts| == i
                  && forall j :: 0 <= j < i ==> ts[j] == TerminalTile(ids[j], orphans[j].node, orphans[j].uid, 0.5, 0.5)
        invariant doc.Now() == OpenAll(old(doc.Now()), ts)
      {
        var t := TerminalTile(ids[i], orphans[i].node, orphans[i].uid, 0.5, 0.5);
        assert (ts + [t])[..i] == ts;
        OpenAllRoot(old(doc.Now()), ts);
        var r := doc.OpenTile(doc.rootId, t);
        ts := ts + [t];
      }
    }

    /** `putTiles` up to the write: what is read is what the write is checked against. */
    method PutRead(hash: string, sent: Doc, version: int, env: Env) returns (s: Status, p: Request)
      ensures p.h == hash && p.version == version && p.sent == sent
      ensures s == Missing <==> Valid(sent) && hash !in boards
      ensures s == Conflict <==> Valid(sent) && hash in boards && boards[hash].version != version
      ensures s == Ok <==> Reads(boards, p, env.video)
      ensures s == Ok || s == Missing || s == Conflict || s == BadRequest
    {
      hide Valid, TerminalsOk, VideosOk;
      p := Request(hash, version, sent, sent);
      var doc := new TileDoc(sent);
      var ok := doc.Validate();
      if !ok {
        return BadRequest, p;
      }
      if hash !in boards {
        return Missing, p;
      }
      if boards[hash].version != version {
        return Conflict, p;
      }
      var stored := new TileDoc(boards[hash].doc);
      p := p.(stored := boards[hash].doc);
      ok := doc.CheckTerminalUIDs(stored);
      if !ok {
        return BadRequest, p;
      }
      ok := doc.CheckVideoTiles(stored, env.video);
      return (if ok then Ok else BadRequest), p;
    }

    /** `putTiles`' write, compared with the version read, and the terminals it closes. */
    method PutWrite(p: Request, env: Env) returns (s: Status, closed: seq<string>)
      modifies this
      ensures Writes(old(boards), boards, p)
      ensures s == Ok <==> p.h in old(boards) && old(boards)[p.h].version == p.version
      ensures s == Ok ==> forall u :: u in closed <==> u != "" && ShowsProc(p.stored, u) && !ShowsProc(p.sent, u)
      ensures s == Ok ==> p.h in boards && boards == old(boards)[p.h := boards[p.h]]
                          && boards[p.h].version == p.version + 1 && StoredAs(p.sent, p.stored, boards[p.h].doc, env)
    {
      hide Marshalled, ShowsProc, KeepMeta, AllFilled, StoredAs;
      closed := [];
      var doc := new TileDoc(p.sent);
      var stored := new TileDoc(p.stored);
      doc.KeepFolderMeta(stored);
      if p.h !in boards || boards[p.h].version != p.version {
        return Conflict, closed;
      }
      closed := doc.ClosedTerminals(stored);
      forall u ensures ShowsProc(doc.Now(), u) <==> ShowsProc(p.sent, u) {
        ProcsKept(p.sent, p.stored, u);
      }
      Store(p.h, doc, env);
      StoredIs(p.sent, p.stored, boards[p.h].doc, env);
      s := Ok;
    }
  }

  lemma OneStored(t: Tile, stored: map<string, Tile>, k: string, env: Env)
    ensures StoredTile(t, if k in stored then Some(stored[k]) else None, Filled(KeptMeta(t, stored, k), k, env),
                       env.uids(k), env.now)
  {
  }

  lemma StoredIs(sent: Doc, stored: Doc, e: Doc, env: Env)
    requires AllFilled(KeepMeta(sent, stored), e, env)
    ensures StoredAs(sent, stored, e, env)
  {
    hide StoredTile, Filled, KeptMeta;
    forall k {:trigger e.tiles[k]} | k in sent.tiles
      ensures StoredTile(sent.tiles[k], if k in stored.tiles then Some(stored.tiles[k]) else None, e.tiles[k],
                         env.uids(k), env.now)
    {
      OneStored(sent.tiles[k], stored.tiles, k, env);
      assert e.tiles[k] == Filled(KeepMeta(sent, stored).tiles[k], k, env);
    }
  }

  /** A tile as every save leaves it, if the clock is not at 0 and the drawn uids are not empty. */
  predicate Settled(t: Tile) {
    if t.kind == Folder then t.uid != "" && t.shownAt != 0 else t.shownAt == 0 && !t.bound
  }

  ghost predicate AllSettled(d: Doc) { forall k {:trigger d.tiles[k]} :: k in d.tiles ==> Settled(d.tiles[k]) }

  lemma SaveSettles(sent: Doc, stored: Doc, e: Doc, env: Env)
    requires StoredAs(sent, stored, e, env) && env.now != 0 && forall k :: env.uids(k) != ""
    ensures AllSettled(e)
  {
    forall k {:trigger e.tiles[k]} | k in e.tiles ensures Settled(e.tiles[k]) {
      assert StoredTile(sent.tiles[k], if k in stored.tiles then Some(stored.tiles[k]) else None, e.tiles[k],
                        env.uids(k), env.now);
    }
  }

  lemma SettledStays(t: Tile, e: Tile, uid: string, now: int)
    requires StoredTile(t, Some(t), e, uid, now) && Settled(t)
    ensures e == t
  {
  }

  lemma SettledDocStays(d: Doc, e: Doc, env: Env)
    requires AllSettled(d) && StoredAs(d, d, e, env)
    ensures e == d
  {
    hide StoredTile, Settled;
    forall k | k in d.tiles ensures e.tiles[k] == d.tiles[k] {
      assert StoredTile(d.tiles[k], Some(d.tiles[k]), e.tiles[k], env.uids(k), env.now);
      SettledStays(d.tiles[k], e.tiles[k], env.uids(k), env.now);
    }
  }

  /** Sending back what is stored is let through, and what a save has left then stays as it is. */
  lemma SendBack(bs: Boards, h: string, e: Doc, env: Env)
    requires Good(bs, env.video) && h in bs
    ensures Reads(bs, Request(h, bs[h].version, bs[h].doc, bs[h].doc), env.video)
    ensures AllSettled(bs[h].doc) && StoredAs(bs[h].doc, bs[h].doc, e, env) ==> e == bs[h].doc
  {
    var d := bs[h].doc;
    GoodAt(bs, env.video, h);
    UniqueDoc(bs, h, env.video);
    OwnTerminals(d, env.video);
    hide Valid, Good, StoredAs, AllSettled, TerminalsOk, VideosOk, DocUnique;
    if AllSettled(d) && StoredAs(d, d, e, env) {
      SettledDocStays(d, e, env);
    }
  }

  lemma OwnTerminals(d: Doc, video: string -> bool)
    requires DocUnique(d, video)
    ensures TerminalsOk(d, d) && VideosOk(d, d, video)
  {
    forall k, m | k in d.tiles && m in d.tiles && SameProc(d.tiles[k], d.tiles[m]) ensures k == m {
      assert TagAt(d, k, video) == TagAt(d, m, video);
    }
    forall k | k in d.tiles && HoldsProc(d.tiles[k].kind)
      ensures exists s :: s in d.tiles && SameProc(d.tiles[s], d.tiles[k])
    {
      assert SameProc(d.tiles[k], d.tiles[k]);
    }
  }

  lemma ProcsKept(d: Doc, stored: Doc, u: string)
    ensures ShowsProc(KeepMeta(d, stored), u) <==> ShowsProc(d, u)
  {
    var e := KeepMeta(d, stored);
    if k :| k in d.tiles && HoldsProc(d.tiles[k].kind) && d.tiles[k].uid == u {
      assert e.tiles[k].uid == u;
    }
    if k :| k in e.tiles && HoldsProc(e.tiles[k].kind) && e.tiles[k].uid == u {
      assert d.tiles[k].uid == u;
    }
  }

  lemma FilledIsMarshalled(d: Doc, e: Doc, env: Env)
    requires e.root == d.root && e.order == d.order && e.tiles.Keys == d.tiles.Keys
    requires forall k :: k in d.tiles ==> e.tiles[k] == Filled(d.tiles[k], k, env)
    ensures Marshalled(d, e) && AllFilled(d, e, env)
  {
  }

  /** Every process without a tile got one, for the node it runs. */
  ghost predicate AllAdopted(bs: Boards, procs: seq<Proc>, ts: seq<Tile>) {
    forall p ::
      p in procs && !ShownAnywhere(bs, p.uid) ==>
        exists i :: 0 <= i < |ts| && ts[i].uid == p.uid && ts[i].node == p.node
  }

  ghost predicate Bound(b: Board, b1: Board, node: int, id: Option<string>) {
    if Repinned(b.doc, node, id) == b.doc then b1 == b else Saved(b, Repinned(b.doc, node, id), b1)
  }

  /** All tiles are repinned but those `left`. */
  ghost predicate RepinnedBut(was: map<string, Tile>, tiles: map<string, Tile>, left: set<string>, node: int,
                              id: Option<string>) {
    && tiles.Keys == was.Keys && (forall k :: k in was && k in left ==> tiles[k] == was[k])
    && forall k :: k in was && k !in left ==> tiles[k] == RepinnedTile(was[k], k, node, id)
  }

  lemma NoneRepinned(was: map<string, Tile>, node: int, id: Option<string>)
    ensures RepinnedBut(was, was, was.Keys, node, id)
  {
  }

  lemma RepinnedNext(was: map<string, Tile>, tiles: map<string, Tile>, left: set<string>, key: string, node: int,
                     id: Option<string>)
    requires RepinnedBut(was, tiles, left, node, id) && key in left && left <= was.Keys
    ensures var t := RepinnedTile(was[key], key, node, id);
            if t == was[key] then RepinnedBut(was, tiles, left - {key}, node, id)
            else RepinnedBut(was, tiles[key := t], left - {key}, node, id) && tiles[key := t] != was
  {
    hide RepinnedTile;
    var t := RepinnedTile(was[key], key, node, id);
    assert tiles[key := t][key] == t;
  }

  lemma RepinnedIs(d: Doc, tiles: map<string, Tile>, node: int, id: Option<string>)
    requires RepinnedBut(d.tiles, tiles, {}, node, id)
    ensures Repinned(d, node, id) == d.(tiles := tiles)
  {
    hide RepinnedTile;
  }

  lemma GoodAt(bs: Boards, video: string -> bool, h: string)
    requires Good(bs, video) && h in bs
    ensures Valid(bs[h].doc)
  {
  }

  lemma AllBound(bs: Boards, bs1: Boards, h: string, id: string)
    requires h in bs && id in bs[h].doc.tiles && bs[h].doc.tiles[id].kind.Folder? && bs[h].doc.tiles[id].node.Some?
             && bs1.Keys == bs.Keys
    requires forall g ::
               g in bs1 ==> Bound(bs[g], bs1[g], bs[h].doc.tiles[id].node.value, if g == h then Some(id) else None)
    ensures Binds(bs, bs1, h, id)
  {
  }

  lemma RootFilled(root: string, d: Doc, env: Env)
    requires AllFilled(RootDoc(root), d, env)
    ensures d == OneFolder(root, env.uids(root), env.now)
  {
    assert d.tiles.Keys == {root};
  }

  lemma BoundMoves(bs: Boards, bs1: Boards, h: string, id: string)
    requires Binds(bs, bs1, h, id)
    ensures PinMoved(bs, bs1, h, id)
  {
    hide Saved, Repinned, SameBut, PinnedTile;
    var node := bs[h].doc.tiles[id].node.value;
    forall g {:trigger bs1[g]} | g in bs
      ensures bs1[g].isDefault == bs[g].isDefault && SameBut(bs[g].doc, bs1[g].doc)
      ensures bs1[g].version == bs[g].version + (if bs1[g] == bs[g] then 0 else 1)
      ensures bs1[g].doc.tiles.Keys == bs[g].doc.tiles.Keys
      ensures forall k {:trigger bs1[g].doc.tiles[k]} :: k in bs[g].doc.tiles ==>
                PinnedTile(bs[g].doc.tiles[k], bs1[g].doc.tiles[k], g == h && k == id, node)
    {
      BoardBound(bs[g], bs1[g], node, if g == h then Some(id) else None);
    }
  }

  lemma BoardBound(b: Board, b1: Board, node: int, id: Option<string>)
    requires var d := Repinned(b.doc, node, id); if d == b.doc then b1 == b else Saved(b, d, b1)
    ensures b1.isDefault == b.isDefault && SameBut(b.doc, b1.doc)
    ensures b1.version == b.version + (if b1 == b then 0 else 1)
    ensures b1.doc.tiles.Keys == b.doc.tiles.Keys
    ensures forall k {:trigger b1.doc.tiles[k]} :: k in b.doc.tiles ==>
              PinnedTile(b.doc.tiles[k], b1.doc.tiles[k], id == Some(k), node)
  {
    var d := Repinned(b.doc, node, id);
    hide SameBut, Marshalled;
    SameMarshalled(d);
    assert Marshalled(d, b1.doc);
    RepinnedStored(b.doc, b1.doc, node, id);
  }

  lemma SameMarshalled(d: Doc)
    ensures Marshalled(d, d)
  {
  }

  lemma RepinnedStored(d: Doc, e: Doc, node: int, id: Option<string>)
    requires Marshalled(Repinned(d, node, id), e)
    ensures SameBut(d, e) && e.tiles.Keys == d.tiles.Keys
    ensures forall k {:trigger e.tiles[k]} :: k in d.tiles ==> PinnedTile(d.tiles[k], e.tiles[k], id == Some(k), node)
  {
    var mid := Repinned(d, node, id);
    forall k {:trigger e.tiles[k]} | k in d.tiles ensures PinnedTile(d.tiles[k], e.tiles[k], id == Some(k), node) {
      assert mid.tiles[k] == RepinnedTile(d.tiles[k], k, node, id);
    }
  }

  predicate ProcsApart(procs: seq<Proc>) { forall i, j :: 0 <= i < j < |procs| ==> procs[i].uid != procs[j].uid }

  ghost predicate ShownAnywhere(bs: Boards, uid: string) { exists h :: h in bs && ShowsProc(bs[h].doc, uid) }

  /** What the opened tiles need for the step, and that they are all that was asked for. */
  lemma {:induction false} Adoptable(was: Boards, mid: Boards, def: string, ts: seq<Tile>, orphans: seq<Proc>,
                                     ids: seq<string>, procs: seq<Proc>, env: Env)
    requires Good(mid, env.video) && Ensured(was, mid, env) && def in mid && |ts| == |orphans| <= |ids|
    requires NoDup(ids) && ProcsApart(orphans) && "" !in ids && env.newRoot !in ids
             && forall g, k :: g in was && k in ids ==> k !in was[g].doc.tiles
    requires forall j :: 0 <= j < |ts| ==> ts[j] == TerminalTile(ids[j], orphans[j].node, orphans[j].uid, 0.5, 0.5)
    requires (forall p :: p in orphans <==> p in procs && !ShownAnywhere(mid, p.uid))
             && forall p :: p in procs ==> p.uid != ""
    ensures AdoptReady(mid, env.video, def, ts) && Valid(OpenAll(mid[def].doc, ts)) && AllAdopted(mid, procs, ts)
  {
    hide Good, AdoptReady, OpenAll, Valid, ShownAnywhere, ProcsApart, NoDup;
    ReadyToAdopt(was, mid, def, ts, orphans, ids, env);
    UidsFit(ts, orphans, ids);
    AdoptedAll(mid, procs, orphans, ts);
    ReadyIsValid(mid, env.video, def, ts);
  }

  lemma {:induction false} ReadyIsValid(mid: Boards, video: string -> bool, def: string, ts: seq<Tile>)
    requires Good(mid, video) && AdoptReady(mid, video, def, ts)
    ensures Valid(OpenAll(mid[def].doc, ts))
  {
    GoodAt(mid, video, def);
    hide Valid, OpenAll, Sound, Holds, Apart, IdsBut, Good;
    OpenAllValid(mid[def].doc, ts);
  }

  lemma {:induction false} ReadyToAdopt(was: Boards, mid: Boards, def: string, ts: seq<Tile>, orphans: seq<Proc>,
                                        ids: seq<string>, env: Env)
    requires Ensured(was, mid, env) && def in mid && |ts| == |orphans| <= |ids|
    requires NoDup(ids) && ProcsApart(orphans) && "" !in ids && env.newRoot !in ids
             && forall g, k :: g in was && k in ids ==> k !in was[g].doc.tiles
    requires forall j :: 0 <= j < |ts| ==> ts[j] == TerminalTile(ids[j], orphans[j].node, orphans[j].uid, 0.5, 0.5)
    requires forall p :: p in orphans ==> p.uid != "" && !ShownAnywhere(mid, p.uid)
    ensures AdoptReady(mid, env.video, def, ts)
  {
    hide Creates, Sound, ShownAnywhere, Ensured, NoDup, ProcsApart, Apart, Holds, TerminalTile;
    assert forall j :: 0 <= j < |ids| ==> ids[j] in ids;
    AdoptedTiles(mid, env.video, def, ts, orphans, ids);
    FreshOnDefault(was, mid, def, ids, env);
    TileIds(ts, orphans, ids);
  }

  lemma {:induction false} UidsFit(ts: seq<Tile>, orphans: seq<Proc>, ids: seq<string>)
    requires |ts| == |orphans| <= |ids|
    requires forall j :: 0 <= j < |ts| ==> ts[j] == TerminalTile(ids[j], orphans[j].node, orphans[j].uid, 0.5, 0.5)
    ensures forall j :: 0 <= j < |ts| ==> ts[j].uid == orphans[j].uid && ts[j].node == orphans[j].node
  {
  }

  lemma {:induction false} TileIds(ts: seq<Tile>, orphans: seq<Proc>, ids: seq<string>)
    requires |ts| == |orphans| <= |ids|
    requires forall j :: 0 <= j < |ts| ==> ts[j] == TerminalTile(ids[j], orphans[j].node, orphans[j].uid, 0.5, 0.5)
    ensures forall t :: t in ts ==> t.id in ids
  {
    forall t | t in ts ensures t.id in ids {
      var j :| 0 <= j < |ts| && ts[j] == t;
      assert t.id == ids[j];
    }
  }

  lemma {:induction false} AdoptedAll(bs: Boards, procs: seq<Proc>, orphans: seq<Proc>, ts: seq<Tile>)
    requires |ts| == |orphans|
             && forall j :: 0 <= j < |ts| ==> ts[j].uid == orphans[j].uid && ts[j].node == orphans[j].node
    requires forall p :: p in procs && !ShownAnywhere(bs, p.uid) ==> p in orphans
    ensures AllAdopted(bs, procs, ts)
  {
    hide ShownAnywhere;
    forall p | p in procs && !ShownAnywhere(bs, p.uid)
      ensures exists i :: 0 <= i < |ts| && ts[i].uid == p.uid && ts[i].node == p.node
    {
      var i :| 0 <= i < |orphans| && orphans[i] == p;
      assert ts[i].uid == p.uid;
    }
  }

  lemma AdoptsNow(bs: Boards, bs1: Boards, video: string -> bool, h: string, ts: seq<Tile>)
    requires AdoptReady(bs, video, h, ts) && h in bs1 && bs1 == bs[h := bs1[h]]
             && Saved(bs[h], OpenAll(bs[h].doc, ts), bs1[h])
    ensures Adopts(bs, bs1, video, h, ts)
  {
    hide Sound, Saved, OpenAll;
  }

  lemma {:induction false} OpenAllRoot(d: Doc, ts: seq<Tile>)
    ensures OpenAll(d, ts).root == d.root
  {
    if ts != [] {
      OpenAllRoot(d, ts[..|ts| - 1]);
    }
  }

  lemma FreshOnDefault(bs: Boards, mid: Boards, def: string, ids: seq<string>, env: Env)
    requires Ensured(bs, mid, env) && def in mid && env.newRoot !in ids
    requires forall g, k :: g in bs && k in ids ==> k !in bs[g].doc.tiles
    ensures forall k :: k in ids ==> k !in mid[def].doc.tiles
  {
  }

  lemma AdoptedTiles(bs: Boards, video: string -> bool, def: string, ts: seq<Tile>, orphans: seq<Proc>,
                     ids: seq<string>)
    requires |ts| == |orphans| <= |ids| && NoDup(ids) && ProcsApart(orphans)
    requires forall j ::
               0 <= j < |ts| ==>
                 ts[j] == TerminalTile(ids[j], orphans[j].node, orphans[j].uid, 0.5, 0.5) && ids[j] != ""
    requires forall p :: p in orphans ==> p.uid != "" && !ShownAnywhere(bs, p.uid)
    ensures Apart(ts) && forall t :: t in ts ==> t.kind.Terminal? && Sound(t) && !t.bound
    ensures forall t, g, k {:trigger t in ts, Holds(bs, video, g, k, Process(t.uid))} ::
              t in ts ==> !Holds(bs, video, g, k, Process(t.uid))
  {
    forall t | t in ts
      ensures exists j ::
                0 <= j < |ts| && t == TerminalTile(ids[j], orphans[j].node, orphans[j].uid, 0.5, 0.5)
                && orphans[j] in orphans
    {
      var j :| 0 <= j < |ts| && ts[j] == t;
    }
    forall t, g, k | t in ts ensures !Holds(bs, video, g, k, Process(t.uid)) {
      HeldIsShown(bs, video, g, k, t.uid);
    }
  }

  lemma HeldIsShown(bs: Boards, video: string -> bool, g: string, k: string, uid: string)
    ensures Holds(bs, video, g, k, Process(uid)) ==> ShownAnywhere(bs, uid)
  {
    if Holds(bs, video, g, k, Process(uid)) {
      assert ShowsProc(bs[g].doc, uid);
    }
  }

  lemma EnsuredGood(bs: Boards, mid: Boards, env: Env)
    requires Good(bs, env.video) && Ensured(bs, mid, env)
    ensures Good(mid, env.video)
  {
    hide Good, Creates;
    if mid != bs {
      CreatesKeeps(bs, mid, env.video, env.newHash, env.newRoot);
    }
  }

  /** What `appendTerminalTile` does to the rows, and when that is the step that keeps them good. */
  ghost predicate Appends(bs: Boards, bs1: Boards, video: string -> bool, at: string, parent: string, t: Tile) {
    && at in bs && at in bs1 && bs1 == bs[at := bs1[at]] && Saved(bs[at], Open(bs[at].doc, parent, t), bs1[at])
    && (Valid(bs1[at].doc) <==> Sound(t) && t.id !in bs[at].doc.tiles)
    && (Opens(bs, bs1, video, at, parent, t) <==> Sound(t) && t.id !in bs[at].doc.tiles)
  }

  lemma Appended(bs: Boards, bs1: Boards, video: string -> bool, at: string, parent: string, t: Tile)
    requires Good(bs, video) && at in bs && at in bs1 && bs1 == bs[at := bs1[at]]
    requires Saved(bs[at], Open(bs[at].doc, parent, t), bs1[at]) && t.kind.Terminal? && !t.bound
    requires forall h, k, tag {:trigger Holds(bs, video, h, k, tag)} ::
               Holds(bs, video, h, k, tag) ==> tag != Process(t.uid)
    ensures Appends(bs, bs1, video, at, parent, t)
  {
    GoodAt(bs, video, at);
    hide Good, Valid, Open, Marshalled, Sound;
    OpenValid(bs[at].doc, parent, t);
    MarshalValid(Open(bs[at].doc, parent, t), bs1[at].doc);
  }

  /** Storing a document makes it neither valid nor invalid. */
  lemma MarshalValid(d: Doc, e: Doc)
    requires Marshalled(d, e)
    ensures Valid(d) <==> Valid(e)
  {
    hide Valid;
    if Valid(d) {
      SameButValid(d, e);
    }
    if Valid(e) {
      assert SameBut(e, d);
      SameButValid(e, d);
    }
  }

  // ---- the place for a terminal ----

  function DocsOf(bs: Boards, rows: seq<string>): (docs: seq<Doc>)
    requires forall h :: h in rows ==> h in bs
    ensures |docs| == |rows| && forall i :: 0 <= i < |rows| ==> docs[i] == bs[rows[i]].doc
  {
    seq(|rows|, i requires 0 <= i < |rows| => bs[rows[i]].doc)
  }

  lemma RowsStored(rows: seq<string>, all: set<string>)
    requires Lists(rows, all)
    ensures forall i :: 0 <= i < |rows| ==> rows[i] in all
  {
  }

  /** The nearest ancestor that a folder tile shows. */
  predicate Nearest(docs: seq<Doc>, ancestors: seq<int>, k: nat) {
    k < |ancestors| && Of(AllSpots(docs), ancestors[k]) != []
    && forall j :: 0 <= j < k ==> Of(AllSpots(docs), ancestors[j]) == []
  }

  ghost predicate BindingAt(bs: Boards, rows: seq<string>, ancestors: seq<int>) {
    (forall h :: h in rows ==> h in bs) && exists k: nat :: Nearest(DocsOf(bs, rows), ancestors, k)
  }

  /** Its best tile. */
  ghost function TheBinding(bs: Boards, rows: seq<string>, ancestors: seq<int>): (b: Spot)
    requires BindingAt(bs, rows, ancestors)
    ensures b.at < |rows|
  {
    var docs := DocsOf(bs, rows);
    var k: nat :| Nearest(docs, ancestors, k);
    BestOnBoard(docs, ancestors[k]);
    Best(Of(AllSpots(docs), ancestors[k]))
  }

  ghost predicate Placed(bs: Boards, rows: seq<string>, ancestors: seq<int>, viewed: set<string>) {
    BindingAt(bs, rows, ancestors)
    && var h := rows[TheBinding(bs, rows, ancestors).at];
       h in bs && (h in viewed || (bs[h].isDefault && "" in viewed))
  }

  lemma OneNearest(docs: seq<Doc>, ancestors: seq<int>, k: nat, m: nat)
    requires Nearest(docs, ancestors, k) && Nearest(docs, ancestors, m)
    ensures k == m
  {
  }

  lemma BindingIs(docs: seq<Doc>, ancestors: seq<int>, best: Option<Spot>)
    requires best.None? ==> forall a :: a in ancestors ==> Of(AllSpots(docs), a) == []
    requires best.Some? ==> exists k :: 0 <= k < |ancestors| && Of(AllSpots(docs), ancestors[k]) != []
                                        && best.value == Best(Of(AllSpots(docs), ancestors[k]))
                                        && forall j :: 0 <= j < k ==> Of(AllSpots(docs), ancestors[j]) == []
    ensures best.None? ==> forall k: nat :: !Nearest(docs, ancestors, k)
    ensures best.Some? ==> best.value.at < |docs| && exists k: nat :: Nearest(docs, ancestors, k)
    ensures best.Some? ==>
              forall k: nat :: Nearest(docs, ancestors, k) ==> best.value == Best(Of(AllSpots(docs), ancestors[k]))
  {
    hide AllSpots, Of, Best;
    if best.Some? {
      var k :| 0 <= k < |ancestors| && Of(AllSpots(docs), ancestors[k]) != []
               && best.value == Best(Of(AllSpots(docs), ancestors[k]))
               && forall j :: 0 <= j < k ==> Of(AllSpots(docs), ancestors[j]) == [];
      assert Nearest(docs, ancestors, k);
      BestOnBoard(docs, ancestors[k]);
      forall m: nat | Nearest(docs, ancestors, m) ensures m == k {
        OneNearest(docs, ancestors, k, m);
      }
    }
  }

  // ---- shared folders ----

  ghost predicate HasFolderUid(bs: Boards, h: string, k: string, uid: string) {
    h in bs && k in bs[h].doc.tiles && bs[h].doc.tiles[k].kind.Folder? && bs[h].doc.tiles[k].uid == uid
  }

  lemma FolderUidOn(bs: Boards, h: string, uid: string, has: bool)
    requires h in bs
    requires has <==>
               exists k :: k in bs[h].doc.tiles && bs[h].doc.tiles[k].kind.Folder? && bs[h].doc.tiles[k].uid == uid
    ensures has <==> exists k :: HasFolderUid(bs, h, k, uid)
  {
    if has {
      var k :| k in bs[h].doc.tiles && bs[h].doc.tiles[k].kind.Folder? && bs[h].doc.tiles[k].uid == uid;
      assert HasFolderUid(bs, h, k, uid);
    }
  }

  lemma AllOrdered(d: Doc)
    requires Valid(d)
    ensures forall k :: k in d.order <==> k in d.tiles
  {
  }

  lemma NoTagOfFolder(t: Tile, video: string -> bool)
    requires t.kind.Folder? && !t.bound
    ensures TagOf(t, video) == None
  {
  }

  lemma EmptyUid(t: Tile, bs: Boards, uid: string, used: bool)
    requires used <==> uid != "" && FolderUidUsed(bs, uid)
    ensures (if used then "" else uid) == if FolderUidUsed(bs, uid) then "" else uid
  {
  }

  lemma NoProcNoTag(bs: Boards, video: string -> bool, uid: string)
    requires forall h, k :: !HasProc(bs, h, k, uid)
    ensures forall h, k, tag {:trigger Holds(bs, video, h, k, tag)} ::
              Holds(bs, video, h, k, tag) ==> tag != Process(uid)
  {
    forall h, k, tag | Holds(bs, video, h, k, tag) ensures tag != Process(uid) {
      assert !HasProc(bs, h, k, uid);
    }
  }

  lemma NoFileNoTag(bs: Boards, video: string -> bool, instance: string, path: string)
    requires forall h, k :: !HasFile(bs, h, k, instance, path)
    ensures forall h, k, tag {:trigger Holds(bs, video, h, k, tag)} ::
              Holds(bs, video, h, k, tag) ==> tag != VideoFile(instance, path)
  {
    forall h, k, tag | Holds(bs, video, h, k, tag) ensures tag != VideoFile(instance, path) {
      assert !HasFile(bs, h, k, instance, path);
    }
  }

  // ---- where new tiles hang ----

  /** A tile that was opened and stored. */
  lemma SavedHung(bs: Boards, bs1: Boards, video: string -> bool, at: string, opener: string, t: Tile)
    requires Good(bs, video) && at in bs && at in bs1 && Saved(bs[at], Open(bs[at].doc, opener, t), bs1[at])
    ensures HungOn(bs[at].doc, bs1[at].doc, opener, t.id)
    ensures t == TerminalTile(t.id, t.node, t.uid, t.w, t.h) ==>
              TerminalHung(bs[at].doc, bs1[at].doc, opener, t.id, t.node, t.uid, t.w, t.h)
    ensures t.node.Some? && t == ViewerTile(t.id, t.node.value, t.instance, t.path, t.w, t.h) ==>
              ViewerHung(bs[at].doc, bs1[at].doc, opener, t.id, t.node.value, t.instance, t.path, t.w, t.h)
  {
    GoodAt(bs, video, at);
    OpenPlaced(bs[at].doc, opener, t);
    hide Good, Valid, Open, HungOn;
    var mid := Open(bs[at].doc, opener, t);
    SameButHung(bs[at].doc, mid, bs1[at].doc, opener, t.id);
    HungThere(bs[at].doc, mid, opener, t.id);
  }

  lemma FolderHung(bs: Boards, bs1: Boards, at: string, t: Tile, node: int)
    requires at in bs && at in bs1 && t.kind.Folder? && t.node == Some(node)
    requires Saved(bs[at], Open(bs[at].doc, bs[at].doc.root, t), bs1[at])
    ensures HasFolder(bs1, at, t.id, node)
  {
  }

  lemma HungThere(d: Doc, e: Doc, opener: string, id: string)
    requires HungOn(d, e, opener, id)
    ensures id in e.tiles
  {
  }

  /** The new terminal tile hangs on the first choice among the folder tiles of the nearest ancestor
      that has any, and stands right behind it. */
  ghost predicate BoundHung(mid: Boards, bs: Boards, rows: seq<string>, ancestors: seq<int>, k: int, i: nat, n: nat,
                            id: string, node: int, uid: string) {
    && (forall h :: h in rows ==> h in mid) && 0 <= k < |ancestors|
    && NoneShown(DocsOf(mid, rows), ancestors[..k]) && FirstChoice(DocsOf(mid, rows), ancestors[k], i, n)
    && rows[i] in bs && var d, e := mid[rows[i]].doc, bs[rows[i]].doc;
       && TerminalHung(d, e, d.order[n], id, Some(node), uid, 0.5, 0.5) && e.tiles[id].parent == Some(d.order[n])
  }

  lemma UnderBinding(mid: Boards, bs: Boards, video: string -> bool, rows: seq<string>, ancestors: seq<int>, t: Tile)
    requires Good(mid, video) && Lists(rows, mid.Keys) && BindingAt(mid, rows, ancestors)
    requires t.node.Some? && t == TerminalTile(t.id, t.node, t.uid, 0.5, 0.5)
    requires var b := TheBinding(mid, rows, ancestors);
             rows[b.at] in mid && rows[b.at] in bs
             && Saved(mid[rows[b.at]], Open(mid[rows[b.at]].doc, b.tile.id, t), bs[rows[b.at]])
    ensures exists k, i: nat, n: nat :: BoundHung(mid, bs, rows, ancestors, k, i, n, t.id, t.node.value, t.uid)
  {
    var b, docs := TheBinding(mid, rows, ancestors), DocsOf(mid, rows);
    var k, i, n := BindingChosen(mid, rows, ancestors);
    var h := rows[i];
    GoodAt(mid, video, h);
    NamedByKey(mid[h].doc, mid[h].doc.order[n]);
    hide Good, Valid, Open, Marshalled, TheBinding, BindingAt, FirstChoice, HungOn, NoneShown, TerminalHung;
    SavedHung(mid, bs, video, h, b.tile.id, t);
    OnFolder(docs, ancestors[k], i, n);
    UnderFolder(mid[h].doc, bs[h].doc, mid[h].doc.order[n], t.id, t.node, t.uid);
    assert BoundHung(mid, bs, rows, ancestors, k, i, n, t.id, t.node.value, t.uid);
  }

  lemma UnderFolder(d: Doc, e: Doc, k: string, id: string, node: Option<int>, uid: string)
    requires TerminalHung(d, e, k, id, node, uid, 0.5, 0.5) && k in d.tiles && d.tiles[k].kind == Folder
    ensures id in e.tiles && e.tiles[id].parent == Some(k)
  {
  }

  lemma NamedByKey(d: Doc, k: string)
    requires Valid(d) && k in d.tiles
    ensures d.tiles[k].id == k
  {
  }

  lemma OnFolder(docs: seq<Doc>, node: int, i: nat, n: nat)
    requires FirstChoice(docs, node, i, n)
    ensures FolderAt(docs, i, n, node)
  {
  }

  lemma BindingChosen(bs: Boards, rows: seq<string>, ancestors: seq<int>) returns (k: nat, i: nat, n: nat)
    requires BindingAt(bs, rows, ancestors)
    ensures k < |ancestors| && NoneShown(DocsOf(bs, rows), ancestors[..k])
    ensures FirstChoice(DocsOf(bs, rows), ancestors[k], i, n)
    ensures TheBinding(bs, rows, ancestors) == Spot(i, TileAt(DocsOf(bs, rows), i, n))
    ensures i < |rows| && rows[i] in bs
    ensures var d := bs[rows[i]].doc; n < |d.order| && d.order[n] in d.tiles
  {
    var docs, b := DocsOf(bs, rows), TheBinding(bs, rows, ancestors);
    k :| Nearest(docs, ancestors, k) && b == Best(Of(AllSpots(docs), ancestors[k]));
    hide Of, AllSpots, Best, FirstChoice;
    ChosenFirst(docs, ancestors, k);
    i, n :| FirstChoice(docs, ancestors[k], i, n) && b == Spot(i, TileAt(docs, i, n));
    OnFolder(docs, ancestors[k], i, n);
  }

  /** The tile of a process was taken from where it was and hung elsewhere, and is shown. */
  ghost predicate Rehung(mid: Boards, bs: Boards, g: string, k: string, h: string, opener: string, uid: string) {
    && g in mid && h in mid && h in bs && k in mid[g].doc.tiles && k in bs[h].doc.tiles
    && HungOn(if g == h then Remove(mid[h].doc, k) else mid[h].doc, bs[h].doc, opener, k)
    && bs[h].doc.tiles[k].kind == Terminal && bs[h].doc.tiles[k].uid == uid && !bs[h].doc.tiles[k].minimized
    && (g != h ==> g in bs && k !in bs[g].doc.tiles)
  }

  /** To ask for a tile, or for what is put in its place, is the same. */
  lemma HungVia(d: Doc, d1: Doc, e: Doc, opener: string, id: string)
    requires Valid(d) && Valid(d1) && d1.root == d.root && (d1 == d || (id in d.tiles && !CanParent(d.tiles[id].kind)))
    requires d1 == d || (d1.tiles.Keys == d.tiles.Keys - {id}
                         && forall k :: k in d1.tiles ==> d1.tiles[k].kind == d.tiles[k].kind)
    requires HungOn(d1, e, Opener(d, opener), id)
    ensures HungOn(d1, e, opener, id)
  {
    OpenerOk(d, opener);
    RootCanOpen(d);
  }

  lemma RootCanOpen(d: Doc)
    requires Valid(d)
    ensures d.root in d.tiles && CanParent(d.tiles[d.root].kind)
  {
  }

  lemma BoundHere(bs: Boards, bs1: Boards, video: string -> bool, h: string, opener: string, t: Tile)
    requires Good(bs, video) && h in bs && h in bs1 && t == TerminalTile(t.id, t.node, t.uid, t.w, t.h)
    requires Saved(bs[h], Open(bs[h].doc, Opener(bs[h].doc, opener), t), bs1[h])
    ensures TerminalHung(bs[h].doc, bs1[h].doc, opener, t.id, t.node, t.uid, t.w, t.h)
  {
    GoodAt(bs, video, h);
    SavedHung(bs, bs1, video, h, Opener(bs[h].doc, opener), t);
    hide Good, Valid, HungOn, Opener, Open;
    HungVia(bs[h].doc, bs[h].doc, bs1[h].doc, opener, t.id);
  }

  lemma RehungThere(bs: Boards, bs1: Boards, video: string -> bool, g: string, k: string, h: string, opener: string)
    requires Good(bs, video) && h in bs && Rehangs(bs, bs1, g, k, h, Opener(bs[h].doc, opener))
    ensures Rehung(bs, bs1, g, k, h, opener, bs[g].doc.tiles[k].uid)
  {
    GoodAt(bs, video, h);
    GoodAt(bs, video, g);
    SoundTile(bs[g].doc, k);
    RemoveValid(bs[g].doc, k);
    var d, d1 := bs[h].doc, if g == h then Remove(bs[h].doc, k) else bs[h].doc;
    var p, t := Opener(d, opener), bs[g].doc.tiles[k].(minimized := false);
    OpenPlaced(d1, p, t);
    KeyOfTile(bs[g].doc, k);
    Removed(bs[g].doc, k);
    hide Good, Valid, HungOn, Open, Remove, Opener;
    SameButHung(d1, Open(d1, p, t), bs1[h].doc, p, k);
    HungVia(d, d1, bs1[h].doc, opener, k);
    HungThere(d1, Open(d1, p, t), p, k);
  }

  lemma KeyOfTile(d: Doc, k: string)
    requires Valid(d) && k in d.tiles
    ensures d.tiles[k].id == k
  {
  }

  lemma Removed(d: Doc, k: string)
    requires k in d.tiles
    ensures var e := Remove(d, k);
            && e.root == d.root && e.tiles.Keys == d.tiles.Keys - {k}
            && forall m :: m in e.tiles ==> e.tiles[m].kind == d.tiles[m].kind
  {
  }

  /** A tile of the process hangs on the root. */
  ghost predicate AdoptedOn(d: Doc, root: string, p: Proc) {
    exists k {:trigger d.tiles[k]} :: k in d.tiles && d.tiles[k].kind == Terminal && d.tiles[k].uid == p.uid
                                      && d.tiles[k].node == p.node && d.tiles[k].parent == Some(root)
  }

  lemma {:induction false} OpenedOnRoot(d: Doc, ts: seq<Tile>, i: nat)
    requires Valid(d) && Apart(ts) && (forall t :: t in ts ==> Sound(t) && t.id !in d.tiles) && i < |ts|
    ensures var e := OpenAll(d, ts); ts[i].id in e.tiles && e.tiles[ts[i].id] == ts[i].(parent := Some(d.root))
  {
    var front, t := ts[..|ts| - 1], ts[|ts| - 1];
    OpenAllStep(d, ts);
    FrontFits(d, ts);
    OpenAllValid(d, front);
    OpenAllRoot(d, front);
    RootCanOpen(OpenAll(d, front));
    hide Valid, OpenAll, Sound;
    if i < |front| {
      OpenedOnRoot(d, front, i);
      assert ts[i].id != t.id;
    }
  }

  lemma AllOnRoot(bs: Boards, bs1: Boards, video: string -> bool, h: string, procs: seq<Proc>, ts: seq<Tile>)
    requires Good(bs, video) && Adopts(bs, bs1, video, h, ts) && AllAdopted(bs, procs, ts)
    ensures h in bs1 && forall p :: p in procs && !ShownAnywhere(bs, p.uid) ==> AdoptedOn(bs1[h].doc, bs[h].doc.root, p)
  {
    GoodAt(bs, video, h);
    hide Good, Valid, Sound, ShownAnywhere, OpenAll, Holds;
    forall p | p in procs && !ShownAnywhere(bs, p.uid) ensures AdoptedOn(bs1[h].doc, bs[h].doc.root, p) {
      var i :| 0 <= i < |ts| && ts[i].uid == p.uid && ts[i].node == p.node;
      OpenedOnRoot(bs[h].doc, ts, i);
      assert ts[i] in ts;
      var e := bs1[h].doc;
      assert e.tiles[ts[i].id].parent == Some(bs[h].doc.root);
    }
  }

  // ---- new tiles that are sound ----

  lemma NewTilesSound(id: string, node: Option<int>, uid: string)
    ensures Sound(TerminalTile(id, node, uid, 0.5, 0.5)) <==> id != "" && uid != ""
    ensures Sound(FolderTile(id, node, uid)) <==> id != ""
  {
  }

  lemma NewViewerSound(id: string, node: int, instance: string, path: string, w: real, h: real)
    requires '#' in instance && ValidSpan(w) && ValidSpan(h)
    ensures Sound(ViewerTile(id, node, instance, path, w, h)) <==> id != "" && path != ""
  {
  }
}
