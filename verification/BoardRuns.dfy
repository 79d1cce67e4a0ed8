/** Every step keeps every board valid and every tag on one tile; so does every run of steps,
    with the saves of browsers split into their reading and their writing. */
module BoardRuns {
  import opened Wrappers
  import opened TileDocs
  import opened TileTrees
  import opened Boards

  ghost predicate Good(bs: Boards, video: string -> bool) { AllValid(bs) && Unique(bs, video) }

  // ---- tags of the documents the steps make ----

  lemma OpenTags(d: Doc, opener: string, t: Tile, k: string, video: string -> bool)
    ensures TagAt(Open(d, opener, t), k, video) == if k == t.id then TagOf(t, video) else TagAt(d, k, video)
  {
    hide Insert, IndexOf, Opener;
    var u := t.(parent := Some(Opener(d, opener)));
    assert Open(d, opener, t).tiles == d.tiles[t.id := u];
    assert TagOf(u, video) == TagOf(t, video);
  }

  lemma RemoveTags(d: Doc, id: string, k: string, video: string -> bool)
    requires id in d.tiles
    ensures TagAt(Remove(d, id), k, video) == if k == id then None else TagAt(d, k, video)
  {
  }

  lemma LeftTags(d: Doc, id: string, k: string, video: string -> bool)
    ensures TagAt(Left(d, id), k, video) == if k in InsideOf(d, id) then None else TagAt(d, k, video)
  {
    hide Inside, Pick;
  }

  lemma PutTags(src: Doc, id: string, dst: Doc, after: string, k: string, video: string -> bool)
    requires Valid(src)
    ensures TagAt(Put(dst, after, Taken(src, id)), k, video) == if k in InsideOf(src, id) then TagAt(src, k,
                video) else TagAt(dst, k, video)
  {
    hide Put, InsideOf, Valid;
    PutTiles(src, id, dst, after, k);
    if k in InsideOf(src, id) {
      InsideIds(src, id);
      assert k in src.tiles by { InsideHas(src, id, k); }
    }
  }

  lemma InsideHas(d: Doc, id: string, k: string)
    requires k in InsideOf(d, id)
    ensures k in d.tiles
  {
  }

  lemma CutTags(d: Doc, id: string, k: string, video: string -> bool)
    requires id in d.tiles
    ensures TagAt(CutOff(d, id), k, video) == if k in InsideOf(d, id) || k == id then TagAt(d, k, video) else None
  {
    hide Inside, Pick, Subtree;
  }

  lemma RepinTags(d: Doc, node: int, id: Option<string>, k: string, video: string -> bool)
    ensures var tag := TagAt(Repinned(d, node, id), k, video);
            if k in d.tiles && d.tiles[k].kind.Folder?
            && d.tiles[k].node == Some(node) then tag == (if id == Some(k) then Some(Pinned(node)) else None)
            else tag == TagAt(d, k, video) && tag != Some(Pinned(node))
  {
  }

  // ---- one board changed ----

  /** A board may be replaced by a valid one that shows nothing twice and nothing that another
      board shows. */
  lemma ReplaceOne(bs: Boards, h: string, b1: Board, video: string -> bool)
    requires Good(bs, video) && h in bs && Valid(b1.doc) && DocUnique(b1.doc, video)
    requires forall k {:trigger TagAt(b1.doc, k, video)} :: TagAt(b1.doc, k, video).Some? ==>
      forall g, m {:trigger Holds(bs, video, g, m, TagAt(b1.doc, k, video).value)} ::
        Holds(bs, video, g, m, TagAt(b1.doc, k, video).value) ==> g == h
    ensures Good(bs[h := b1], video)
  {
    hide Valid, TagAt;
    var bs1 := bs[h := b1];
    forall g, k, i, m, tag | Holds(bs1, video, g, k, tag) && Holds(bs1, video, i, m, tag) ensures g == i && k == m {
      if g == h && i == h {
        assert TagAt(b1.doc, k, video) == Some(tag) && TagAt(b1.doc, m, video) == Some(tag);
      } else {
        assert g != h ==> Holds(bs, video, g, k, tag);
        assert i != h ==> Holds(bs, video, i, m, tag);
        assert g == h ==> TagAt(b1.doc, k, video) == Some(tag);
        assert i == h ==> TagAt(b1.doc, m, video) == Some(tag);
      }
    }
  }

  /** A board may be replaced by one that shows nothing new, nothing twice. */
  lemma ReplaceFrom(bs: Boards, h: string, b1: Board, video: string -> bool)
    requires Good(bs, video) && h in bs && Valid(b1.doc) && DocUnique(b1.doc, video)
             && TagsFrom(bs[h].doc, b1.doc, video)
    ensures Good(bs[h := b1], video)
  {
    hide Valid, TagAt, DocUnique;
    forall k, g, m | TagAt(b1.doc, k, video).Some? && Holds(bs, video, g, m, TagAt(b1.doc, k, video).value)
      ensures g == h
    {
      var n :| TagAt(bs[h].doc, n, video) == TagAt(b1.doc, k, video);
      assert Holds(bs, video, h, n, TagAt(b1.doc, k, video).value);
    }
    ReplaceOne(bs, h, b1, video);
  }

  lemma SameTags(d: Doc, e: Doc, video: string -> bool)
    requires forall k :: TagAt(e, k, video) == TagAt(d, k, video)
    ensures DocUnique(d, video) ==> DocUnique(e, video)
    ensures TagsFrom(d, e, video)
  {
    hide TagAt;
  }

  lemma OpensKeeps(bs: Boards, bs1: Boards, video: string -> bool, h: string, opener: string, t: Tile)
    requires Good(bs, video) && Opens(bs, bs1, video, h, opener, t)
    ensures Good(bs1, video)
  {
    hide Valid, Open, TagAt, TagOf, Sound, Marshalled;
    var d := Open(bs[h].doc, opener, t);
    OpenValid(bs[h].doc, opener, t);
    MarshalKeeps(d, bs1[h].doc, video);
    UniqueDoc(bs, h, video);
    forall k ensures TagAt(d, k, video) == if k == t.id then TagOf(t, video) else TagAt(bs[h].doc, k, video) {
      OpenTags(bs[h].doc, opener, t, k, video);
    }
    assert forall k :: TagAt(bs[h].doc, k, video).Some? ==> Holds(bs, video, h, k, TagAt(bs[h].doc, k, video).value);
    ReplaceOne(bs, h, bs1[h], video);
  }

  function IdsBut(ts: seq<Tile>): set<string> { set t | t in ts :: t.id }

  lemma {:induction false} OpenAllValid(d: Doc, ts: seq<Tile>)
    requires Valid(d) && Apart(ts) && forall t :: t in ts ==> Sound(t) && t.id !in d.tiles
    ensures Valid(OpenAll(d, ts)) && OpenAll(d, ts).tiles.Keys == d.tiles.Keys + IdsBut(ts)
  {
    hide *;
    OpenAllStep(d, ts);
    if ts != [] {
      var front, t := ts[..|ts| - 1], ts[|ts| - 1];
      FrontFits(d, ts);
      OpenAllValid(d, front);
      OpenValid(OpenAll(d, front), d.root, t);
      OpenHas(OpenAll(d, front), d.root, t);
    }
  }

  lemma OpenAllStep(d: Doc, ts: seq<Tile>)
    ensures ts == [] ==> OpenAll(d, ts) == d && IdsBut(ts) == {}
    ensures ts != [] ==> OpenAll(d, ts) == Open(OpenAll(d, ts[..|ts| - 1]), d.root, ts[|ts| - 1])
  {
  }

  lemma FrontFits(d: Doc, ts: seq<Tile>)
    requires ts != [] && Apart(ts) && forall t :: t in ts ==> Sound(t) && t.id !in d.tiles
    ensures var front, t := ts[..|ts| - 1], ts[|ts| - 1];
            && Apart(front) && (forall u :: u in front ==> Sound(u) && u.id !in d.tiles) && Sound(t) && t.id !in d.tiles
            && IdsBut(ts) == IdsBut(front) + {t.id} && t.id !in IdsBut(front)
  {
    hide Sound;
    var front, t := ts[..|ts| - 1], ts[|ts| - 1];
    NewId(ts);
    assert ts == front + [t];
  }

  lemma {:induction false} OpenAllOld(d: Doc, ts: seq<Tile>, k: string, video: string -> bool)
    requires forall i :: 0 <= i < |ts| ==> ts[i].id != k
    ensures TagAt(OpenAll(d, ts), k, video) == TagAt(d, k, video)
  {
    hide Open, TagAt;
    if ts != [] {
      OpenAllOld(d, ts[..|ts| - 1], k, video);
      OpenTags(OpenAll(d, ts[..|ts| - 1]), d.root, ts[|ts| - 1], k, video);
    }
  }

  lemma {:induction false} OpenAllNew(d: Doc, ts: seq<Tile>, i: nat, video: string -> bool)
    requires Apart(ts) && i < |ts|
    ensures TagAt(OpenAll(d, ts), ts[i].id, video) == TagOf(ts[i], video)
  {
    hide Open, TagAt;
    var n := |ts| - 1;
    OpenTags(OpenAll(d, ts[..n]), d.root, ts[n], ts[i].id, video);
    if i < n {
      OpenAllNew(d, ts[..n], i, video);
    }
  }

  lemma NewId(ts: seq<Tile>)
    requires ts != [] && Apart(ts)
    ensures ts[|ts| - 1].id !in IdsBut(ts[..|ts| - 1])
  {
  }

  lemma OpenHas(d: Doc, opener: string, t: Tile)
    ensures Open(d, opener, t).tiles.Keys == d.tiles.Keys + {t.id}
  {
  }

  lemma AdoptsKeeps(bs: Boards, bs1: Boards, video: string -> bool, h: string, ts: seq<Tile>)
    requires Good(bs, video) && Adopts(bs, bs1, video, h, ts)
    ensures Good(bs1, video)
  {
    hide Valid, OpenAll, Sound, Marshalled, TagAt;
    var d := OpenAll(bs[h].doc, ts);
    OpenAllValid(bs[h].doc, ts);
    MarshalKeeps(d, bs1[h].doc, video);
    forall k | TagAt(d, k, video).Some? ensures Adopted(bs, video, h, ts, d, k) {
      AdoptedAt(bs, video, h, ts, k);
    }
    AdoptedUnique(bs, video, h, ts, d);
    SameTags(d, bs1[h].doc, video);
    ReplaceOne(bs, h, bs1[h], video);
  }

  /** A tag of the board was there before, or is one of an adopted process. */
  ghost predicate Adopted(bs: Boards, video: string -> bool, h: string, ts: seq<Tile>, d: Doc, k: string)
    requires TagAt(d, k, video).Some?
  {
    || Holds(bs, video, h, k, TagAt(d, k, video).value)
    || exists i ::
         0 <= i < |ts| && ts[i].id == k && TagAt(d, k, video) == Some(Process(ts[i].uid))
         && Unshown(bs, video, ts[i].uid)
  }

  ghost predicate Unshown(bs: Boards, video: string -> bool, uid: string) {
    forall g, m {:trigger Holds(bs, video, g, m, Process(uid))} :: !Holds(bs, video, g, m, Process(uid))
  }

  lemma AdoptedAt(bs: Boards, video: string -> bool, h: string, ts: seq<Tile>, k: string)
    requires h in bs && Apart(ts)
    requires forall t :: t in ts ==> t.kind.Terminal?
    requires forall t, g, m {:trigger t in ts, Holds(bs, video, g, m, Process(t.uid))} ::
               t in ts ==> !Holds(bs, video, g, m, Process(t.uid))
    requires TagAt(OpenAll(bs[h].doc, ts), k, video).Some?
    ensures Adopted(bs, video, h, ts, OpenAll(bs[h].doc, ts), k)
  {
    hide OpenAll, TagAt;
    if i :| 0 <= i < |ts| && ts[i].id == k {
      OpenAllNew(bs[h].doc, ts, i, video);
      assert ts[i] in ts;
    } else {
      OpenAllOld(bs[h].doc, ts, k, video);
    }
  }

  lemma AdoptedUnique(bs: Boards, video: string -> bool, h: string, ts: seq<Tile>, d: Doc)
    requires h in bs && Unique(bs, video) && Apart(ts)
    requires forall k {:trigger TagAt(d, k, video)} :: TagAt(d, k, video).Some? ==> Adopted(bs, video, h, ts, d, k)
    ensures DocUnique(d, video)
  {
    hide TagAt, Holds;
    forall k, m | TagAt(d, k, video).Some? && TagAt(d, k, video) == TagAt(d, m, video) ensures k == m {
      assert Adopted(bs, video, h, ts, d, k) && Adopted(bs, video, h, ts, d, m);
    }
  }

  lemma ShiftsKeeps(bs: Boards, bs1: Boards, video: string -> bool, h: string, id: string, after: string)
    requires Good(bs, video) && Shifts(bs, bs1, h, id, after)
    ensures Good(bs1, video)
  {
    hide Valid, Marshalled;
    var d := Place(bs[h].doc.(order := Pick(bs[h].doc.order, {id}, false)), after, [id]);
    ShiftValid(bs[h].doc, id, after);
    MarshalKeeps(d, bs1[h].doc, video);
    UniqueDoc(bs, h, video);
    SameTags(bs[h].doc, bs1[h].doc, video);
    ReplaceFrom(bs, h, bs1[h], video);
  }

  lemma WritesKeeps(bs: Boards, bs1: Boards, video: string -> bool, p: Request)
    requires Good(bs, video) && Writes(bs, bs1, p) && PutChecked(p, video)
    requires p.h in bs && bs[p.h].version == p.version ==> bs[p.h].doc == p.stored
    ensures Good(bs1, video)
  {
    hide Valid, Marshalled, KeepMeta, TerminalsOk, VideosOk;
    if p.h in bs && bs[p.h].version == p.version {
      UniqueDoc(bs, p.h, video);
      PutIsSafe(p, video);
      var next := KeepMeta(p.sent, p.stored);
      MarshalKeeps(next, bs1[p.h].doc, video);
      SameTags(next, bs1[p.h].doc, video);
      ReplaceFrom(bs, p.h, bs1[p.h], video);
    }
  }

  // ---- two boards changed ----

  lemma MovesKeeps(bs: Boards, bs1: Boards, video: string -> bool, src: string, dst: string, id: string, after: string)
    requires Good(bs, video) && Moves(bs, bs1, src, dst, id, after)
    ensures Good(bs1, video)
  {
    hide Valid, Marshalled, Put, Left, InsideOf;
    var s, d := bs[src].doc, bs[dst].doc;
    LeftValid(s, id);
    PutValid(s, id, d, after);
    MarshalKeeps(Left(s, id), bs1[src].doc, video);
    MarshalKeeps(Put(d, after, Taken(s, id)), bs1[dst].doc, video);
    forall k ensures TagAt(bs1[src].doc, k, video) == if k in InsideOf(s, id) then None else TagAt(s, k, video)
             ensures TagAt(bs1[dst].doc, k, video) == if k in InsideOf(s, id) then TagAt(s, k, video) else TagAt(d, k,
                         video)
    {
      LeftTags(s, id, k, video);
      PutTags(s, id, d, after, k, video);
    }
    MovedUnique(bs, bs1, video, src, dst, InsideOf(s, id));
  }

  /** Tags that move with a set of tiles from one board to another stay unique. */
  lemma MovedUnique(bs: Boards, bs1: Boards, video: string -> bool, src: string, dst: string, moved: set<string>)
    requires Unique(bs, video) && src != dst && src in bs && src in bs1 && dst in bs1
             && bs1 == bs[src := bs1[src]][dst := bs1[dst]]
    requires forall k {:trigger TagAt(bs1[src].doc, k, video)} ::
               TagAt(bs1[src].doc, k, video) == if k in moved then None else TagAt(bs[src].doc, k, video)
    requires forall k {:trigger TagAt(bs1[dst].doc, k, video)} ::
               TagAt(bs1[dst].doc, k, video) ==
                 if k in moved then TagAt(bs[src].doc, k, video) else if dst in bs then TagAt(bs[dst].doc, k, video)
                 else None
    ensures Unique(bs1, video)
  {
    hide TagAt;
    forall h, k, g, m, tag | Holds(bs1, video, h, k, tag) && Holds(bs1, video, g, m, tag) ensures h == g && k == m {
      var h0 := if h == dst && k in moved then src else h;
      var g0 := if g == dst && m in moved then src else g;
      assert Holds(bs, video, h0, k, tag);
      assert Holds(bs, video, g0, m, tag);
    }
  }

  lemma SplitsKeeps(bs: Boards, bs1: Boards, video: string -> bool, h: string, id: string, newHash: string)
    requires Good(bs, video) && Splits(bs, bs1, h, id, newHash)
    ensures Good(bs1, video)
  {
    hide Valid, Marshalled, CutOff, Left, InsideOf;
    var d := bs[h].doc;
    SplitConserves(d, id);
    MarshalKeeps(Left(d, id), bs1[h].doc, video);
    MarshalKeeps(CutOff(d, id), bs1[newHash].doc, video);
    InsideSelf(d, id);
    forall k ensures TagAt(bs1[h].doc, k, video) == if k in InsideOf(d, id) then None else TagAt(d, k, video)
             ensures TagAt(bs1[newHash].doc, k, video) == if k in InsideOf(d, id) then TagAt(d, k, video) else None
    {
      LeftTags(d, id, k, video);
      CutTags(d, id, k, video);
    }
    MovedUnique(bs, bs1, video, h, newHash, InsideOf(d, id));
  }

  lemma DeletesKeeps(bs: Boards, bs1: Boards, video: string -> bool, h: string, def: string)
    requires Good(bs, video) && Deletes(bs, bs1, h, def)
    ensures Good(bs1, video)
  {
    hide Valid, Marshalled, Put, TagAt;
    var s, d := bs[h].doc, bs[def].doc;
    WholeBoard(s);
    PutValid(s, s.root, d, "");
    MarshalKeeps(Put(d, "", Taken(s, s.root)), bs1[def].doc, video);
    forall k ensures TagAt(bs1[def].doc, k, video) == if k in s.tiles then TagAt(s, k, video) else TagAt(d, k, video) {
      PutTags(s, s.root, d, "", k, video);
    }
    forall g, k, i, m, tag | Holds(bs1, video, g, k, tag) && Holds(bs1, video, i, m, tag) ensures g == i && k == m {
      var g0 := if g == def && k in s.tiles then h else g;
      var i0 := if i == def && m in s.tiles then h else i;
      assert Holds(bs, video, g0, k, tag);
      assert Holds(bs, video, i0, m, tag);
    }
  }

  lemma RehangsKeeps(bs: Boards, bs1: Boards, video: string -> bool, g: string, k: string, h: string, opener: string)
    requires Good(bs, video) && Rehangs(bs, bs1, g, k, h, opener)
    ensures Good(bs1, video)
  {
    SoundTile(bs[g].doc, k);
    hide Marshalled, Open, Remove, Sound, Valid;
    RemoveValid(bs[g].doc, k);
    if g == h {
      RehangsHere(bs, bs1, video, h, k, opener);
    } else {
      RehangsThere(bs, bs1, video, g, k, h, opener);
    }
  }

  lemma RehangsHere(bs: Boards, bs1: Boards, video: string -> bool, h: string, k: string, opener: string)
    requires Good(bs, video) && Rehangs(bs, bs1, h, k, h, opener)
    requires Valid(Remove(bs[h].doc, k)) && bs[h].doc.tiles[k].id == k && Sound(bs[h].doc.tiles[k].(minimized := false))
    ensures Good(bs1, video)
  {
    hide Marshalled, Open, Sound, Valid;
    var t := bs[h].doc.tiles[k].(minimized := false);
    var r := Remove(bs[h].doc, k);
    var d := Open(r, opener, t);
    assert k !in r.tiles;
    hide Remove;
    OpenValid(r, opener, t);
    MarshalKeeps(d, bs1[h].doc, video);
    forall m ensures TagAt(d, m, video) == TagAt(bs[h].doc, m, video) {
      OpenTags(r, opener, t, m, video);
      RemoveTags(bs[h].doc, k, m, video);
    }
    UniqueDoc(bs, h, video);
    SameTags(bs[h].doc, bs1[h].doc, video);
    ReplaceFrom(bs, h, bs1[h], video);
  }

  lemma RehangsThere(bs: Boards, bs1: Boards, video: string -> bool, g: string, k: string, h: string, opener: string)
    requires Good(bs, video) && g != h && Rehangs(bs, bs1, g, k, h, opener)
    requires Valid(Remove(bs[g].doc, k)) && bs[g].doc.tiles[k].id == k && Sound(bs[g].doc.tiles[k].(minimized := false))
    ensures Good(bs1, video)
  {
    hide Marshalled, Open, Remove, Sound, Valid;
    var t := bs[g].doc.tiles[k].(minimized := false);
    OpenValid(bs[h].doc, opener, t);
    MarshalKeeps(Remove(bs[g].doc, k), bs1[g].doc, video);
    MarshalKeeps(Open(bs[h].doc, opener, t), bs1[h].doc, video);
    assert TagOf(t, video) == TagAt(bs[g].doc, k, video);
    forall m ensures TagAt(bs1[g].doc, m, video) == if m in {k} then None else TagAt(bs[g].doc, m, video)
             ensures TagAt(bs1[h].doc, m, video) == if m in {k} then TagAt(bs[g].doc, m, video) else TagAt(bs[h].doc, m,
                         video)
    {
      RemoveTags(bs[g].doc, k, m, video);
      OpenTags(bs[h].doc, opener, t, m, video);
    }
    MovedUnique(bs, bs1, video, g, h, {k});
  }

  /** A terminal tile is not the root, and shown again it is sound as before. */
  lemma SoundTile(d: Doc, k: string)
    requires Valid(d) && k in d.tiles && d.tiles[k].kind.Terminal?
    ensures k != d.root && d.tiles[k].id == k && Sound(d.tiles[k].(minimized := false))
  {
    assert Sound(d.tiles[k]);
  }

  // ---- all boards changed ----

  lemma RepinValid(d: Doc, node: int, id: Option<string>)
    requires Valid(d)
    ensures Valid(Repinned(d, node, id))
  {
    hide Valid;
    SameButValid(d, Repinned(d, node, id));
  }

  lemma BindsKeeps(bs: Boards, bs1: Boards, video: string -> bool, h: string, id: string)
    requires Good(bs, video) && Binds(bs, bs1, h, id)
    ensures Good(bs1, video)
    ensures Holds(bs1, video, h, id, Pinned(bs[h].doc.tiles[id].node.value))
  {
    hide Valid, Marshalled, Repinned, TagAt;
    var node := bs[h].doc.tiles[id].node.value;
    forall g | g in bs
      ensures Valid(bs1[g].doc)
      ensures forall k {:trigger TagAt(bs1[g].doc, k, video)} ::
        if TagAt(bs1[g].doc, k, video) == Some(Pinned(node)) then g == h
        && k == id else TagAt(bs1[g].doc, k, video).Some? ==>
          TagAt(bs[g].doc, k, video) == TagAt(bs1[g].doc, k, video)
      ensures g == h ==> TagAt(bs1[g].doc, id, video) == Some(Pinned(node))
    {
      var at := if g == h then Some(id) else None;
      var d := Repinned(bs[g].doc, node, at);
      RepinValid(bs[g].doc, node, at);
      if d != bs[g].doc {
        MarshalKeeps(d, bs1[g].doc, video);
      }
      forall k ensures TagAt(bs1[g].doc, k, video) == TagAt(d, k, video) &&
                       if TagAt(d, k, video) == Some(Pinned(node)) then g == h && k == id
                       else TagAt(d, k, video).Some? ==> TagAt(bs[g].doc, k, video) == TagAt(d, k, video)
      {
        RepinTags(bs[g].doc, node, at, k, video);
      }
      RepinTags(bs[g].doc, node, at, id, video);
    }
    forall g, k, i, m, tag | Holds(bs1, video, g, k, tag) && Holds(bs1, video, i, m, tag) ensures g == i && k == m {
      if tag != Pinned(node) {
        assert Holds(bs, video, g, k, tag) && Holds(bs, video, i, m, tag);
      }
    }
  }

  lemma PurgedTags(b: Board, b1: Board, uids: set<string>, k: string, video: string -> bool)
    requires Purged(b, b1, uids)
    ensures TagAt(b1.doc, k, video) == if k in ProcTiles(b.doc, uids) then None else TagAt(b.doc, k, video)
    ensures Valid(b.doc) ==> Valid(b1.doc)
  {
    hide Valid, Marshalled, Pick;
    var ids := ProcTiles(b.doc, uids);
    if ids != {} {
      MarshalKeeps(Without(b.doc, ids), b1.doc, video);
      if Valid(b.doc) {
        ProcsAreLeaves(b.doc, uids);
        WithoutValid(b.doc, ids);
      }
    }
  }

  /** No tile of a purged process is left on any board, and no other tile is lost. */
  lemma PurgesKeeps(bs: Boards, bs1: Boards, video: string -> bool, uids: set<string>)
    requires Good(bs, video) && Purges(bs, bs1, uids)
    ensures Good(bs1, video)
    ensures forall h, k, tag {:trigger Holds(bs1, video, h, k, tag)} ::
              Holds(bs1, video, h, k, tag) <==> Holds(bs, video, h, k, tag) && (tag.Process? ==> tag.uid !in uids)
  {
    hide Valid, Purged, ProcTiles;
    forall h | h in bs1 ensures Valid(bs1[h].doc) {
      PurgedTags(bs[h], bs1[h], uids, "", video);
    }
    forall h, k, tag {:trigger Holds(bs1, video, h, k, tag)}
      ensures Holds(bs1, video, h, k, tag) <==> Holds(bs, video, h, k, tag) && (tag.Process? ==> tag.uid !in uids)
    {
      if h in bs {
        PurgedTags(bs[h], bs1[h], uids, k, video);
        PurgedProc(bs[h].doc, uids, k, video);
      }
    }
  }

  lemma PurgedProc(d: Doc, uids: set<string>, k: string, video: string -> bool)
    ensures k in ProcTiles(d, uids) <==>
              var tag := TagAt(d, k, video); tag.Some? && tag.value.Process? && tag.value.uid in uids
  {
  }

  lemma RootValid(root: string)
    requires root != ""
    ensures Valid(RootDoc(root))
  {
    assert Climbs(RootDoc(root), root, 0);
  }

  lemma CreatesKeeps(bs: Boards, bs1: Boards, video: string -> bool, h: string, root: string)
    requires Good(bs, video) && Creates(bs, bs1, h, root)
    ensures Good(bs1, video)
  {
    hide Valid, Marshalled;
    RootValid(root);
    MarshalKeeps(RootDoc(root), bs1[h].doc, video);
    forall g, k, i, m, tag | Holds(bs1, video, g, k, tag) && Holds(bs1, video, i, m, tag) ensures g == i && k == m {
      assert TagAt(RootDoc(root), k, video) == None && TagAt(RootDoc(root), m, video) == None;
      assert Holds(bs, video, g, k, tag) && Holds(bs, video, i, m, tag);
    }
  }

  // ---- runs ----

  datatype Step =
    | OpenStep(h: string, opener: string, t: Tile)
    | AdoptStep(h: string, ts: seq<Tile>)
    | ShiftStep(h: string, id: string, after: string)
    | MoveStep(src: string, dst: string, id: string, after: string)
    | SplitStep(h: string, id: string, newHash: string)
    | DeleteStep(h: string, def: string)
    | BindStep(h: string, id: string)
    | RehangStep(g: string, k: string, h: string, opener: string)
    | PurgeStep(uids: set<string>)
    | CreateStep(h: string, root: string)
    | ReadStep(p: Request)
    | WriteStep(p: Request)

  ghost predicate Stepped(bs: Boards, bs1: Boards, video: string -> bool, e: Step) {
    match e
    case OpenStep(h, opener, t) => Opens(bs, bs1, video, h, opener, t)
    case AdoptStep(h, ts) => Adopts(bs, bs1, video, h, ts)
    case ShiftStep(h, id, after) => Shifts(bs, bs1, h, id, after)
    case MoveStep(src, dst, id, after) => Moves(bs, bs1, src, dst, id, after)
    case SplitStep(h, id, newHash) => Splits(bs, bs1, h, id, newHash)
    case DeleteStep(h, def) => Deletes(bs, bs1, h, def)
    case BindStep(h, id) => Binds(bs, bs1, h, id)
    case RehangStep(g, k, h, opener) => Rehangs(bs, bs1, g, k, h, opener)
    case PurgeStep(uids) => Purges(bs, bs1, uids)
    case CreateStep(h, root) => Creates(bs, bs1, h, root)
    case ReadStep(p) => Reads(bs, p, video) && bs1 == bs
    case WriteStep(p) => Writes(bs, bs1, p)
  }

  /** The boards, the saves that have read and may still write, and every document that was ever
      stored, by hash and version. */
  datatype State = State(bs: Boards, pending: set<Request>, past: map<(string, int), Doc>)

  function Rows(bs: Boards): map<(string, int), Doc> {
    map r | r in (set h | h in bs :: (h, bs[h].version)) && r.0 in bs :: bs[r.0].doc
  }

  ghost predicate Next(s: State, s1: State, video: string -> bool, e: Step) {
    && Stepped(s.bs, s1.bs, video, e)
    && (e.WriteStep? ==> e.p in s.pending)
    && s1.pending == (if e.ReadStep? then s.pending + {e.p} else s.pending)
    && s1.past == s.past + Rows(s1.bs)
    && (forall h, v {:trigger (h, v) in s.past} :: h in s1.bs && h !in s.bs ==> (h, v) !in s.past)
  }

  ghost predicate PastOk(s: State) {
    && (forall h {:trigger s.bs[h]} ::
          h in s.bs ==> (h, s.bs[h].version) in s.past && s.past[(h, s.bs[h].version)] == s.bs[h].doc)
    && (forall h, v {:trigger (h, v) in s.past} :: (h, v) in s.past && h in s.bs ==> v <= s.bs[h].version)
  }

  ghost predicate PendingOk(s: State, video: string -> bool) {
    forall p ::
      p in s.pending ==> PutChecked(p, video) && (p.h, p.version) in s.past && s.past[(p.h, p.version)] == p.stored
  }

  ghost predicate Inv(s: State, video: string -> bool) { Good(s.bs, video) && PastOk(s) && PendingOk(s, video) }

  ghost predicate Init(s: State) { s.bs == map[] && s.pending == {} && s.past == map[] }

  ghost predicate Bumped(bs: Boards, bs1: Boards, h: string)
    requires h in bs && h in bs1
  {
    bs1[h] == bs[h] || bs1[h].version == bs[h].version + 1
  }

  lemma VersionsRise(bs: Boards, bs1: Boards, video: string -> bool, e: Step, h: string)
    requires Stepped(bs, bs1, video, e) && h in bs && h in bs1
    ensures Bumped(bs, bs1, h)
  {
    hide Marshalled, Open, OpenAll, Valid, Put, Left, CutOff, Remove, KeepMeta, InsideOf, Holds, Sound, Without,
         ProcTiles;
  }

  lemma PastKept(s: State, s1: State, video: string -> bool, e: Step)
    requires PastOk(s) && Next(s, s1, video, e)
    ensures PastOk(s1)
    ensures forall r :: r in s.past ==> r in s1.past && s1.past[r] == s.past[r]
  {
    hide Stepped;
    forall h | h in s.bs && h in s1.bs ensures Bumped(s.bs, s1.bs, h) {
      VersionsRise(s.bs, s1.bs, video, e, h);
    }
    forall r | r in s.past ensures s1.past[r] == s.past[r] {
      if r in Rows(s1.bs) {
        assert (r.0, r.1) in s.past;
        assert s.bs[r.0].version >= r.1;
      }
    }
    forall h | h in s1.bs ensures (h, s1.bs[h].version) in s1.past && s1.past[(h, s1.bs[h].version)] == s1.bs[h].doc {
      assert (h, s1.bs[h].version) in Rows(s1.bs);
    }
    forall h, v | (h, v) in s1.past && h in s1.bs ensures v <= s1.bs[h].version {
      if (h, v) !in Rows(s1.bs) {
        assert (h, v) in s.past;
      }
    }
  }

  lemma BoardsKept(bs: Boards, bs1: Boards, video: string -> bool, e: Step)
    requires Good(bs, video) && Stepped(bs, bs1, video, e)
    requires e.WriteStep? ==>
               PutChecked(e.p, video)
               && (e.p.h in bs && bs[e.p.h].version == e.p.version ==> bs[e.p.h].doc == e.p.stored)
    ensures Good(bs1, video)
  {
    hide Good, Opens, Adopts, Shifts, Moves, Splits, Deletes, Binds, Rehangs, Purges, Creates, Writes, PutChecked;
    match e
    case OpenStep(h, opener, t) => OpensKeeps(bs, bs1, video, h, opener, t);
    case AdoptStep(h, ts) => AdoptsKeeps(bs, bs1, video, h, ts);
    case ShiftStep(h, id, after) => ShiftsKeeps(bs, bs1, video, h, id, after);
    case MoveStep(src, dst, id, after) => MovesKeeps(bs, bs1, video, src, dst, id, after);
    case SplitStep(h, id, newHash) => SplitsKeeps(bs, bs1, video, h, id, newHash);
    case DeleteStep(h, def) => DeletesKeeps(bs, bs1, video, h, def);
    case BindStep(h, id) => BindsKeeps(bs, bs1, video, h, id);
    case RehangStep(g, k, h, opener) => RehangsKeeps(bs, bs1, video, g, k, h, opener);
    case PurgeStep(uids) => PurgesKeeps(bs, bs1, video, uids);
    case CreateStep(h, root) => CreatesKeeps(bs, bs1, video, h, root);
    case ReadStep(p) =>
    case WriteStep(p) => WritesKeeps(bs, bs1, video, p);
  }

  /** A save that finds its version finds the very document it was checked against. */
  lemma NoLostUpdate(s: State, video: string -> bool, p: Request)
    requires Inv(s, video) && p in s.pending && p.h in s.bs && s.bs[p.h].version == p.version
    ensures s.bs[p.h].doc == p.stored
  {
  }

  lemma StepKeepsInv(s: State, s1: State, video: string -> bool, e: Step)
    requires Inv(s, video) && Next(s, s1, video, e)
    ensures Inv(s1, video)
  {
    hide Good, Stepped, PutChecked;
    if e.WriteStep? {
      if e.p.h in s.bs && s.bs[e.p.h].version == e.p.version {
        NoLostUpdate(s, video, e.p);
      }
    }
    BoardsKept(s.bs, s1.bs, video, e);
    PastKept(s, s1, video, e);
    if e.ReadStep? {
      ReadChecked(s.bs, s1.bs, e.p, video);
    }
  }

  lemma ReadChecked(bs: Boards, bs1: Boards, p: Request, video: string -> bool)
    requires Stepped(bs, bs1, video, ReadStep(p))
    ensures bs1 == bs && PutChecked(p, video) && p.h in bs && bs[p.h].version == p.version && bs[p.h].doc == p.stored
  {
  }

  ghost predicate IsRun(states: seq<State>, steps: seq<Step>, video: string -> bool) {
    && |states| == |steps| + 1 && Init(states[0])
    && forall k {:trigger steps[k]} :: 0 <= k < |steps| ==> Next(states[k], states[k + 1], video, steps[k])
  }

  lemma {:induction false} InvOverRuns(states: seq<State>, steps: seq<Step>, video: string -> bool, n: nat)
    requires IsRun(states, steps, video) && n <= |steps|
    ensures Inv(states[n], video)
  {
    hide Inv, Next;
    if n == 0 {
      EmptyInv(states[0], video);
    } else {
      InvOverRuns(states, steps, video, n - 1);
      StepKeepsInv(states[n - 1], states[n], video, steps[n - 1]);
    }
  }

  lemma EmptyInv(s: State, video: string -> bool)
    requires Init(s)
    ensures Inv(s, video)
  {
  }

  /** In every run every stored board is valid, and two tiles anywhere in the account that show
      the same process, the same video file, or are pinned for the same node, are one tile. */
  lemma BoardsOverRuns(states: seq<State>, steps: seq<Step>, video: string -> bool, n: nat, h: string, k: string,
                       g: string, m: string)
    requires IsRun(states, steps, video) && n <= |steps|
    requires h in states[n].bs && k in states[n].bs[h].doc.tiles && g in states[n].bs && m in states[n].bs[g].doc.tiles
    ensures Valid(states[n].bs[h].doc)
    ensures var t, u := states[n].bs[h].doc.tiles[k], states[n].bs[g].doc.tiles[m];
            && (t.kind.Terminal? && u.kind.Terminal? && t.uid == u.uid ==> h == g && k == m)
            && (t.kind.Viewer? && u.kind.Viewer? && video(t.path) && t.instance == u.instance && t.path == u.path ==>
                  h == g && k == m)
            && (t.kind.Folder? && u.kind.Folder? && t.bound && u.bound && t.node.Some? && t.node == u.node ==>
                  h == g && k == m)
  {
    hide Valid, PastOk, PendingOk, Next;
    InvOverRuns(states, steps, video, n);
    var bs := states[n].bs;
    var tag := TagOf(bs[h].doc.tiles[k], video);
    if tag.Some? && TagOf(bs[g].doc.tiles[m], video) == tag {
      assert Holds(bs, video, h, k, tag.value) && Holds(bs, video, g, m, tag.value);
    }
  }
}
